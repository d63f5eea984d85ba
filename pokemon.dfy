/** The Pokemon actions: the catalogue search against PokeAPI
    (searchPokemon), the saved Pokemon (getSavedPokemon,
    getSavedPokemonById, savePokemon, deletePokemon) and their reviews
    (getPokemonReviews, createPokemonReview, updatePokemonReview,
    deletePokemonReview). */
module PokemonActions {
  import opened Common
  import opened Text
  import opened Zod
  import opened Ordering
  import opened DbSchema
  import opened Queries
  import opened Gallery
  import opened Reviews

  const PokemonNotFound := "Pokemon not found"
  const InvalidPokemonId := "Invalid Pokemon ID"

  /** The part of PokeAPI's answer the pages read. */
  datatype PokeApiPokemon = PokeApiPokemon(
    id: int, name: string, sprite: Option<string>, artwork: Option<string>,
    types: seq<string>, height: int, weight: int)

  /** What `fetch` gives back: no answer, or a status and a body that
      parses as a Pokemon or does not. */
  datatype FetchOutcome = NetworkError | Response(status: int, body: Option<PokeApiPokemon>)

  /** `{ success, data, error? }` of searchPokemon. */
  datatype SearchResult = SearchResult(success: bool, data: Option<PokeApiPokemon>, error: Option<string>)

  const PokeApiPokemonUrl := "https://pokeapi.co/api/v2/pokemon/"

  /** The request URL: the name lower-cased, then trimmed. */
  function SearchUrl(name: string): string {
    PokeApiPokemonUrl + Trim(ToLower(name))
  }

  /** How searchPokemon reads an answer: a 2xx status with a body that
      parses is a hit, a 404 is "not found", and any other failure is a
      failed search. */
  function ReadResponse(response: FetchOutcome): (r: SearchResult)
    ensures r.success <==> response.Response? && 200 <= response.status <= 299 && response.body.Some?
    ensures r.success ==> r.data == response.body && r.error.None?
    ensures !r.success ==> r.data.None? && r.error.Some?
    ensures response.Response? && response.status == 404 ==> r.error == Some(PokemonNotFound)
    ensures !r.success && !(response.Response? && response.status == 404) ==> r.error == Some("Failed to search Pokemon")
  {
    if response.NetworkError? then SearchResult(false, None, Some("Failed to search Pokemon"))
    else if !(200 <= response.status <= 299) then
      if response.status == 404 then SearchResult(false, None, Some(PokemonNotFound))
      else SearchResult(false, None, Some("Failed to search Pokemon"))
    else if response.body.None? then SearchResult(false, None, Some("Failed to search Pokemon"))
    else SearchResult(true, response.body, None)
  }

  /** searchPokemon, with the network as the `fetch` parameter: a blank
      name is refused before any request; otherwise the one request goes
      to the normalised URL. */
  function SearchPokemon(name: string, fetch: string -> FetchOutcome): (r: SearchResult)
    ensures IsBlank(name) ==> r == SearchResult(false, None, Some("Please enter a Pokemon name"))
    ensures !IsBlank(name) ==> r == ReadResponse(fetch(SearchUrl(name)))
  {
    if IsBlank(name) then SearchResult(false, None, Some("Please enter a Pokemon name"))
    else ReadResponse(fetch(SearchUrl(name)))
  }

  /** Names that differ only in letter case ask for the same URL, and a
      name that passes the blank check never asks for the bare list URL. */
  lemma SearchUrlNormalises(name: string)
    ensures SearchUrl(ToLower(name)) == SearchUrl(name)
    ensures !IsBlank(name) ==> SearchUrl(name) != PokeApiPokemonUrl
  {
    ToLowerIdempotent(name);
    if !IsBlank(name) {
      var i :| 0 <= i < |name| && !IsWhitespace(name[i]);
      assert !IsWhitespace(ToLower(name)[i]);
      assert !IsBlank(ToLower(name));
    }
  }

  /** The saved-Pokemon name column. */
  function PokemonName(f: PokemonFields): string {
    f.name
  }

  /** getSavedPokemon */
  method GetSavedPokemon(db: Database, caller: Option<Id>, options: ListOptions) returns (r: ListResult<SavedPokemon>)
    requires db.Valid()
    ensures caller.None? ==> r == ListFailure(NotAuthenticated)
    ensures caller.Some? ==> r.Listed?
    ensures r.Listed? ==> Selects(r.rows, db.pokemon, SearchFilter(caller.value, options.search, PokemonName))
    ensures r.Listed? ==> SortedBy(r.rows, SortColumn(options.sortBy, PokemonName), Ascending(options.sortOrder))
  {
    if caller.None? {
      return ListFailure(NotAuthenticated);
    }
    var rows := ListSearchable(db.pokemon, caller.value, options, PokemonName);
    return Listed(rows);
  }

  /** getSavedPokemonById */
  method GetSavedPokemonById(db: Database, caller: Option<Id>, id: string) returns (r: FindResult<SavedPokemon>)
    requires db.Valid()
    ensures caller.None? ==> r == FindFailure(NotAuthenticated)
    ensures caller.Some? && !IsUuidText(id) ==> r == FindFailure("Failed to fetch Pokemon")
    ensures caller.Some? && IsUuidText(id) && !Owns(db.pokemon, id, caller.value) ==> r == FindFailure(PokemonNotFound)
    ensures r.Found? <==> caller.Some? && IsUuidText(id) && Owns(db.pokemon, id, caller.value)
    ensures r.Found? ==> r.row == db.pokemon[id] && r.row.userId == caller.value
  {
    if caller.None? {
      return FindFailure(NotAuthenticated);
    }
    if !IsUuidText(id) {
      return FindFailure("Failed to fetch Pokemon");
    }
    var saved := FindOwned(db.pokemon, id, caller.value);
    if saved.None? {
      return FindFailure(PokemonNotFound);
    }
    return Found(saved.value);
  }

  /** `savePokemonSchema.safeParse(data)`, in key order. */
  function SavePokemonIssues(data: PokemonFields): (issues: seq<Issue>)
    ensures issues == [] <==> data.pokemonId != "" && data.name != "" && IsUrl(data.imageUrl)
    ensures data.pokemonId == "" ==> issues[0] == Issue("pokemonId", "Pokemon ID is required")
    ensures data.pokemonId != "" && data.name == "" ==> issues[0] == Issue("name", "Name is required")
    ensures data.pokemonId != "" && data.name != "" && !IsUrl(data.imageUrl) ==>
      issues == [Issue("imageUrl", "Invalid image URL")]
  {
    MinLengthIssues("pokemonId", data.pokemonId, 1, "Pokemon ID is required")
      + MinLengthIssues("name", data.name, 1, "Name is required")
      + (if IsUrl(data.imageUrl) then [] else [Issue("imageUrl", "Invalid image URL")])
  }

  /** `and(eq(pokemon.pokemonId, pokemonId), eq(pokemon.userId, uid))` */
  function SameEntry(uid: Id, pokemonId: string): SavedPokemon -> bool {
    (x: SavedPokemon) => x.userId == uid && x.fields.pokemonId == pokemonId
  }

  /** A saved entry of this catalogue id for this user. */
  ghost predicate HasEntry(t: Table<PokemonFields>, uid: Id, pokemonId: string) {
    exists k :: k in t && t[k].userId == uid && t[k].fields.pokemonId == pokemonId
  }

  /** What savePokemon gives back: the id to navigate to, or the error. */
  datatype SaveResult = Saved(id: Id) | SaveFailure(error: string)

  /** savePokemon: saving a catalogue entry the caller already saved
      returns the existing row's id and writes nothing. */
  method SavePokemon(db: Database, caller: Option<Id>, data: PokemonFields, newId: Id, now: Timestamp)
    returns (r: SaveResult)
    requires db.Valid()
    modifies db`pokemon
    ensures db.Valid()
    ensures caller.None? ==> r == SaveFailure(NotAuthenticated)
    ensures caller.Some? && SavePokemonIssues(data) != [] ==> r == SaveFailure(FirstIssueMessage(SavePokemonIssues(data)))
    ensures caller.Some? && SavePokemonIssues(data) == [] && HasEntry(old(db.pokemon), caller.value, data.pokemonId) ==>
      && r.Saved? && db.pokemon == old(db.pokemon)
      && Owns(db.pokemon, r.id, caller.value) && db.pokemon[r.id].fields.pokemonId == data.pokemonId
      && (forall k :: k in db.pokemon && SameEntry(caller.value, data.pokemonId)(db.pokemon[k]) ==> k == r.id)
    ensures (caller.Some? && SavePokemonIssues(data) == [] && !HasEntry(old(db.pokemon), caller.value, data.pokemonId)
             && (caller.value !in db.users || newId in old(db.pokemon))) ==>
      r == SaveFailure("Failed to save Pokemon")
    ensures (caller.Some? && SavePokemonIssues(data) == [] && !HasEntry(old(db.pokemon), caller.value, data.pokemonId)
             && caller.value in db.users && newId !in old(db.pokemon)) ==>
      r == Saved(newId) && db.pokemon == old(db.pokemon)[newId := Row(newId, caller.value, data, now, now)]
    ensures r.SaveFailure? ==> db.pokemon == old(db.pokemon)
    ensures caller.Some? ==> OnlyOwnRowsChanged(old(db.pokemon), db.pokemon, caller.value)
  {
    if caller.None? {
      return SaveFailure(NotAuthenticated);
    }
    var issues := SavePokemonIssues(data);
    if issues != [] {
      return SaveFailure(FirstIssueMessage(issues));
    }
    var uid := caller.value;
    var existing := SelectWhere(db.pokemon, SameEntry(uid, data.pokemonId));
    if |existing| > 0 {
      FirstEntryIsTheEntry(existing, db.pokemon, uid, data.pokemonId);
      assert existing[0].id in db.pokemon && SameEntry(uid, data.pokemonId)(existing[0]);
      return Saved(existing[0].id);
    }
    NoEntrySelected(existing, db.pokemon, uid, data.pokemonId);
    if uid !in db.users || newId in db.pokemon {
      return SaveFailure("Failed to save Pokemon");
    }
    var row := Row(newId, uid, data, now, now);
    InsertKeepsValid(db.pokemon, db.users, row);
    db.pokemon := db.pokemon[newId := row];
    return Saved(newId);
  }

  /** An empty selection means there is no entry. */
  lemma NoEntrySelected(rows: seq<SavedPokemon>, t: Table<PokemonFields>, uid: Id, pokemonId: string)
    requires Selects(rows, t, SameEntry(uid, pokemonId))
    ensures HasEntry(t, uid, pokemonId) ==> rows != []
  {
    if HasEntry(t, uid, pokemonId) {
      var k :| k in t && t[k].userId == uid && t[k].fields.pokemonId == pokemonId;
      assert SameEntry(uid, pokemonId)(t[k]);
      assert t[k] in rows;
    }
  }

  /** With the once-per-user invariant the lookup's first row is the only
      entry of that catalogue id, so the id savePokemon returns for a
      repeat is determined. */
  lemma FirstEntryIsTheEntry(rows: seq<SavedPokemon>, t: Table<PokemonFields>, uid: Id, pokemonId: string)
    requires SavedOnce(t) && KeyedById(t) && Selects(rows, t, SameEntry(uid, pokemonId))
    ensures rows != [] ==> forall k :: k in t && SameEntry(uid, pokemonId)(t[k]) ==> k == rows[0].id
  {
    if rows != [] {
      assert rows[0].id in t && t[rows[0].id] == rows[0] && SameEntry(uid, pokemonId)(rows[0]);
    }
  }

  /** deletePokemon: the caller's entry and, by cascade, its reviews. */
  method DeletePokemon(db: Database, caller: Option<Id>, id: string) returns (r: ActionResult)
    requires db.Valid()
    modifies db`pokemon, db`pokemonReviews
    ensures db.Valid()
    ensures caller.None? ==> r == Failure(NotAuthenticated)
    ensures caller.Some? && !IsUuidText(id) ==> r == Failure("Failed to delete Pokemon")
    ensures caller.Some? && IsUuidText(id) && !Owns(old(db.pokemon), id, caller.value) ==> r == Failure(PokemonNotFound)
    ensures r.Success? <==> caller.Some? && IsUuidText(id) && Owns(old(db.pokemon), id, caller.value)
    ensures r.Success? ==> db.pokemon == old(db.pokemon) - {id}
    ensures r.Success? ==>
      forall k :: k in db.pokemonReviews <==> k in old(db.pokemonReviews) && old(db.pokemonReviews)[k].fields.parentId != id
    ensures r.Success? ==> forall k :: k in db.pokemonReviews ==> db.pokemonReviews[k] == old(db.pokemonReviews)[k]
    ensures r.Failure? ==> db.pokemon == old(db.pokemon) && db.pokemonReviews == old(db.pokemonReviews)
    ensures caller.Some? ==> OnlyOwnRowsChanged(old(db.pokemon), db.pokemon, caller.value)
    ensures caller.Some? ==> OnlyOwnRowsChanged(old(db.pokemonReviews), db.pokemonReviews, caller.value)
  {
    if caller.None? {
      return Failure(NotAuthenticated);
    }
    if !IsUuidText(id) {
      return Failure("Failed to delete Pokemon");
    }
    if !Owns(db.pokemon, id, caller.value) {
      return Failure(PokemonNotFound);
    }
    ParentRemovalKeepsReviews(db.pokemonReviews, db.pokemon, db.users, id);
    db.pokemonReviews := WithParentIn(db.pokemonReviews, db.pokemon - {id});
    db.pokemon := db.pokemon - {id};
    return Success;
  }

  /** getPokemonReviews: every review of an entry the caller owns, newest
      first. */
  method GetPokemonReviews(db: Database, caller: Option<Id>, pokemonId: string) returns (r: ListResult<Review>)
    requires db.Valid()
    ensures caller.None? ==> r == ListFailure(NotAuthenticated)
    ensures caller.Some? && !IsUuidText(pokemonId) ==> r == ListFailure("Failed to fetch reviews")
    ensures caller.Some? && IsUuidText(pokemonId) && !Owns(db.pokemon, pokemonId, caller.value) ==>
      r == ListFailure(PokemonNotFound)
    ensures r.Listed? <==> caller.Some? && IsUuidText(pokemonId) && Owns(db.pokemon, pokemonId, caller.value)
    ensures r.Listed? ==> Selects(r.rows, db.pokemonReviews, ParentIs(pokemonId))
    ensures r.Listed? ==> SortedBy(r.rows, CreatedKey, false)
    ensures r.Listed? ==> forall i :: 0 <= i < |r.rows| ==> r.rows[i].userId == caller.value
  {
    if caller.None? {
      return ListFailure(NotAuthenticated);
    }
    if !IsUuidText(pokemonId) {
      return ListFailure("Failed to fetch reviews");
    }
    if !Owns(db.pokemon, pokemonId, caller.value) {
      return ListFailure(PokemonNotFound);
    }
    var rows := ListWhere(db.pokemonReviews, ParentIs(pokemonId), CreatedKey, false);
    ListedReviewsAreOwn(rows, db.pokemonReviews, db.pokemon, pokemonId, caller.value);
    return Listed(rows);
  }

  /** createPokemonReview: a review of an entry the caller owns. */
  method CreatePokemonReview(db: Database, caller: Option<Id>, pokemonId: string, input: ReviewInput,
                             newId: Id, now: Timestamp)
    returns (r: ActionResult)
    requires db.Valid()
    modifies db`pokemonReviews
    ensures db.Valid()
    ensures caller.None? ==> r == Failure(NotAuthenticated)
    ensures caller.Some? && CreateReviewIssues("pokemonId", InvalidPokemonId, pokemonId, input) != [] ==>
      r == Failure(FirstIssueMessage(CreateReviewIssues("pokemonId", InvalidPokemonId, pokemonId, input)))
    ensures (caller.Some? && CreateReviewIssues("pokemonId", InvalidPokemonId, pokemonId, input) == []
             && !Owns(db.pokemon, pokemonId, caller.value)) ==> r == Failure(PokemonNotFound)
    ensures (caller.Some? && CreateReviewIssues("pokemonId", InvalidPokemonId, pokemonId, input) == []
             && Owns(db.pokemon, pokemonId, caller.value)
             && (caller.value !in db.users || newId in old(db.pokemonReviews))) ==>
      r == Failure("Failed to create review")
    ensures r.Success? <==>
      && caller.Some? && CreateReviewIssues("pokemonId", InvalidPokemonId, pokemonId, input) == []
      && Owns(db.pokemon, pokemonId, caller.value) && caller.value in db.users && newId !in old(db.pokemonReviews)
    ensures r.Success? ==> db.pokemonReviews == old(db.pokemonReviews)[newId :=
      Row(newId, caller.value, ReviewFields(pokemonId, input.content, input.rating), now, now)]
    ensures r.Failure? ==> db.pokemonReviews == old(db.pokemonReviews)
    ensures caller.Some? ==> OnlyOwnRowsChanged(old(db.pokemonReviews), db.pokemonReviews, caller.value)
  {
    if caller.None? {
      return Failure(NotAuthenticated);
    }
    var issues := CreateReviewIssues("pokemonId", InvalidPokemonId, pokemonId, input);
    if issues != [] {
      return Failure(FirstIssueMessage(issues));
    }
    if !Owns(db.pokemon, pokemonId, caller.value) {
      return Failure(PokemonNotFound);
    }
    if caller.value !in db.users || newId in db.pokemonReviews {
      return Failure("Failed to create review");
    }
    var row := Row(newId, caller.value, ReviewFields(pokemonId, input.content, input.rating), now, now);
    InsertKeepsValid(db.pokemonReviews, db.users, row);
    ReviewWriteKeepsParents(db.pokemonReviews, db.pokemon, row);
    db.pokemonReviews := db.pokemonReviews[newId := row];
    return Success;
  }

  /** updatePokemonReview: rewrites the caller's own review. */
  method UpdatePokemonReview(db: Database, caller: Option<Id>, id: string, input: ReviewInput, now: Timestamp)
    returns (r: ActionResult)
    requires db.Valid()
    modifies db`pokemonReviews
    ensures db.Valid()
    ensures caller.None? ==> r == Failure(NotAuthenticated)
    ensures caller.Some? && UpdateReviewIssues(id, input) != [] ==>
      r == Failure(FirstIssueMessage(UpdateReviewIssues(id, input)))
    ensures caller.Some? && UpdateReviewIssues(id, input) == [] && !Owns(old(db.pokemonReviews), id, caller.value) ==>
      r == Failure(ReviewNotFound)
    ensures r.Success? <==>
      caller.Some? && UpdateReviewIssues(id, input) == [] && Owns(old(db.pokemonReviews), id, caller.value)
    ensures r.Success? ==>
      db.pokemonReviews == old(db.pokemonReviews)[id := Revised(old(db.pokemonReviews)[id], input, now)]
    ensures r.Failure? ==> db.pokemonReviews == old(db.pokemonReviews)
    ensures caller.Some? ==> OnlyOwnRowsChanged(old(db.pokemonReviews), db.pokemonReviews, caller.value)
  {
    if caller.None? {
      return Failure(NotAuthenticated);
    }
    var issues := UpdateReviewIssues(id, input);
    if issues != [] {
      return Failure(FirstIssueMessage(issues));
    }
    var existing := FindOwned(db.pokemonReviews, id, caller.value);
    if existing.None? {
      return Failure(ReviewNotFound);
    }
    var row := Revised(existing.value, input, now);
    ReplaceKeepsValid(db.pokemonReviews, db.users, row);
    ReviewWriteKeepsParents(db.pokemonReviews, db.pokemon, row);
    db.pokemonReviews := db.pokemonReviews[id := row];
    return Success;
  }

  /** deletePokemonReview: deletes the caller's own review. */
  method DeletePokemonReview(db: Database, caller: Option<Id>, id: string) returns (r: ActionResult)
    requires db.Valid()
    modifies db`pokemonReviews
    ensures db.Valid()
    ensures caller.None? ==> r == Failure(NotAuthenticated)
    ensures caller.Some? && !IsUuidText(id) ==> r == Failure("Failed to delete review")
    ensures caller.Some? && IsUuidText(id) && !Owns(old(db.pokemonReviews), id, caller.value) ==>
      r == Failure(ReviewNotFound)
    ensures r.Success? <==> caller.Some? && IsUuidText(id) && Owns(old(db.pokemonReviews), id, caller.value)
    ensures r.Success? ==> db.pokemonReviews == old(db.pokemonReviews) - {id}
    ensures r.Failure? ==> db.pokemonReviews == old(db.pokemonReviews)
    ensures caller.Some? ==> OnlyOwnRowsChanged(old(db.pokemonReviews), db.pokemonReviews, caller.value)
  {
    if caller.None? {
      return Failure(NotAuthenticated);
    }
    if !IsUuidText(id) {
      return Failure("Failed to delete review");
    }
    if !Owns(db.pokemonReviews, id, caller.value) {
      return Failure(ReviewNotFound);
    }
    ReviewRemovalKeepsParents(db.pokemonReviews, db.pokemon, id);
    db.pokemonReviews := db.pokemonReviews - {id};
    return Success;
  }
}
