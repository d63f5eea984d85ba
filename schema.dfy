/** The tables of the relational store (users, todos, notes, photos,
    foodPhotos, foodReviews, pokemon, pokemonReviews) as maps from primary
    key to row, held by one `Database` object that the actions update in
    place, with the constraints the store enforces: not-null columns (the
    field types), primary keys, users.email unique, and foreign keys that
    cascade on delete. */
module DbSchema {
  import opened Common
  import opened Text

  /** PRIORITY_LEVELS = ["LOW", "MEDIUM", "HIGH"]. */
  datatype Priority = Low | Medium | High

  function PriorityName(p: Priority): string {
    match p
    case Low => "LOW"
    case Medium => "MEDIUM"
    case High => "HIGH"
  }

  /** `PRIORITY_LEVELS.includes(s)`, giving the level it names. */
  function ParsePriority(s: string): (p: Option<Priority>)
    ensures p.Some? <==> s in {"LOW", "MEDIUM", "HIGH"}
    ensures p.Some? ==> PriorityName(p.value) == s
  {
    if s == "LOW" then Some(Low)
    else if s == "MEDIUM" then Some(Medium)
    else if s == "HIGH" then Some(High)
    else None
  }

  /** Every level's name parses back to that level. */
  lemma PriorityRoundTrip(p: Priority)
    ensures ParsePriority(PriorityName(p)) == Some(p)
  {
  }

  /** The text the store accepts for a `uuid` column: 16 bytes as pairs of
      hex digits, an optional '-' after each even-numbered pair but the
      last, the whole optionally in braces. Any other text makes the query
      fail before it reads or writes a row. */
  predicate IsUuidText(s: string) {
    if |s| >= 2 && s[0] == '{' && s[|s| - 1] == '}' then UuidBytes(s[1..|s| - 1], 0)
    else UuidBytes(s, 0)
  }

  /** The rest of the text after `n` bytes have been read. */
  predicate UuidBytes(s: string, n: nat)
    requires n <= 16
    decreases 16 - n
  {
    if n == 16 then s == []
    else
      && |s| >= 2 && IsHexDigit(s[0]) && IsHexDigit(s[1])
      && var rest := s[2..];
         if rest != [] && rest[0] == '-' && n % 2 == 1 && n < 15 then UuidBytes(rest[1..], n + 1)
         else UuidBytes(rest, n + 1)
  }

  /** users: email is not null and unique; name is nullable. */
  datatype User = User(id: Id, email: string, name: Option<string>, createdAt: Timestamp, updatedAt: Timestamp)

  /** A row of an owned table: primary key, the not-null `userId` foreign
      key, the table's own columns, and the two not-null timestamps. */
  datatype Row<D> = Row(id: Id, userId: Id, fields: D, createdAt: Timestamp, updatedAt: Timestamp)

  /** todos: title not null, completed defaults to false, priority. */
  datatype TodoFields = TodoFields(title: string, completed: bool, priority: Priority)

  /** notes: title and (possibly empty) markdown content. */
  datatype NoteFields = NoteFields(title: string, content: string)

  /** photos and foodPhotos: name, url and storagePath required; size (bytes
      as a decimal string) and mimeType nullable. */
  datatype ImageFields = ImageFields(name: string, url: string, storagePath: string,
                                     size: Option<string>, mimeType: Option<string>)

  /** pokemon: the catalogue's id, the name and an image URL. */
  datatype PokemonFields = PokemonFields(pokemonId: string, name: string, imageUrl: string)

  /** foodReviews and pokemonReviews: the parent row (foodPhotoId or
      pokemonId), the text and a one-digit rating. */
  datatype ReviewFields = ReviewFields(parentId: Id, content: string, rating: string)

  type Todo = Row<TodoFields>
  type Note = Row<NoteFields>
  type Image = Row<ImageFields>
  type SavedPokemon = Row<PokemonFields>
  type Review = Row<ReviewFields>

  type Table<D> = map<Id, Row<D>>

  /** The ownership filter `and(eq(t.id, id), eq(t.userId, user.id))`
      matches a row. */
  predicate Owns<D>(t: Table<D>, id: Id, uid: Id) {
    id in t && t[id].userId == uid
  }

  /** Each row is stored under its own primary key. */
  ghost predicate KeyedById<D>(t: Table<D>) {
    forall k :: k in t ==> t[k].id == k
  }

  ghost predicate UsersValid(users: map<Id, User>) {
    && (forall k :: k in users ==> users[k].id == k)
    && (forall a, b :: a in users && b in users && users[a].email == users[b].email ==> a == b)
  }

  /** Primary keys, and the userId foreign key into users. */
  ghost predicate TableValid<D>(t: Table<D>, users: map<Id, User>) {
    KeyedById(t) && forall k :: k in t ==> t[k].userId in users
  }

  /** The parent foreign key of a review table. */
  ghost predicate ParentsExist<D>(reviews: Table<ReviewFields>, parents: Table<D>) {
    forall k :: k in reviews ==> reviews[k].fields.parentId in parents
  }

  /** A review is written by the owner of its parent: reviews are only
      created on the caller's own rows. */
  ghost predicate ReviewedByOwner<D>(reviews: Table<ReviewFields>, parents: Table<D>) {
    forall k :: k in reviews && reviews[k].fields.parentId in parents ==>
      reviews[k].userId == parents[reviews[k].fields.parentId].userId
  }

  /** savePokemon never stores the same catalogue id twice for one user. */
  ghost predicate SavedOnce(pokemon: Table<PokemonFields>) {
    forall a, b ::
      (a in pokemon && b in pokemon
       && pokemon[a].userId == pokemon[b].userId
       && pokemon[a].fields.pokemonId == pokemon[b].fields.pokemonId) ==> a == b
  }

  /** `delete ... where userId = uid` as the cascade performs it. */
  function WithoutOwner<D>(t: Table<D>, uid: Id): (r: Table<D>)
    ensures forall k :: k in r <==> k in t && t[k].userId != uid
    ensures forall k :: k in r ==> r[k] == t[k]
  {
    map k | k in t && t[k].userId != uid :: t[k]
  }

  /** The reviews that survive once their parent rows are gone. */
  function WithParentIn<D>(reviews: Table<ReviewFields>, parents: Table<D>): (r: Table<ReviewFields>)
    ensures forall k :: k in r <==> k in reviews && reviews[k].fields.parentId in parents
    ensures forall k :: k in r ==> r[k] == reviews[k]
  {
    map k | k in reviews && reviews[k].fields.parentId in parents :: reviews[k]
  }

  class Database {
    var users: map<Id, User>
    var todos: Table<TodoFields>
    var notes: Table<NoteFields>
    var photos: Table<ImageFields>
    var foodPhotos: Table<ImageFields>
    var foodReviews: Table<ReviewFields>
    var pokemon: Table<PokemonFields>
    var pokemonReviews: Table<ReviewFields>

    /** The constraints the store maintains. */
    ghost predicate Valid()
      reads this
    {
      && UsersValid(users)
      && TableValid(todos, users)
      && TableValid(notes, users)
      && TableValid(photos, users)
      && TableValid(foodPhotos, users)
      && TableValid(foodReviews, users)
      && TableValid(pokemon, users)
      && TableValid(pokemonReviews, users)
      && ParentsExist(foodReviews, foodPhotos)
      && ParentsExist(pokemonReviews, pokemon)
      && ReviewedByOwner(foodReviews, foodPhotos)
      && ReviewedByOwner(pokemonReviews, pokemon)
      && SavedOnce(pokemon)
    }

    constructor ()
      ensures Valid()
      ensures users == map[] && todos == map[] && notes == map[] && photos == map[]
      ensures foodPhotos == map[] && foodReviews == map[] && pokemon == map[] && pokemonReviews == map[]
    {
      users, todos, notes, photos := map[], map[], map[], map[];
      foodPhotos, foodReviews, pokemon, pokemonReviews := map[], map[], map[], map[];
    }

    /** `db.delete(users).where(eq(users.id, uid))`: every row that
        references the user goes with it, and so do the reviews whose
        parent went. */
    method DeleteUser(uid: Id)
      requires Valid()
      modifies this
      ensures Valid()
      ensures users == old(users) - {uid}
      ensures todos == WithoutOwner(old(todos), uid)
      ensures notes == WithoutOwner(old(notes), uid)
      ensures photos == WithoutOwner(old(photos), uid)
      ensures foodPhotos == WithoutOwner(old(foodPhotos), uid)
      ensures foodReviews == WithParentIn(WithoutOwner(old(foodReviews), uid), foodPhotos)
      ensures pokemon == WithoutOwner(old(pokemon), uid)
      ensures pokemonReviews == WithParentIn(WithoutOwner(old(pokemonReviews), uid), pokemon)
    {
      var remaining := users - {uid};
      OwnerGone(todos, users, uid);
      OwnerGone(notes, users, uid);
      OwnerGone(photos, users, uid);
      OwnerGone(foodPhotos, users, uid);
      OwnerGone(foodReviews, users, uid);
      OwnerGone(pokemon, users, uid);
      OwnerGone(pokemonReviews, users, uid);
      OrphansGone(WithoutOwner(foodReviews, uid), WithoutOwner(foodPhotos, uid), remaining);
      OrphansGone(WithoutOwner(pokemonReviews, uid), WithoutOwner(pokemon, uid), remaining);
      users := remaining;
      todos := WithoutOwner(todos, uid);
      notes := WithoutOwner(notes, uid);
      photos := WithoutOwner(photos, uid);
      foodPhotos := WithoutOwner(foodPhotos, uid);
      foodReviews := WithParentIn(WithoutOwner(foodReviews, uid), foodPhotos);
      pokemon := WithoutOwner(pokemon, uid);
      pokemonReviews := WithParentIn(WithoutOwner(pokemonReviews, uid), pokemon);
    }
  }

  /** Removing a user's rows keeps a table valid against the remaining users. */
  lemma OwnerGone<D>(t: Table<D>, users: map<Id, User>, uid: Id)
    requires TableValid(t, users)
    ensures TableValid(WithoutOwner(t, uid), users - {uid})
  {
  }

  /** Dropping orphaned reviews keeps the review table valid. */
  lemma OrphansGone<D>(reviews: Table<ReviewFields>, parents: Table<D>, users: map<Id, User>)
    requires TableValid(reviews, users)
    ensures TableValid(WithParentIn(reviews, parents), users)
    ensures ParentsExist(WithParentIn(reviews, parents), parents)
  {
  }

  /** Inserting a row of an existing user under its own id keeps a table valid. */
  lemma InsertKeepsValid<D>(t: Table<D>, users: map<Id, User>, row: Row<D>)
    requires TableValid(t, users) && row.userId in users
    ensures TableValid(t[row.id := row], users)
  {
  }

  /** Rewriting a row in place, same id and owner, keeps a table valid. */
  lemma ReplaceKeepsValid<D>(t: Table<D>, users: map<Id, User>, row: Row<D>)
    requires TableValid(t, users) && row.id in t && t[row.id].userId == row.userId
    ensures TableValid(t[row.id := row], users)
  {
  }

  /** After the cascade no table holds a row of the deleted user. */
  lemma CascadeLeavesNoRows<D>(t: Table<D>, uid: Id)
    ensures forall k :: k in WithoutOwner(t, uid) ==> WithoutOwner(t, uid)[k].userId != uid
  {
  }
}
