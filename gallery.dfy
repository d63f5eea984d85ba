/** The search-and-sort listing of the photo, food-photo and Pokemon
    pages: the caller's rows, those whose name ILIKEs `%search%` when a
    search is given, ordered by name or by creation time. */
module Gallery {
  import opened Common
  import opened Text
  import opened Ordering
  import opened DbSchema
  import opened Queries
  import opened Like

  /** The listing options `{ search, sortBy, sortOrder }` as the page
      passes them from the URL. */
  datatype ListOptions = ListOptions(search: Option<string>, sortBy: Option<string>, sortOrder: Option<string>)

  /** `search && search.trim()` */
  predicate SearchActive(search: Option<string>) {
    search.Some? && !IsBlank(search.value)
  }

  /** The where clause: owner, and the name ILIKE `%trimmed search%`. */
  function SearchFilter<D>(uid: Id, search: Option<string>, name: D -> string): Row<D> -> bool {
    if SearchActive(search) then
      (x: Row<D>) => x.userId == uid && ILike(name(x.fields), SearchPattern(Trim(search.value)))
    else
      OwnerIs(uid)
  }

  /** `orderBy(t.name)` */
  function NameKey<D>(name: D -> string): Row<D> -> SortKey {
    (x: Row<D>) => ByText(name(x.fields))
  }

  /** The name column when `sortBy` is "name", otherwise createdAt. */
  function SortColumn<D>(sortBy: Option<string>, name: D -> string): Row<D> -> SortKey {
    if sortBy == Some("name") then NameKey(name) else CreatedKey
  }

  /** `asc` only when `sortOrder` is "asc"; the default is `desc`. */
  function Ascending(sortOrder: Option<string>): bool {
    sortOrder == Some("asc")
  }

  /** Without options the listing is the owner's rows, newest first. */
  lemma DefaultListing<D>(uid: Id, name: D -> string)
    ensures SearchFilter(uid, None, name) == OwnerIs(uid)
    ensures SortColumn(None, name) == CreatedKey<D>
    ensures !Ascending(None)
  {
  }

  /** A search without '%', '_' or '\' keeps exactly the owner's rows
      whose name contains the trimmed search text, ignoring case; a blank
      search keeps all of them. */
  lemma SearchKeeps<D>(uid: Id, search: Option<string>, name: D -> string, x: Row<D>)
    requires search.Some? ==> IsLiteral(Trim(search.value))
    ensures SearchFilter(uid, search, name)(x) <==>
      x.userId == uid && (SearchActive(search) ==> Contains(ToLower(name(x.fields)), ToLower(Trim(search.value))))
  {
    if SearchActive(search) {
      SearchIsSubstring(name(x.fields), Trim(search.value));
    }
  }

  /** `query.orderBy(orderFn(sortColumn))`, with the `query` reassigned
      when a search is given. */
  method ListSearchable<D>(t: Table<D>, uid: Id, options: ListOptions, name: D -> string) returns (rows: seq<Row<D>>)
    requires KeyedById(t)
    ensures Selects(rows, t, SearchFilter(uid, options.search, name))
    ensures SortedBy(rows, SortColumn(options.sortBy, name), Ascending(options.sortOrder))
  {
    var cond := OwnerIs(uid);
    if SearchActive(options.search) {
      cond := SearchFilter(uid, options.search, name);
    }
    var ascending := options.sortOrder == Some("asc");
    var key := if options.sortBy == Some("name") then NameKey(name) else CreatedKey;
    rows := ListWhere(t, cond, key, ascending);
  }
}
