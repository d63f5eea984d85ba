/** The drive's filter bar: the search box and the sort menu write their
    choices into the page's URL search parameters, which the photo listing
    reads back. */
module DriveFilters {
  import opened Common
  import opened Text

  /** A `URLSearchParams`: name/value pairs in order; a name may repeat. */
  type Params = seq<(string, string)>

  /** One entry of `updates`: a value, or `null`. */
  type Update = (string, Option<string>)

  /** `params.get(name)`: the first value under that name. */
  function Get(params: Params, name: string): Option<string> {
    if params == [] then None
    else if params[0].0 == name then Some(params[0].1)
    else Get(params[1..], name)
  }

  /** `params.delete(name)`: every pair under that name goes. */
  function Delete(params: Params, name: string): (r: Params)
    ensures |r| <= |params|
  {
    if params == [] then []
    else if params[0].0 == name then Delete(params[1..], name)
    else [params[0]] + Delete(params[1..], name)
  }

  /** `params.set(name, value)`: the first pair under that name takes the
      value and the later ones go; with none, the pair is appended. */
  function Set(params: Params, name: string, value: string): Params {
    if params == [] then [(name, value)]
    else if params[0].0 == name then [(name, value)] + Delete(params[1..], name)
    else [params[0]] + Set(params[1..], name, value)
  }

  /** After a delete the name reads as absent and every other name reads
      as before. */
  lemma {:induction false} GetAfterDelete(params: Params, name: string, other: string)
    ensures Get(Delete(params, name), name).None?
    ensures other != name ==> Get(Delete(params, name), other) == Get(params, other)
  {
    if params != [] {
      GetAfterDelete(params[1..], name, other);
    }
  }

  /** After a set the name reads as the value and every other name reads
      as before. */
  lemma {:induction false} GetAfterSet(params: Params, name: string, value: string, other: string)
    ensures Get(Set(params, name, value), name) == Some(value)
    ensures other != name ==> Get(Set(params, name, value), other) == Get(params, other)
  {
    if params != [] {
      if params[0].0 == name {
        GetAfterDelete(params[1..], name, other);
      } else {
        GetAfterSet(params[1..], name, value, other);
      }
    }
  }

  /** The body of the `forEach`: `null` and "" delete the name, any other
      value sets it. */
  function ApplyUpdate(params: Params, update: Update): Params {
    var (name, value) := update;
    if value.None? || value.value == "" then Delete(params, name) else Set(params, name, value.value)
  }

  /** The updates applied one after the other, in order. */
  function ApplyUpdates(params: Params, updates: seq<Update>): Params
    decreases |updates|
  {
    if updates == [] then params
    else ApplyUpdate(ApplyUpdates(params, updates[..|updates| - 1]), updates[|updates| - 1])
  }

  /** What a name reads as once an update about it has been applied. */
  function Expected(value: Option<string>): Option<string> {
    if value.None? || value.value == "" then None else value
  }

  /** updateFilters: a copy of the current parameters with each update
      applied in place. */
  method UpdateFilters(current: Params, updates: seq<Update>) returns (params: Params)
    ensures params == ApplyUpdates(current, updates)
  {
    params := current;
    for n := 0 to |updates|
      invariant params == ApplyUpdates(current, updates[..n])
    {
      var (name, value) := updates[n];
      assert updates[..n + 1][..n] == updates[..n];
      if value.None? || value.value == "" {
        params := Delete(params, name);
      } else {
        params := Set(params, name, value.value);
      }
    }
    assert updates[..|updates|] == updates;
  }

  /** A name no update mentions reads as before. */
  lemma {:induction false} UnnamedKeysKept(current: Params, updates: seq<Update>, other: string)
    requires forall i :: 0 <= i < |updates| ==> updates[i].0 != other
    ensures Get(ApplyUpdates(current, updates), other) == Get(current, other)
    decreases |updates|
  {
    if updates != [] {
      var init := updates[..|updates| - 1];
      UnnamedKeysKept(current, init, other);
      var (name, value) := updates[|updates| - 1];
      var before := ApplyUpdates(current, init);
      GetAfterDelete(before, name, other);
      if value.Some? {
        GetAfterSet(before, name, value.value, other);
      }
    }
  }

  /** A name an update mentions reads as that update says; the keys of a
      record are distinct, so no later update overrides it. */
  lemma {:induction false} NamedKeysUpdated(current: Params, updates: seq<Update>, i: nat)
    requires i < |updates|
    requires forall j :: 0 <= j < |updates| && j != i ==> updates[j].0 != updates[i].0
    ensures Get(ApplyUpdates(current, updates), updates[i].0) == Expected(updates[i].1)
    decreases |updates|
  {
    var init := updates[..|updates| - 1];
    var (name, value) := updates[|updates| - 1];
    var before := ApplyUpdates(current, init);
    GetAfterDelete(before, name, updates[i].0);
    if value.Some? {
      GetAfterSet(before, name, value.value, updates[i].0);
    }
    if i < |updates| - 1 {
      NamedKeysUpdated(current, init, i);
    }
  }

  /** `search.trim() || null` */
  function SubmittedSearch(search: string): (value: Option<string>)
    ensures value.None? <==> IsBlank(search)
    ensures value.Some? ==> value.value == Trim(search)
  {
    if Trim(search) == "" then None else Some(Trim(search))
  }

  /** `value.split("-")` destructured as `[sortBy, sortOrder]`: a missing
      second piece is `undefined`, which `set` writes as the text
      "undefined". */
  function SortUpdates(value: string): (updates: seq<Update>)
    ensures |updates| == 2 && updates[0].0 == "sortBy" && updates[1].0 == "sortOrder"
  {
    var parts := Split(value, '-');
    [("sortBy", Some(parts[0])), ("sortOrder", Some(if |parts| > 1 then parts[1] else "undefined"))]
  }

  /** currentSort: the select's value for the listing's sort. */
  function CurrentSort(sortBy: string, sortOrder: string): string {
    sortBy + "-" + sortOrder
  }

  /** The four values the sort menu offers. */
  const SortOptions: seq<string> := ["createdAt-desc", "createdAt-asc", "name-asc", "name-desc"]

  /** Choosing the value shown for a sort writes that same sort back, for
      any field and order free of '-' (so for all four menu values). */
  lemma SortRoundTrip(sortBy: string, sortOrder: string)
    requires '-' !in sortBy && '-' !in sortOrder
    ensures SortUpdates(CurrentSort(sortBy, sortOrder)) == [("sortBy", Some(sortBy)), ("sortOrder", Some(sortOrder))]
  {
    assert CurrentSort(sortBy, sortOrder) == Join([sortBy, sortOrder], '-');
    assert forall p :: p in [sortBy, sortOrder] ==> p == sortBy || p == sortOrder;
    SplitJoin([sortBy, sortOrder], '-');
  }

  /** Every menu value is some field and order joined by '-'. */
  lemma SortOptionsRoundTrip()
    ensures forall i :: 0 <= i < |SortOptions| ==>
      exists sortBy, sortOrder :: '-' !in sortBy && '-' !in sortOrder && SortOptions[i] == CurrentSort(sortBy, sortOrder)
  {
    assert SortOptions[0] == CurrentSort("createdAt", "desc");
    assert SortOptions[1] == CurrentSort("createdAt", "asc");
    assert SortOptions[2] == CurrentSort("name", "asc");
    assert SortOptions[3] == CurrentSort("name", "desc");
  }

  /** The filter bar: the text in its search box and the URL's current
      search parameters, which a navigation replaces. */
  class FilterBar {
    var search: string
    var url: Params

    constructor (defaultSearch: string, url: Params)
      ensures search == defaultSearch && this.url == url
    {
      search := defaultSearch;
      this.url := url;
    }

    /** Typing in the search box. */
    method Type(text: string)
      modifies this`search
      ensures search == text
    {
      search := text;
    }

    /** handleSearchSubmit: the trimmed text, or no search key at all. */
    method SubmitSearch()
      modifies this`url
      ensures url == ApplyUpdates(old(url), [("search", SubmittedSearch(search))])
      ensures Get(url, "search") == SubmittedSearch(search)
      ensures forall other :: other != "search" ==> Get(url, other) == Get(old(url), other)
    {
      var updates := [("search", SubmittedSearch(search))];
      Keyed(old(url), updates);
      url := UpdateFilters(url, updates);
    }

    /** handleClearSearch: an empty box and no search key. */
    method ClearSearch()
      modifies this`search, this`url
      ensures search == "" && url == ApplyUpdates(old(url), [("search", None)])
      ensures Get(url, "search").None?
      ensures forall other :: other != "search" ==> Get(url, other) == Get(old(url), other)
    {
      search := "";
      var updates: seq<Update> := [("search", None)];
      Keyed(old(url), updates);
      url := UpdateFilters(url, updates);
    }

    /** handleSortChange: both halves of the chosen value, and nothing else. */
    method ChangeSort(value: string)
      modifies this`url
      ensures url == ApplyUpdates(old(url), SortUpdates(value))
      ensures Get(url, "sortBy") == Expected(SortUpdates(value)[0].1)
      ensures Get(url, "sortOrder") == Expected(SortUpdates(value)[1].1)
      ensures forall other :: other != "sortBy" && other != "sortOrder" ==> Get(url, other) == Get(old(url), other)
    {
      var updates := SortUpdates(value);
      Keyed(old(url), updates);
      url := UpdateFilters(url, updates);
    }
  }

  /** For updates with distinct names: each named key reads as its update
      says, and every other key as before. */
  lemma Keyed(current: Params, updates: seq<Update>)
    requires forall i, j :: 0 <= i < j < |updates| ==> updates[i].0 != updates[j].0
    ensures forall i :: 0 <= i < |updates| ==> Get(ApplyUpdates(current, updates), updates[i].0) == Expected(updates[i].1)
    ensures forall other :: (forall i :: 0 <= i < |updates| ==> updates[i].0 != other) ==>
      Get(ApplyUpdates(current, updates), other) == Get(current, other)
  {
    forall i | 0 <= i < |updates|
      ensures Get(ApplyUpdates(current, updates), updates[i].0) == Expected(updates[i].1)
    {
      NamedKeysUpdated(current, updates, i);
    }
    forall other | forall i :: 0 <= i < |updates| ==> updates[i].0 != other
      ensures Get(ApplyUpdates(current, updates), other) == Get(current, other)
    {
      UnnamedKeysKept(current, updates, other);
    }
  }
}
