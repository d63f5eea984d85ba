/** The todo list's search box: the todos whose title contains the query,
    ignoring case, in their original order. */
module TodoSearch {
  import opened Text
  import opened DbSchema

  /** `t.title.toLocaleLowerCase().includes(query.toLocaleLowerCase())` */
  predicate TitleMatches(t: Todo, query: string) {
    Contains(ToLower(t.fields.title), ToLower(query))
  }

  /** `todos.filter(...)` */
  function FilterTodos(todos: seq<Todo>, query: string): (r: seq<Todo>)
    ensures |r| <= |todos|
    ensures forall t :: t in r <==> t in todos && TitleMatches(t, query)
  {
    if todos == [] then []
    else
      var rest := FilterTodos(todos[1..], query);
      assert forall t :: t in todos <==> t == todos[0] || t in todos[1..];
      if TitleMatches(todos[0], query) then [todos[0]] + rest else rest
  }

  /** `a` is `b` with some elements dropped and the rest kept in order. */
  predicate IsSubsequence<T(==)>(a: seq<T>, b: seq<T>)
    decreases |b|
  {
    if a == [] then true
    else if b == [] then false
    else if a[0] == b[0] then IsSubsequence(a[1..], b[1..])
    else IsSubsequence(a, b[1..])
  }

  /** The filtered list keeps the todos' order. */
  lemma {:induction false} FilterKeepsOrder(todos: seq<Todo>, query: string)
    ensures IsSubsequence(FilterTodos(todos, query), todos)
  {
    if todos != [] {
      FilterKeepsOrder(todos[1..], query);
      var rest := FilterTodos(todos[1..], query);
      if !TitleMatches(todos[0], query) {
        SubsequenceOfTail(rest, todos);
      } else {
        assert ([todos[0]] + rest)[1..] == rest;
      }
    }
  }

  /** A subsequence of the tail is a subsequence of the whole. */
  lemma {:induction false} SubsequenceOfTail<T>(a: seq<T>, b: seq<T>)
    requires b != [] && IsSubsequence(a, b[1..])
    ensures IsSubsequence(a, b)
    decreases |b|, 0
  {
    if a != [] && a[0] == b[0] {
      DropHead(a, b[1..]);
    }
  }

  /** Dropping the first element of a subsequence leaves a subsequence. */
  lemma {:induction false} DropHead<T>(a: seq<T>, c: seq<T>)
    requires a != [] && IsSubsequence(a, c)
    ensures IsSubsequence(a[1..], c)
    decreases |c|, 1
  {
    assert c != [];
    if a[0] == c[0] {
      SubsequenceOfTail(a[1..], c);
    } else {
      DropHead(a, c[1..]);
      SubsequenceOfTail(a[1..], c);
    }
  }

  /** An empty query keeps every todo. */
  lemma {:induction false} EmptyQueryKeepsAll(todos: seq<Todo>)
    ensures FilterTodos(todos, "") == todos
  {
    if todos != [] {
      EmptyQueryKeepsAll(todos[1..]);
      ContainsEmpty(ToLower(todos[0].fields.title));
      assert [todos[0]] + todos[1..] == todos;
    }
  }

  /** Filtering the filtered list again with the same query changes nothing. */
  lemma {:induction false} FilterIdempotent(todos: seq<Todo>, query: string)
    ensures FilterTodos(FilterTodos(todos, query), query) == FilterTodos(todos, query)
  {
    if todos != [] {
      FilterIdempotent(todos[1..], query);
      var rest := FilterTodos(todos[1..], query);
      if TitleMatches(todos[0], query) {
        assert ([todos[0]] + rest)[1..] == rest;
      }
    }
  }
}
