/** How a loop that appends to a list agrees with a recursive function that builds it from the front. */
module Lists {
  import opened Options

  /** The whole list has begun with `done`, and `rest` is the verdict on what remains. */
  ghost predicate Continues<T, S>(whole: Option<(seq<T>, S)>, done: seq<T>, rest: Option<(seq<T>, S)>)
  {
    if rest.Some? then whole == Some((done + rest.value.0, rest.value.1)) else whole == None
  }

  lemma ContinuesBegin<T, S>(whole: Option<(seq<T>, S)>)
    ensures Continues(whole, [], whole)
  {
    if whole.Some? { assert [] + whole.value.0 == whole.value.0; }
  }

  lemma ContinuesStep<T, S>(whole: Option<(seq<T>, S)>, done: seq<T>, x: T, rest: Option<(seq<T>, S)>)
    requires Continues(whole, done, if rest.Some? then Some(([x] + rest.value.0, rest.value.1)) else None)
    ensures Continues(whole, done + [x], rest)
  {
    if rest.Some? { assert done + ([x] + rest.value.0) == done + [x] + rest.value.0; }
  }

  lemma ContinuesFails<T, S>(whole: Option<(seq<T>, S)>, done: seq<T>)
    requires Continues(whole, done, None)
    ensures whole == None
  {
  }

  lemma ContinuesEnd<T, S>(whole: Option<(seq<T>, S)>, done: seq<T>, last: S)
    requires Continues(whole, done, Some(([], last)))
    ensures whole == Some((done, last))
  {
    assert done + [] == done;
  }
}
