/** Failure-carrying values shared by every module of the model. */
module Common {

  /** A value that may be absent (Python's `None`). */
  datatype Option<T> = None | Some(value: T)

  /** A value or the exception that the source would raise instead. */
  datatype Result<T, E> = Ok(value: T) | Err(error: E)

  /** True iff `s` ends with `suffix` (Python's `str.endswith`). */
  predicate EndsWith(s: string, suffix: string)
  {
    |suffix| <= |s| && s[|s| - |suffix|..] == suffix
  }

  /** A string ends with `suffix` iff it is some prefix followed by `suffix`. */
  lemma EndsWithIffConcatenation(s: string, suffix: string)
    ensures EndsWith(s, suffix) <==> |suffix| <= |s| && s == s[..|s| - |suffix|] + suffix
  {
    if |suffix| <= |s| {
      assert s == s[..|s| - |suffix|] + s[|s| - |suffix|..];
    }
  }

  /**
   * `a` is `b` with some elements left out: the elements of `a` occur in
   * `b` in the same order, each one at its own position.
   */
  predicate IsSubsequence<T(==)>(a: seq<T>, b: seq<T>)
    decreases |b|
  {
    if a == [] then true
    else if b == [] then false
    else (a[0] == b[0] && IsSubsequence(a[1..], b[1..])) || IsSubsequence(a, b[1..])
  }

  /**
   * The first element of `s` that satisfies `p`, as a query's `.first()`
   * returns it, or None when there is none.
   */
  function FirstWhere<T(==)>(s: seq<T>, p: T -> bool): (r: Option<T>)
    ensures r.None? <==> forall i :: 0 <= i < |s| ==> !p(s[i])
    ensures r.Some? ==>
      exists i :: (0 <= i < |s| && s[i] == r.value && p(s[i]) && forall j :: 0 <= j < i ==> !p(s[j]))
    decreases |s|
  {
    if s == [] then None
    else if p(s[0]) then Some(s[0])
    else
      var rest := FirstWhere(s[1..], p);
      assert forall i :: 1 <= i < |s| ==> s[i] == s[1..][i - 1];
      if rest.Some? then
        var i :| (0 <= i < |s[1..]| && s[1..][i] == rest.value && p(s[1..][i]) &&
                  forall j :: 0 <= j < i ==> !p(s[1..][j]));
        assert s[i + 1] == rest.value && forall j :: 0 <= j < i + 1 ==> !p(s[j]);
        rest
      else rest
  }
}
