/** Result shapes and small helpers shared by the other modules. */
module Wrappers {

  datatype Option<+T> = None | Some(value: T)

  datatype Result<+T, +E> = Success(value: T) | Failure(error: E)

  function Min(a: int, b: int): int { if a <= b then a else b }

  function Max(a: int, b: int): int { if a >= b then a else b }

  /** Python's `s.rsplit("/", 1)[-1]`. */
  function AfterLastSlash(s: string): string {
    if s == "" || s[|s| - 1] == '/' then "" else AfterLastSlash(s[..|s| - 1]) + [s[|s| - 1]]
  }

  ghost predicate NoSlash(s: string) { forall i :: 0 <= i < |s| ==> s[i] != '/' }

  lemma {:induction false} LastSegment(before: string, last: string)
    requires NoSlash(last) && (before == "" || before[|before| - 1] == '/')
    ensures AfterLastSlash(before + last) == last
  {
    var s := before + last;
    if last == "" {
      assert s == before;
    } else {
      var n := |last| - 1;
      LastSegment(before, last[..n]);
      assert s[..|s| - 1] == before + last[..n];
      assert s[|s| - 1] == last[n] && last == last[..n] + [last[n]];
    }
  }
}
