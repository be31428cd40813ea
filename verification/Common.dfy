/** What several modules share. */
module Common {

  datatype Option<T> = None | Some(value: T)

  function Min(a: int, b: int): int {
    if a < b then a else b
  }

  function Pow2(n: int): int
    decreases n
  {
    if n <= 0 then 1 else 2 * Pow2(n - 1)
  }

  /** The last change in a sequence whose ends differ. */
  lemma LastChange<T>(s: seq<T>) returns (i: nat)
    requires s != [] && s[0] != s[|s| - 1]
    ensures i + 1 < |s| && s[i] != s[i + 1] && forall j :: i < j < |s| ==> s[j] == s[|s| - 1]
  {
    i := |s| - 2;
    while s[i] == s[|s| - 1]
      invariant i + 1 < |s| && forall j :: i < j < |s| ==> s[j] == s[|s| - 1]
      decreases i
    {
      i := i - 1;
    }
  }

  lemma NextPrefix<T>(base: seq<T>, s: seq<T>, i: nat)
    requires i < |s|
    ensures base + s[..i + 1] == base + s[..i] + [s[i]]
  {
  }

  /** How often x occurs in s. */
  function Times<T(==)>(s: seq<T>, x: T): nat {
    if s == [] then 0 else Times(s[..|s| - 1], x) + if s[|s| - 1] == x then 1 else 0
  }

  lemma TimesSnoc<T>(s: seq<T>, last: T)
    ensures forall x :: Times(s + [last], x) == Times(s, x) + if last == x then 1 else 0
  {
    assert (s + [last])[..|s|] == s;
  }
}
