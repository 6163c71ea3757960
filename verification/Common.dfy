/** Small vocabulary shared by the other modules. */
module Common {

  datatype Option<+T> = None | Some(value: T)

  function MaxInt(a: int, b: int): int {
    if a > b then a else b
  }

  function MinInt(a: int, b: int): int {
    if a < b then a else b
  }

  /** Reading a Go map: a missing key reads as zero. */
  function Count<K>(m: map<K, int>, k: K): int {
    if k in m then m[k] else 0
  }

  /** The first occurrence of an entry is taken out of a list. */
  function Without<T(==)>(s: seq<T>, x: T): seq<T> {
    if s == [] then [] else if s[0] == x then s[1..] else [s[0]] + Without(s[1..], x)
  }

  lemma WithoutCons<T>(h: T, t: seq<T>, x: T)
    ensures Without([h] + t, x) == if h == x then t else [h] + Without(t, x)
  {
    assert ([h] + t)[1..] == t;
  }

  lemma {:induction false} WithoutMembers<T>(s: seq<T>, x: T)
    ensures forall y :: y in Without(s, x) ==> y in s
  {
    if s != [] {
      WithoutMembers(s[1..], x);
    }
  }

  lemma SplitLast<T>(s: seq<T>)
    requires s != []
    ensures s == s[..|s| - 1] + [s[|s| - 1]]
  {
  }
}
