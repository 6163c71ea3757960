/** The few string operations the modelled code relies on. */
module Text {

  /** Go's unicode.IsSpace. */
  predicate IsSpace(c: char) {
    var k := c as int;
    || 9 <= k <= 13 || k == 32 || k == 0x85 || k == 0xA0 || k == 0x1680
    || 0x2000 <= k <= 0x200A || k == 0x2028 || k == 0x2029 || k == 0x202F || k == 0x205F || k == 0x3000
  }

  /** Python's str.isspace adds the four ASCII separators. */
  predicate IsPySpace(c: char) {
    IsSpace(c) || 0x1C <= c as int <= 0x1F
  }

  function TrimLeft(s: string, drop: char -> bool): string {
    if s != "" && drop(s[0]) then TrimLeft(s[1..], drop) else s
  }

  function TrimRight(s: string, drop: char -> bool): string {
    if s != "" && drop(s[|s| - 1]) then TrimRight(s[..|s| - 1], drop) else s
  }

  lemma {:induction false} TrimLeftDrops(s: string, drop: char -> bool)
    ensures var r := TrimLeft(s, drop);
            && |r| <= |s| && r == s[|s| - |r|..]
            && (r != "" ==> !drop(r[0]))
            && forall i :: 0 <= i < |s| - |r| ==> drop(s[i])
  {
    if s != "" && drop(s[0]) {
      TrimLeftDrops(s[1..], drop);
      var r := TrimLeft(s[1..], drop);
      forall i | 0 <= i < |s| - |r| ensures drop(s[i]) {
        assert i > 0 ==> s[i] == s[1..][i - 1];
      }
    }
  }

  lemma {:induction false} TrimRightDrops(s: string, drop: char -> bool)
    ensures var r := TrimRight(s, drop);
            && |r| <= |s| && r == s[..|r|]
            && (r != "" ==> !drop(r[|r| - 1]))
            && forall i :: |r| <= i < |s| ==> drop(s[i])
  {
    if s != "" && drop(s[|s| - 1]) {
      TrimRightDrops(s[..|s| - 1], drop);
    }
  }

  function Trim(s: string, drop: char -> bool): string {
    TrimRight(TrimLeft(s, drop), drop)
  }

  /** strings.TrimSpace. */
  function TrimSpace(s: string): string {
    Trim(s, IsSpace)
  }

  /** What strings.TrimSpace(s) == "" tests. */
  predicate Blank(s: string) {
    forall c :: c in s ==> IsSpace(c)
  }

  lemma BlankMeansTrimmedAway(s: string)
    ensures Blank(s) <==> TrimSpace(s) == ""
  {
    TrimLeftDrops(s, IsSpace);
    var t := TrimLeft(s, IsSpace);
    TrimRightDrops(t, IsSpace);
    if TrimSpace(s) != "" {
      assert t[0] in s;
    } else {
      assert t == "";
    }
  }

  /** str.strip(). */
  function Strip(s: string): string {
    Trim(s, IsPySpace)
  }

  /** Nothing to trim at either end. */
  predicate Trimmed(s: string, drop: char -> bool) {
    s == "" || (!drop(s[0]) && !drop(s[|s| - 1]))
  }

  lemma TrimFixes(s: string, drop: char -> bool)
    ensures Trimmed(Trim(s, drop), drop)
    ensures Trimmed(s, drop) ==> Trim(s, drop) == s
  {
    TrimLeftDrops(s, drop);
    TrimRightDrops(TrimLeft(s, drop), drop);
    if s != "" && Trimmed(s, drop) {
      assert TrimLeft(s, drop) == s;
    }
  }

  /** Trimming keeps a slice. */
  lemma TrimIsSlice(s: string, drop: char -> bool) returns (i: nat)
    ensures i + |Trim(s, drop)| <= |s|
    ensures Trim(s, drop) == s[i..i + |Trim(s, drop)|]
  {
    TrimLeftDrops(s, drop);
    TrimRightDrops(TrimLeft(s, drop), drop);
    i := |s| - |TrimLeft(s, drop)|;
  }

  lemma TrimRightAdd(s: string, c: char, drop: char -> bool)
    requires drop(c)
    ensures TrimRight(s + [c], drop) == TrimRight(s, drop)
  {
    assert (s + [c])[..|s|] == s;
  }

  /** Trimming adds no characters. */
  lemma TrimMembers(s: string, drop: char -> bool)
    ensures forall c :: c in Trim(s, drop) ==> c in s
    ensures forall c :: c in TrimLeft(s, drop) ==> c in s
  {
    TrimLeftDrops(s, drop);
    TrimRightDrops(TrimLeft(s, drop), drop);
  }

  /** ASCII lower case. */
  function LowerChar(c: char): char {
    if 'A' <= c <= 'Z' then c + 32 as char else c
  }

  function Lower(s: string): (r: string)
    ensures |r| == |s|
    ensures forall i :: 0 <= i < |s| ==> r[i] == LowerChar(s[i])
  {
    seq(|s|, i requires 0 <= i < |s| => LowerChar(s[i]))
  }

  predicate StartsAt(s: string, i: nat, p: string) {
    i + |p| <= |s| && s[i..i + |p|] == p
  }

  /** The first occurrence of `p` from a position on, or -1. */
  function Index(s: string, p: string, from: nat): (i: int)
    requires from <= |s|
    ensures i == -1 || (from <= i && StartsAt(s, i, p))
    ensures forall j: nat :: from <= j && (i == -1 || j < i) ==> !StartsAt(s, j, p)
    decreases |s| - from
  {
    if StartsAt(s, from, p) then from
    else if from == |s| then -1
    else Index(s, p, from + 1)
  }
}
