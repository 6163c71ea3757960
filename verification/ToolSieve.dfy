/** The streaming sieve that holds back text which is, or may still become, tool markup
    (internal/app/v1.go). Text is a sequence of ASCII bytes. */
module ToolSieve {
  import opened Text

  const MARKERS: seq<string> := ["<tool_calls", "<tool_call", "<function_call", "<invoke"]

  /** A tool marker starts at `i`, in any letter case. */
  predicate MarkerAt(text: string, i: nat) {
    exists m :: m in MARKERS && StartsAt(Lower(text), i, m)
  }

  /** The text ends, from `i` on, in the beginning of a marker. */
  predicate PartialAt(text: string, i: nat) {
    i < |text| && text[i] == '<' && exists m :: m in MARKERS && Lower(text)[i..] <= m
  }

  predicate HeldAt(text: string, i: nat) {
    MarkerAt(text, i) || PartialAt(text, i)
  }

  /** Where the text is cut: the first position held back. */
  function CutFrom(text: string, i: nat): (n: nat)
    requires i <= |text|
    ensures i <= n <= |text|
    ensures forall j :: i <= j < n ==> !HeldAt(text, j)
    ensures n < |text| ==> HeldAt(text, n)
    decreases |text| - i
  {
    if i == |text| || HeldAt(text, i) then i else CutFrom(text, i + 1)
  }

  function Cut(text: string): (n: nat)
    ensures n <= |text|
  {
    CutFrom(text, 0)
  }

  /** The cutset " \t\r\n". */
  predicate IsBlankTail(c: char) {
    c == ' ' || c == '\t' || c == '\r' || c == '\n'
  }

  function TrimTail(s: string): string {
    TrimRight(s, IsBlankTail)
  }

  /** What may be shown of a text that is still growing. */
  function Visible(text: string): string {
    var n := Cut(text);
    if n < |text| then TrimTail(text[..n]) else text
  }

  /** Markers are lower-case and hold one opening bracket, at the front. */
  lemma MarkerShape(m: string)
    requires m in MARKERS
    ensures m != "" && m[0] == '<' && Lower(m) == m
    ensures forall k :: 0 < k < |m| ==> m[k] != '<'
  {
  }

  /** A marker is one of three tags, in any letter case; the fourth name, `<tool_calls`, extends one of them. */
  lemma MarkersAre(text: string, i: nat)
    ensures MarkerAt(text, i) <==>
              || StartsAt(Lower(text), i, "<tool_call") || StartsAt(Lower(text), i, "<function_call")
              || StartsAt(Lower(text), i, "<invoke")
  {
    var low := Lower(text);
    assert MARKERS[0] == "<tool_calls" && MARKERS[1] == "<tool_call"
        && MARKERS[2] == "<function_call" && MARKERS[3] == "<invoke";
    if StartsAt(low, i, "<tool_calls") {
      assert low[i..i + 10] == low[i..i + 11][..10] == "<tool_calls"[..10] == "<tool_call";
    }
    if StartsAt(low, i, "<tool_call") || StartsAt(low, i, "<function_call") || StartsAt(low, i, "<invoke") {
      var m := if StartsAt(low, i, "<tool_call") then MARKERS[1]
               else if StartsAt(low, i, "<function_call") then MARKERS[2] else MARKERS[3];
      assert m in MARKERS && StartsAt(low, i, m);
    }
  }

  lemma MarkerTail(m: string, k: nat)
    requires m in MARKERS && k <= |m|
    ensures Lower(m[k..]) == m[k..]
  {
    MarkerShape(m);
    forall j | 0 <= j < |m| - k ensures LowerChar(m[k..][j]) == m[k..][j] {
      assert Lower(m)[k + j] == m[k + j];
    }
  }

  lemma LowerAppend(a: string, b: string)
    ensures Lower(a + b) == Lower(a) + Lower(b)
  {
  }

  lemma MarkerIsInside(text: string, i: nat)
    requires MarkerAt(text, i)
    ensures i < |text| && text[i] == '<'
  {
    var m :| m in MARKERS && StartsAt(Lower(text), i, m);
    MarkerShape(m);
    assert Lower(text)[i..i + |m|][0] == '<';
  }

  /** Once a marker has begun its position is held, however the text is split into chunks. */
  lemma HeldEarly(text: string, d: string, i: nat)
    requires i < |text| && HeldAt(text + d, i)
    ensures HeldAt(text, i)
  {
    LowerAppend(text, d);
    var low, all := Lower(text), Lower(text + d);
    if MarkerAt(text + d, i) {
      var m :| m in MARKERS && StartsAt(all, i, m);
      if i + |m| <= |text| {
        assert low[i..i + |m|] == all[i..i + |m|];
        assert StartsAt(low, i, m);
      } else {
        MarkerIsInside(text + d, i);
        assert low[i..] == all[i..i + |m|][..|text| - i];
        assert low[i..] <= m;
      }
    } else {
      var m :| m in MARKERS && all[i..] <= m;
      assert low[i..] == all[i..][..|text| - i];
      assert low[i..] <= m;
    }
  }

  /** The cut never moves left when text is appended. */
  lemma CutMovesRight(text: string, d: string)
    ensures Cut(text) <= Cut(text + d)
  {
    var n := Cut(text + d);
    if n < Cut(text) {
      HeldEarly(text, d, n);
    }
  }

  /** No text that may still follow puts a marker before `n`. */
  ghost predicate SafeUpTo(text: string, n: nat) {
    forall d: string, i: nat :: i < n ==> !MarkerAt(text + d, i)
  }

  lemma SliceOfSum(a: string, b: string, i: nat)
    requires i <= |a|
    ensures StartsAt(a + b, i, a[i..] + b)
  {
    assert (a + b)[i..] == a[i..] + b;
  }

  lemma PartialCanComplete(text: string, i: nat) returns (d: string)
    requires PartialAt(text, i)
    ensures MarkerAt(text + d, i)
  {
    var low := Lower(text);
    var m :| m in MARKERS && low[i..] <= m;
    d := m[|text| - i..];
    MarkerTail(m, |text| - i);
    LowerAppend(text, d);
    assert low[i..] + d == m;
    SliceOfSum(low, d, i);
  }

  /** The sieve shows exactly as much as it can: a prefix is safe against every continuation just when
      it ends at or before the cut. */
  lemma CutIsExact(text: string, n: nat)
    requires n <= |text|
    ensures n <= Cut(text) <==> SafeUpTo(text, n)
  {
    if n <= Cut(text) {
      forall d: string, i: nat | i < n ensures !MarkerAt(text + d, i) {
        if MarkerAt(text + d, i) {
          HeldEarly(text, d, i);
        }
      }
    } else {
      var i := Cut(text);
      if MarkerAt(text, i) {
        assert text + "" == text;
        assert MarkerAt(text + "", i);
      } else {
        var d := PartialCanComplete(text, i);
      }
    }
  }

  /** Nothing opens after the start of a partial marker. */
  lemma PartialIsLast(text: string, n: nat, i: nat)
    requires PartialAt(text, n) && n < i < |text|
    ensures text[i] != '<'
  {
    var m :| m in MARKERS && Lower(text)[n..] <= m;
    MarkerShape(m);
    assert Lower(text)[n..][i - n] == m[i - n];
  }

  /** With a complete marker in the text, the cut is the first one. */
  lemma CutIsFirstMarker(text: string, i: nat)
    requires MarkerAt(text, i) && forall j: nat :: j < i ==> !MarkerAt(text, j)
    ensures Cut(text) == i < |text|
  {
    MarkerIsInside(text, i);
    assert HeldAt(text, i);
    if PartialAt(text, Cut(text)) && Cut(text) < i {
      PartialIsLast(text, Cut(text), i);
    }
  }

  // ---------- Right-trimming and growth ----------

  /** A text and its right-trimmed form differ in trailing blanks only. */
  lemma {:induction false} TrimTailIs(s: string, r: string)
    requires r <= s && (r == "" || !IsBlankTail(r[|r| - 1]))
    requires forall i :: |r| <= i < |s| ==> IsBlankTail(s[i])
    ensures TrimTail(s) == r
  {
    if |r| < |s| {
      TrimTailIs(s[..|s| - 1], r);
    } else {
      assert r == s;
    }
  }

  lemma TrimTailGrows(s: string, t: string)
    requires s <= t
    ensures TrimTail(s) <= TrimTail(t)
  {
    TrimRightDrops(s, IsBlankTail);
    TrimRightDrops(t, IsBlankTail);
    var r, q := TrimTail(s), TrimTail(t);
    assert |r| > 0 ==> r[|r| - 1] == t[|r| - 1];
    assert r == t[..|r|];
  }

  /** What the sieve shows only grows by extension, trailing blanks aside. */
  lemma VisibleGrows(text: string, d: string)
    ensures TrimTail(Visible(text)) <= TrimTail(Visible(text + d))
  {
    CutMovesRight(text, d);
    var s, t := text[..Cut(text)], (text + d)[..Cut(text + d)];
    assert s <= t;
    TrimTailGrows(s, t);
    VisibleTrims(text);
    VisibleTrims(text + d);
  }

  lemma VisibleTrims(text: string)
    ensures TrimTail(Visible(text)) == TrimTail(text[..Cut(text)])
    ensures Visible(text) <= text[..Cut(text)]
  {
    var s := text[..Cut(text)];
    TrimRightDrops(s, IsBlankTail);
    TrimTailIs(TrimTail(s), TrimTail(s));
    assert Cut(text) == |text| ==> s == text;
  }

  // ---------- The sieve itself ----------

  /** The first position at which one of the first `k` markers starts, or -1. */
  ghost predicate FirstOf(low: string, k: nat, idx: int)
    requires k <= |MARKERS|
  {
    && (idx == -1 || (0 <= idx && exists j :: 0 <= j < k && StartsAt(low, idx, MARKERS[j])))
    && forall i: nat, j :: 0 <= j < k && (idx == -1 || i < idx) ==> !StartsAt(low, i, MARKERS[j])
  }

  method ToolMarkupIndex(text: string) returns (idx: int)
    ensures idx == -1 || (0 <= idx && MarkerAt(text, idx))
    ensures forall i: nat :: idx == -1 || i < idx ==> !MarkerAt(text, i)
  {
    var lower := Lower(text);
    idx := -1;
    for k := 0 to |MARKERS|
      invariant FirstOf(lower, k, idx)
    {
      var i := Index(lower, MARKERS[k], 0);
      if i >= 0 && (idx < 0 || i < idx) {
        idx := i;
      }
    }
  }

  method StreamableToolText(text: string) returns (visible: string, started: bool)
    ensures visible == Visible(text)
    ensures started <==> exists i: nat :: MarkerAt(text, i)
  {
    var idx := ToolMarkupIndex(text);
    if idx >= 0 {
      CutIsFirstMarker(text, idx);
      return TrimRight(text[..idx], IsBlankTail), true;
    }
    var lower := Lower(text);
    var safeLen: nat := |text|;
    for i := 0 to |lower|
      invariant safeLen == |text| || (safeLen < i && PartialAt(text, safeLen))
      invariant forall j :: 0 <= j < i && j < safeLen ==> !PartialAt(text, j)
    {
      var suffix := lower[i..];
      if suffix == "" || suffix[0] != '<' {
        continue;
      }
      var partial := BeginsMarker(suffix);
      if partial && i < safeLen {
        safeLen := i;
      }
    }
    CutIs(text, safeLen);
    if safeLen < |text| {
      return TrimRight(text[..safeLen], IsBlankTail), false;
    }
    return text, false;
  }

  /** The inner loop over the markers. */
  method BeginsMarker(suffix: string) returns (yes: bool)
    ensures yes <==> exists m :: m in MARKERS && suffix <= m
  {
    for k := 0 to |MARKERS|
      invariant forall j :: 0 <= j < k ==> !(suffix <= MARKERS[j])
    {
      if suffix <= MARKERS[k] {
        assert MARKERS[k] in MARKERS;
        return true;
      }
    }
    return false;
  }

  lemma CutIs(text: string, n: nat)
    requires n <= |text| && (n < |text| ==> HeldAt(text, n)) && forall j :: 0 <= j < n ==> !HeldAt(text, j)
    ensures Cut(text) == n
  {
  }

  /** What is shown is the text itself when nothing is held back; otherwise what stands before the cut, without the
      spaces, tabs and line ends in front of it. */
  lemma VisibleIs(text: string)
    ensures Cut(text) == |text| ==> Visible(text) == text
    ensures Cut(text) < |text| ==>
              var v := Visible(text);
              && v <= text[..Cut(text)] && (v != "" ==> v[|v| - 1] !in " \t\r\n")
              && forall i :: |v| <= i < Cut(text) ==> text[i] in " \t\r\n"
  {
    var t := text[..Cut(text)];
    TrimRightDrops(t, IsBlankTail);
    forall i | |TrimTail(t)| <= i < |t| ensures t[i] == text[i] {
    }
  }

  // ---------- What a client has been sent ----------

  function Concat(chunks: seq<string>): string {
    if chunks == [] then "" else Concat(chunks[..|chunks| - 1]) + chunks[|chunks| - 1]
  }

  lemma ConcatAdd(chunks: seq<string>, c: string)
    ensures Concat(chunks + [c]) == Concat(chunks) + c
  {
    assert (chunks + [c])[..|chunks|] == chunks;
  }

  lemma ConcatTake(chunks: seq<string>, i: nat)
    requires i < |chunks|
    ensures Concat(chunks[..i + 1]) == Concat(chunks[..i]) + chunks[i]
  {
    assert chunks[..i + 1] == chunks[..i] + [chunks[i]];
    ConcatAdd(chunks[..i], chunks[i]);
  }

  /** What has been sent is everything before the cut, apart from trailing blanks. */
  ghost predicate UpToDate(text: string, sent: string) {
    TrimTail(text[..Cut(text)]) <= sent <= text[..Cut(text)] && (Cut(text) == |text| ==> sent == text)
  }

  lemma Extends(text: string, d: string, sent: string)
    requires UpToDate(text, sent)
    ensures UpToDate(text + d, Grown(sent, Visible(text + d)))
  {
    CutMovesRight(text, d);
    VisibleTrims(text + d);
    var shown := (text + d)[..Cut(text + d)];
    assert sent <= shown;
    TrimRightDrops(shown, IsBlankTail);
    assert Visible(text + d) <= shown;
  }

  /** Only an extension of what was sent can be sent. */
  function Grown(sent: string, visible: string): string {
    if sent <= visible then visible else sent
  }

  /** Without tools everything is sent as it comes. */
  ghost predicate Sent(toolMode: bool, text: string, sent: string) {
    if toolMode then UpToDate(text, sent) else sent == text
  }

  function Shown(toolMode: bool, text: string): string {
    if toolMode then Visible(text) else text
  }

  lemma SendsOn(toolMode: bool, text: string, d: string, sent: string)
    requires Sent(toolMode, text, sent)
    ensures Sent(toolMode, text + d, Grown(sent, Shown(toolMode, text + d)))
  {
    if toolMode {
      Extends(text, d, sent);
    }
  }

  /** Nothing sent is ever markup: whatever text follows, a marker starts after what was sent. */
  lemma SentIsNeverMarkup(text: string, sent: string, d: string, i: nat)
    requires UpToDate(text, sent) && MarkerAt(text + d, i)
    ensures |sent| <= i && sent <= (text + d)[..i]
  {
    CutIsExact(text, Cut(text));
    MarkerIsInside(text + d, i);
  }

  /** Sends what is new, if anything is. */
  method Emit(emitted: seq<string>, visible: string) returns (r: seq<string>)
    requires Concat(emitted) <= visible
    ensures Concat(r) == visible && (r == emitted || (|r| == |emitted| + 1 && emitted <= r && r[|emitted|] != ""))
  {
    var d := visible[|Concat(emitted)|..];
    assert Concat(emitted) + d == visible;
    if d == "" {
      return emitted;
    }
    ConcatAdd(emitted, d);
    r := emitted + [d];
  }

  /** The emit loop of streamAnthropicEvents. */
  method StreamAnthropicEvents(deltas: seq<string>, toolMode: bool) returns (emitted: seq<string>)
    ensures Sent(toolMode, Concat(deltas), Concat(emitted))
    ensures forall k :: 0 <= k < |emitted| ==> emitted[k] != ""
  {
    emitted := [];
    var current, streamed, toolStarted := "", "", false;
    for i := 0 to |deltas|
      invariant current == Concat(deltas[..i]) && streamed == Concat(emitted)
      invariant Sent(toolMode, current, streamed)
      invariant forall k :: 0 <= k < |emitted| ==> emitted[k] != ""
    {
      ConcatTake(deltas, i);
      if deltas[i] == "" {
        continue;
      }
      SendsOn(toolMode, current, deltas[i], streamed);
      current := current + deltas[i];
      var visible := current;
      if toolMode {
        var started;
        visible, started := StreamableToolText(current);
        if started {
          toolStarted := true;
        }
      }
      assert visible == Shown(toolMode, current);
      if toolStarted && !(streamed <= visible) {
        continue;
      }
      if streamed <= visible {
        emitted := Emit(emitted, visible);
        streamed := visible;
      }
    }
    assert deltas[..|deltas|] == deltas;
  }
}
