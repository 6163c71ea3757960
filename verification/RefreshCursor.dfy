/** Which accounts the watcher refreshes next (internal/app/watcher.go, lines 98-125). */
module RefreshCursor {
  import opened Common
  import opened Accounts
  import opened Rotation
  import opened Text

  function EligibleTokens(accounts: seq<Account>): seq<string> {
    if accounts == [] then []
    else
      var a := accounts[|accounts| - 1];
      var before := EligibleTokens(accounts[..|accounts| - 1]);
      if TrimSpace(a.token) == "" || a.pendingDelete then before else before + [TrimSpace(a.token)]
  }

  /** The accounts that are refreshed: those that have a token and are not to be deleted. */
  predicate Refreshed(a: Account) {
    !a.pendingDelete && !Blank(a.token)
  }

  /** The k-th token is that of the account at places[k]. */
  ghost predicate TokensAt(tokens: seq<string>, accounts: seq<Account>, places: seq<nat>) {
    && |places| == |tokens|
    && forall k :: 0 <= k < |places| ==>
         places[k] < |accounts| && Refreshed(accounts[places[k]]) && tokens[k] == TrimSpace(accounts[places[k]].token)
  }

  ghost predicate Increasing(places: seq<nat>) {
    forall k, l :: 0 <= k < l < |places| ==> places[k] < places[l]
  }

  ghost predicate NoneLeftOut(accounts: seq<Account>, places: seq<nat>) {
    forall i: nat :: i < |accounts| && Refreshed(accounts[i]) ==> i in places
  }

  lemma TokensGrow(tokens: seq<string>, accounts: seq<Account>, a: Account, places: seq<nat>)
    requires TokensAt(tokens, accounts, places)
    ensures TokensAt(tokens, accounts + [a], places)
    ensures Refreshed(a) ==> TokensAt(tokens + [TrimSpace(a.token)], accounts + [a], places + [|accounts|])
  {
    var all := accounts + [a];
    assert forall i :: 0 <= i < |accounts| ==> all[i] == accounts[i];
    assert all[|accounts|] == a;
  }

  lemma IncreasingGrow(places: seq<nat>, n: nat)
    requires Increasing(places) && forall k :: 0 <= k < |places| ==> places[k] < n
    ensures Increasing(places + [n])
  {
  }

  lemma NoneLeftOutGrow(accounts: seq<Account>, a: Account, places: seq<nat>)
    requires NoneLeftOut(accounts, places)
    ensures !Refreshed(a) ==> NoneLeftOut(accounts + [a], places)
    ensures NoneLeftOut(accounts + [a], places + [|accounts|])
  {
    var all := accounts + [a];
    assert forall i :: 0 <= i < |accounts| ==> all[i] == accounts[i];
  }

  /** Exactly the tokens of the accounts that have one and are not to be deleted are listed, in their order. */
  lemma {:induction false} EligibleAre(accounts: seq<Account>) returns (places: seq<nat>)
    ensures TokensAt(EligibleTokens(accounts), accounts, places) && Increasing(places) && NoneLeftOut(accounts, places)
  {
    places := [];
    if accounts != [] {
      var n := |accounts| - 1;
      var a := accounts[n];
      places := EligibleAre(accounts[..n]);
      TokensGrow(EligibleTokens(accounts[..n]), accounts[..n], a, places);
      NoneLeftOutGrow(accounts[..n], a, places);
      BlankMeansTrimmedAway(a.token);
      SplitLast(accounts);
      if Refreshed(a) {
        IncreasingGrow(places, n);
        places := places + [n];
      }
    }
  }

  /** The batch size leaves some account out. */
  predicate Partial(m: nat, batchSize: int) {
    0 < batchSize < m
  }

  function CursorNext(cursor: nat, batchSize: int, m: nat): nat {
    if m == 0 then cursor
    else if !Partial(m, batchSize) then 0
    else (cursor % m + batchSize) % m
  }

  class AutoRefresh {
    var autoRefreshCursor: nat

    constructor ()
      ensures autoRefreshCursor == 0
    {
      autoRefreshCursor := 0;
    }

    /** A batch of the eligible accounts, starting where the last one ended. */
    method NextAutoRefreshTokens(accounts: seq<Account>, batchSize: int) returns (out: seq<string>)
      modifies this
      ensures autoRefreshCursor == CursorNext(old(autoRefreshCursor), batchSize, |EligibleTokens(accounts)|)
      ensures IsBatch(out, EligibleTokens(accounts), old(autoRefreshCursor), batchSize)
    {
      var eligible := Eligible(accounts);
      if |eligible| == 0 {
        return [];
      }
      if batchSize <= 0 || batchSize >= |eligible| {
        autoRefreshCursor := 0;
        return eligible;
      }
      var start := autoRefreshCursor % |eligible|;
      autoRefreshCursor := (start + batchSize) % |eligible|;
      out := From(eligible, start, batchSize);
      FromStart(out, eligible, old(autoRefreshCursor), batchSize);
    }
  }

  /** The whole list, or the given number of positions from the cursor on. */
  ghost predicate IsBatch(out: seq<string>, eligible: seq<string>, cursor: nat, batchSize: int) {
    if Partial(|eligible|, batchSize) then
      |out| == batchSize && forall i :: 0 <= i < batchSize ==> out[i] == eligible[Around(cursor, i, |eligible|)]
    else
      out == eligible
  }

  lemma FromStart(out: seq<string>, eligible: seq<string>, cursor: nat, b: nat)
    requires Partial(|eligible|, b) && IsBatch(out, eligible, cursor % |eligible|, b)
    ensures IsBatch(out, eligible, cursor, b)
  {
    forall i | 0 <= i < b ensures out[i] == eligible[Around(cursor, i, |eligible|)] {
      ModAdds(cursor, i, |eligible|);
    }
  }

  method Eligible(accounts: seq<Account>) returns (eligible: seq<string>)
    ensures eligible == EligibleTokens(accounts)
  {
    eligible := [];
    for i := 0 to |accounts|
      invariant eligible == EligibleTokens(accounts[..i])
    {
      assert accounts[..i + 1][..i] == accounts[..i];
      var token := TrimSpace(accounts[i].token);
      if token == "" || accounts[i].pendingDelete {
        continue;
      }
      eligible := eligible + [token];
    }
    assert accounts[..|accounts|] == accounts;
  }

  method From(eligible: seq<string>, start: nat, batchSize: nat) returns (out: seq<string>)
    requires Partial(|eligible|, batchSize)
    ensures IsBatch(out, eligible, start, batchSize)
  {
    out := [];
    for i := 0 to batchSize
      invariant |out| == i
      invariant forall j :: 0 <= j < i ==> out[j] == eligible[Around(start, j, |eligible|)]
    {
      out := out + [eligible[(start + i) % |eligible|]];
    }
  }

  // ---------- Fairness on a list of m accounts ----------

  /** One batch names b different positions. */
  lemma BatchIsDistinct(cursor: nat, i: nat, j: nat, b: nat, m: nat)
    requires 0 < b < m && i < j < b
    ensures Around(cursor, i, m) != Around(cursor, j, m)
  {
    LapVisitsOnce(cursor, Around(cursor, i, m), i, m);
    LapVisitsOnce(cursor, Around(cursor, i, m), j, m);
  }

  function CursorAfter(cursor: nat, b: nat, m: nat, calls: nat): nat {
    if calls == 0 then cursor else CursorNext(CursorAfter(cursor, b, m, calls - 1), b, m)
  }

  lemma ModAdds(x: nat, y: nat, m: nat)
    requires m > 0
    ensures (x % m + y) % m == (x + y) % m
  {
    var q, r := (x + y) / m, (x + y) % m;
    assert x + y == q * m + r;
    assert x == (x / m) * m + x % m;
    assert x % m + y == (q - x / m) * m + r;
    RemainderIsUnique(x % m + y, m, q - x / m, r);
  }

  lemma {:induction false} CursorAfterIs(cursor: nat, b: nat, m: nat, calls: nat, i: nat)
    requires 0 < b < m
    ensures Around(CursorAfter(cursor, b, m, calls), i, m) == (cursor + calls * b + i) % m
    decreases calls
  {
    if calls > 0 {
      var before := CursorAfter(cursor, b, m, calls - 1);
      ModAdds(before % m + b, i, m);
      ModAdds(before, b + i, m);
      CursorAfterIs(cursor, b, m, calls - 1, b + i);
      assert (calls - 1) * b + (b + i) == calls * b + i;
    }
  }

  ghost predicate Visited(cursor: nat, b: nat, m: nat, calls: nat, p: nat)
    requires m > 0
  {
    exists j: nat, i: nat :: j < calls && i < b && Around(CursorAfter(cursor, b, m, j), i, m) == p
  }

  lemma PositiveFactor(x: int, b: nat)
    requires x * b > 0
    ensures x > 0
  {
  }

  lemma QuotientBelow(d: nat, b: nat, calls: nat)
    requires 0 < b && d < calls * b
    ensures d / b < calls && d == (d / b) * b + d % b
  {
    var q := d / b;
    assert d == q * b + d % b;
    assert (calls - q) * b == calls * b - q * b;
    PositiveFactor(calls - q, b);
  }

  lemma ProductBelow(j: nat, i: nat, b: nat, calls: nat)
    requires j < calls && i < b
    ensures j * b + i < calls * b
  {
    assert calls * b == j * b + (calls - j) * b;
    assert (calls - j - 1) * b >= 0;
  }

  /** The calls visit all positions less than calls * b steps ahead of the cursor, and no others. */
  lemma VisitsAhead(cursor: nat, b: nat, m: nat, calls: nat, d: nat)
    requires 0 < b < m && d < calls * b
    ensures Visited(cursor, b, m, calls, Around(cursor, d, m))
  {
    var j, i := d / b, d % b;
    QuotientBelow(d, b, calls);
    CursorAfterIs(cursor, b, m, j, i);
    assert Around(CursorAfter(cursor, b, m, j), i, m) == Around(cursor, d, m);
  }

  lemma VisitedIsAhead(cursor: nat, b: nat, m: nat, calls: nat, p: nat) returns (d: nat)
    requires 0 < b < m && Visited(cursor, b, m, calls, p)
    ensures d < calls * b && Around(cursor, d, m) == p
  {
    var j: nat, i: nat :| j < calls && i < b && Around(CursorAfter(cursor, b, m, j), i, m) == p;
    CursorAfterIs(cursor, b, m, j, i);
    ProductBelow(j, i, b, calls);
    d := j * b + i;
  }

  /** From any cursor, a number of consecutive calls covers every account exactly when the calls name at
      least m positions together. */
  lemma CoversIff(cursor: nat, b: nat, m: nat, calls: nat)
    requires 0 < b < m
    ensures (forall p :: 0 <= p < m ==> Visited(cursor, b, m, calls, p)) <==> calls * b >= m
  {
    if calls * b >= m {
      forall p | 0 <= p < m ensures Visited(cursor, b, m, calls, p) {
        LapVisitsOnce(cursor, p, StepsTo(cursor, p, m), m);
        VisitsAhead(cursor, b, m, calls, StepsTo(cursor, p, m));
      }
    } else {
      var k := calls * b;
      var p := Around(cursor, k, m);
      if Visited(cursor, b, m, calls, p) {
        var d := VisitedIsAhead(cursor, b, m, calls, p);
        LapVisitsOnce(cursor, p, d, m);
        LapVisitsOnce(cursor, p, k, m);
      }
    }
  }
}
