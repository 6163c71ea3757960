/** The registration run loop and its accounting
    (register-executor/services/register_service.py, lines 186-194, 1065-1077, 1158-1332). */
module RegisterRun {
  import opened Common
  import opened Text

  type Reasons = map<string, int>

  // ---------- Failure reasons ----------

  /** _failure_reason_key */
  function ReasonKey(value: string): string {
    var reason := Strip(value);
    if reason != "" then reason else "unknown_error"
  }

  /** A reason is told by its text: one without outer white space is its own key, and a blank one is unknown. */
  lemma ReasonsAreTold(value: string)
    ensures value != "" && Trimmed(value, IsPySpace) ==> ReasonKey(value) == value
    ensures (forall c :: c in value ==> IsPySpace(c)) ==> ReasonKey(value) == "unknown_error"
  {
    TrimFixes(value, IsPySpace);
    TrimMembers(value, IsPySpace);
    if (forall c :: c in value ==> IsPySpace(c)) && Strip(value) != "" {
      assert Strip(value)[0] in value;
    }
  }

  /** Two different reasons are counted apart, each by the amount it was bumped by. */
  lemma BumpsOne(counts: Reasons, reason: string, amount: nat, other: string)
    requires reason != "" && Trimmed(reason, IsPySpace)
    ensures Count(Bumped(counts, reason, amount), reason) == Count(counts, reason) + amount
    ensures other != reason ==> Count(Bumped(counts, reason, amount), other) == Count(counts, other)
  {
    ReasonsAreTold(reason);
  }

  /** _bump_failure_reason */
  function Bumped(counts: Reasons, reason: string, amount: int): Reasons {
    var key := ReasonKey(reason);
    if amount <= 0 then counts else counts[key := Count(counts, key) + amount]
  }

  ghost function SumOf(counts: Reasons): int
    decreases counts.Keys
  {
    if counts == map[] then 0
    else
      var k :| k in counts;
      counts[k] + SumOf(counts - {k})
  }

  lemma {:induction false} SumSplits(counts: Reasons, k: string)
    requires k in counts
    ensures SumOf(counts) == counts[k] + SumOf(counts - {k})
    decreases counts.Keys
  {
    var x :| x in counts && SumOf(counts) == counts[x] + SumOf(counts - {x});
    if x != k {
      SumSplits(counts - {x}, k);
      SumSplits(counts - {k}, x);
      assert counts - {x} - {k} == counts - {k} - {x};
    }
  }

  lemma BumpAdds(counts: Reasons, reason: string, amount: nat)
    ensures SumOf(Bumped(counts, reason, amount)) == SumOf(counts) + amount
  {
    var key := ReasonKey(reason);
    var bumped := Bumped(counts, reason, amount);
    if amount > 0 {
      SumSplits(bumped, key);
      assert bumped - {key} == counts - {key};
      if key in counts {
        SumSplits(counts, key);
      } else {
        assert counts - {key} == counts;
      }
    }
  }

  /** The reasons grow by one for each failure in `blame`. */
  ghost predicate Adds(before: Reasons, after: Reasons, blame: multiset<string>) {
    forall key :: Count(after, key) == Count(before, key) + blame[key]
  }

  // ---------- One worker's result ----------

  /** What a worker hands back. An unreadable result is a failure of its own; `trouble` is the error that
      recording the per-source statistics may raise afterwards. */
  datatype Result =
    | Registered(usable: bool, saved: bool, refreshFailed: bool, tokenAcquired: bool, trouble: Option<string>)
    | Stopped(refreshFailed: bool, tokenAcquired: bool)
    | Failed(reason: string, refreshFailed: bool, tokenAcquired: bool, trouble: Option<string>)
    | Raised(error: string)

  /** The counters of a run. */
  datatype Tally = Tally(
    submitted: nat, done: nat, success: nat, usable: nat, fail: nat,
    saved: nat, refreshFailed: nat, tokenRefreshFailed: nat,
    reasons: Reasons, stoppedReason: string)

  const STALL_REASON := "register_task_stalled"

  const START := Tally(0, 0, 0, 0, 0, 0, 0, 0, map[], "")

  type Future = nat

  /** One future settled: in which turn, with which result, and whether the run had been stopped for a stall. */
  datatype Settlement = Settlement(turn: nat, future: Future, result: Result, stalled: bool)

  /** The history of a run, which the program does not keep: what settled, in order, and how many futures were
      cancelled by the user's stop and by a stall. */
  datatype Books = Books(settled: seq<Settlement>, cancelled: nat, dropped: nat)

  const NO_BOOKS := Books([], 0, 0)

  function TroubleOf(result: Result): Option<string> {
    match result
    case Registered(_, _, _, _, trouble) => trouble
    case Failed(_, _, _, trouble) => trouble
    case _ => None
  }

  function One(b: bool): nat {
    if b then 1 else 0
  }

  function RefreshFailed(r: Result): bool {
    match r
    case Registered(_, _, failed, _, _) => failed
    case Stopped(failed, _) => failed
    case Failed(_, failed, _, _) => failed
    case Raised(_) => false
  }

  function TokenRefreshFailed(r: Result): bool {
    match r
    case Registered(_, _, failed, token, _) => failed && token
    case Stopped(failed, token) => failed && token
    case Failed(_, failed, token, _) => failed && token
    case Raised(_) => false
  }

  /** What one settled future counts for. */
  function Successes(e: Settlement): nat { One(e.result.Registered?) }

  function Usables(e: Settlement): nat { One(e.result.Registered? && e.result.usable) }

  function Saves(e: Settlement): nat { One(e.result.Registered? && e.result.saved) }

  function Troubles(e: Settlement): nat { One(TroubleOf(e.result).Some?) }

  /** A worker stopped by the user counts neither as a success nor as a failure. */
  function Silences(e: Settlement): nat { One(e.result.Stopped? && !e.stalled) }

  function Failures(e: Settlement): nat {
    One(e.result.Failed? || e.result.Raised? || (e.result.Stopped? && e.stalled)) + Troubles(e)
  }

  /** The reasons a settled future is counted under: that of its result, and the error raised afterwards. */
  function Fault(e: Settlement): multiset<string> {
    match e.result
    case Failed(reason, _, _, _) => multiset{ReasonKey(reason)}
    case Raised(error) => multiset{ReasonKey(error)}
    case Stopped(_, _) => if e.stalled then multiset{ReasonKey(STALL_REASON)} else multiset{}
    case Registered(_, _, _, _, _) => multiset{}
  }

  function Blame(e: Settlement): multiset<string> {
    var trouble := TroubleOf(e.result);
    Fault(e) + if trouble.Some? then multiset{ReasonKey(trouble.value)} else multiset{}
  }

  function Blames(log: seq<Settlement>): multiset<string> {
    if log == [] then multiset{} else Blames(log[..|log| - 1]) + Blame(log[|log| - 1])
  }

  lemma BlamesAppends(log: seq<Settlement>, e: Settlement)
    ensures Blames(log + [e]) == Blames(log) + Blame(e)
  {
    assert (log + [e])[..|log|] == log;
  }

  function RefreshFailures(e: Settlement): nat { One(RefreshFailed(e.result)) }

  function TokenRefreshFailures(e: Settlement): nat { One(TokenRefreshFailed(e.result)) }

  function Over(log: seq<Settlement>, weight: Settlement -> nat): nat {
    if log == [] then 0 else Over(log[..|log| - 1], weight) + weight(log[|log| - 1])
  }

  lemma OverAppends(log: seq<Settlement>, e: Settlement, weight: Settlement -> nat)
    ensures Over(log + [e], weight) == Over(log, weight) + weight(e)
  {
    assert (log + [e])[..|log|] == log;
  }

  /** The books of a run with `running` futures outstanding: every counter is what the settled results and
      the dropped futures make it. */
  ghost predicate Balanced(t: Tally, running: nat, b: Books) {
    && t.submitted == t.done + running
    && t.done == |b.settled| + b.cancelled + b.dropped
    && t.success == Over(b.settled, Successes)
    && t.fail == Over(b.settled, Failures) + b.dropped == SumOf(t.reasons)
    && Minor(t, b.settled)
  }

  /** The failures are counted under their reasons. */
  ghost predicate Told(t: Tally, b: Books) {
    && Adds(map[], t.reasons, Blames(b.settled) + multiset{}[ReasonKey(STALL_REASON) := b.dropped])
    && (t.stoppedReason == "" || t.stoppedReason == STALL_REASON)
  }

  lemma ToldOn(t: Tally, b: Books, after: Tally, e: Settlement)
    requires Told(t, b) && Adds(t.reasons, after.reasons, Blame(e)) && after.stoppedReason == t.stoppedReason
    ensures Told(after, b.(settled := b.settled + [e]))
  {
    BlamesAppends(b.settled, e);
  }

  lemma AddsTwice(a: Reasons, b: Reasons, c: Reasons, one: multiset<string>, two: multiset<string>)
    requires Adds(a, b, one) && Adds(b, c, two)
    ensures Adds(a, c, one + two)
  {
  }

  ghost predicate Minor(t: Tally, log: seq<Settlement>) {
    && t.usable == Over(log, Usables) && t.saved == Over(log, Saves)
    && t.refreshFailed == Over(log, RefreshFailures) && t.tokenRefreshFailed == Over(log, TokenRefreshFailures)
  }

  lemma {:induction false} EachCountsOnce(log: seq<Settlement>)
    ensures |log| + Over(log, Troubles) == Over(log, Successes) + Over(log, Failures) + Over(log, Silences)
  {
    if log != [] {
      EachCountsOnce(log[..|log| - 1]);
    }
  }

  lemma {:induction false} NoTrouble(log: seq<Settlement>)
    ensures Over(log, Troubles) == 0 <==> forall i :: 0 <= i < |log| ==> TroubleOf(log[i].result).None?
  {
    if log != [] {
      NoTrouble(log[..|log| - 1]);
    }
  }

  /** The settled results of one kind. */
  function Those(log: seq<Settlement>, kind: Settlement -> bool): set<nat> {
    set i | 0 <= i < |log| && kind(log[i])
  }

  lemma {:induction false} OverCounts(log: seq<Settlement>, weight: Settlement -> nat, kind: Settlement -> bool)
    requires forall e :: weight(e) == if kind(e) then 1 else 0
    ensures Over(log, weight) == |Those(log, kind)|
  {
    if log != [] {
      var n := |log| - 1;
      OverCounts(log[..n], weight, kind);
      assert Those(log, kind) == Those(log[..n], kind) + if kind(log[n]) then {n} else {};
    }
  }

  lemma {:induction false} OverSum(log: seq<Settlement>, a: Settlement -> nat, b: Settlement -> nat,
                                   c: Settlement -> nat)
    requires forall e :: a(e) == b(e) + c(e)
    ensures Over(log, a) == Over(log, b) + Over(log, c)
  {
    if log != [] {
      OverSum(log[..|log| - 1], a, b, c);
    }
  }

  /** A failure is a failed or raising worker, or one that stopped after a stall; a future that had not started when
      a stall was noticed; and, besides, every error that recording statistics raised. */
  lemma FailuresCount(t: Tally, running: nat, b: Books)
    requires Balanced(t, running, b)
    ensures t.fail == b.dropped
                    + |set i | 0 <= i < |b.settled| &&
                         (b.settled[i].result.Failed? || b.settled[i].result.Raised?
                          || (b.settled[i].result.Stopped? && b.settled[i].stalled))|
                    + |set i | 0 <= i < |b.settled| && TroubleOf(b.settled[i].result).Some?|
  {
    var log := b.settled;
    var failed := (e: Settlement) => e.result.Failed? || e.result.Raised? || (e.result.Stopped? && e.stalled);
    var weight: Settlement -> nat := (e: Settlement) => if failed(e) then 1 else 0;
    var trouble := (e: Settlement) => TroubleOf(e.result).Some?;
    OverSum(log, Failures, weight, Troubles);
    OverCounts(log, weight, failed);
    OverCounts(log, Troubles, trouble);
    assert Those(log, failed) == set i | 0 <= i < |log| &&
             (log[i].result.Failed? || log[i].result.Raised? || (log[i].result.Stopped? && log[i].stalled));
    assert Those(log, trouble) == set i | 0 <= i < |log| && TroubleOf(log[i].result).Some?;
  }

  /** Each counter is the number of settled results of its kind. */
  lemma CountersCount(t: Tally, running: nat, b: Books)
    requires Balanced(t, running, b)
    ensures t.success == |set i | 0 <= i < |b.settled| && b.settled[i].result.Registered?|
    ensures t.usable == |set i | 0 <= i < |b.settled| && b.settled[i].result.Registered? && b.settled[i].result.usable|
    ensures t.saved == |set i | 0 <= i < |b.settled| && b.settled[i].result.Registered? && b.settled[i].result.saved|
  {
    var success := (e: Settlement) => e.result.Registered?;
    var usable := (e: Settlement) => e.result.Registered? && e.result.usable;
    var saved := (e: Settlement) => e.result.Registered? && e.result.saved;
    OverCounts(b.settled, Successes, success);
    OverCounts(b.settled, Usables, usable);
    OverCounts(b.settled, Saves, saved);
    var log := b.settled;
    assert Those(log, success) == set i | 0 <= i < |log| && log[i].result.Registered?;
    assert Those(log, usable) == set i | 0 <= i < |log| && log[i].result.Registered? && log[i].result.usable;
    assert Those(log, saved) == set i | 0 <= i < |log| && log[i].result.Registered? && log[i].result.saved;
  }

  /** The law one would expect: everything done has succeeded, failed, was stopped or was cancelled. */
  ghost predicate PlainLaw(t: Tally, b: Books) {
    t.done == t.success + t.fail + Over(b.settled, Silences) + b.cancelled
  }

  ghost predicate Untroubled(b: Books) {
    forall i :: 0 <= i < |b.settled| ==> TroubleOf(b.settled[i].result).None?
  }

  /** It holds exactly when recording the statistics raised for no settled result. */
  lemma PlainAccounting(t: Tally, running: nat, b: Books)
    requires Balanced(t, running, b)
    ensures PlainLaw(t, b) <==> Untroubled(b)
  {
    EachCountsOnce(b.settled);
    NoTrouble(b.settled);
  }

  function Failing(t: Tally, reason: string, amount: nat): Tally {
    t.(fail := t.fail + amount, reasons := Bumped(t.reasons, reason, amount))
  }

  function Refreshing(t: Tally, refreshFailed: bool, tokenAcquired: bool): Tally {
    t.(refreshFailed := t.refreshFailed + One(refreshFailed),
       tokenRefreshFailed := t.tokenRefreshFailed + One(refreshFailed && tokenAcquired))
  }

  lemma FailingBalances(t: Tally, reason: string, amount: nat)
    ensures SumOf(Failing(t, reason, amount).reasons) == SumOf(t.reasons) + amount
    ensures Adds(t.reasons, Failing(t, reason, amount).reasons, multiset{}[ReasonKey(reason) := amount])
  {
    BumpAdds(t.reasons, reason, amount);
  }

  /** record_worker_result, up to the per-source statistics. */
  method CountResult(before: Tally, result: Result, ghost e: Settlement) returns (t: Tally)
    requires before.stoppedReason == "" || before.stoppedReason == STALL_REASON
    requires e.result == result && e.stalled == (before.stoppedReason != "")
    ensures t.submitted == before.submitted && t.done == before.done && t.stoppedReason == before.stoppedReason
    ensures t.success == before.success + Successes(e)
    ensures t.usable == before.usable + Usables(e) && t.saved == before.saved + Saves(e)
    ensures t.refreshFailed == before.refreshFailed + RefreshFailures(e)
    ensures t.tokenRefreshFailed == before.tokenRefreshFailed + TokenRefreshFailures(e)
    ensures t.fail == before.fail + Failures(e) - Troubles(e)
    ensures SumOf(t.reasons) == SumOf(before.reasons) + Failures(e) - Troubles(e)
    ensures Adds(before.reasons, t.reasons, Fault(e))
  {
    match result {
      case Registered(usable, saved, refreshFailed, tokenAcquired, _) =>
        t := Refreshing(before, refreshFailed, tokenAcquired);
        t := t.(success := t.success + 1);
        if usable {
          t := t.(usable := t.usable + 1);
        }
        if saved {
          t := t.(saved := t.saved + 1);
        }
      case Stopped(refreshFailed, tokenAcquired) =>
        t := Refreshing(before, refreshFailed, tokenAcquired);
        if t.stoppedReason != "" {
          FailingBalances(t, t.stoppedReason, 1);
          t := Failing(t, t.stoppedReason, 1);
        }
      case Failed(reason, refreshFailed, tokenAcquired, _) =>
        t := Refreshing(before, refreshFailed, tokenAcquired);
        FailingBalances(t, reason, 1);
        t := Failing(t, reason, 1);
      case Raised(error) =>
        FailingBalances(before, error, 1);
        t := Failing(before, error, 1);
    }
  }

  lemma SettlingBooks(log: seq<Settlement>, e: Settlement)
    ensures var l := log + [e];
            && Over(l, Successes) == Over(log, Successes) + Successes(e)
            && Over(l, Failures) == Over(log, Failures) + Failures(e)
            && Over(l, Usables) == Over(log, Usables) + Usables(e)
            && Over(l, Saves) == Over(log, Saves) + Saves(e)
            && Over(l, RefreshFailures) == Over(log, RefreshFailures) + RefreshFailures(e)
            && Over(l, TokenRefreshFailures) == Over(log, TokenRefreshFailures) + TokenRefreshFailures(e)
  {
    OverAppends(log, e, Successes);
    OverAppends(log, e, Failures);
    OverAppends(log, e, Usables);
    OverAppends(log, e, Saves);
    OverAppends(log, e, RefreshFailures);
    OverAppends(log, e, TokenRefreshFailures);
  }

  /** The future of `e` has been counted. */
  ghost predicate Records(before: Tally, t: Tally, e: Settlement) {
    && t.submitted == before.submitted && t.done == before.done + 1 && t.stoppedReason == before.stoppedReason
    && t.success == before.success + Successes(e)
    && t.usable == before.usable + Usables(e) && t.saved == before.saved + Saves(e)
    && t.refreshFailed == before.refreshFailed + RefreshFailures(e)
    && t.tokenRefreshFailed == before.tokenRefreshFailed + TokenRefreshFailures(e)
    && t.fail == before.fail + Failures(e)
    && SumOf(t.reasons) == SumOf(before.reasons) + Failures(e)
    && Adds(before.reasons, t.reasons, Blame(e))
  }

  lemma RecordsBalance(before: Tally, t: Tally, e: Settlement, running: nat, b: Books)
    requires running > 0 && Balanced(before, running, b) && Told(before, b) && Records(before, t, e)
    ensures Balanced(t, running - 1, b.(settled := b.settled + [e])) && Told(t, b.(settled := b.settled + [e]))
  {
    SettlingBooks(b.settled, e);
    ToldOn(before, b, t, e);
  }

  /** One turn of the loop over the finished futures: the future is settled once, under its result. */
  method RecordResult(before: Tally, result: Result, ghost e: Settlement) returns (t: Tally)
    requires before.stoppedReason == "" || before.stoppedReason == STALL_REASON
    requires e.result == result && e.stalled == (before.stoppedReason != "")
    ensures Records(before, t, e)
  {
    t := CountResult(before.(done := before.done + 1), result, e);
    var trouble := TroubleOf(result);
    if trouble.Some? {
      ghost var counted := t.reasons;
      FailingBalances(t, trouble.value, 1);
      t := Failing(t, trouble.value, 1);
      AddsTwice(before.reasons, counted, t.reasons, Fault(e), multiset{ReasonKey(trouble.value)});
    }
  }

  /** The law fails for a run of one worker that reports a rejected domain when writing the blacklist raises:
      one future is done and two failures are counted. */
  lemma RejectedDomainCountsTwice()
    ensures var (t, b) := (Twice(), Books([Rejection()], 0, 0));
            Balanced(t, 0, b) && t.fail == 2 && !PlainLaw(t, b)
  {
    FailingBalances(START, REJECTED, 1);
    FailingBalances(Failing(START, REJECTED, 1), DISK_FULL, 1);
    SettlingBooks([], Rejection());
    assert [] + [Rejection()] == [Rejection()];
    PlainAccounting(Twice(), 0, Books([Rejection()], 0, 0));
    assert TroubleOf(Books([Rejection()], 0, 0).settled[0].result).Some?;
  }

  const REJECTED := "unsupported_email"
  const DISK_FULL := "[Errno 28] No space left on device"

  function Rejection(): Settlement {
    Settlement(0, 1, Failed(REJECTED, false, false, Some(DISK_FULL)), false)
  }

  function Twice(): Tally {
    Failing(Failing(START, REJECTED, 1), DISK_FULL, 1).(submitted := 1, done := 1)
  }

  // ---------- Futures ----------

  /** _cancel_pending_futures: `stuck` are the futures already running. */
  method CancelPendingFutures(futures: set<Future>, stuck: set<Future>) returns (remaining: set<Future>, cancelled: nat)
    ensures remaining == futures * stuck && cancelled == |futures| - |remaining|
  {
    remaining, cancelled := {}, 0;
    var left := futures;
    while left != {}
      invariant left <= futures && remaining == (futures - left) * stuck
      invariant cancelled + |remaining| + |left| == |futures|
      decreases left
    {
      var f :| f in left;
      left := left - {f};
      if f !in stuck {
        cancelled := cancelled + 1;
      } else {
        remaining := remaining + {f};
      }
    }
    assert futures - left == futures;
  }

  // ---------- The loop ----------

  datatype Mode = TotalMode | QuotaMode | AvailableMode

  datatype Cfg = Cfg(mode: Mode, total: int)

  /** What one check of the submission loop's condition sees. */
  datatype Probe = Probe(enabled: bool, stop: bool, poolReady: bool)

  /** What one turn of the main loop sees: the configuration in force, the stop event, whether workers have
      stalled, which futures cannot be cancelled any more, what has finished and with which results. */
  datatype Round = Round(
    cfg: Cfg, stop: bool, stalled: bool, stuck: set<Future>,
    probes: nat -> Probe, enabled: bool, stoppedWaiting: bool,
    finished: set<Future>, results: Future -> Result)

  function Limit(cfg: Cfg): int {
    if cfg.total == 0 then 1 else cfg.total
  }

  /** _target_reached */
  predicate TargetReached(cfg: Cfg, submitted: nat, poolReady: bool) {
    if cfg.mode == TotalMode then submitted >= Limit(cfg) else poolReady
  }

  datatype RunState = RunState(tally: Tally, futures: set<Future>, shutdown: bool, stop: bool)

  ghost predicate Sound(s: RunState, threads: nat, b: Books) {
    && Accounted(s.tally, s.futures, threads, b)
    && (s.shutdown ==> s.stop) && (!s.shutdown ==> b.cancelled == 0 && b.dropped == 0)
  }

  /** Every submitted future is outstanding or accounted for once. */
  ghost predicate Accounted(t: Tally, futures: set<Future>, threads: nat, b: Books) {
    && Balanced(t, |futures|, b) && Told(t, b) && |futures| <= threads
    && (forall f :: f in futures ==> 1 <= f <= t.submitted)
    && SettledOnce(b.settled, futures, t.submitted)
  }

  /** No future settles twice or while it is outstanding. */
  ghost predicate SettledOnce(log: seq<Settlement>, futures: set<Future>, submitted: nat) {
    && (forall i :: 0 <= i < |log| ==> 1 <= log[i].future <= submitted && log[i].future !in futures)
    && forall i, j :: 0 <= i < j < |log| ==> log[i].future != log[j].future
  }

  lemma FewerFutures(log: seq<Settlement>, futures: set<Future>, fewer: set<Future>, submitted: nat)
    requires SettledOnce(log, futures, submitted) && fewer <= futures
    ensures SettledOnce(log, fewer, submitted)
  {
  }

  lemma OneSettled(log: seq<Settlement>, futures: set<Future>, submitted: nat, e: Settlement)
    requires SettledOnce(log, futures, submitted) && e.future in futures && 1 <= e.future <= submitted
    ensures SettledOnce(log + [e], futures - {e.future}, submitted)
  {
  }

  lemma NewFuture(log: seq<Settlement>, futures: set<Future>, submitted: nat)
    requires SettledOnce(log, futures, submitted)
    ensures SettledOnce(log, futures + {submitted + 1}, submitted + 1)
  {
  }

  lemma StallIsAccounted(t: Tally, futures: set<Future>, remaining: set<Future>, gone: nat, threads: nat, b: Books)
    requires Accounted(t, futures, threads, b) && remaining <= futures && gone + |remaining| == |futures|
    requires b.dropped == 0
    ensures Accounted(Stalled(t, gone), remaining, threads, b.(dropped := gone))
  {
    FailingBalances(t, STALL_REASON, gone);
    FewerFutures(b.settled, futures, remaining, t.submitted);
  }

  /** The user's stop: what has not started is cancelled, once. */
  method StopByUser(s: RunState, stuck: set<Future>, ghost threads: nat, ghost b: Books)
    returns (r: RunState, ghost c: Books)
    requires Sound(s, threads, b) && s.stop
    ensures Sound(r, threads, c) && r.shutdown && r.futures == if s.shutdown then s.futures else s.futures * stuck
    ensures s.shutdown ==> r == s && c == b
    ensures !s.shutdown ==>
              && r.tally == s.tally.(done := r.tally.done, stoppedReason := "")
              && r.tally.done + |r.futures| == s.tally.done + |s.futures|
    ensures !s.shutdown ==> c == b.(cancelled := c.cancelled) && c.cancelled + |r.futures| == |s.futures|
  {
    if s.shutdown {
      return s, b;
    }
    var remaining, cancelled := CancelPendingFutures(s.futures, stuck);
    FewerFutures(b.settled, s.futures, remaining, s.tally.submitted);
    c := b.(cancelled := cancelled);
    r := RunState(s.tally.(done := s.tally.done + cancelled, stoppedReason := ""), remaining, true, true);
  }

  /** A stall: what has not started fails for that reason, and so does what the running workers give up. */
  method StopForStall(s: RunState, stuck: set<Future>, ghost threads: nat, ghost b: Books)
    returns (r: RunState, ghost c: Books)
    requires Sound(s, threads, b) && !s.shutdown
    ensures Sound(r, threads, c) && r.shutdown && r.futures == s.futures * stuck
    ensures c == b.(dropped := c.dropped) && c.dropped + |r.futures| == |s.futures|
    ensures r.tally == Stalled(s.tally, c.dropped)
  {
    var remaining, cancelled := CancelPendingFutures(s.futures, stuck);
    StallIsAccounted(s.tally, s.futures, remaining, cancelled, threads, b);
    c := b.(dropped := cancelled);
    r := RunState(Stalled(s.tally, cancelled), remaining, true, true);
  }

  function Stalled(t: Tally, cancelled: nat): Tally {
    Failing(t, STALL_REASON, cancelled).(done := t.done + cancelled, stoppedReason := STALL_REASON)
  }

  /** Whether the submission loop goes on after `k` submissions. */
  predicate Admits(s: RunState, cfg: Cfg, probe: Probe, threads: nat, k: nat) {
    && probe.enabled && !s.stop && !probe.stop
    && !TargetReached(cfg, s.tally.submitted + k, probe.poolReady) && |s.futures| + k < threads
  }

  /** One submission. */
  function Submitted(s: RunState): RunState {
    var number := s.tally.submitted + 1;
    s.(tally := s.tally.(submitted := number), futures := s.futures + {number})
  }

  /** `k` submissions. */
  function Grown(s: RunState, k: nat): RunState {
    if k == 0 then s else Submitted(Grown(s, k - 1))
  }

  /** They add the next `k` futures, and change nothing else. */
  lemma {:induction false} GrownIs(s: RunState, k: nat)
    ensures Grown(s, k) == s.(tally := s.tally.(submitted := s.tally.submitted + k), futures := Grown(s, k).futures)
    ensures forall f :: f in Grown(s, k).futures <==>
                          f in s.futures || s.tally.submitted < f <= s.tally.submitted + k
  {
    if k > 0 {
      GrownIs(s, k - 1);
    }
  }

  /** The first `k` submissions are admitted. */
  ghost predicate AllAdmitted(s: RunState, cfg: Cfg, probes: nat -> Probe, threads: nat, k: nat) {
    forall j: nat :: j < k ==> Admits(s, cfg, probes(j), threads, j)
  }

  /** The submission loop has made `k` submissions: each was admitted, and the next one is not. */
  ghost predicate Submits(s: RunState, cfg: Cfg, probes: nat -> Probe, threads: nat, k: nat) {
    AllAdmitted(s, cfg, probes, threads, k) && !Admits(s, cfg, probes(k), threads, k)
  }

  lemma OneMoreAdmitted(s: RunState, cfg: Cfg, probes: nat -> Probe, threads: nat, k: nat)
    requires AllAdmitted(s, cfg, probes, threads, k) && Admits(s, cfg, probes(k), threads, k)
    ensures AllAdmitted(s, cfg, probes, threads, k + 1)
  {
  }

  lemma SubmittedIsSound(s: RunState, threads: nat, b: Books)
    requires Sound(s, threads, b) && |s.futures| < threads
    ensures Sound(Submitted(s), threads, b)
  {
    NewFuture(b.settled, s.futures, s.tally.submitted);
    assert s.tally.submitted + 1 !in s.futures;
  }

  /** Every admitted submission adds one future, within the threads. */
  lemma {:induction false} GrownIsSound(s: RunState, cfg: Cfg, probes: nat -> Probe, k: nat, threads: nat, b: Books)
    requires Sound(s, threads, b) && AllAdmitted(s, cfg, probes, threads, k)
    ensures Sound(Grown(s, k), threads, b) && |Grown(s, k).futures| == |s.futures| + k
  {
    if k > 0 {
      GrownIsSound(s, cfg, probes, k - 1, threads, b);
      assert Admits(s, cfg, probes(k - 1), threads, k - 1);
      SubmittedIsSound(Grown(s, k - 1), threads, b);
    }
    GrownIs(s, k);
  }

  /** The submission loop. */
  method Submit(s: RunState, cfg: Cfg, probes: nat -> Probe, threads: nat, ghost b: Books)
    returns (r: RunState, ghost k: nat)
    requires Sound(s, threads, b)
    ensures Sound(r, threads, b)
    ensures Submits(s, cfg, probes, threads, k) && r == Grown(s, k).(stop := s.stop || probes(k).stop)
  {
    r, k := SubmitAll(s, cfg, probes, threads, b);
    GrownIsSound(s, cfg, probes, k, threads, b);
    GrownIs(s, k);
  }

  method SubmitAll(s: RunState, cfg: Cfg, probes: nat -> Probe, threads: nat, ghost b: Books)
    returns (r: RunState, ghost k: nat)
    requires Sound(s, threads, b)
    ensures Submits(s, cfg, probes, threads, k) && r == Grown(s, k).(stop := s.stop || probes(k).stop)
  {
    r, k := s, 0;
    var check := 0;
    while true
      invariant check == k && r == Grown(s, k)
      invariant AllAdmitted(s, cfg, probes, threads, k)
      decreases threads - k
    {
      var probe := probes(check);
      check := check + 1;
      GrownIsSound(s, cfg, probes, k, threads, b);
      GrownIs(s, k);
      if !probe.enabled || r.stop || probe.stop {
        r := r.(stop := r.stop || probe.stop);
        return;
      }
      if TargetReached(cfg, r.tally.submitted, probe.poolReady) || |r.futures| >= threads {
        return;
      }
      OneMoreAdmitted(s, cfg, probes, threads, k);
      r, k := Submitted(r), k + 1;
    }
  }

  /** Each entry from `from` on is the result that this turn gave a future that had finished. */
  ghost predicate Given(log: seq<Settlement>, from: nat, turn: nat, finished: set<Future>, results: Future -> Result) {
    forall i :: from <= i < |log| ==>
      log[i].turn == turn && log[i].future in finished && log[i].result == results(log[i].future)
  }

  /** Since `b` only results of this turn have been written down. */
  ghost predicate Extends(b: Books, c: Books, turn: nat, finished: set<Future>, results: Future -> Result) {
    c == b.(settled := c.settled) && b.settled <= c.settled && Given(c.settled, |b.settled|, turn, finished, results)
  }

  lemma ExtendsOn(start: Books, b: Books, c: Books, turn: nat, finished: set<Future>,
                    results: Future -> Result, e: Settlement)
    requires Extends(start, b, turn, finished, results) && e.turn == turn
             && e.future in finished && e.result == results(e.future)
    requires c == b.(settled := b.settled + [e])
    ensures Extends(start, c, turn, finished, results)
  {
  }

  /** The loop over the futures that have finished. */
  method Settle(s: RunState, finished: set<Future>, results: Future -> Result,
                  ghost threads: nat, ghost b: Books, ghost turn: nat)
    returns (r: RunState, ghost c: Books)
    requires Sound(s, threads, b)
    ensures Sound(r, threads, c) && r == s.(tally := r.tally, futures := s.futures - finished)
    ensures r.tally.submitted == s.tally.submitted
    ensures Extends(b, c, turn, finished, results)
  {
    r, c := s, b;
    var left := s.futures * finished;
    while left != {}
      invariant left <= s.futures * finished && r.futures == s.futures - finished + left
      invariant Sound(r, threads, c) && r == s.(tally := r.tally, futures := r.futures)
      invariant r.tally.submitted == s.tally.submitted
      invariant Extends(b, c, turn, finished, results)
      decreases left
    {
      var f :| f in left;
      r, c := SettleOne(r, f, results(f), threads, c, b, turn, finished, results);
      OneLess(s.futures - finished, left, f);
      left := left - {f};
    }
  }

  lemma OneLess(kept: set<Future>, left: set<Future>, f: Future)
    requires f in left && kept !! left
    ensures kept + left - {f} == kept + (left - {f})
  {
  }

  lemma SoundOn(s: RunState, t: Tally, threads: nat, b: Books, e: Settlement)
    requires Sound(s, threads, b) && e.future in s.futures && Records(s.tally, t, e)
    ensures Sound(s.(tally := t, futures := s.futures - {e.future}), threads, b.(settled := b.settled + [e]))
  {
    RecordsBalance(s.tally, t, e, |s.futures|, b);
    OneSettled(b.settled, s.futures, s.tally.submitted, e);
  }

  method SettleOne(s: RunState, f: Future, result: Result, ghost threads: nat, ghost b: Books,
                   ghost start: Books, ghost turn: nat, ghost finished: set<Future>, ghost results: Future -> Result)
    returns (r: RunState, ghost c: Books)
    requires Sound(s, threads, b) && f in s.futures
    requires Extends(start, b, turn, finished, results) && f in finished && result == results(f)
    ensures Sound(r, threads, c) && r == s.(tally := r.tally, futures := s.futures - {f})
    ensures r.tally.submitted == s.tally.submitted
            && Records(s.tally, r.tally, Settlement(turn, f, result, s.tally.stoppedReason != ""))
    ensures Extends(start, c, turn, finished, results)
  {
    ghost var e := Settlement(turn, f, result, s.tally.stoppedReason != "");
    var t := RecordResult(s.tally, result, e);
    SoundOn(s, t, threads, b, e);
    c := b.(settled := b.settled + [e]);
    ExtendsOn(start, b, c, turn, finished, results, e);
    r := s.(tally := t, futures := s.futures - {f});
  }

  datatype Next = Goes | Ends

  /** The stop event or a stall is noticed in this turn. */
  predicate Halts(s: RunState, round: Round) {
    s.stop || round.stop || round.stalled
  }

  /** The futures left once a stop or a stall has been dealt with. */
  function Kept(s: RunState, round: Round): set<Future> {
    if s.shutdown then s.futures else s.futures * round.stuck
  }

  /** A turn that halts: what can be cancelled is, and nothing is submitted. */
  ghost predicate HaltMeans(s: RunState, b: Books, round: Round, r: RunState, next: Next, c: Books) {
    var gone := |s.futures| - |Kept(s, round)|;
    && r.shutdown && r.stop && r.tally.submitted == s.tally.submitted && (next.Ends? <==> Kept(s, round) == {})
    && c.cancelled == b.cancelled + (if s.stop || round.stop then gone else 0)
    && c.dropped == b.dropped + (if s.stop || round.stop then 0 else gone)
  }

  /** Any other turn: as many futures as the checks admit are submitted, and what has finished is settled. */
  ghost predicate WorkMeans(s: RunState, b: Books, round: Round, threads: nat, r: RunState, next: Next, c: Books) {
    r.tally.submitted >= s.tally.submitted &&
    var k := r.tally.submitted - s.tally.submitted;
    var all := Grown(s, k).futures;
    var waits := all == {} && round.enabled && round.cfg.mode != TotalMode;
    && Submits(s, round.cfg, round.probes, threads, k)
    && r.shutdown == s.shutdown && c.cancelled == b.cancelled && c.dropped == b.dropped
    && (r.stop <==> round.probes(k).stop || (waits && round.stoppedWaiting))
    && r.futures == all - round.finished
    && (next.Ends? <==> all == {} && !(waits && !round.stoppedWaiting))
  }

  ghost predicate TurnMeans(s: RunState, b: Books, round: Round, threads: nat, r: RunState, next: Next, c: Books) {
    if Halts(s, round) then
      HaltMeans(s, b, round, r, next, c) && r.futures == Kept(s, round) - round.finished
    else
      WorkMeans(s, b, round, threads, r, next, c)
  }

  /** The first part of a turn: the stop event and a stall. */
  method Halt(s: RunState, round: Round, threads: nat, ghost b: Books) returns (r: RunState, next: Next, ghost c: Books)
    requires Sound(s, threads, b)
    ensures Sound(r, threads, c) && c.settled == b.settled
    ensures !Halts(s, round) ==> r == s && c == b && next.Goes?
    ensures Halts(s, round) ==> HaltMeans(s, b, round, r, next, c) && r.futures == Kept(s, round)
  {
    r, next, c := s.(stop := s.stop || round.stop), Goes, b;
    if r.stop {
      r, c := StopByUser(r, round.stuck, threads, c);
      if r.futures == {} {
        return r, Ends, c;
      }
    }
    if !r.shutdown && round.stalled {
      r, c := StopForStall(r, round.stuck, threads, c);
      if r.futures == {} {
        return r, Ends, c;
      }
    }
  }

  /** The rest of a turn. */
  method Work(s: RunState, round: Round, threads: nat, ghost b: Books, ghost turn: nat)
    returns (r: RunState, next: Next, ghost c: Books)
    requires Sound(s, threads, b) && (s.stop ==> s.futures != {})
    ensures Sound(r, threads, c) && Extends(b, c, turn, round.finished, round.results)
    ensures s.stop ==>
              && r.tally.submitted == s.tally.submitted && r.stop && r.shutdown == s.shutdown
              && r.futures == s.futures - round.finished && next.Goes?
    ensures !s.stop ==> WorkMeans(s, b, round, threads, r, next, c)
  {
    ghost var k;
    r, k := Submit(s, round.cfg, round.probes, threads, b);
    GrownIs(s, k);
    assert k > 0 ==> Admits(s, round.cfg, round.probes(0), threads, 0);
    c := b;
    if r.futures == {} && (!round.enabled || round.cfg.mode == TotalMode) {
      return r, Ends, c;
    }
    if r.futures == {} {
      r := r.(stop := r.stop || round.stoppedWaiting);
      return r, if round.stoppedWaiting then Ends else Goes, c;
    }
    r, c := Settle(r, round.finished, round.results, threads, c, turn);
    next := Goes;
  }

  /** One turn of the main loop. It ends the run only with no future left. */
  method Turn(s: RunState, round: Round, threads: nat, ghost b: Books, ghost turn: nat)
    returns (r: RunState, next: Next, ghost c: Books)
    requires Sound(s, threads, b)
    ensures Sound(r, threads, c) && TurnMeans(s, b, round, threads, r, next, c)
    ensures Extends(b.(cancelled := c.cancelled, dropped := c.dropped), c, turn, round.finished, round.results)
  {
    r, next, c := Halt(s, round, threads, b);
    if next.Ends? {
      return;
    }
    r, next, c := Work(r, round, threads, c, turn);
  }

  /** Total mode throughout, with totals of at most `most`. */
  ghost predicate TotalAtMost(rounds: seq<Round>, most: nat) {
    forall i :: 0 <= i < |rounds| ==> rounds[i].cfg.mode == TotalMode && rounds[i].cfg.total <= most && 1 <= most
  }

  /** Every settled result is one that a turn of the run gave. */
  ghost predicate FromRounds(log: seq<Settlement>, rounds: seq<Round>) {
    forall i :: 0 <= i < |log| ==>
      var e := log[i];
      e.turn < |rounds| && e.future in rounds[e.turn].finished && e.result == rounds[e.turn].results(e.future)
  }

  const BEGIN := RunState(START, {}, false, false)

  lemma BeginIsSound(threads: nat, rounds: seq<Round>)
    ensures Sound(BEGIN, threads, NO_BOOKS) && FromRounds([], rounds)
    ensures Trail([(BEGIN, NO_BOOKS)], rounds[..0], threads, false)
  {
  }

  /** The states that a run goes through, one turn after the other. */
  ghost predicate Trail(states: seq<(RunState, Books)>, rounds: seq<Round>, threads: nat, ended: bool) {
    && 0 < |states| <= |rounds| + 1 && states[0] == (BEGIN, NO_BOOKS)
    && (if ended then |states| >= 2 else |states| == |rounds| + 1)
    && forall i :: 0 <= i < |states| - 1 ==>
         TurnMeans(states[i].0, states[i].1, rounds[i], threads, states[i + 1].0,
                   if ended && i == |states| - 2 then Ends else Goes, states[i + 1].1)
  }

  /** The run so far, after any number of turns: every future is accounted for once, there are never more
      than the configured threads, each submission was within the total in force, every counter is what the
      settled results make it, and a run that has ended has finished all it submitted. */
  method Run(threads: nat, rounds: seq<Round>)
    returns (s: RunState, ended: bool, ghost b: Books, ghost states: seq<(RunState, Books)>)
    requires threads >= 1
    ensures Sound(s, threads, b) && FromRounds(b.settled, rounds)
    ensures Trail(states, rounds, threads, ended) && states[|states| - 1] == (s, b)
    ensures ended ==> s.futures == {} && s.tally.submitted == s.tally.done
    ensures forall most: nat :: TotalAtMost(rounds, most) ==> s.tally.submitted <= most
    ensures PlainLaw(s.tally, b) <==> Untroubled(b)
  {
    s, ended, b, states := MainLoop(threads, rounds);
    PlainAccounting(s.tally, |s.futures|, b);
  }

  /** The main loop. */
  method MainLoop(threads: nat, rounds: seq<Round>)
    returns (s: RunState, ended: bool, ghost b: Books, ghost states: seq<(RunState, Books)>)
    requires threads >= 1
    ensures Sound(s, threads, b) && FromRounds(b.settled, rounds)
    ensures Trail(states, rounds, threads, ended) && states[|states| - 1] == (s, b)
    ensures ended ==> s.futures == {}
    ensures forall most: nat :: TotalAtMost(rounds, most) ==> s.tally.submitted <= most
  {
    s, ended, b := BEGIN, false, NO_BOOKS;
    states := [(s, b)];
    BeginIsSound(threads, rounds);
    for i := 0 to |rounds|
      invariant Sound(s, threads, b) && !ended && FromRounds(b.settled, rounds)
      invariant Trail(states, rounds[..i], threads, false) && states[i] == (s, b)
      invariant forall most: nat :: TotalAtMost(rounds, most) ==> s.tally.submitted <= most
    {
      var next;
      s, next, b, states := NextTurn(s, threads, rounds, i, b, states);
      if next.Ends? {
        ended := true;
        return;
      }
    }
    assert rounds[..|rounds|] == rounds;
  }

  /** The turn of the run with number `i`. */
  method NextTurn(s: RunState, threads: nat, rounds: seq<Round>, i: nat, ghost b: Books,
                  ghost states: seq<(RunState, Books)>)
    returns (r: RunState, next: Next, ghost c: Books, ghost trail: seq<(RunState, Books)>)
    requires i < |rounds| && Sound(s, threads, b) && FromRounds(b.settled, rounds)
    requires Trail(states, rounds[..i], threads, false) && states[i] == (s, b)
    requires forall most: nat :: TotalAtMost(rounds, most) ==> s.tally.submitted <= most
    ensures Sound(r, threads, c) && FromRounds(c.settled, rounds)
    ensures |trail| == i + 2 && trail[i + 1] == (r, c)
    ensures next.Goes? ==> Trail(trail, rounds[..i + 1], threads, false)
    ensures next.Ends? ==> Trail(trail, rounds, threads, true) && r.futures == {}
    ensures forall most: nat :: TotalAtMost(rounds, most) ==> r.tally.submitted <= most
  {
    r, next, c := Turn(s, rounds[i], threads, b, i);
    trail := states + [(r, c)];
    TrailGoesOn(states, rounds, i, threads, (r, c), next);
    TotalHolds(s, b, rounds, i, threads, r, next, c);
    GivenByRounds(b.settled, c.settled, rounds, i);
  }

  lemma TrailGoesOn(states: seq<(RunState, Books)>, rounds: seq<Round>, i: nat, threads: nat, last: (RunState, Books),
                    next: Next)
    requires i < |rounds| && Trail(states, rounds[..i], threads, false)
    requires TurnMeans(states[i].0, states[i].1, rounds[i], threads, last.0, next, last.1)
    ensures next.Ends? ==> Trail(states + [last], rounds, threads, true)
    ensures next.Goes? ==> Trail(states + [last], rounds[..i + 1], threads, false)
  {
  }

  /** A submission in total mode is within the total of its turn. */
  lemma TotalHolds(s: RunState, b: Books, rounds: seq<Round>, i: nat, threads: nat, r: RunState, next: Next, c: Books)
    requires i < |rounds| && TurnMeans(s, b, rounds[i], threads, r, next, c)
    ensures forall most: nat :: TotalAtMost(rounds, most) && s.tally.submitted <= most ==> r.tally.submitted <= most
  {
    if !Halts(s, rounds[i]) && r.tally.submitted > s.tally.submitted {
      var k := r.tally.submitted - s.tally.submitted;
      assert Admits(s, rounds[i].cfg, rounds[i].probes(k - 1), threads, k - 1);
    }
  }

  /** A total of zero counts as one. */
  predicate TotalIs(cfg: Cfg, total: nat) {
    total >= 1 && (cfg.total == total || (cfg.total == 0 && total == 1))
  }

  /** Total mode with one total throughout, always enabled, no stop and no stall. */
  ghost predicate Smooth(rounds: seq<Round>, total: nat) {
    forall i :: 0 <= i < |rounds| ==>
      && rounds[i].cfg.mode == TotalMode && TotalIs(rounds[i].cfg, total) && !rounds[i].stop && !rounds[i].stalled
      && forall k :: rounds[i].probes(k).enabled && !rounds[i].probes(k).stop
  }

  lemma {:induction false} NeverStops(states: seq<(RunState, Books)>, rounds: seq<Round>, threads: nat, ended: bool,
                                      total: nat, i: nat)
    requires Trail(states, rounds, threads, ended) && Smooth(rounds, total) && i < |states|
    ensures !states[i].0.stop && !states[i].0.shutdown
  {
    if i > 0 {
      NeverStops(states, rounds, threads, ended, total, i - 1);
    }
  }

  /** Such a run, once ended, has done exactly the total. */
  lemma SmoothRunCompletes(states: seq<(RunState, Books)>, rounds: seq<Round>, threads: nat, total: nat)
    requires threads >= 1 && Trail(states, rounds, threads, true) && Smooth(rounds, total)
    requires var (s, b) := states[|states| - 1];
             Sound(s, threads, b) && s.tally.submitted <= total
    ensures states[|states| - 1].0.tally.done == states[|states| - 1].0.tally.submitted == total
  {
    var n := |states| - 2;
    var s, r := states[n].0, states[n + 1].0;
    NeverStops(states, rounds, threads, true, total, n);
    assert TurnMeans(s, states[n].1, rounds[n], threads, r, Ends, states[n + 1].1);
    GrownIs(s, r.tally.submitted - s.tally.submitted);
    assert r.futures == {};
  }

  lemma GivenByRounds(before: seq<Settlement>, after: seq<Settlement>, rounds: seq<Round>, turn: nat)
    requires FromRounds(before, rounds) && before <= after && turn < |rounds|
    requires Given(after, |before|, turn, rounds[turn].finished, rounds[turn].results)
    ensures FromRounds(after, rounds)
  {
    forall i | 0 <= i < |after|
      ensures var e := after[i];
              e.turn < |rounds| && e.future in rounds[e.turn].finished && e.result == rounds[e.turn].results(e.future)
    {
      assert i < |before| ==> after[i] == before[i];
    }
  }
}
