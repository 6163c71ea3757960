/** Safety of whole runs of the image-task protocol: settlement, fencing and idempotent submission. */
module TaskRuns {
  import opened Common
  import opened Text
  import opened TaskTable
  import opened KeyQuota
  import opened TaskProtocol

  // ---------- Exactly one settlement ----------

  predicate About(e: Event, id: TaskId) {
    match e
    case Born(_, i, _, _) => i == id
    case Settled(_, i, _, _, _, _) => i == id
    case Purged(i) => i == id
    case Served(_, _, _) => false
  }

  /** The latest event about a task id. */
  function Last(log: seq<Event>, id: TaskId): Option<Event> {
    if log == [] then None
    else if About(log[|log| - 1], id) then Some(log[|log| - 1])
    else Last(log[..|log| - 1], id)
  }

  predicate IsBirth(e: Option<Event>, id: TaskId, key: string, n: int) {
    e.Some? && e.value.Born? && e.value.id == id && e.value.key == key && e.value.n == n
  }

  /** Every event follows the one it has to follow: a row is born where none is, is settled while
      open and with its own owner and N, and is purged after settling. */
  ghost predicate Follows(before: Option<Event>, e: Event) {
    match e
    case Born(_, _, _, _) => before.None? || before.value.Purged?
    case Settled(_, id, key, n, _, refund) => IsBirth(before, id, key, n) && 0 <= refund <= n
    case Purged(_) => before.Some? && before.value.Settled?
    case Served(_, n, refund) => 0 <= refund <= n
  }

  ghost predicate Orderly(log: seq<Event>) {
    forall i :: 0 <= i < |log| ==>
      Follows(if log[i].Served? then None else Last(log[..i], log[i].id), log[i])
  }

  /** The table shows exactly what the history says. */
  ghost predicate RowMatches(rows: Rows, id: TaskId, last: Option<Event>) {
    if id !in rows then last.None? || last.value.Purged?
    else if IsOpen(rows[id]) then IsBirth(last, id, rows[id].ownerId, rows[id].n)
    else
      && last.Some? && last.value.Settled?
      && last.value.key == rows[id].ownerId && last.value.n == rows[id].n
      && last.value.status == rows[id].status && last.value.refund == RefundFor(rows[id])
  }

  ghost predicate Chronicled(s: State) {
    Orderly(s.log) && forall id :: RowMatches(s.rows, id, Last(s.log, id))
  }

  lemma LastAppends(log: seq<Event>, e: Event, id: TaskId)
    ensures Last(log + [e], id) == if About(e, id) then Some(e) else Last(log, id)
  {
    assert (log + [e])[..|log|] == log;
  }

  lemma OrderlyAppends(log: seq<Event>, e: Event)
    requires Orderly(log) && Follows(if e.Served? then None else Last(log, e.id), e)
    ensures Orderly(log + [e])
  {
    var longer := log + [e];
    forall i | 0 <= i < |longer|
      ensures Follows(if longer[i].Served? then None else Last(longer[..i], longer[i].id), longer[i])
    {
      assert longer[..i] == log[..i];
      assert log[..|log|] == log;
    }
  }

  /** A logged step that rewrites at most the row it is about. */
  lemma ChronicleGrows(s: State, t: State, e: Event)
    requires Chronicled(s) && t.log == s.log + [e] && !e.Served?
    requires Follows(Last(s.log, e.id), e) && RowMatches(t.rows, e.id, Some(e))
    requires forall id :: id != e.id ==> (id in t.rows <==> id in s.rows) && (id in t.rows ==> t.rows[id] == s.rows[id])
    ensures Chronicled(t)
  {
    OrderlyAppends(s.log, e);
    forall id ensures RowMatches(t.rows, id, Last(t.log, id)) {
      LastAppends(s.log, e, id);
      assert RowMatches(s.rows, id, Last(s.log, id));
    }
  }

  /** An unlogged step that keeps what the history records about each row. */
  lemma ChronicleStands(s: State, t: State)
    requires Chronicled(s) && t.log == s.log && t.rows.Keys == s.rows.Keys
    requires forall id :: id in s.rows ==>
               t.rows[id] == s.rows[id]
               || (IsOpen(s.rows[id]) && IsOpen(t.rows[id])
                   && t.rows[id].ownerId == s.rows[id].ownerId && t.rows[id].n == s.rows[id].n)
    ensures Chronicled(t)
  {
    forall id ensures RowMatches(t.rows, id, Last(t.log, id)) {
      assert RowMatches(s.rows, id, Last(s.log, id));
    }
  }

  ghost predicate Good(s: State) {
    Sound(s) && Chronicled(s)
  }

  lemma SettlingIsChronicled(s: State, pid: Pid, id: TaskId, st: Stmt)
    requires WellFormed(s) && Chronicled(s) && Matches(s.rows, id, st) && !IsOpen(Updated(s.rows[id], st))
    requires RowOk(s.rows[id]) && RowOk(Updated(s.rows[id], st))
    ensures Chronicled(ApplyUpdate(s, pid, id, st))
  {
    var t := ApplyUpdate(s, pid, id, st);
    var r := Updated(s.rows[id], st);
    var e := Settled(pid, id, r.ownerId, r.n, r.status, RefundFor(r));
    assert RowMatches(s.rows, id, Last(s.log, id));
    assert Follows(Last(s.log, id), e);
    assert RowMatches(t.rows, id, Some(e));
    ChronicleGrows(s, t, e);
  }

  lemma UpdateKeepsGood(s: State, pid: Pid, id: TaskId, st: Stmt)
    requires Good(s) && Enabled(s, Update(pid, id, st))
    ensures Good(ApplyUpdate(s, pid, id, st))
  {
    UpdateConserves(s, pid, id, st, "");
    var t := ApplyUpdate(s, pid, id, st);
    if Matches(s.rows, id, st) && !IsOpen(Updated(s.rows[id], st)) {
      assert RowOk(s.rows[id]) && RowOk(t.rows[id]);
      SettlingIsChronicled(s, pid, id, st);
    } else {
      ChronicleStands(s, t);
    }
  }

  lemma {:induction false} ManyKeepsGood(s: State, pid: Pid, ids: seq<TaskId>, st: Stmt)
    requires Good(s) && (st.CancelClient? || st.Expire?)
    ensures Good(ApplyMany(s, pid, ids, st))
  {
    if ids != [] {
      ManyKeepsGood(s, pid, ids[..|ids| - 1], st);
      UpdateKeepsGood(ApplyMany(s, pid, ids[..|ids| - 1], st), pid, ids[|ids| - 1], st);
    }
  }

  lemma {:induction false} DeleteKeepsGood(s: State, ids: seq<TaskId>, cutoff: real)
    requires Good(s)
    ensures Good(ApplyDelete(s, ids, cutoff))
  {
    DeleteConserves(s, ids, cutoff, "");
    if ids != [] {
      var t := ApplyDelete(s, ids[..|ids| - 1], cutoff);
      var id := ids[|ids| - 1];
      DeleteKeepsGood(s, ids[..|ids| - 1], cutoff);
      if Purgeable(t.rows, id, cutoff) {
        assert RowMatches(t.rows, id, Last(t.log, id));
        ChronicleGrows(t, ApplyPurge(t, id, cutoff), Purged(id));
      }
    }
  }

  lemma SubmitKeepsGood(s: State, pid: Pid, task: NewTask, now: real)
    requires Good(s) && Enabled(s, Submit(pid, task, now))
    ensures Good(Apply(s, Submit(pid, task, now)))
  {
    SubmitConserves(s, pid, task, now, "");
    var t := Apply(s, Submit(pid, task, now));
    if Inserts(s.rows, task) {
      assert RowMatches(s.rows, task.id, Last(s.log, task.id));
      ChronicleGrows(s, t, Born(pid, task.id, task.ownerId, ClampN(task.n)));
    } else {
      ChronicleStands(s, t);
    }
  }

  lemma ServingIsChronicled(s: State, t: State, key: string, n: int, refund: int)
    requires Chronicled(s) && t.rows == s.rows && t.log == s.log + [Served(key, n, refund)] && 0 <= refund <= n
    ensures Chronicled(t)
  {
    OrderlyAppends(s.log, Served(key, n, refund));
    forall id ensures RowMatches(t.rows, id, Last(t.log, id)) {
      LastAppends(s.log, Served(key, n, refund), id);
      assert RowMatches(s.rows, id, Last(s.log, id));
    }
  }

  lemma ServeKeepsGood(s: State, pid: Pid, key: string, n: int, images: nat)
    requires Good(s) && Enabled(s, Serve(pid, key, n, images))
    ensures Good(Apply(s, Serve(pid, key, n, images)))
  {
    ServeConserves(s, pid, key, n, images, "");
    ServingIsChronicled(s, Apply(s, Serve(pid, key, n, images)), key, n, n - images);
  }

  lemma StepKeepsGood(s: State, a: Action)
    requires Good(s) && Enabled(s, a)
    ensures Good(Apply(s, a))
  {
    StepKeepsWellFormed(s, a);
    match a
    case Charge(_, _, _, _) => ChronicleStands(s, Apply(s, a));
    case Submit(pid, t, now) => SubmitKeepsGood(s, pid, t, now);
    case Forfeit(_, _, _) => ChronicleStands(s, Apply(s, a));
    case Serve(pid, key, n, images) => ServeKeepsGood(s, pid, key, n, images);
    case Update(pid, id, st) => UpdateKeepsGood(s, pid, id, st);
    case UpdateMany(pid, ids, st) => ManyKeepsGood(s, pid, ids, st);
    case Delete(ids, cutoff) => DeleteKeepsGood(s, ids, cutoff);
    case Pay(_, _, _) => ChronicleStands(s, Apply(s, a));
  }

  lemma {:induction false} RunKeepsGood(s: State, actions: seq<Action>, t: State)
    requires Good(s) && Run(s, actions, t)
    ensures Good(t)
    decreases |actions|
  {
    if actions != [] {
      StepKeepsGood(s, actions[0]);
      RunKeepsGood(Apply(s, actions[0]), actions[1..], t);
    }
  }

  /** Where the latest event about an id stands in the log. */
  lemma {:induction false} LastIsInLog(log: seq<Event>, id: TaskId) returns (i: int)
    ensures Last(log, id).None? ==> forall j :: 0 <= j < |log| ==> !About(log[j], id)
    ensures Last(log, id).Some? ==>
              0 <= i < |log| && log[i] == Last(log, id).value && About(log[i], id)
              && forall j :: i < j < |log| ==> !About(log[j], id)
  {
    i := -1;
    if log != [] {
      if About(log[|log| - 1], id) {
        i := |log| - 1;
      } else {
        i := LastIsInLog(log[..|log| - 1], id);
      }
    }
  }

  /** The event that the j-th follows, when the i-th is about the same task. */
  lemma EventBefore(log: seq<Event>, i: nat, j: nat) returns (b: nat)
    requires Orderly(log) && i < j < |log| && !log[j].Served? && About(log[i], log[j].id)
    ensures i <= b < j && About(log[b], log[j].id) && Follows(Some(log[b]), log[j])
  {
    var id := log[j].id;
    var at := LastIsInLog(log[..j], id);
    assert About(log[..j][i], id);
    assert log[..j][at] == log[at];
    b := at;
  }

  /** Each row settles at most once in any run, under any clocks: between two settlements of the
      same id the row was deleted and a new one submitted. What a settlement refunds lies between
      nothing and the N its row was charged for. */
  lemma SettledOnce(s: State, actions: seq<Action>, t: State, i: nat, j: nat)
    requires Init(s) && Run(s, actions, t)
    requires i < j < |t.log| && t.log[i].Settled? && t.log[j].Settled? && t.log[i].id == t.log[j].id
    ensures 0 <= t.log[j].refund <= t.log[j].n
    ensures exists p, b :: i < p < b < j && t.log[p] == Purged(t.log[i].id)
              && IsBirth(Some(t.log[b]), t.log[i].id, t.log[j].key, t.log[j].n)
  {
    RunKeepsGood(s, actions, t);
    var b := EventBefore(t.log, i, j);
    var p := EventBefore(t.log, i, b);
    assert t.log[p] == Purged(t.log[i].id);
  }

  /** A settled row never changes again while it exists. */
  lemma SettledIsFinal(s: State, a: Action, id: TaskId)
    requires Good(s) && Enabled(s, a) && id in s.rows && !IsOpen(s.rows[id])
    ensures id in Apply(s, a).rows ==> Apply(s, a).rows[id] == s.rows[id]
  {
    match a
    case UpdateMany(pid, ids, st) => ClosedSurvivesMany(s, pid, ids, st, id);
    case Delete(ids, cutoff) => KeptSurvivesDelete(s, ids, cutoff, id);
    case _ =>
  }

  lemma {:induction false} ClosedSurvivesMany(s: State, pid: Pid, ids: seq<TaskId>, st: Stmt, id: TaskId)
    requires id in s.rows && !IsOpen(s.rows[id]) && (st.CancelClient? || st.Expire?)
    ensures id in ApplyMany(s, pid, ids, st).rows && ApplyMany(s, pid, ids, st).rows[id] == s.rows[id]
  {
    if ids != [] {
      ClosedSurvivesMany(s, pid, ids[..|ids| - 1], st, id);
    }
  }

  lemma {:induction false} KeptSurvivesDelete(s: State, ids: seq<TaskId>, cutoff: real, id: TaskId)
    requires id in s.rows
    ensures id in ApplyDelete(s, ids, cutoff).rows ==> ApplyDelete(s, ids, cutoff).rows[id] == s.rows[id]
  {
    if ids != [] {
      KeptSurvivesDelete(s, ids[..|ids| - 1], cutoff, id);
      var t := ApplyDelete(s, ids[..|ids| - 1], cutoff);
      if id !in t.rows {
        assert id !in ApplyPurge(t, ids[|ids| - 1], cutoff).rows;
      }
    }
  }

  // ---------- Fencing ----------

  predicate Holds(rows: Rows, id: TaskId, claim: string) {
    id in rows && rows[id].claimedBy == claim
  }

  /** A claim id that was drawn and that no row carries any more. */
  ghost predicate Lost(s: State, claim: string) {
    claim in s.usedClaims && forall id :: !Holds(s.rows, id, claim)
  }

  /** A statement that a worker runs under its claim. */
  predicate UnderClaim(st: Stmt) {
    st.Heartbeat? || st.Complete? || st.Fail? || st.Requeue?
  }

  /** A worker statement changes a row exactly when that row carries the worker's claim, with one
      exception: FailTask given a blank worker id does not look at the claim at all. */
  lemma ClaimGuards(s: State, id: TaskId, st: Stmt)
    requires WellFormed(s) && UnderClaim(st) && st.worker != ""
    ensures Matches(s.rows, id, st) <==>
              Holds(s.rows, id, st.worker) || (st.Fail? && Blank(st.worker) && id in s.rows && IsOpen(s.rows[id]))
  {
    if id in s.rows {
      assert RowOk(s.rows[id]);
    }
  }

  /** Under a lost claim every heartbeat, completion, failure and requeue reports no change and
      leaves the whole state as it is. */
  lemma LostClaimIsRefused(s: State, pid: Pid, id: TaskId, st: Stmt)
    requires WellFormed(s) && UnderClaim(st) && Lost(s, st.worker) && !Blank(st.worker)
    ensures !Matches(s.rows, id, st) && ApplyUpdate(s, pid, id, st) == s
  {
    assert !Holds(s.rows, id, st.worker);
    ClaimGuards(s, id, st);
  }

  lemma UpdateKeepsLost(s: State, pid: Pid, id: TaskId, st: Stmt, claim: string)
    requires WellFormed(s) && Enabled(s, Update(pid, id, st)) && Lost(s, claim)
    ensures Lost(ApplyUpdate(s, pid, id, st), claim)
  {
    var t := ApplyUpdate(s, pid, id, st);
    forall i ensures !Holds(t.rows, i, claim) {
      assert !Holds(s.rows, i, claim);
    }
  }

  lemma {:induction false} ManyKeepsLost(s: State, pid: Pid, ids: seq<TaskId>, st: Stmt, claim: string)
    requires WellFormed(s) && (st.CancelClient? || st.Expire?) && Lost(s, claim)
    ensures Lost(ApplyMany(s, pid, ids, st), claim)
  {
    if ids != [] {
      ManyKeepsLost(s, pid, ids[..|ids| - 1], st, claim);
      ManyKeepsWellFormed(s, pid, ids[..|ids| - 1], st);
      UpdateKeepsLost(ApplyMany(s, pid, ids[..|ids| - 1], st), pid, ids[|ids| - 1], st, claim);
    }
  }

  lemma {:induction false} DeleteKeepsLost(s: State, ids: seq<TaskId>, cutoff: real, claim: string)
    requires Lost(s, claim)
    ensures Lost(ApplyDelete(s, ids, cutoff), claim)
  {
    if ids != [] {
      DeleteKeepsLost(s, ids[..|ids| - 1], cutoff, claim);
      var t := ApplyDelete(s, ids[..|ids| - 1], cutoff);
      forall i ensures !Holds(ApplyDelete(s, ids, cutoff).rows, i, claim) {
        assert !Holds(t.rows, i, claim);
      }
    }
  }

  lemma StepKeepsLost(s: State, a: Action, claim: string)
    requires WellFormed(s) && Enabled(s, a) && Lost(s, claim)
    ensures Lost(Apply(s, a), claim)
  {
    match a
    case Update(pid, id, st) => UpdateKeepsLost(s, pid, id, st, claim);
    case UpdateMany(pid, ids, st) => ManyKeepsLost(s, pid, ids, st, claim);
    case Delete(ids, cutoff) => DeleteKeepsLost(s, ids, cutoff, claim);
    case _ =>
      forall i ensures !Holds(Apply(s, a).rows, i, claim) {
        assert !Holds(s.rows, i, claim);
      }
  }

  lemma {:induction false} LostForever(s: State, actions: seq<Action>, t: State, claim: string)
    requires Good(s) && Run(s, actions, t) && Lost(s, claim)
    ensures Good(t) && Lost(t, claim)
    decreases |actions|
  {
    if actions != [] {
      StepKeepsGood(s, actions[0]);
      StepKeepsLost(s, actions[0], claim);
      LostForever(Apply(s, actions[0]), actions[1..], t, claim);
    }
  }

  lemma {:induction false} ClaimsAreRemembered(s: State, actions: seq<Action>, t: State)
    requires Run(s, actions, t)
    ensures s.usedClaims <= t.usedClaims
    decreases |actions|
  {
    if actions != [] {
      match actions[0] {
        case UpdateMany(pid, ids, st) => ManyRemembers(s, pid, ids, st);
        case Delete(ids, cutoff) => DeleteRemembers(s, ids, cutoff);
        case _ =>
      }
      ClaimsAreRemembered(Apply(s, actions[0]), actions[1..], t);
    }
  }

  lemma {:induction false} ManyRemembers(s: State, pid: Pid, ids: seq<TaskId>, st: Stmt)
    ensures s.usedClaims <= ApplyMany(s, pid, ids, st).usedClaims
  {
    if ids != [] {
      ManyRemembers(s, pid, ids[..|ids| - 1], st);
    }
  }

  lemma {:induction false} DeleteRemembers(s: State, ids: seq<TaskId>, cutoff: real)
    ensures s.usedClaims <= ApplyDelete(s, ids, cutoff).usedClaims
  {
    if ids != [] {
      DeleteRemembers(s, ids[..|ids| - 1], cutoff);
    }
  }

  /** While a claim is held, a run can move it off its row but never onto another one. */
  lemma {:induction false} ClaimStaysPut(s: State, actions: seq<Action>, t: State, id: TaskId, claim: string)
    requires Good(s) && Run(s, actions, t) && Holds(s.rows, id, claim) && claim != ""
    ensures Good(t) && (Holds(t.rows, id, claim) || Lost(t, claim))
    decreases |actions|
  {
    assert claim in s.usedClaims;
    if actions != [] {
      var u := Apply(s, actions[0]);
      StepKeepsGood(s, actions[0]);
      StepMovesClaimOff(s, actions[0], id, claim);
      if Holds(u.rows, id, claim) {
        ClaimStaysPut(u, actions[1..], t, id, claim);
      } else {
        LostForever(u, actions[1..], t, claim);
      }
    }
  }

  lemma StepMovesClaimOff(s: State, a: Action, id: TaskId, claim: string)
    requires Good(s) && Enabled(s, a) && Holds(s.rows, id, claim) && claim != ""
    ensures Holds(Apply(s, a).rows, id, claim) || Lost(Apply(s, a), claim)
  {
    StepKeepsWellFormed(s, a);
    match a
    case Update(pid, i, st) => UpdateMovesClaimOff(s, pid, i, st, id, claim);
    case UpdateMany(pid, ids, st) => ManyMovesClaimOff(s, pid, ids, st, id, claim);
    case Delete(ids, cutoff) =>
      DeleteKeepsHeld(s, ids, cutoff, id, claim);
    case _ =>
  }

  lemma UpdateMovesClaimOff(s: State, pid: Pid, i: TaskId, st: Stmt, id: TaskId, claim: string)
    requires WellFormed(s) && Enabled(s, Update(pid, i, st)) && Holds(s.rows, id, claim) && claim != ""
    ensures Holds(ApplyUpdate(s, pid, i, st).rows, id, claim) || Lost(ApplyUpdate(s, pid, i, st), claim)
  {
    var t := ApplyUpdate(s, pid, i, st);
    if !Holds(t.rows, id, claim) {
      forall j ensures !Holds(t.rows, j, claim) {
        if j in s.rows && j != id {
          assert s.rows[j].claimedBy != claim;
        }
      }
    }
  }

  lemma {:induction false} ManyMovesClaimOff(s: State, pid: Pid, ids: seq<TaskId>, st: Stmt, id: TaskId, claim: string)
    requires WellFormed(s) && (st.CancelClient? || st.Expire?) && Holds(s.rows, id, claim) && claim != ""
    ensures Holds(ApplyMany(s, pid, ids, st).rows, id, claim) || Lost(ApplyMany(s, pid, ids, st), claim)
  {
    if ids != [] {
      var t := ApplyMany(s, pid, ids[..|ids| - 1], st);
      ManyKeepsWellFormed(s, pid, ids[..|ids| - 1], st);
      ManyMovesClaimOff(s, pid, ids[..|ids| - 1], st, id, claim);
      if Holds(t.rows, id, claim) {
        UpdateMovesClaimOff(t, pid, ids[|ids| - 1], st, id, claim);
      } else {
        UpdateKeepsLost(t, pid, ids[|ids| - 1], st, claim);
      }
    }
  }

  lemma {:induction false} DeleteKeepsHeld(s: State, ids: seq<TaskId>, cutoff: real, id: TaskId, claim: string)
    requires WellFormed(s) && Holds(s.rows, id, claim) && claim != ""
    ensures Holds(ApplyDelete(s, ids, cutoff).rows, id, claim)
  {
    if ids != [] {
      DeleteKeepsHeld(s, ids[..|ids| - 1], cutoff, id, claim);
      DeleteKeepsWellFormed(s, ids[..|ids| - 1], cutoff);
      var t := ApplyDelete(s, ids[..|ids| - 1], cutoff);
      assert RowOk(t.rows[id]);
    }
  }

  /** Fencing. A worker held task `id` under `claim`; some steps later it does not. Then in every
      continuation of the run, whatever the clocks, no worker statement under that claim changes
      any row. */
  lemma Fenced(s: State, before: seq<Action>, t: State, after: seq<Action>, u: State,
               id: TaskId, claim: string, pid: Pid, other: TaskId, st: Stmt)
    requires Good(s) && Holds(s.rows, id, claim) && !Blank(claim)
    requires Run(s, before, t) && !Holds(t.rows, id, claim)
    requires Run(t, after, u)
    requires UnderClaim(st) && st.worker == claim
    ensures !Matches(u.rows, other, st) && ApplyUpdate(u, pid, other, st) == u
  {
    assert claim != "";
    ClaimStaysPut(s, before, t, id, claim);
    LostForever(t, after, u, claim);
    LostClaimIsRefused(u, pid, other, st);
  }

  // ---------- Idempotent submission ----------

  /** A step of some submission of task `id` for key `k`: a charge, an INSERT, giving the charge up
      because the input images could not be stored, or a refund. */
  predicate Submitting(a: Action, id: TaskId, k: string) {
    match a
    case Charge(_, who, _, _) => who.id == k
    case Submit(_, t, _) => t.id == id && t.ownerId == k && Insertable(t)
    case Forfeit(_, key, _) => key == k
    case Pay(_, key, _) => key == k
    case _ => false
  }

  function FirstSubmit(actions: seq<Action>): Option<Action>
    ensures FirstSubmit(actions).Some? ==> FirstSubmit(actions).value.Submit?
    decreases |actions|
  {
    if actions == [] then None
    else if actions[0].Submit? then Some(actions[0])
    else FirstSubmit(actions[1..])
  }

  /** The table after the submissions: the first INSERT to arrive wins, the others do nothing. */
  function WonBy(rows: Rows, actions: seq<Action>, id: TaskId): Rows {
    var first := FirstSubmit(actions);
    if id in rows || first.None? then rows else rows[id := NewRow(first.value.task, first.value.now)]
  }

  lemma {:induction false} SubmissionsTouchOneRow(s: State, actions: seq<Action>, t: State, id: TaskId, k: string)
    requires Run(s, actions, t) && forall a :: a in actions ==> Submitting(a, id, k)
    ensures t.rows == WonBy(s.rows, actions, id)
    ensures forall key :: Delivered(t.log, key) == Delivered(s.log, key)
    decreases |actions|
  {
    if actions != [] {
      var a := actions[0];
      assert a in actions;
      var u := Apply(s, a);
      SubmissionsTouchOneRow(u, actions[1..], t, id, k);
      forall key ensures Delivered(u.log, key) == Delivered(s.log, key) {
        if a.Submit? {
          DeliveredAppends(s.log, Born(a.pid, a.task.id, a.task.ownerId, ClampN(a.task.n)), key);
        }
      }
    }
  }

  /** Idempotent submission. However the steps of any number of submissions with the same owner and
      client task id interleave, once they are all through there is one row, the one of the first
      INSERT, and the key has been charged exactly that row's N; if the row was there before, or no
      submission got as far as its INSERT, nothing has changed. */
  lemma SubmissionIsIdempotent(s: State, actions: seq<Action>, t: State, id: TaskId, k: string)
    requires Sound(s) && HasKey(s.keys, k) && Unexplained(s, k) >= 0 && s.charges == [] && s.owed == []
    requires Run(s, actions, t) && forall a :: a in actions ==> Submitting(a, id, k)
    requires t.charges == [] && t.owed == []
    ensures t.rows == WonBy(s.rows, actions, id)
    ensures ImageTotalUsed(t.keys, k)
         == ImageTotalUsed(s.keys, k) + if id in t.rows && id !in s.rows then t.rows[id].n else 0
  {
    SubmissionsTouchOneRow(s, actions, t, id, k);
    QuotaIsConserved(s, actions, t, k);
    if t.rows != s.rows {
      LiveAfterWrite(s.rows, id, t.rows[id], k);
      FirstSubmitIsSubmitting(actions, id, k);
    }
  }

  lemma {:induction false} FirstSubmitIsSubmitting(actions: seq<Action>, id: TaskId, k: string)
    requires forall a :: a in actions ==> Submitting(a, id, k)
    ensures FirstSubmit(actions).Some? ==> Submitting(FirstSubmit(actions).value, id, k)
    decreases |actions|
  {
    if actions != [] {
      assert actions[0] in actions;
      FirstSubmitIsSubmitting(actions[1..], id, k);
    }
  }

  // ---------- Rows that are left alone ----------

  /** Steps that may change row `id` otherwise than by a heartbeat. */
  predicate Disturbs(a: Action, id: TaskId) {
    match a
    case Update(_, i, st) => i == id && !st.Heartbeat?
    case UpdateMany(_, ids, _) => id in ids
    case Delete(ids, _) => id in ids
    case _ => false
  }

  /** A row with nothing but heartbeats between. */
  ghost predicate RowKept(s: Rows, t: Rows, id: TaskId) {
    id in s ==> id in t && t[id] == s[id].(claimedUntil := t[id].claimedUntil, updatedTs := t[id].updatedTs)
  }

  lemma {:induction false} ManyLeaveRow(s: State, pid: Pid, ids: seq<TaskId>, st: Stmt, id: TaskId)
    requires id !in ids
    ensures id in s.rows ==> id in ApplyMany(s, pid, ids, st).rows && ApplyMany(s, pid, ids, st).rows[id] == s.rows[id]
  {
    if ids != [] {
      ManyLeaveRow(s, pid, ids[..|ids| - 1], st, id);
      assert ids[|ids| - 1] in ids;
    }
  }

  lemma {:induction false} DeleteLeavesRow(s: State, ids: seq<TaskId>, cutoff: real, id: TaskId)
    requires id !in ids
    ensures id in s.rows ==>
              id in ApplyDelete(s, ids, cutoff).rows && ApplyDelete(s, ids, cutoff).rows[id] == s.rows[id]
  {
    if ids != [] {
      DeleteLeavesRow(s, ids[..|ids| - 1], cutoff, id);
      assert ids[|ids| - 1] in ids;
    }
  }

  lemma StepLeavesRow(s: State, a: Action, id: TaskId)
    requires !Disturbs(a, id)
    ensures RowKept(s.rows, Apply(s, a).rows, id)
  {
    match a
    case UpdateMany(pid, ids, st) => ManyLeaveRow(s, pid, ids, st, id);
    case Delete(ids, cutoff) => DeleteLeavesRow(s, ids, cutoff, id);
    case _ =>
  }
}
