/** What the times in a task row mean for whole runs: how long a claim excludes others, when a row can be taken
    again, when it times out, and how long a settled one is kept (internal/app/pg_tasks.go, worker.go). */
module TaskTimes {
  import opened Common
  import opened Text
  import opened TaskTable
  import opened KeyQuota
  import opened TaskProtocol
  import opened TaskRuns

  /** Statements that start or renew a claim. */
  predicate Claims(st: Stmt) {
    st.Claim? || st.ClaimQueued? || st.Heartbeat?
  }

  // ---------- Exclusion ----------

  /** Steps that meet the row with nothing but claims read before `until` and heartbeats; those of the claim
      itself do not shorten it. */
  predicate Spared(a: Action, id: TaskId, claim: string, until: real) {
    match a
    case Update(_, i, st) =>
      i == id ==>
        || st.ClaimQueued? || (st.Claim? && st.now < until)
        || (st.Heartbeat? && (st.worker == claim ==> st.now + st.ttl >= until))
    case UpdateMany(_, ids, _) => id !in ids
    case Delete(ids, _) => id !in ids
    case _ => true
  }

  ghost predicate HeldUntil(s: State, id: TaskId, claim: string, until: real) {
    id in s.rows && s.rows[id].status == Running && s.rows[id].claimedBy == claim && s.rows[id].claimedUntil >= until
  }

  lemma StepKeepsClaim(s: State, a: Action, id: TaskId, claim: string, until: real)
    requires HeldUntil(s, id, claim, until) && claim != "" && Spared(a, id, claim, until)
    ensures HeldUntil(Apply(s, a), id, claim, until)
  {
    match a
    case UpdateMany(pid, ids, st) => ManyLeaveRow(s, pid, ids, st, id);
    case Delete(ids, cutoff) => DeleteLeavesRow(s, ids, cutoff, id);
    case _ =>
  }

  lemma {:induction false} RunKeepsClaim(s: State, actions: seq<Action>, t: State, id: TaskId, claim: string,
                                         until: real)
    requires HeldUntil(s, id, claim, until) && claim != "" && Run(s, actions, t)
    requires forall a :: a in actions ==> Spared(a, id, claim, until)
    ensures HeldUntil(t, id, claim, until)
    decreases |actions|
  {
    if actions != [] {
      assert actions[0] in actions;
      StepKeepsClaim(s, actions[0], id, claim, until);
      RunKeepsClaim(Apply(s, actions[0]), actions[1..], t, id, claim, until);
    }
  }

  /** A row claimed or renewed at a reading keeps its claim for the ttl: in every run in which it meets nothing but
      claims read before that time has passed and heartbeats that do not shorten it, nobody else gets it. */
  lemma ClaimExcludes(s: State, pid: Pid, id: TaskId, st: Stmt, actions: seq<Action>, t: State)
    requires Claims(st) && st.worker != "" && Matches(s.rows, id, st)
    requires Run(Apply(s, Update(pid, id, st)), actions, t)
    requires forall a :: a in actions ==> Spared(a, id, st.worker, st.now + st.ttl)
    ensures Holds(t.rows, id, st.worker) && t.rows[id].status == Running
    ensures forall w, now, ttl :: now < st.now + st.ttl ==> !Matches(t.rows, id, Claim(w, now, ttl))
  {
    RunKeepsClaim(Apply(s, Update(pid, id, st)), actions, t, id, st.worker, st.now + st.ttl);
  }

  // ---------- Recovery ----------

  /** Steps that do not name the row. */
  predicate Untouched(a: Action, id: TaskId) {
    match a
    case Update(_, i, _) => i != id
    case UpdateMany(_, ids, _) => id !in ids
    case Delete(ids, _) => id !in ids
    case _ => true
  }

  lemma {:induction false} RunLeavesRow(s: State, actions: seq<Action>, t: State, id: TaskId)
    requires id in s.rows && Run(s, actions, t) && forall a :: a in actions ==> Untouched(a, id)
    ensures id in t.rows && t.rows[id] == s.rows[id]
    decreases |actions|
  {
    if actions != [] {
      assert actions[0] in actions;
      match actions[0] {
        case UpdateMany(pid, ids, st) => ManyLeaveRow(s, pid, ids, st, id);
        case Delete(ids, cutoff) => DeleteLeavesRow(s, ids, cutoff, id);
        case _ =>
      }
      RunLeavesRow(Apply(s, actions[0]), actions[1..], t, id);
    }
  }

  /** A worker that falls silent after claiming or renewing: its row can be taken from the end of the ttl on, and
      not before, until its deadline; from the deadline on it can be timed out, and not before. */
  lemma TakenAgainIff(s: State, pid: Pid, id: TaskId, st: Stmt, actions: seq<Action>, t: State, next: Stmt)
    requires Claims(st) && st.worker != "" && Matches(s.rows, id, st)
    requires Run(Apply(s, Update(pid, id, st)), actions, t) && forall a :: a in actions ==> Untouched(a, id)
    ensures next.Claim? ==>
              (Matches(t.rows, id, next) <==> st.now + st.ttl <= next.now < s.rows[id].deadline)
    ensures next.Expire? ==>
              (Matches(t.rows, id, next) <==> 0.0 < s.rows[id].deadline <= next.now)
  {
    RunLeavesRow(Apply(s, Update(pid, id, st)), actions, t, id);
  }

  /** A row put back in the queue can be taken from the end of the delay on, and not before, until its deadline. */
  lemma RequeuedIsTakenIff(s: State, pid: Pid, id: TaskId, st: Stmt, actions: seq<Action>, t: State, next: Stmt)
    requires st.Requeue? && Matches(s.rows, id, st) && next.Claim?
    requires Run(Apply(s, Update(pid, id, st)), actions, t) && forall a :: a in actions ==> Untouched(a, id)
    ensures Matches(t.rows, id, next) <==> st.now + st.delay <= next.now < s.rows[id].deadline
  {
    RunLeavesRow(Apply(s, Update(pid, id, st)), actions, t, id);
  }

  /** A new row can be taken at once, until its deadline, which is five minutes off when none was given. */
  lemma NewIsTakenIff(s: State, pid: Pid, task: NewTask, now: real, actions: seq<Action>, t: State, next: Stmt)
    requires Inserts(s.rows, task) && next.Claim? && next.now >= 0.0
    requires Run(Apply(s, Submit(pid, task, now)), actions, t) && forall a :: a in actions ==> Untouched(a, task.id)
    ensures Matches(t.rows, task.id, next) <==> next.now < if task.deadline > 0.0 then task.deadline else now + 300.0
  {
    RunLeavesRow(Apply(s, Submit(pid, task, now)), actions, t, task.id);
  }

  // ---------- Retention ----------

  /** Statements that end a task. */
  predicate Ends(st: Stmt) {
    st.Complete? || st.Fail? || st.Cancel? || st.CancelClient? || st.Expire?
  }

  /** How a task ends. */
  function EndOf(st: Stmt): Status {
    if st.Complete? then Success else if st.Fail? || st.Expire? then Error else Canceled
  }

  lemma {:induction false} LaterPurgeOnly(s: State, ids: seq<TaskId>, cutoff: real, id: TaskId)
    requires id in s.rows && cutoff < s.rows[id].updatedTs
    ensures id in ApplyDelete(s, ids, cutoff).rows && ApplyDelete(s, ids, cutoff).rows[id] == s.rows[id]
  {
    if ids != [] {
      LaterPurgeOnly(s, ids[..|ids| - 1], cutoff, id);
    }
  }

  lemma {:induction false} RunKeepsSettled(s: State, actions: seq<Action>, t: State, id: TaskId)
    requires Good(s) && Run(s, actions, t) && id in s.rows && !IsOpen(s.rows[id])
    requires forall a :: a in actions && a.Delete? && id in a.ids ==> a.cutoff < s.rows[id].updatedTs
    ensures id in t.rows && t.rows[id] == s.rows[id]
    decreases |actions|
  {
    if actions != [] {
      var a := actions[0];
      assert a in actions && forall b :: b in actions[1..] ==> b in actions;
      SettledIsFinal(s, a, id);
      match a {
        case UpdateMany(pid, ids, st) => ClosedSurvivesMany(s, pid, ids, st, id);
        case Delete(ids, cutoff) =>
          if id in ids {
            LaterPurgeOnly(s, ids, cutoff, id);
          } else {
            DeleteLeavesRow(s, ids, cutoff, id);
          }
        case _ =>
      }
      StepKeepsGood(s, a);
      RunKeepsSettled(Apply(s, a), actions[1..], t, id);
    }
  }

  /** A task that ended at a reading stays as it ended, a successful one with the images it was completed with,
      in every run whose purges have earlier cutoffs; the next purge takes it exactly if its cutoff is not. */
  lemma SettledIsKept(s: State, pid: Pid, id: TaskId, st: Stmt, actions: seq<Action>, t: State, cutoff: real)
    requires Good(s) && Ends(st) && Matches(s.rows, id, st) && Enabled(s, Update(pid, id, st))
    requires Run(Apply(s, Update(pid, id, st)), actions, t)
    requires forall a :: a in actions && a.Delete? && id in a.ids ==> a.cutoff < st.now
    ensures id in t.rows && t.rows[id].status == EndOf(st) && (st.Complete? ==> t.rows[id].results == st.data)
    ensures st.Fail? && |TrimSpace(st.message)| <= 4000 ==> t.rows[id].error == TrimSpace(st.message)
    ensures Purgeable(t.rows, id, cutoff) <==> st.now <= cutoff
  {
    StepKeepsGood(s, Update(pid, id, st));
    RunKeepsSettled(Apply(s, Update(pid, id, st)), actions, t, id);
  }

  // ---------- Whose tasks ----------

  /** A user's cancellation reaches an open task exactly if it is the user's own, an admin's any. */
  lemma CancelReaches(rows: Rows, id: TaskId, who: Identity, now: real)
    ensures Matches(rows, id, Cancel(who, now)) <==>
              id in rows && rows[id].status in {Queued, Running} && (rows[id].ownerId == who.id || who.role == "admin")
    ensures forall c :: Matches(rows, id, CancelClient(c, who, now)) <==>
              Matches(rows, id, Cancel(who, now)) && rows[id].clientTaskId == c
  {
  }
}
