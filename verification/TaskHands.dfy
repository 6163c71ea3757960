/** One process among many: what it has in its hands, what the others can do to that (nothing), and
    what its own statements add to it. */
module TaskHands {
  import opened Common
  import opened Text
  import opened TaskTable
  import opened KeyQuota
  import opened TaskProtocol
  import opened TaskRuns

  function PidOf(a: Action): Option<Pid> {
    match a
    case Delete(_, _) => None
    case Charge(p, _, _, _) => Some(p)
    case Submit(p, _, _) => Some(p)
    case Forfeit(p, _, _) => Some(p)
    case Serve(p, _, _, _) => Some(p)
    case Update(p, _, _) => Some(p)
    case UpdateMany(p, _, _) => Some(p)
    case Pay(p, _, _) => Some(p)
  }

  function Mine(es: seq<Entry>, me: Pid): seq<Entry> {
    if es == [] then []
    else (if es[0].pid == me then [es[0]] else []) + Mine(es[1..], me)
  }

  predicate IsBy(e: Event, me: Pid) {
    (e.Settled? || e.Born?) && e.pid == me
  }

  /** The births and settlements of process `me`. */
  function MyEvents(log: seq<Event>, me: Pid): seq<Event> {
    if log == [] then []
    else
      var e := log[|log| - 1];
      MyEvents(log[..|log| - 1], me) + if IsBy(e, me) then [e] else []
  }

  lemma MineCons(h: Entry, t: seq<Entry>, me: Pid)
    ensures Mine([h] + t, me) == (if h.pid == me then [h] else []) + Mine(t, me)
  {
    assert ([h] + t)[1..] == t;
  }

  lemma {:induction false} MineAppends(a: seq<Entry>, b: seq<Entry>, me: Pid)
    ensures Mine(a + b, me) == Mine(a, me) + Mine(b, me)
  {
    if a == [] {
      assert a + b == b;
    } else {
      var h, t := a[0], a[1..];
      assert a + b == [h] + (t + b);
      assert a == [h] + t;
      MineCons(h, t + b, me);
      MineCons(h, t, me);
      MineAppends(t, b, me);
    }
  }

  lemma {:induction false} MineWithout(es: seq<Entry>, e: Entry, me: Pid)
    ensures Mine(Without(es, e), me) == if e.pid == me then Without(Mine(es, me), e) else Mine(es, me)
  {
    if es != [] {
      var h, t := es[0], es[1..];
      assert es == [h] + t;
      MineCons(h, t, me);
      WithoutCons(h, t, e);
      WithoutCons(h, Mine(t, me), e);
      assert [] + Mine(t, me) == Mine(t, me);
      if h != e {
        MineWithout(t, e, me);
        MineCons(h, Without(t, e), me);
      }
    }
  }

  lemma {:induction false} MineMembers(es: seq<Entry>, me: Pid)
    ensures forall e :: e in Mine(es, me) <==> e in es && e.pid == me
  {
    if es != [] {
      MineMembers(es[1..], me);
    }
  }

  lemma MyEventsAppends(log: seq<Event>, e: Event, me: Pid)
    ensures MyEvents(log + [e], me)
         == MyEvents(log, me) + if IsBy(e, me) then [e] else []
  {
    assert (log + [e])[..|log|] == log;
  }

  /** What steps of the other processes cannot change for process `me`. */
  ghost predicate Undisturbed(s: State, t: State, me: Pid) {
    && (Good(s) ==> Good(t))
    && Mine(t.charges, me) == Mine(s.charges, me)
    && Mine(t.owed, me) == Mine(s.owed, me)
    && MyEvents(t.log, me) == MyEvents(s.log, me)
    && ClaimsKept(s, t)
  }

  /** No drawn claim moves to another row, and a row keeps its owner and N while claimed. */
  ghost predicate ClaimsKept(s: State, t: State) {
    && s.usedClaims <= t.usedClaims
    && forall id, c :: c in s.usedClaims && Holds(t.rows, id, c) ==>
         Holds(s.rows, id, c) && t.rows[id].n == s.rows[id].n && t.rows[id].ownerId == s.rows[id].ownerId
  }

  lemma UpdateByOther(s: State, pid: Pid, id: TaskId, st: Stmt, me: Pid)
    requires Good(s) && Enabled(s, Update(pid, id, st)) && pid != me
    ensures Undisturbed(s, ApplyUpdate(s, pid, id, st), me)
  {
    UpdateKeepsGood(s, pid, id, st);
    var t := ApplyUpdate(s, pid, id, st);
    UpdateKeepsClaims(s, pid, id, st);
    if Matches(s.rows, id, st) && !IsOpen(t.rows[id]) {
      var r := t.rows[id];
      MineAppends(s.owed, Owing(pid, r.ownerId, RefundFor(r)), me);
      MyEventsAppends(s.log, Settled(pid, id, r.ownerId, r.n, r.status, RefundFor(r)), me);
    }
  }

  lemma UpdateKeepsClaims(s: State, pid: Pid, id: TaskId, st: Stmt)
    requires WellFormed(s) && Enabled(s, Update(pid, id, st))
    ensures ClaimsKept(s, ApplyUpdate(s, pid, id, st))
  {
    if Matches(s.rows, id, st) {
      UpdatedRow(s.rows[id], st);
    }
  }

  lemma {:induction false} ManyByOther(s: State, pid: Pid, ids: seq<TaskId>, st: Stmt, me: Pid)
    requires Good(s) && (st.CancelClient? || st.Expire?) && pid != me
    ensures Undisturbed(s, ApplyMany(s, pid, ids, st), me)
  {
    if ids != [] {
      ManyByOther(s, pid, ids[..|ids| - 1], st, me);
      UpdateByOther(ApplyMany(s, pid, ids[..|ids| - 1], st), pid, ids[|ids| - 1], st, me);
    }
  }

  lemma PurgeByOther(s: State, id: TaskId, cutoff: real, me: Pid)
    requires Good(s) && Good(ApplyPurge(s, id, cutoff))
    ensures Undisturbed(s, ApplyPurge(s, id, cutoff), me)
  {
    MyEventsAppends(s.log, Purged(id), me);
    var t := ApplyPurge(s, id, cutoff);
    forall i, c | c in s.usedClaims && Holds(t.rows, i, c) ensures Holds(s.rows, i, c) {
    }
  }

  lemma {:induction false} DeleteByOther(s: State, ids: seq<TaskId>, cutoff: real, me: Pid)
    requires Good(s)
    ensures Undisturbed(s, ApplyDelete(s, ids, cutoff), me)
  {
    if ids != [] {
      DeleteKeepsGood(s, ids[..|ids| - 1], cutoff);
      DeleteKeepsGood(s, ids, cutoff);
      DeleteByOther(s, ids[..|ids| - 1], cutoff, me);
      var t := ApplyDelete(s, ids[..|ids| - 1], cutoff);
      PurgeByOther(t, ids[|ids| - 1], cutoff, me);
      UndisturbedChains(s, t, ApplyDelete(s, ids, cutoff), me);
    }
  }

  lemma UndisturbedChains(s: State, t: State, u: State, me: Pid)
    requires Undisturbed(s, t, me) && Undisturbed(t, u, me)
    ensures Undisturbed(s, u, me)
  {
    forall id, c | c in s.usedClaims && Holds(u.rows, id, c)
      ensures Holds(s.rows, id, c) && u.rows[id].n == s.rows[id].n && u.rows[id].ownerId == s.rows[id].ownerId
    {
      assert Holds(t.rows, id, c);
    }
  }

  lemma StepOfOther(s: State, a: Action, me: Pid)
    requires Good(s) && Enabled(s, a) && PidOf(a) != Some(me)
    ensures Undisturbed(s, Apply(s, a), me)
  {
    match a
    case Charge(_, _, _, _) => ChargeByOther(s, a, me);
    case Submit(pid, t, now) => SubmitByOther(s, pid, t, now, me);
    case Forfeit(_, _, _) => ForfeitByOther(s, a, me);
    case Serve(_, _, _, _) => ServeByOther(s, a, me);
    case Update(pid, id, st) => UpdateByOther(s, pid, id, st, me);
    case UpdateMany(pid, ids, st) => ManyByOther(s, pid, ids, st, me);
    case Delete(ids, cutoff) => DeleteByOther(s, ids, cutoff, me);
    case Pay(_, _, _) => PayByOther(s, a, me);
  }

  lemma ChargeByOther(s: State, a: Action, me: Pid)
    requires Good(s) && Enabled(s, a) && a.Charge? && a.pid != me
    ensures Undisturbed(s, Apply(s, a), me)
  {
    StepKeepsGood(s, a);
    MineAppends(s.charges, [Entry(a.pid, a.who.id, AtLeastOne(a.n))], me);
  }

  lemma ForfeitByOther(s: State, a: Action, me: Pid)
    requires Good(s) && Enabled(s, a) && a.Forfeit? && a.pid != me
    ensures Undisturbed(s, Apply(s, a), me)
  {
    StepKeepsGood(s, a);
    MineWithout(s.charges, Entry(a.pid, a.key, a.n), me);
    MineAppends(s.owed, [Entry(a.pid, a.key, a.n)], me);
  }

  lemma ServeByOther(s: State, a: Action, me: Pid)
    requires Good(s) && Enabled(s, a) && a.Serve? && a.pid != me
    ensures Undisturbed(s, Apply(s, a), me)
  {
    StepKeepsGood(s, a);
    MineWithout(s.charges, Entry(a.pid, a.key, a.n), me);
    MineAppends(s.owed, Owing(a.pid, a.key, a.n - a.images), me);
    MyEventsAppends(s.log, Served(a.key, a.n, a.n - a.images), me);
  }

  lemma PayByOther(s: State, a: Action, me: Pid)
    requires Good(s) && Enabled(s, a) && a.Pay? && a.pid != me
    ensures Undisturbed(s, Apply(s, a), me)
  {
    StepKeepsGood(s, a);
    MineWithout(s.owed, Entry(a.pid, a.key, a.n), me);
  }

  lemma SubmitByOther(s: State, pid: Pid, t: NewTask, now: real, me: Pid)
    requires Good(s) && Enabled(s, Submit(pid, t, now)) && pid != me
    ensures Undisturbed(s, Apply(s, Submit(pid, t, now)), me)
  {
    StepKeepsGood(s, Submit(pid, t, now));
    var e := Entry(pid, t.ownerId, t.n);
    MineWithout(s.charges, e, me);
    if Inserts(s.rows, t) {
      MyEventsAppends(s.log, Born(pid, t.id, t.ownerId, ClampN(t.n)), me);
    } else {
      MineAppends(s.owed, [e], me);
    }
  }

  /** The steps of others that the protocol allows, one after the other. */
  function OthersAct(s: State, actions: seq<Action>, me: Pid): State
    decreases |actions|
  {
    if actions == [] then s
    else
      var a := actions[0];
      OthersAct(if PidOf(a) != Some(me) && Enabled(s, a) then Apply(s, a) else s, actions[1..], me)
  }

  /** Rely and guarantee: whatever the others do, `me` keeps what it has in hand. */
  lemma {:induction false} OthersLeaveMeAlone(s: State, actions: seq<Action>, me: Pid)
    requires Good(s)
    ensures Good(OthersAct(s, actions, me)) && Undisturbed(s, OthersAct(s, actions, me), me)
    decreases |actions|
  {
    if actions != [] {
      var a := actions[0];
      var t := if PidOf(a) != Some(me) && Enabled(s, a) then Apply(s, a) else s;
      if PidOf(a) != Some(me) && Enabled(s, a) {
        StepOfOther(s, a, me);
      }
      OthersLeaveMeAlone(t, actions[1..], me);
      UndisturbedChains(s, t, OthersAct(t, actions[1..], me), me);
    }
  }

  /** Nor do the others gain or lose a unit of any key. */
  lemma {:induction false} OthersConserve(s: State, actions: seq<Action>, me: Pid)
    requires Good(s)
    ensures Conserves(s, OthersAct(s, actions, me))
    decreases |actions|
  {
    if actions != [] {
      var a := actions[0];
      var t := if PidOf(a) != Some(me) && Enabled(s, a) then Apply(s, a) else s;
      if PidOf(a) != Some(me) && Enabled(s, a) {
        StepIsConserving(s, a);
        StepKeepsGood(s, a);
      }
      OthersConserve(t, actions[1..], me);
      ConservesChains(s, t, OthersAct(t, actions[1..], me));
    }
  }

  /** What one of my own settling statements puts into my hands. */
  lemma SettlingIsMine(s: State, me: Pid, id: TaskId, st: Stmt)
    requires Matches(s.rows, id, st) && !IsOpen(Updated(s.rows[id], st))
    ensures var t := ApplyUpdate(s, me, id, st);
            var r := Updated(s.rows[id], st);
            && Mine(t.owed, me) == Mine(s.owed, me) + Owing(me, r.ownerId, RefundFor(r))
            && MyEvents(t.log, me)
            == MyEvents(s.log, me) + [Settled(me, id, r.ownerId, r.n, r.status, RefundFor(r))]
  {
    var r := Updated(s.rows[id], st);
    MineAppends(s.owed, Owing(me, r.ownerId, RefundFor(r)), me);
    assert Mine(Owing(me, r.ownerId, RefundFor(r)), me) == Owing(me, r.ownerId, RefundFor(r));
    MyEventsAppends(s.log, Settled(me, id, r.ownerId, r.n, r.status, RefundFor(r)), me);
  }

  lemma FailingIsMine(s: State, me: Pid, id: TaskId, claim: string, message: string, now: real, task: Row)
    requires Matches(s.rows, id, Fail(claim, message, now))
    requires s.rows[id].n == task.n > 0 && s.rows[id].ownerId == task.ownerId
    ensures var t := ApplyUpdate(s, me, id, Fail(claim, message, now));
            && t.charges == s.charges
            && Mine(t.owed, me) == Mine(s.owed, me) + [Entry(me, task.ownerId, task.n)]
            && MyEvents(t.log, me)
            == MyEvents(s.log, me) + [Settled(me, id, task.ownerId, task.n, Error, task.n)]
  {
    SettlingIsMine(s, me, id, Fail(claim, message, now));
  }

  lemma CompletingIsMine(s: State, me: Pid, id: TaskId, claim: string, data: seq<string>, now: real, task: Row)
    requires Matches(s.rows, id, Complete(claim, data, now))
    requires s.rows[id].n == task.n && s.rows[id].ownerId == task.ownerId
    ensures var t := ApplyUpdate(s, me, id, Complete(claim, data, now));
            && t.charges == s.charges
            && Mine(t.owed, me) == Mine(s.owed, me) + Owing(me, task.ownerId, task.n - |data|)
            && MyEvents(t.log, me)
            == MyEvents(s.log, me) + [Settled(me, id, task.ownerId, task.n, Success, task.n - |data|)]
  {
    SettlingIsMine(s, me, id, Complete(claim, data, now));
  }

  lemma CancellingIsMine(s: State, me: Pid, id: TaskId, who: Identity, now: real)
    requires Good(s) && Matches(s.rows, id, Cancel(who, now)) && Mine(s.owed, me) == []
    ensures var t := ApplyUpdate(s, me, id, Cancel(who, now));
            && Good(t) && s.rows[id].n > 0
            && Mine(t.owed, me) == [Entry(me, s.rows[id].ownerId, s.rows[id].n)]
            && Refunded(MyEvents(s.log, me), MyEvents(t.log, me), [id], Canceled)
  {
    assert RowOk(s.rows[id]);
    UpdateKeepsGood(s, me, id, Cancel(who, now));
    SettlingIsMine(s, me, id, Cancel(who, now));
    var r := s.rows[id];
    OneRefund(MyEvents(s.log, me), Settled(me, id, r.ownerId, r.n, Canceled, r.n), id, Canceled);
  }

  lemma PayingIsMine(s: State, me: Pid, key: string, n: int)
    requires Good(s) && Mine(s.owed, me) != [] && Mine(s.owed, me)[0] == Entry(me, key, n)
    ensures var t := Apply(s, Pay(me, key, n));
            && Good(t) && Entry(me, key, n) in s.owed && t.charges == s.charges && t.log == s.log
            && Mine(t.owed, me) == Mine(s.owed, me)[1..]
  {
    assert Entry(me, key, n) in Mine(s.owed, me);
    MineMembers(s.owed, me);
    StepKeepsGood(s, Pay(me, key, n));
    MineWithout(s.owed, Entry(me, key, n), me);
  }

  lemma SubmittingIsMine(s: State, me: Pid, t: NewTask, now: real)
    requires Good(s) && 1 <= t.n <= 4
    requires Mine(s.charges, me) == [Entry(me, t.ownerId, t.n)] && Mine(s.owed, me) == []
    ensures var e := Entry(me, t.ownerId, t.n);
            var u := Apply(s, Submit(me, t, now));
            && Good(u) && e in s.charges
            && u == s.(rows := Insert(s.rows, t, now), charges := Without(s.charges, e),
                       owed := s.owed + (if Inserts(s.rows, t) then [] else [e]),
                       log := s.log + if Inserts(s.rows, t) then [Born(me, t.id, t.ownerId, t.n)] else [])
            && Mine(u.charges, me) == []
            && Mine(u.owed, me) == (if Inserts(s.rows, t) then [] else [e])
            && MyEvents(u.log, me) == MyEvents(s.log, me) +
                 if Inserts(s.rows, t) then [Born(me, t.id, t.ownerId, ClampN(t.n))] else []
  {
    MyEventsAppends(s.log, Born(me, t.id, t.ownerId, ClampN(t.n)), me);
    var e := Entry(me, t.ownerId, t.n);
    assert s.owed + [] == s.owed && s.log + [] == s.log;
    MineMembers(s.charges, me);
    StepKeepsGood(s, Submit(me, t, now));
    MineWithout(s.charges, e, me);
    MineAppends(s.owed, [e], me);
    assert Mine([e], me) == [e];
  }

  lemma ForfeitingIsMine(s: State, me: Pid, key: string, n: int)
    requires Mine(s.charges, me) == [Entry(me, key, n)] && Mine(s.owed, me) == []
    ensures var t := Apply(s, Forfeit(me, key, n));
            && Entry(me, key, n) in s.charges && t.log == s.log
            && Mine(t.charges, me) == [] && Mine(t.owed, me) == [Entry(me, key, n)]
  {
    var e := Entry(me, key, n);
    MineMembers(s.charges, me);
    MineWithout(s.charges, e, me);
    MineAppends(s.owed, [e], me);
    assert Mine([e], me) == [e];
  }

  /** What a statement that settles several rows leaves to refund, and its entries in the history. */
  function Dues(rows: Rows, ids: seq<TaskId>, me: Pid): seq<Entry>
    requires forall id :: id in ids ==> id in rows
  {
    if ids == [] then []
    else
      var id := ids[|ids| - 1];
      Dues(rows, ids[..|ids| - 1], me) + [Entry(me, rows[id].ownerId, rows[id].n)]
  }

  function Endings(rows: Rows, ids: seq<TaskId>, status: Status, me: Pid): (r: seq<Event>)
    requires forall id :: id in ids ==> id in rows
    ensures |r| == |ids|
    ensures forall i :: 0 <= i < |ids| ==>
              r[i] == Settled(me, ids[i], rows[ids[i]].ownerId, rows[ids[i]].n, status, rows[ids[i]].n)
  {
    if ids == [] then []
    else
      var id := ids[|ids| - 1];
      Endings(rows, ids[..|ids| - 1], status, me) + [Settled(me, id, rows[id].ownerId, rows[id].n, status, rows[id].n)]
  }

  function EndStatus(st: Stmt): Status {
    if st.Expire? then Error else Canceled
  }

  lemma BatchStep(s: State, me: Pid, id: TaskId, st: Stmt, dues: seq<Entry>, ends: seq<Event>, t: State)
    requires st.CancelClient? || st.Expire?
    requires Matches(t.rows, id, st) && t.rows[id].n > 0
    requires t.owed == s.owed + dues && t.log == s.log + ends
    ensures var r := t.rows[id];
            ApplyUpdate(t, me, id, st)
            == t.(rows := Exec(t.rows, id, st), owed := s.owed + (dues + [Entry(me, r.ownerId, r.n)]),
               log := s.log + (ends + [Settled(me, id, r.ownerId, r.n, EndStatus(st), r.n)]))
  {
  }

  lemma {:induction false} ManySettles(s: State, me: Pid, ids: seq<TaskId>, st: Stmt)
    requires st.CancelClient? || st.Expire?
    requires Distinct(ids)
    requires forall id :: id in ids ==> id in s.rows
    requires forall id :: id in ids ==> Hits(s.rows[id], st) && s.rows[id].n > 0
    ensures ApplyMany(s, me, ids, st)
         == s.(rows := ExecAll(s.rows, ids, st), owed := s.owed + Dues(s.rows, ids, me),
               log := s.log + Endings(s.rows, ids, EndStatus(st), me))
  {
    if ids == [] {
      assert s.owed + [] == s.owed && s.log + [] == s.log;
    } else {
      var init, id := ids[..|ids| - 1], ids[|ids| - 1];
      assert ids == init + [id];
      assert id in ids;
      assert forall i :: i in init ==> i in ids;
      ManySettles(s, me, init, st);
      ExecAllFrame(s.rows, init, st);
      BatchStep(s, me, id, st, Dues(s.rows, init, me), Endings(s.rows, init, EndStatus(st), me),
                ApplyMany(s, me, init, st));
    }
  }

  lemma {:induction false} DuesAreMine(rows: Rows, ids: seq<TaskId>, me: Pid)
    requires forall id :: id in ids ==> id in rows
    ensures Mine(Dues(rows, ids, me), me) == Dues(rows, ids, me)
  {
    if ids != [] {
      var id := ids[|ids| - 1];
      var e := Entry(me, rows[id].ownerId, rows[id].n);
      DuesAreMine(rows, ids[..|ids| - 1], me);
      MineAppends(Dues(rows, ids[..|ids| - 1], me), [e], me);
      assert Mine([e], me) == [e];
    }
  }

  lemma {:induction false} EndingsAreMine(log: seq<Event>, es: seq<Event>, me: Pid)
    requires forall e :: e in es ==> IsBy(e, me)
    ensures MyEvents(log + es, me) == MyEvents(log, me) + es
  {
    if es == [] {
      assert log + es == log;
    } else {
      var init, e := es[..|es| - 1], es[|es| - 1];
      assert e in es;
      assert log + es == (log + init) + [e];
      EndingsAreMine(log, init, me);
      MyEventsAppends(log + init, e, me);
      assert init + [e] == es;
    }
  }

  lemma {:induction false} DuesStay(rows: Rows, later: Rows, ids: seq<TaskId>, me: Pid)
    requires forall id :: id in ids ==> id in rows && id in later
    requires forall id :: id in ids ==> rows[id].ownerId == later[id].ownerId && rows[id].n == later[id].n
    ensures Dues(rows, ids, me) == Dues(later, ids, me)
    ensures forall status :: Endings(rows, ids, status, me) == Endings(later, ids, status, me)
  {
    if ids != [] {
      DuesStay(rows, later, ids[..|ids| - 1], me);
    }
  }

  /** A multi-row statement changes neither owner nor N. */
  lemma {:induction false} ExecAllKeepsCharge(rows: Rows, ids: seq<TaskId>, st: Stmt)
    ensures ExecAll(rows, ids, st).Keys == rows.Keys
    ensures forall id :: id in rows ==>
              ExecAll(rows, ids, st)[id].ownerId == rows[id].ownerId && ExecAll(rows, ids, st)[id].n == rows[id].n
  {
    if ids != [] {
      ExecAllKeepsCharge(rows, ids[..|ids| - 1], st);
    }
  }

  lemma {:induction false} SettledRow(rows: Rows, ids: seq<TaskId>, st: Stmt, id: TaskId)
    requires (st.CancelClient? || st.Expire?) && Distinct(ids) && id in rows && Hits(rows[id], st)
    ensures var t := ExecAll(rows, ids, st); id in t && t[id] == if id in ids then Updated(rows[id], st) else rows[id]
  {
    ExecAllFrame(rows, ids, st);
    if ids != [] {
      var init, last := ids[..|ids| - 1], ids[|ids| - 1];
      assert ids == init + [last];
      SettledRow(rows, init, st, id);
    }
  }

  lemma SettledRows(rows: Rows, ids: seq<TaskId>, st: Stmt)
    requires (st.CancelClient? || st.Expire?) && Distinct(ids)
    requires forall id :: id in ids ==> id in rows && Hits(rows[id], st)
    ensures ExecAll(rows, ids, st).Keys == rows.Keys
    ensures forall id :: id in ids ==> ExecAll(rows, ids, st)[id] == Updated(rows[id], st)
  {
    ExecAllFrame(rows, ids, st);
    forall id | id in ids ensures id in ExecAll(rows, ids, st) && ExecAll(rows, ids, st)[id] == Updated(rows[id], st) {
      SettledRow(rows, ids, st, id);
    }
  }

  lemma {:induction false} DuesAreRefundable(rows: Rows, ids: seq<TaskId>, me: Pid)
    requires forall id :: id in ids ==> id in rows && rows[id].n > 0
    ensures forall e :: e in Dues(rows, ids, me) ==> e.pid == me && e.n > 0
  {
    if ids != [] {
      assert ids[|ids| - 1] in ids;
      DuesAreRefundable(rows, ids[..|ids| - 1], me);
    }
  }

  lemma BatchRows(rows: Rows, ids: seq<TaskId>, st: Stmt)
    requires (st.CancelClient? || st.Expire?) && Distinct(ids)
    requires forall id :: id in ids ==> id in rows && Hits(rows[id], st) && rows[id].n > 0
    ensures var later := ExecAll(rows, ids, st);
            forall id :: id in ids ==> id in later && later[id].status == EndStatus(st) && later[id].n > 0
  {
    SettledRows(rows, ids, st);
    forall id | id in ids
      ensures ExecAll(rows, ids, st)[id].status == EndStatus(st) && ExecAll(rows, ids, st)[id].n > 0
    {
      assert ExecAll(rows, ids, st)[id] == Updated(rows[id], st);
    }
  }

  /** A batch settled by me, as one step. */
  lemma SettlingBatch(s: State, me: Pid, ids: seq<TaskId>, st: Stmt)
    requires Good(s) && (st.CancelClient? || st.Expire?)
    requires Distinct(ids) && forall id :: id in ids ==> id in s.rows && Hits(s.rows[id], st)
    ensures Good(ApplyMany(s, me, ids, st))
    ensures var rows := ExecAll(s.rows, ids, st);
            && (forall id :: id in ids ==> id in rows && rows[id].status == EndStatus(st) && rows[id].n > 0)
            && ApplyMany(s, me, ids, st)
            == s.(rows := rows, owed := s.owed + Dues(rows, ids, me),
                  log := s.log + Endings(rows, ids, EndStatus(st), me))
  {
    assert forall id :: id in ids ==> RowOk(s.rows[id]);
    BatchRows(s.rows, ids, st);
    ManyKeepsGood(s, me, ids, st);
    ManySettles(s, me, ids, st);
    ExecAllKeepsCharge(s.rows, ids, st);
    DuesStay(s.rows, ExecAll(s.rows, ids, st), ids, me);
  }

  /** What a settled batch puts into my hands. */
  lemma DuesInHand(owed: seq<Entry>, rows: Rows, ids: seq<TaskId>, me: Pid)
    requires forall id :: id in ids ==> id in rows && rows[id].n > 0
    requires Mine(owed, me) == []
    ensures var dues := Dues(rows, ids, me);
            Mine(owed + dues, me) == dues && forall e :: e in dues ==> e.pid == me && e.n > 0
  {
    var dues := Dues(rows, ids, me);
    DuesAreRefundable(rows, ids, me);
    DuesAreMine(rows, ids, me);
    MineAppends(owed, dues, me);
    assert [] + dues == dues;
  }

  lemma EndingsRefunded(log: seq<Event>, rows: Rows, ids: seq<TaskId>, status: Status, me: Pid)
    requires forall id :: id in ids ==> id in rows
    ensures Refunded(MyEvents(log, me), MyEvents(log + Endings(rows, ids, status, me), me), ids, status)
  {
    var ends := Endings(rows, ids, status, me);
    assert forall e :: e in ends ==> IsBy(e, me);
    EndingsAreMine(log, ends, me);
  }

  /** possibleImageTaskIDs; `derive` is the id built from the owner and the client task id. */
  function PossibleIds(derive: (string, string) -> TaskId, owner: string, id: TaskId): seq<TaskId> {
    if derive(owner, id) != id then [id, derive(owner, id)] else [id]
  }

  predicate WholeRefund(e: Event, id: TaskId, status: Status) {
    e.Settled? && e.id == id && e.status == status && e.refund == e.n
  }

  /** The history of one process grew by exactly one whole refund per listed task. */
  ghost predicate Refunded(before: seq<Event>, after: seq<Event>, ids: seq<TaskId>, status: Status) {
    && |after| == |before| + |ids|
    && (forall k :: 0 <= k < |before| ==> after[k] == before[k])
    && (forall k :: |before| <= k < |after| ==> WholeRefund(after[k], ids[k - |before|], status))
  }

  lemma OneRefund(before: seq<Event>, e: Event, id: TaskId, status: Status)
    requires WholeRefund(e, id, status)
    ensures Refunded(before, before + [e], [id], status)
  {
  }

  lemma RefundedChains(a: seq<Event>, b: seq<Event>, c: seq<Event>, xs: seq<TaskId>, ys: seq<TaskId>, status: Status)
    requires Refunded(a, b, xs, status) && Refunded(b, c, ys, status)
    ensures Refunded(a, c, xs + ys, status)
  {
    forall k | |a| <= k < |c| ensures WholeRefund(c[k], (xs + ys)[k - |a|], status) {
      if k < |b| {
        assert c[k] == b[k];
      }
    }
  }

  // ---------- What cancelling leaves behind ----------

  /** Rows are neither added nor removed, and what changes is settled. */
  ghost predicate OnlyCloses(a: Rows, b: Rows) {
    && a.Keys == b.Keys
    && forall id :: id in a ==>
         b[id] == a[id] || (!IsOpen(b[id]) && b[id].clientTaskId == a[id].clientTaskId)
  }

  lemma OnlyClosesChains(a: Rows, b: Rows, c: Rows)
    requires OnlyCloses(a, b) && OnlyCloses(b, c)
    ensures OnlyCloses(a, c)
  {
    forall id | id in a
      ensures c[id] == a[id] || (!IsOpen(c[id]) && c[id].clientTaskId == a[id].clientTaskId)
    {
      assert id in b;
    }
  }

  lemma {:induction false} BatchOnlyCloses(rows: Rows, ids: seq<TaskId>, st: Stmt)
    requires st.CancelClient? || st.Expire?
    ensures OnlyCloses(rows, ExecAll(rows, ids, st))
  {
    if ids != [] {
      BatchOnlyCloses(rows, ids[..|ids| - 1], st);
      var t := ExecAll(rows, ids[..|ids| - 1], st);
      assert OnlyCloses(t, Exec(t, ids[|ids| - 1], st));
      OnlyClosesChains(rows, t, ExecAll(rows, ids, st));
    }
  }

  predicate Uncancelable(rows: Rows, id: TaskId, who: Identity) {
    !(id in rows && IsOpen(rows[id]) && Visible(rows[id], who))
  }

  ghost predicate NoneOpen(rows: Rows, clientTaskId: string, who: Identity) {
    forall id :: id in rows && rows[id].clientTaskId == clientTaskId ==> Uncancelable(rows, id, who)
  }

  ghost predicate AllUncancelable(rows: Rows, ids: seq<TaskId>, who: Identity) {
    forall id :: id in ids ==> Uncancelable(rows, id, who)
  }

  lemma StayUncancelable(a: Rows, b: Rows, ids: seq<TaskId>, id: TaskId, who: Identity)
    requires OnlyCloses(a, b) && AllUncancelable(a, ids, who)
    ensures AllUncancelable(b, ids, who)
    ensures Uncancelable(b, id, who) ==> AllUncancelable(b, ids + [id], who)
  {
    forall i | i in ids ensures Uncancelable(b, i, who) {
      assert Uncancelable(a, i, who);
    }
  }

  /** Nothing is left to cancel for a requested id. */
  ghost predicate NothingOpen(rows: Rows, asked: TaskId, who: Identity, derive: (string, string) -> TaskId) {
    && AllUncancelable(rows, PossibleIds(derive, who.id, asked), who)
    && (who.role != "admin" && !Blank(asked) ==> NoneOpen(rows, TrimSpace(asked), who))
  }

  /** Nothing is left to cancel under an id when neither the id itself nor the one derived from it and the user is
      an open task that the user may see, and, for a user, no open task of the user's has it as its client id. */
  lemma NothingOpenIff(rows: Rows, asked: TaskId, who: Identity, derive: (string, string) -> TaskId)
    ensures NothingOpen(rows, asked, who, derive) <==>
              && (forall id :: id == asked || id == derive(who.id, asked) ==>
                    !(id in rows && rows[id].status in {Queued, Running}
                      && (who.role == "admin" || rows[id].ownerId == who.id)))
              && (who.role != "admin" && !Blank(asked) ==>
                    forall id :: id in rows && rows[id].clientTaskId == TrimSpace(asked) ==>
                      !(rows[id].status in {Queued, Running} && rows[id].ownerId == who.id))
  {
    var ids := PossibleIds(derive, who.id, asked);
    assert forall id :: id in ids <==> id == asked || id == derive(who.id, asked);
    forall id
      ensures Uncancelable(rows, id, who) <==>
              !(id in rows && rows[id].status in {Queued, Running}
                && (who.role == "admin" || rows[id].ownerId == who.id))
    {
    }
  }

  lemma StaysClosed(a: Rows, b: Rows, asked: TaskId, who: Identity, derive: (string, string) -> TaskId)
    requires OnlyCloses(a, b) && NothingOpen(a, asked, who, derive)
    ensures NothingOpen(b, asked, who, derive)
  {
    StayUncancelable(a, b, PossibleIds(derive, who.id, asked), asked, who);
    if who.role != "admin" && !Blank(asked) {
      assert NoneOpen(a, TrimSpace(asked), who);
      forall id | id in b && b[id].clientTaskId == TrimSpace(asked) ensures Uncancelable(b, id, who) {
        assert Uncancelable(a, id, who);
      }
    }
  }

  /** One of the ids stands for the requested one: it is a candidate, or its row has that client id. */
  ghost predicate Answers(rows: Rows, asked: TaskId, who: Identity, derive: (string, string) -> TaskId, id: TaskId) {
    id in PossibleIds(derive, who.id, asked) || (id in rows && rows[id].clientTaskId == TrimSpace(asked))
  }
}
