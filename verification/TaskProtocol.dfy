/** The image-task protocol as a transition system: every SQL statement, charge and refund is one
    atomic step, and any number of API processes and workers may interleave theirs.

    Between a charge and its INSERT, and between a settling statement and its refund, the amount
    is in the hands of one process; `charges` and `owed` list those amounts. `log` is the history
    of the table and `usedClaims` the claim ids drawn so far; no step reads either. */
module TaskProtocol {
  import opened Common
  import opened Text
  import opened TaskTable
  import opened KeyQuota

  type Pid = nat

  /** An amount of image quota of one key that process `pid` still has to act on. */
  datatype Entry = Entry(pid: Pid, key: string, n: int)

  datatype Event =
    | Born(pid: Pid, id: TaskId, key: string, n: int)
    | Settled(pid: Pid, id: TaskId, key: string, n: int, status: Status, refund: int)
    | Purged(id: TaskId)
    | Served(key: string, n: int, refund: int)

  datatype State = State(
    rows: Rows, keys: Keys, charges: seq<Entry>, owed: seq<Entry>,
    usedClaims: set<string>, log: seq<Event>)

  datatype Action =
    | Charge(pid: Pid, who: Identity, n: int, clock: Clock)
    | Submit(pid: Pid, task: NewTask, now: real)
    | Forfeit(pid: Pid, key: string, n: int)
    | Serve(pid: Pid, key: string, n: int, images: nat)
    | Update(pid: Pid, id: TaskId, st: Stmt)
    | UpdateMany(pid: Pid, ids: seq<TaskId>, st: Stmt)
    | Delete(ids: seq<TaskId>, cutoff: real)
    | Pay(pid: Pid, key: string, n: int)

  /** consumeImage: a root identity is served without being charged. */
  predicate Accepted(s: State, who: Identity, n: int, clock: Clock) {
    who.root || KeyQuota.Charges(s.keys, who.id, n, true, clock)
  }

  /** What a settling statement leaves to be refunded: a completed task keeps one unit per image. */
  function RefundFor(r: Row): int {
    if r.status == Success then r.n - |r.results| else r.n
  }

  function DrawnClaims(st: Stmt): set<string> {
    if st.Claim? || st.ClaimQueued? then {st.worker} else {}
  }

  function Owing(pid: Pid, key: string, n: int): seq<Entry> {
    if n > 0 then [Entry(pid, key, n)] else []
  }

  function ApplyUpdate(s: State, pid: Pid, id: TaskId, st: Stmt): State {
    var drawn := s.(usedClaims := s.usedClaims + DrawnClaims(st));
    if !Matches(s.rows, id, st) then
      drawn
    else
      var r := Updated(s.rows[id], st);
      var next := drawn.(rows := Exec(s.rows, id, st));
      if IsOpen(r) then
        next
      else
        next.(owed := s.owed + Owing(pid, r.ownerId, RefundFor(r)),
              log := s.log + [Settled(pid, id, r.ownerId, r.n, r.status, RefundFor(r))])
  }

  function ApplyMany(s: State, pid: Pid, ids: seq<TaskId>, st: Stmt): State {
    if ids == [] then s else ApplyUpdate(ApplyMany(s, pid, ids[..|ids| - 1], st), pid, ids[|ids| - 1], st)
  }

  function ApplyPurge(s: State, id: TaskId, cutoff: real): State {
    if Purgeable(s.rows, id, cutoff) then
      s.(rows := Purge(s.rows, id, cutoff), log := s.log + [Purged(id)])
    else
      s
  }

  function ApplyDelete(s: State, ids: seq<TaskId>, cutoff: real): State {
    if ids == [] then s else ApplyPurge(ApplyDelete(s, ids[..|ids| - 1], cutoff), ids[|ids| - 1], cutoff)
  }

  function Apply(s: State, a: Action): State {
    match a
    case Charge(pid, who, n, clock) =>
      if !Accepted(s, who, n, clock) then s
      else
        s.(keys := if who.root then s.keys else Consume(s.keys, who.id, n, true, clock),
           charges := s.charges + [Entry(pid, who.id, AtLeastOne(n))])
    case Submit(pid, t, now) =>
      var e := Entry(pid, t.ownerId, t.n);
      if Inserts(s.rows, t) then
        s.(rows := Insert(s.rows, t, now), charges := Without(s.charges, e),
           log := s.log + [Born(pid, t.id, t.ownerId, ClampN(t.n))])
      else
        s.(charges := Without(s.charges, e), owed := s.owed + [e])
    case Forfeit(pid, key, n) =>
      s.(charges := Without(s.charges, Entry(pid, key, n)), owed := s.owed + [Entry(pid, key, n)])
    case Serve(pid, key, n, images) =>
      s.(charges := Without(s.charges, Entry(pid, key, n)),
         owed := s.owed + Owing(pid, key, n - images),
         log := s.log + [Served(key, n, n - images)])
    case Update(pid, id, st) => ApplyUpdate(s, pid, id, st)
    case UpdateMany(pid, ids, st) => ApplyMany(s, pid, ids, st)
    case Delete(ids, cutoff) => ApplyDelete(s, ids, cutoff)
    case Pay(pid, key, n) =>
      s.(keys := Refund(s.keys, key, n, true), owed := Without(s.owed, Entry(pid, key, n)))
  }

  /** What the processes themselves guarantee about a step they take. */
  predicate Enabled(s: State, a: Action) {
    match a
    case Charge(_, who, _, _) => who.root <==> who.id == "admin"
    case Submit(pid, t, _) => Entry(pid, t.ownerId, t.n) in s.charges && 1 <= t.n <= 4
    case Forfeit(pid, key, n) => Entry(pid, key, n) in s.charges
    case Serve(pid, key, n, images) => Entry(pid, key, n) in s.charges && images <= n
    case Update(_, id, st) =>
      && (st.Claim? || st.ClaimQueued? ==> !Blank(st.worker) && st.worker !in s.usedClaims)
      && (st.Complete? && Matches(s.rows, id, st) ==> |st.data| <= s.rows[id].n)
    case UpdateMany(_, _, st) => st.CancelClient? || st.Expire?
    case Delete(_, _) => true
    case Pay(pid, key, n) => Entry(pid, key, n) in s.owed
  }

  ghost predicate Run(s: State, actions: seq<Action>, t: State)
    decreases |actions|
  {
    if actions == [] then s == t
    else Enabled(s, actions[0]) && Run(Apply(s, actions[0]), actions[1..], t)
  }

  /** An empty table and nothing in flight; the keys may have been used before. */
  ghost predicate Init(s: State) {
    && s.rows == map[] && s.charges == [] && s.owed == [] && s.usedClaims == {} && s.log == []
    && !HasKey(s.keys, "admin")
    && forall k: string :: ImageTotalUsed(s.keys, k) >= 0
  }

  // ---------- Rows, claims and entries ----------

  ghost predicate RowOk(r: Row) {
    && 1 <= r.n <= 4
    && (r.claimedBy != "" <==> r.status == Running)
    && (r.status == Success ==> |r.results| <= r.n)
  }

  ghost predicate WellFormed(s: State) {
    && (forall id :: id in s.rows ==> RowOk(s.rows[id]))
    && (forall id :: id in s.rows && s.rows[id].claimedBy != "" ==> s.rows[id].claimedBy in s.usedClaims)
    && (forall i, j :: i in s.rows && j in s.rows && s.rows[i].claimedBy == s.rows[j].claimedBy != "" ==> i == j)
    && "" !in s.usedClaims
    && (forall e :: e in s.charges ==> e.n > 0)
    && (forall e :: e in s.owed ==> e.n > 0)
    && !HasKey(s.keys, "admin")
  }

  /** Writing back a row that keeps its claim, drops it or takes a fresh one. */
  lemma WriteKeepsWellFormed(s: State, t: State, id: TaskId, drawn: set<string>)
    requires WellFormed(s) && id in s.rows && id in t.rows && RowOk(t.rows[id])
    requires t.rows == s.rows[id := t.rows[id]] && t.keys == s.keys && t.charges == s.charges
    requires t.usedClaims == s.usedClaims + drawn && "" !in drawn && drawn !! s.usedClaims
    requires t.rows[id].claimedBy == "" || t.rows[id].claimedBy == s.rows[id].claimedBy || t.rows[id].claimedBy in drawn
    requires forall e :: e in t.owed ==> e.n > 0
    ensures WellFormed(t)
  {
    forall i, j | i in t.rows && j in t.rows && t.rows[i].claimedBy == t.rows[j].claimedBy != ""
      ensures i == j
    {
      assert i != id ==> t.rows[i] == s.rows[i];
      assert j != id ==> t.rows[j] == s.rows[j];
    }
  }

  lemma UpdateKeepsWellFormed(s: State, pid: Pid, id: TaskId, st: Stmt)
    requires WellFormed(s) && Enabled(s, Update(pid, id, st))
    ensures WellFormed(ApplyUpdate(s, pid, id, st))
  {
    if Matches(s.rows, id, st) {
      UpdatedRow(s.rows[id], st);
      WriteKeepsWellFormed(s, ApplyUpdate(s, pid, id, st), id, DrawnClaims(st));
    }
  }

  lemma {:induction false} ManyKeepsWellFormed(s: State, pid: Pid, ids: seq<TaskId>, st: Stmt)
    requires WellFormed(s) && (st.CancelClient? || st.Expire?)
    ensures WellFormed(ApplyMany(s, pid, ids, st))
  {
    if ids != [] {
      ManyKeepsWellFormed(s, pid, ids[..|ids| - 1], st);
      UpdateKeepsWellFormed(ApplyMany(s, pid, ids[..|ids| - 1], st), pid, ids[|ids| - 1], st);
    }
  }

  lemma {:induction false} DeleteKeepsWellFormed(s: State, ids: seq<TaskId>, cutoff: real)
    requires WellFormed(s)
    ensures WellFormed(ApplyDelete(s, ids, cutoff))
  {
    if ids != [] {
      DeleteKeepsWellFormed(s, ids[..|ids| - 1], cutoff);
    }
  }

  lemma StepKeepsWellFormed(s: State, a: Action)
    requires WellFormed(s) && Enabled(s, a)
    ensures WellFormed(Apply(s, a))
  {
    match a
    case Charge(pid, who, n, clock) => TotalAfterConsume(s.keys, who.id, n, clock, "admin");
    case Submit(pid, t, now) => WithoutMembers(s.charges, Entry(pid, t.ownerId, t.n));
    case Forfeit(pid, key, n) => WithoutMembers(s.charges, Entry(pid, key, n));
    case Serve(pid, key, n, images) => WithoutMembers(s.charges, Entry(pid, key, n));
    case Update(pid, id, st) => UpdateKeepsWellFormed(s, pid, id, st);
    case UpdateMany(pid, ids, st) => ManyKeepsWellFormed(s, pid, ids, st);
    case Delete(ids, cutoff) => DeleteKeepsWellFormed(s, ids, cutoff);
    case Pay(pid, key, n) =>
      WithoutMembers(s.owed, Entry(pid, key, n));
      TotalAfterRefund(s.keys, key, n, "admin");
  }

  // ---------- Quota conservation ----------

  function OpenUnits(r: Row, k: string): int {
    if IsOpen(r) && r.ownerId == k then r.n else 0
  }

  /** Units held by the open tasks of a key. */
  ghost function Live(rows: Rows, k: string): int
    decreases rows.Keys
  {
    if rows == map[] then 0 else var id :| id in rows; OpenUnits(rows[id], k) + Live(rows - {id}, k)
  }

  lemma {:induction false} LiveSplits(rows: Rows, id: TaskId, k: string)
    requires id in rows
    ensures Live(rows, k) == OpenUnits(rows[id], k) + Live(rows - {id}, k)
    decreases rows.Keys
  {
    var x :| x in rows && Live(rows, k) == OpenUnits(rows[x], k) + Live(rows - {x}, k);
    if x != id {
      LiveSplits(rows - {x}, id, k);
      LiveSplits(rows - {id}, x, k);
      assert rows - {x} - {id} == rows - {id} - {x};
    }
  }

  lemma LiveAfterWrite(rows: Rows, id: TaskId, r: Row, k: string)
    ensures Live(rows[id := r], k)
         == Live(rows, k) - (if id in rows then OpenUnits(rows[id], k) else 0) + OpenUnits(r, k)
  {
    LiveSplits(rows[id := r], id, k);
    assert rows[id := r] - {id} == rows - {id};
    if id in rows {
      LiveSplits(rows, id, k);
    } else {
      assert rows - {id} == rows;
    }
  }

  /** Units of a key that ended up as delivered images. */
  function Delivered(log: seq<Event>, k: string): int {
    if log == [] then 0
    else
      Delivered(log[..|log| - 1], k) +
      match log[|log| - 1]
      case Settled(_, _, key, n, _, refund) => if key == k then n - refund else 0
      case Served(key, n, refund) => if key == k then n - refund else 0
      case _ => 0
  }

  function Sum(entries: seq<Entry>, k: string): int {
    if entries == [] then 0
    else Sum(entries[..|entries| - 1], k) + if entries[|entries| - 1].key == k then entries[|entries| - 1].n else 0
  }

  lemma {:induction false} SumAppends(a: seq<Entry>, b: seq<Entry>, k: string)
    ensures Sum(a + b, k) == Sum(a, k) + Sum(b, k)
    decreases |b|
  {
    if b == [] {
      assert a + b == a;
    } else {
      assert (a + b)[..|a + b| - 1] == a + b[..|b| - 1];
      SumAppends(a, b[..|b| - 1], k);
    }
  }

  lemma {:induction false} SumWithout(es: seq<Entry>, e: Entry, k: string)
    requires e in es
    ensures Sum(Without(es, e), k) == Sum(es, k) - if e.key == k then e.n else 0
  {
    assert es == [es[0]] + es[1..];
    SumAppends([es[0]], es[1..], k);
    assert Sum([es[0]], k) == if es[0].key == k then es[0].n else 0;
    if es[0] != e {
      SumWithout(es[1..], e, k);
      SumAppends([es[0]], Without(es[1..], e), k);
    }
  }

  lemma {:induction false} SumNonNegative(es: seq<Entry>, k: string)
    requires forall e :: e in es ==> e.n > 0
    ensures Sum(es, k) >= 0
    ensures forall e :: e in es && e.key == k ==> Sum(es, k) >= e.n
  {
    if es != [] {
      var last := es[|es| - 1];
      assert last in es;
      SumNonNegative(es[..|es| - 1], k);
      forall e | e in es && e.key == k ensures Sum(es, k) >= e.n {
        assert e == last || e in es[..|es| - 1];
      }
    }
  }

  lemma {:induction false} LiveNonNegative(rows: Rows, k: string)
    requires forall id :: id in rows ==> RowOk(rows[id])
    ensures Live(rows, k) >= 0
    decreases rows.Keys
  {
    if rows != map[] {
      var id :| id in rows;
      LiveSplits(rows, id, k);
      LiveNonNegative(rows - {id}, k);
    }
  }

  predicate Pays(e: Event) {
    e.Settled? || e.Served? ==> 0 <= e.refund <= e.n
  }

  ghost predicate LogPays(log: seq<Event>) {
    forall i :: 0 <= i < |log| ==> Pays(log[i])
  }

  lemma LogPaysOn(log: seq<Event>, e: Event)
    requires LogPays(log) && Pays(e)
    ensures LogPays(log + [e])
  {
  }

  lemma {:induction false} DeliveredNonNegative(log: seq<Event>, k: string)
    requires LogPays(log)
    ensures Delivered(log, k) >= 0
  {
    if log != [] {
      DeliveredNonNegative(log[..|log| - 1], k);
    }
  }

  lemma DeliveredAppends(log: seq<Event>, e: Event, k: string)
    ensures Delivered(log + [e], k) == Delivered(log, k) + Delivered([e], k)
  {
    assert (log + [e])[..|log|] == log;
    assert [e][..0] == [];
  }

  /** The part of a key's lifetime counter that no task, image, charge or refund accounts for. */
  ghost function Unexplained(s: State, k: string): int {
    ImageTotalUsed(s.keys, k) - Live(s.rows, k) - Delivered(s.log, k) - Sum(s.charges, k) - Sum(s.owed, k)
  }

  ghost predicate Sound(s: State) {
    WellFormed(s) && LogPays(s.log)
  }

  /** A settling statement turns the row's units into delivered images and a refund. */
  lemma SettlingConserves(s: State, t: State, pid: Pid, id: TaskId, r: Row, k: string)
    requires id in s.rows && IsOpen(s.rows[id]) && !IsOpen(r)
    requires r.n == s.rows[id].n && r.ownerId == s.rows[id].ownerId && 0 <= RefundFor(r) <= r.n
    requires t.rows == s.rows[id := r] && t.keys == s.keys && t.charges == s.charges
    requires t.owed == s.owed + Owing(pid, r.ownerId, RefundFor(r))
    requires t.log == s.log + [Settled(pid, id, r.ownerId, r.n, r.status, RefundFor(r))]
    ensures LogPays(s.log) ==> LogPays(t.log)
    ensures Unexplained(t, k) == Unexplained(s, k)
  {
    var e := Settled(pid, id, r.ownerId, r.n, r.status, RefundFor(r));
    if LogPays(s.log) {
      LogPaysOn(s.log, e);
    }
    LiveAfterWrite(s.rows, id, r, k);
    DeliveredAppends(s.log, e, k);
    SumAppends(s.owed, Owing(pid, r.ownerId, RefundFor(r)), k);
    SumOfOne(Entry(pid, r.ownerId, RefundFor(r)), k);
  }

  lemma UpdatedRow(r: Row, st: Stmt)
    requires RowOk(r) && Hits(r, st)
    requires st.Claim? || st.ClaimQueued? ==> !Blank(st.worker)
    requires st.Complete? ==> |st.data| <= r.n
    ensures var u := Updated(r, st);
            && RowOk(u) && IsOpen(r)
            && u.n == r.n && u.ownerId == r.ownerId && 0 <= RefundFor(u) <= u.n
            && (u.claimedBy == "" || u.claimedBy == r.claimedBy || u.claimedBy in DrawnClaims(st))
  {
  }

  lemma UpdateConserves(s: State, pid: Pid, id: TaskId, st: Stmt, k: string)
    requires Sound(s) && Enabled(s, Update(pid, id, st))
    ensures Sound(ApplyUpdate(s, pid, id, st))
    ensures Unexplained(ApplyUpdate(s, pid, id, st), k) == Unexplained(s, k)
  {
    UpdateKeepsWellFormed(s, pid, id, st);
    if Matches(s.rows, id, st) {
      var r := Updated(s.rows[id], st);
      UpdatedRow(s.rows[id], st);
      if IsOpen(r) {
        LiveAfterWrite(s.rows, id, r, k);
      } else {
        SettlingConserves(s, ApplyUpdate(s, pid, id, st), pid, id, r, k);
      }
    }
  }

  lemma {:induction false} ManyConserves(s: State, pid: Pid, ids: seq<TaskId>, st: Stmt, k: string)
    requires Sound(s) && (st.CancelClient? || st.Expire?)
    ensures Sound(ApplyMany(s, pid, ids, st))
    ensures Unexplained(ApplyMany(s, pid, ids, st), k) == Unexplained(s, k)
  {
    if ids != [] {
      ManyConserves(s, pid, ids[..|ids| - 1], st, k);
      UpdateConserves(ApplyMany(s, pid, ids[..|ids| - 1], st), pid, ids[|ids| - 1], st, k);
    }
  }

  lemma PurgeConserves(s: State, id: TaskId, cutoff: real, k: string)
    requires Sound(s)
    ensures Sound(ApplyPurge(s, id, cutoff))
    ensures Unexplained(ApplyPurge(s, id, cutoff), k) == Unexplained(s, k)
  {
    if Purgeable(s.rows, id, cutoff) {
      LiveSplits(s.rows, id, k);
      DeliveredAppends(s.log, Purged(id), k);
      LogPaysOn(s.log, Purged(id));
    }
  }

  lemma {:induction false} DeleteConserves(s: State, ids: seq<TaskId>, cutoff: real, k: string)
    requires Sound(s)
    ensures Sound(ApplyDelete(s, ids, cutoff))
    ensures Unexplained(ApplyDelete(s, ids, cutoff), k) == Unexplained(s, k)
  {
    if ids != [] {
      DeleteConserves(s, ids[..|ids| - 1], cutoff, k);
      PurgeConserves(ApplyDelete(s, ids[..|ids| - 1], cutoff), ids[|ids| - 1], cutoff, k);
    }
  }

  /** The counter of a key covers every refund still owed to it, so a refund never meets the clamp. */
  lemma OwedIsCovered(s: State, e: Entry)
    requires Sound(s) && e in s.owed && Unexplained(s, e.key) >= 0
    ensures ImageTotalUsed(s.keys, e.key) >= e.n
  {
    SumNonNegative(s.owed, e.key);
    SumNonNegative(s.charges, e.key);
    LiveNonNegative(s.rows, e.key);
    DeliveredNonNegative(s.log, e.key);
  }

  lemma SumOfOne(e: Entry, k: string)
    ensures Sum([e], k) == if e.key == k then e.n else 0
  {
    assert [e][..0] == [];
  }

  lemma ChargeConserves(s: State, pid: Pid, who: Identity, n: int, clock: Clock, k: string)
    requires Sound(s) && Enabled(s, Charge(pid, who, n, clock)) && HasKey(s.keys, k)
    ensures var t := Apply(s, Charge(pid, who, n, clock));
            Sound(t) && HasKey(t.keys, k) && Unexplained(t, k) == Unexplained(s, k)
  {
    StepKeepsWellFormed(s, Charge(pid, who, n, clock));
    TotalAfterConsume(s.keys, who.id, n, clock, k);
    var e := Entry(pid, who.id, AtLeastOne(n));
    SumAppends(s.charges, [e], k);
    SumOfOne(e, k);
  }

  lemma SubmitConserves(s: State, pid: Pid, t: NewTask, now: real, k: string)
    requires Sound(s) && Enabled(s, Submit(pid, t, now))
    ensures var u := Apply(s, Submit(pid, t, now));
            Sound(u) && u.keys == s.keys && Unexplained(u, k) == Unexplained(s, k)
  {
    StepKeepsWellFormed(s, Submit(pid, t, now));
    var e := Entry(pid, t.ownerId, t.n);
    SumWithout(s.charges, e, k);
    if Inserts(s.rows, t) {
      LiveAfterWrite(s.rows, t.id, NewRow(t, now), k);
      DeliveredAppends(s.log, Born(pid, t.id, t.ownerId, ClampN(t.n)), k);
    } else {
      SumAppends(s.owed, [e], k);
      SumOfOne(e, k);
    }
  }

  lemma ForfeitConserves(s: State, pid: Pid, key: string, n: int, k: string)
    requires Sound(s) && Enabled(s, Forfeit(pid, key, n))
    ensures var t := Apply(s, Forfeit(pid, key, n));
            Sound(t) && t.keys == s.keys && Unexplained(t, k) == Unexplained(s, k)
  {
    StepKeepsWellFormed(s, Forfeit(pid, key, n));
    var e := Entry(pid, key, n);
    SumWithout(s.charges, e, k);
    SumAppends(s.owed, [e], k);
    SumOfOne(e, k);
  }

  lemma OwingAdds(owed: seq<Entry>, pid: Pid, key: string, n: int, k: string)
    requires n >= 0
    ensures Sum(owed + Owing(pid, key, n), k) == Sum(owed, k) + if key == k then n else 0
  {
    SumAppends(owed, Owing(pid, key, n), k);
    SumOfOne(Entry(pid, key, n), k);
  }

  lemma ServeKeepsSound(s: State, pid: Pid, key: string, n: int, images: nat)
    requires Sound(s) && Enabled(s, Serve(pid, key, n, images))
    ensures Sound(Apply(s, Serve(pid, key, n, images)))
  {
    StepKeepsWellFormed(s, Serve(pid, key, n, images));
    LogPaysOn(s.log, Served(key, n, n - images));
  }

  lemma ServeConserves(s: State, pid: Pid, key: string, n: int, images: nat, k: string)
    requires Sound(s) && Enabled(s, Serve(pid, key, n, images))
    ensures var t := Apply(s, Serve(pid, key, n, images));
            Sound(t) && t.keys == s.keys && Unexplained(t, k) == Unexplained(s, k)
  {
    ServeKeepsSound(s, pid, key, n, images);
    var t := Apply(s, Serve(pid, key, n, images));
    assert Sum(t.charges, k) == Sum(s.charges, k) - if key == k then n else 0 by {
      SumWithout(s.charges, Entry(pid, key, n), k);
    }
    assert Sum(t.owed, k) == Sum(s.owed, k) + if key == k then n - images else 0 by {
      OwingAdds(s.owed, pid, key, n - images, k);
    }
    assert Delivered(t.log, k) == Delivered(s.log, k) + if key == k then images else 0 by {
      DeliveredAppends(s.log, Served(key, n, n - images), k);
    }
  }

  lemma PayConserves(s: State, pid: Pid, key: string, n: int, k: string)
    requires Sound(s) && Enabled(s, Pay(pid, key, n)) && HasKey(s.keys, k) && Unexplained(s, k) >= 0
    ensures var t := Apply(s, Pay(pid, key, n));
            Sound(t) && HasKey(t.keys, k) && Unexplained(t, k) == Unexplained(s, k)
  {
    StepKeepsWellFormed(s, Pay(pid, key, n));
    var e := Entry(pid, key, n);
    SumWithout(s.owed, e, k);
    TotalAfterRefund(s.keys, key, n, k);
    if key == k {
      OwedIsCovered(s, e);
    }
  }

  lemma {:induction false} ManyKeepsKeys(s: State, pid: Pid, ids: seq<TaskId>, st: Stmt)
    ensures ApplyMany(s, pid, ids, st).keys == s.keys
  {
    if ids != [] {
      ManyKeepsKeys(s, pid, ids[..|ids| - 1], st);
    }
  }

  lemma {:induction false} DeleteKeepsKeys(s: State, ids: seq<TaskId>, cutoff: real)
    ensures ApplyDelete(s, ids, cutoff).keys == s.keys
  {
    if ids != [] {
      DeleteKeepsKeys(s, ids[..|ids| - 1], cutoff);
    }
  }

  /** No key loses or gains a unit on the way from `s` to `t`: what its counter does not account for stays
      the same. */
  ghost predicate Conserves(s: State, t: State) {
    forall k :: HasKey(s.keys, k) && Unexplained(s, k) >= 0 ==>
      HasKey(t.keys, k) && Unexplained(t, k) == Unexplained(s, k)
  }

  lemma StepKeepsSound(s: State, a: Action)
    requires Sound(s) && Enabled(s, a)
    ensures Sound(Apply(s, a))
  {
    StepKeepsWellFormed(s, a);
    match a
    case Submit(pid, t, now) => SubmitConserves(s, pid, t, now, "");
    case Serve(pid, key, n, images) => ServeKeepsSound(s, pid, key, n, images);
    case Update(pid, id, st) => UpdateConserves(s, pid, id, st, "");
    case UpdateMany(pid, ids, st) => ManyConserves(s, pid, ids, st, "");
    case Delete(ids, cutoff) => DeleteConserves(s, ids, cutoff, "");
    case _ =>
  }

  /** No step gains or loses a unit of any key. */
  lemma StepIsConserving(s: State, a: Action)
    requires Sound(s) && Enabled(s, a)
    ensures Sound(Apply(s, a)) && Conserves(s, Apply(s, a))
  {
    StepKeepsSound(s, a);
    forall k | HasKey(s.keys, k) && Unexplained(s, k) >= 0
      ensures HasKey(Apply(s, a).keys, k) && Unexplained(Apply(s, a), k) == Unexplained(s, k)
    {
      match a
      case Charge(pid, who, n, clock) => ChargeConserves(s, pid, who, n, clock, k);
      case Submit(pid, t, now) => SubmitConserves(s, pid, t, now, k);
      case Forfeit(pid, key, n) => ForfeitConserves(s, pid, key, n, k);
      case Serve(pid, key, n, images) => ServeConserves(s, pid, key, n, images, k);
      case Update(pid, id, st) => UpdateConserves(s, pid, id, st, k);
      case UpdateMany(pid, ids, st) =>
        ManyConserves(s, pid, ids, st, k);
        ManyKeepsKeys(s, pid, ids, st);
      case Delete(ids, cutoff) =>
        DeleteConserves(s, ids, cutoff, k);
        DeleteKeepsKeys(s, ids, cutoff);
      case Pay(pid, key, n) => PayConserves(s, pid, key, n, k);
    }
  }

  lemma ConservesChains(s: State, t: State, u: State)
    requires Conserves(s, t) && Conserves(t, u)
    ensures Conserves(s, u)
  {
  }

  /** Conservation, from any sound state: whatever the interleaving, the counter of a key always
      equals what it was not accounting for at the start, plus N for every open task, the images
      delivered, the charges not yet inserted and the refunds still owed. */
  lemma {:induction false} QuotaIsConserved(s: State, actions: seq<Action>, t: State, k: string)
    requires Sound(s) && Run(s, actions, t) && HasKey(s.keys, k) && Unexplained(s, k) >= 0
    ensures Sound(t) && HasKey(t.keys, k)
    ensures ImageTotalUsed(t.keys, k)
         == Unexplained(s, k) + Live(t.rows, k) + Delivered(t.log, k) + Sum(t.charges, k) + Sum(t.owed, k)
    decreases |actions|
  {
    if actions != [] {
      StepIsConserving(s, actions[0]);
      QuotaIsConserved(Apply(s, actions[0]), actions[1..], t, k);
    }
  }

  /** Hence no refund of any run is cut short: after each one the counter is lower by exactly n. */
  lemma RefundsAreExact(s: State, actions: seq<Action>, t: State, e: Entry)
    requires Init(s) && Run(s, actions, t) && HasKey(s.keys, e.key) && e in t.owed
    ensures ImageTotalUsed(Apply(t, Pay(e.pid, e.key, e.n)).keys, e.key) == ImageTotalUsed(t.keys, e.key) - e.n
  {
    QuotaIsConserved(s, actions, t, e.key);
    OwedIsCovered(t, e);
    TotalAfterRefund(t.keys, e.key, e.n, e.key);
  }

  /** With nothing in flight, only open tasks and delivered images are paid for. */
  lemma SettledAccounts(s: State, actions: seq<Action>, t: State, k: string)
    requires Init(s) && Run(s, actions, t) && HasKey(s.keys, k)
    requires t.charges == [] && t.owed == []
    ensures ImageTotalUsed(t.keys, k) == ImageTotalUsed(s.keys, k) + Live(t.rows, k) + Delivered(t.log, k)
  {
    QuotaIsConserved(s, actions, t, k);
  }
}
