/** The processes that drive the protocol: submission (tasks_chat_gallery_web.go), the worker and the
    expiry loop (worker.go), cancellation. Before every store call of one process, any number of
    steps of the others may happen; every clock reading is arbitrary and any store call may fail
    without effect. */
module TaskService {
  import opened Common
  import opened Text
  import opened TaskTable
  import opened KeyQuota
  import opened TaskProtocol
  import opened TaskRuns
  import opened TaskHands
  import opened TaskTimes

  /** What happens right before one store call: steps of other processes, the clock, the database,
      and the random part of a claim id. */
  datatype Turn = Turn(others: seq<Action>, now: real, storeFails: bool, drawn: string)

  /** Whether some store call of these turns fails. */
  ghost predicate MayFail(turns: seq<Turn>) {
    exists t :: t in turns && t.storeFails
  }

  /** Nobody else acts in these turns. */
  ghost predicate Alone(turns: seq<Turn>) {
    forall t :: t in turns ==> t.others == []
  }

  /** `after` is what is left of the turns `before`. */
  ghost predicate Onward(before: seq<Turn>, after: seq<Turn>) {
    (MayFail(after) ==> MayFail(before)) && (Alone(before) ==> Alone(after))
  }

  lemma TurnTaken(turns: seq<Turn>)
    requires turns != []
    ensures Onward(turns, turns[1..])
  {
    assert forall t :: t in turns[1..] ==> t in turns;
  }

  function ClockOf(turns: seq<Turn>): real {
    if turns == [] then 0.0 else turns[0].now
  }

  /** The state in which the next store call finds the system. */
  function Passed(s: State, turns: seq<Turn>, me: Pid): State {
    if turns == [] then s else OthersAct(s, turns[0].others, me)
  }

  function Rest(turns: seq<Turn>): seq<Turn> {
    if turns == [] then [] else turns[1..]
  }

  /** The claim id drawn in the next turn. */
  function DrawnIn(turns: seq<Turn>): string {
    if turns == [] then "" else turns[0].drawn
  }

  /** In these turns the others do nothing to row `id` but heartbeats. */
  ghost predicate Spares(turns: seq<Turn>, id: TaskId) {
    forall t, a :: t in turns && a in t.others ==> !Disturbs(a, id)
  }

  /** The claim is held, and neither the others nor a failing store will get in its way. */
  ghost predicate Calm(turns: seq<Turn>, rows: Rows, id: TaskId, claim: string) {
    !MayFail(turns) && Spares(turns, id) && claim != "" && Holds(rows, id, claim)
  }

  lemma SparesOn(turns: seq<Turn>, id: TaskId)
    requires turns != [] && Spares(turns, id)
    ensures Spares(turns[1..], id) && forall a :: a in turns[0].others ==> !Disturbs(a, id)
  {
    assert turns[0] in turns && forall t :: t in turns[1..] ==> t in turns;
  }

  lemma {:induction false} OthersLeaveRow(s: State, actions: seq<Action>, me: Pid, id: TaskId)
    requires forall a :: a in actions ==> !Disturbs(a, id)
    ensures RowKept(s.rows, OthersAct(s, actions, me).rows, id)
    decreases |actions|
  {
    if actions != [] {
      var a := actions[0];
      StepLeavesRow(s, a, id);
      OthersLeaveRow(if PidOf(a) != Some(me) && Enabled(s, a) then Apply(s, a) else s, actions[1..], me, id);
    }
  }

  lemma CalmGoesOn(turns: seq<Turn>, s: State, me: Pid, id: TaskId, claim: string)
    requires Calm(turns, s.rows, id, claim)
    ensures Calm(Rest(turns), Passed(s, turns, me).rows, id, claim)
  {
    if turns != [] {
      TurnTaken(turns);
      SparesOn(turns, id);
      OthersLeaveRow(s, turns[0].others, me, id);
    }
  }

  /** What image generation and saving answer to a worker; the rest of the program is an oracle. */
  datatype Generation = Busy | Broken | Images(items: seq<string>)
  datatype Saving = Saved(rel: string) | SaveFails | MetadataFails(rel: string)
  datatype Outside = Outside(
    startedAt: real, pollInterval: real, unreadable: bool, denied: bool, generated: Generation, savings: seq<Saving>)

  function SavingOf(o: Outside, i: nat): Saving {
    if i < |o.savings| then o.savings[i] else Saved("image")
  }

  predicate AllSaved(o: Outside, m: int) {
    forall i :: 0 <= i < m ==> SavingOf(o, i).Saved?
  }

  /** The files on disk are the ones that the savings gave, in order. */
  predicate SavedAs(o: Outside, disk: seq<string>) {
    forall i :: 0 <= i < |disk| ==> SavingOf(o, i) == Saved(disk[i])
  }

  /** How a worker that keeps its claim and its store ends a task. */
  datatype Ending = Fails | Requeues | Delivers(count: int)

  function EndingOf(task: Row, o: Outside): Ending {
    if task.deadline - o.startedAt <= 0.0 then Fails
    else if task.mode == "edit" && (o.unreadable || task.inputPaths == []) then Fails
    else if o.denied then Fails
    else Generated(task, o)
  }

  /** A task that is worked on: there is time left, what is to be edited is there and can be read, and access is
      allowed. */
  predicate Workable(task: Row, o: Outside) {
    && o.startedAt < task.deadline && !o.denied
    && (task.mode == "edit" ==> !o.unreadable && |task.inputPaths| >= 1)
  }

  /** The same, from the generation on. */
  function Generated(task: Row, o: Outside): Ending {
    match o.generated
    case Busy => Requeues
    case Broken => Fails
    case Images(items) =>
      var m := MinInt(MaxInt(task.n, 1), |items|);
      if AllSaved(o, m) then Delivers(m) else Fails
  }

  /** The task failed with its whole charge refunded. */
  ghost predicate FailedWith(before: seq<Event>, after: seq<Event>, me: Pid, id: TaskId, task: Row) {
    after == before + [Settled(me, id, task.ownerId, task.n, Error, task.n)]
  }

  ghost predicate FailedAtMost(before: seq<Event>, after: seq<Event>, me: Pid, id: TaskId, task: Row) {
    after == before || FailedWith(before, after, me, id, task)
  }

  /** The task was completed with `count` images, and the rest of its charge refunded. */
  ghost predicate DeliveredWith(before: seq<Event>, after: seq<Event>, me: Pid, id: TaskId, task: Row, count: int) {
    after == before + [Settled(me, id, task.ownerId, task.n, Success, task.n - count)]
  }

  /** What an ending leaves in the history of the worker `me` and, for a requeued task, in its row. */
  ghost predicate EndsAs(e: Ending, id: TaskId, task: Row, me: Pid, before: seq<Event>, after: seq<Event>, rows: Rows) {
    match e
    case Fails => FailedWith(before, after, me, id, task)
    case Requeues => after == before && id in rows && rows[id].status == Queued
    case Delivers(m) => DeliveredWith(before, after, me, id, task, m)
  }

  /** How a calm task ends, by what the outside world answered: it fails if there is no time left, its inputs are
      missing or unreadable, access is denied, the generation broke or an image that is wanted was not saved; it
      goes back to the queue if every account was busy; otherwise it delivers what was generated, at most N. */
  ghost predicate AsCalledFor(task: Row, o: Outside, id: TaskId, me: Pid, before: seq<Event>, after: seq<Event>,
                              rows: Rows, err: bool, images: nat)
  {
    if !Workable(task, o) || o.generated.Broken? then
      err && FailedWith(before, after, me, id, task)
    else if o.generated.Busy? then
      err && after == before && id in rows && rows[id].status == Queued
    else
      var m := if |o.generated.items| < task.n then |o.generated.items| else task.n;
      if exists i :: 0 <= i < m && i < |o.savings| && !o.savings[i].Saved? then
        err && FailedWith(before, after, me, id, task)
      else
        !err && images == m && DeliveredWith(before, after, me, id, task, m)
  }

  lemma EndingIsCalledFor(task: Row, o: Outside, id: TaskId, me: Pid, before: seq<Event>, after: seq<Event>,
                          rows: Rows, err: bool, images: nat)
    requires task.n >= 1 && EndsAs(EndingOf(task, o), id, task, me, before, after, rows)
    requires err == !EndingOf(task, o).Delivers? && (!err ==> EndingOf(task, o) == Delivers(images))
    ensures AsCalledFor(task, o, id, me, before, after, rows, err, images)
  {
    if o.generated.Images? {
      var m := MinInt(MaxInt(task.n, 1), |o.generated.items|);
      if AllSaved(o, m) {
        forall i | 0 <= i < m && i < |o.savings| ensures o.savings[i].Saved? {
          assert SavingOf(o, i).Saved?;
        }
      } else {
        var i :| 0 <= i < m && !SavingOf(o, i).Saved?;
        assert i < |o.savings| && !o.savings[i].Saved?;
      }
    }
  }

  /** In particular: */
  lemma CalmEndings(task: Row, o: Outside, id: TaskId, me: Pid, before: seq<Event>, after: seq<Event>,
                    rows: Rows, err: bool, images: nat)
    requires AsCalledFor(task, o, id, me, before, after, rows, err, images)
    ensures var failed := before + [Settled(me, id, task.ownerId, task.n, Error, task.n)];
            var unreadable := task.mode == "edit" && (o.unreadable || task.inputPaths == []);
            var goesOn := task.deadline > o.startedAt && !unreadable && !o.denied;
            && (task.deadline <= o.startedAt ==> err && after == failed)
            && (unreadable ==> err && after == failed)
            && (o.denied ==> err && after == failed)
            && (goesOn && o.generated == Broken ==> err && after == failed)
            && (goesOn && o.generated == Busy ==> err && after == before && id in rows && rows[id].status == Queued)
            && (goesOn && o.generated.Images? && (forall i :: 0 <= i < |o.savings| ==> o.savings[i].Saved?) ==>
                  && !err && images == MinInt(task.n, |o.generated.items|)
                  && after == before + [Settled(me, id, task.ownerId, task.n, Success, task.n - images)])
            && (goesOn && o.generated.Images? && err ==> exists i :: 0 <= i < |o.savings| && !o.savings[i].Saved?)
  {
  }

  /** The row that a claim takes: an oldest of those it could take. */
  ghost predicate OldestHit(rows: Rows, id: TaskId, st: Stmt, locked: set<TaskId>) {
    && Matches(rows, id, st) && id !in locked
    && forall o :: o in rows && o !in locked && Hits(rows[o], st) ==> rows[id].createdTs <= rows[o].createdTs
  }

  /** A worker that falls silent is replaced: from the end of its ttl on and before the deadline, the next claim
      takes its row, if nobody locks it and every other row that could be claimed is younger. */
  lemma SilentWorkerIsReplaced(s: State, pid: Pid, id: TaskId, st: Stmt, actions: seq<Action>, t: State, next: Stmt,
                               locked: set<TaskId>, got: TaskId)
    requires Claims(st) && st.worker != "" && Matches(s.rows, id, st) && next.Claim?
    requires Run(Apply(s, Update(pid, id, st)), actions, t) && forall a :: a in actions ==> Untouched(a, id)
    requires st.now + st.ttl <= next.now < s.rows[id].deadline && id !in locked && id in t.rows
    requires forall o :: o in t.rows && o !in locked && Hits(t.rows[o], next) && o != id ==>
               t.rows[id].createdTs < t.rows[o].createdTs
    requires OldestHit(t.rows, got, next, locked)
    ensures got == id
  {
    TakenAgainIff(s, pid, id, st, actions, t, next);
  }

  ghost predicate Claimable(rows: Rows, st: Stmt, locked: set<TaskId>) {
    exists id :: id in rows && id !in locked && Hits(rows[id], st)
  }

  /** What one round of a worker has done that ran its claim `st` against `rows` and is left with `after`: an
      oldest claimable task has ended the way the outside world calls for, provided that the others left it
      alone in the `turns` that followed; without a claimable task nothing has happened. */
  ghost predicate Worked(rows: Rows, st: Stmt, locked: set<TaskId>, turns: seq<Turn>, o: Outside, me: Pid,
                         before: seq<Event>, after: seq<Event>, left: Rows)
  {
    if Claimable(rows, st, locked) then
      exists id :: OldestHit(rows, id, st, locked)
        && (Spares(turns, id) ==> EndsAs(EndingOf(rows[id], o), id, rows[id], me, before, after, left))
    else
      after == before && left == rows
  }

  lemma WorkedOn(rows: Rows, st: Stmt, locked: set<TaskId>, turns: seq<Turn>, o: Outside, me: Pid,
                 before: seq<Event>, after: seq<Event>, left: Rows, id: TaskId)
    requires st.Claim? && OldestHit(rows, id, st, locked)
    requires var r := Updated(rows[id], st);
             Spares(turns, id) ==> EndsAs(EndingOf(r, o), id, r, me, before, after, left)
    ensures Worked(rows, st, locked, turns, o, me, before, after, left)
  {
  }

  /** A submission after request parsing; `inputs` are the images, `stored` what storing them gave. */
  datatype Request = Request(
    taskId: TaskId, clientTaskId: string, mode: string, prompt: string, n: int, inputs: seq<string>,
    stored: Option<seq<string>>, allowed: bool, timeout: real)

  datatype Reply = Rejected | NoQuota | Existing | Duplicate | Accepted

  function ChargeOf(req: Request): int {
    if req.mode == "edit" then 1 else ClampN(req.n)
  }

  function ModeOf(req: Request): string {
    if req.mode == "" then "generate" else req.mode
  }

  /** The row that has just been inserted. */
  predicate NewIn(rows: Rows, t: NewTask) {
    t.id in rows && rows[t.id] == NewRow(t, rows[t.id].createdTs)
  }

  /** The row of an accepted submission: the user's, queued, with what was asked for and nothing done yet. */
  ghost predicate AsAsked(rows: Rows, who: Identity, req: Request, n: int, mode: string, deadline: real) {
    req.taskId in rows &&
    var r := rows[req.taskId];
    && r.ownerId == who.id && r.ownerRole == who.role && r.clientTaskId == TrimSpace(req.clientTaskId)
    && r.mode == mode && r.prompt == req.prompt && r.n == n
    && r.inputPaths == (if mode == "edit" && req.stored.Some? then req.stored.value else [])
    && r.status == Queued && r.claimedBy == "" && r.results == []
    && (deadline > 0.0 ==> r.deadline == deadline)
  }

  lemma NewIsAsAsked(rows: Rows, who: Identity, req: Request, n: int, mode: string, deadline: real, t: NewTask)
    requires NewIn(rows, t) && 1 <= n <= 4 && (mode == "edit" ==> req.stored.Some?)
    requires t == NewTask(req.taskId, TrimSpace(req.clientTaskId), who.id, who.role, mode, req.prompt, n,
                          if mode == "edit" then req.stored.value else [], deadline)
    ensures AsAsked(rows, who, req, n, mode, deadline)
  {
  }

  /** When a submission is accepted, and when it is answered with the task that is there. */
  lemma AcceptedIff(s: State, who: Identity, req: Request, clock: Clock)
    ensures ReplyFor(s, who, req, clock) == Reply.Accepted <==>
              && !Blank(req.prompt) && req.allowed && !Blank(who.id) && req.taskId !in s.rows
              && (req.mode == "edit" ==>
                    req.inputs != [] && req.stored.Some? && req.stored.value != [])
              && (who.root || Charges(s.keys, who.id, if req.mode == "edit" then 1 else ChargeOf(req), true, clock))
    ensures ReplyFor(s, who, req, clock) == Existing <==>
              && !Blank(req.prompt) && req.allowed && (req.mode == "edit" ==> req.inputs != [])
              && req.taskId in s.rows && (s.rows[req.taskId].ownerId == who.id || who.role == "admin")
    ensures 1 <= ChargeOf(req) <= 4 && (req.mode == "edit" ==> ChargeOf(req) == 1)
    ensures req.mode != "edit" && 1 <= req.n <= 4 ==> ChargeOf(req) == req.n
  {
  }

  /** What a submission is answered once it has to be charged, in state `s`. */
  function ReplyToCharge(s: State, who: Identity, req: Request, clock: Clock, n: int, mode: string): Reply {
    if !TaskProtocol.Accepted(s, who, n, clock) then NoQuota
    else if mode == "edit" && (req.stored.None? || req.stored.value == []) then Rejected
    else if Blank(who.id) then Rejected
    else if req.taskId in s.rows then Duplicate
    else Reply.Accepted
  }

  /** What a submission is answered in state `s`. */
  function ReplyFor(s: State, who: Identity, req: Request, clock: Clock): Reply {
    if Blank(req.prompt) || (req.mode == "edit" && req.inputs == []) || !req.allowed then Rejected
    else if req.taskId in s.rows && Visible(s.rows[req.taskId], who) then Existing
    else ReplyToCharge(s, who, req, clock, ChargeOf(req), req.mode)
  }

  /** The overdue rows that nobody else holds, with their ages. */
  function Overdue(rows: Rows, now: real, locked: set<TaskId>): map<TaskId, real> {
    map id | id in rows && Matches(rows, id, Expire(now)) && id !in locked :: rows[id].createdTs
  }

  lemma CancelCloses(rows: Rows, id: TaskId, who: Identity, now: real)
    ensures var after := Exec(rows, id, Cancel(who, now));
            OnlyCloses(rows, after) && Uncancelable(after, id, who)
  {
  }

  lemma ClientBatch(rows: Rows, items: seq<TaskId>, c: string, who: Identity, now: real)
    requires Distinct(items) && forall id :: id in items <==> Matches(rows, id, CancelClient(c, who, now))
    ensures var after := ExecAll(rows, items, CancelClient(c, who, now));
            && NoneOpen(after, c, who) && OnlyCloses(rows, after)
            && forall id :: id in items ==> id in after && after[id].clientTaskId == c
  {
    var st := CancelClient(c, who, now);
    var after := ExecAll(rows, items, st);
    BatchOnlyCloses(rows, items, st);
    SettledRows(rows, items, st);
    forall id | id in after && after[id].clientTaskId == c ensures Uncancelable(after, id, who) {
      if id !in items {
        ExecAllFrame(rows, items, st);
        assert after[id] == rows[id];
      }
    }
  }

  /** The answer so far to the ids asked for so far. */
  ghost predicate CancelSoFar(rows: Rows, asked: seq<TaskId>, who: Identity, derive: (string, string) -> TaskId,
                              canceled: seq<TaskId>, missing: seq<TaskId>) {
    && (forall a :: a in missing ==> a in asked && NothingOpen(rows, a, who, derive))
    && (forall a :: a in asked && a !in missing ==> exists id :: id in canceled && Answers(rows, a, who, derive, id))
  }

  lemma CancelGoesOn(before: Rows, after: Rows, requested: seq<TaskId>, i: nat, who: Identity,
                     derive: (string, string) -> TaskId, canceled: seq<TaskId>, missing: seq<TaskId>,
                     items: seq<TaskId>)
    requires i < |requested| && CancelSoFar(before, requested[..i], who, derive, canceled, missing)
    requires OnlyCloses(before, after) && forall id :: id in items ==> Answers(after, requested[i], who, derive, id)
    requires items == [] ==> NothingOpen(after, requested[i], who, derive)
    ensures CancelSoFar(after, requested[..i + 1], who, derive, canceled + items,
                        if items == [] then missing + [requested[i]] else missing)
  {
    assert requested[..i + 1] == requested[..i] + [requested[i]];
    forall a | a in missing ensures NothingOpen(after, a, who, derive) {
      StaysClosed(before, after, a, who, derive);
    }
    forall a | a in requested[..i] && a !in missing
      ensures exists id :: id in canceled + items && Answers(after, a, who, derive, id)
    {
      var id :| id in canceled && Answers(before, a, who, derive, id);
      assert id in canceled + items && Answers(after, a, who, derive, id);
    }
    if items != [] {
      assert items[0] in items && items[0] in canceled + items;
    }
  }

  class ImageTaskService {
    const tasks: PGTaskStore
    const auth: KeyStore
    var charges: seq<Entry>
    var owed: seq<Entry>
    var usedClaims: set<string>
    var log: seq<Event>
    var schedule: seq<Turn>
    var drawn: string

    constructor (keys: Keys, turns: seq<Turn>)
      requires !HasKey(keys, "admin")
      ensures fresh(tasks) && fresh(auth) && Valid()
      ensures Snapshot() == State(map[], keys, [], [], {}, [])
    {
      tasks := new PGTaskStore();
      auth := new KeyStore(keys);
      charges, owed, usedClaims, log, schedule, drawn := [], [], {}, [], turns, "";
    }

    function Snapshot(): State
      reads this, tasks, auth
    {
      State(tasks.rows, auth.keys, charges, owed, usedClaims, log)
    }

    ghost predicate Valid()
      reads this, tasks, auth
    {
      Good(Snapshot())
    }

    /** The other processes take the steps scheduled here, each at most as the protocol allows. */
    method Pause(me: Pid) returns (now: real, fails: bool, ghost mid: State)
      requires Valid()
      modifies this, tasks, auth
      ensures Valid() && Snapshot() == mid && Undisturbed(old(Snapshot()), mid, me)
      ensures Conserves(old(Snapshot()), mid) && Onward(old(schedule), schedule)
      ensures fails ==> MayFail(old(schedule))
      ensures Alone(old(schedule)) ==> mid == old(Snapshot())
      ensures now == ClockOf(old(schedule)) && drawn == DrawnIn(old(schedule)) && schedule == Rest(old(schedule))
      ensures mid == Passed(old(Snapshot()), old(schedule), me)
      ensures forall id, claim ::
                Calm(old(schedule), old(tasks.rows), id, claim) ==> !fails && Calm(schedule, mid.rows, id, claim)
    {
      var turn := Turn([], 0.0, false, "");
      forall id, claim | Calm(schedule, tasks.rows, id, claim)
        ensures Calm(Rest(schedule), Passed(Snapshot(), schedule, me).rows, id, claim)
      {
        CalmGoesOn(schedule, Snapshot(), me, id, claim);
      }
      if schedule != [] {
        TurnTaken(schedule);
        assert schedule[0] in schedule;
        turn, schedule := schedule[0], schedule[1..];
      }
      now, fails, drawn := turn.now, turn.storeFails, turn.drawn;
      OthersLeaveMeAlone(Snapshot(), turn.others, me);
      OthersConserve(Snapshot(), turn.others, me);
      var t := OthersAct(Snapshot(), turn.others, me);
      tasks.rows, auth.keys := t.rows, t.keys;
      charges, owed, usedClaims, log := t.charges, t.owed, t.usedClaims, t.log;
      mid := Snapshot();
      assert mid == t;
    }

    /** The settling statement just run on `id` was ours: note what it leaves to refund. */
    method Note(me: Pid, id: TaskId)
      requires id in tasks.rows && !IsOpen(tasks.rows[id])
      modifies this`owed, this`log
      ensures var r := tasks.rows[id];
              && owed == old(owed) + Owing(me, r.ownerId, RefundFor(r))
              && log == old(log) + [Settled(me, id, r.ownerId, r.n, r.status, RefundFor(r))]
    {
      var r := tasks.rows[id];
      var refund := RefundFor(r);
      if refund > 0 {
        owed := owed + [Entry(me, r.ownerId, refund)];
      }
      log := log + [Settled(me, id, r.ownerId, r.n, r.status, refund)];
    }

    method HeartbeatTask(me: Pid, id: TaskId, claim: string, ttl: real)
      returns (ok: bool, fails: bool, ghost mid: State)
      requires Valid()
      modifies this, tasks, auth
      ensures Valid() && Undisturbed(old(Snapshot()), mid, me) && Undisturbed(mid, Snapshot(), me)
      ensures Conserves(old(Snapshot()), Snapshot()) && Onward(old(schedule), schedule)
      ensures fails ==> MayFail(old(schedule))
      ensures old(Calm(schedule, tasks.rows, id, claim)) ==> ok && !fails && Calm(schedule, tasks.rows, id, claim)
      ensures !fails && !ok && claim != "" ==> !Holds(tasks.rows, id, claim)
    {
      var now;
      now, fails, mid := Pause(me);
      ok := false;
      if !fails {
        ok := tasks.HeartbeatTask(id, claim, now, ttl);
        assert Snapshot() == Apply(mid, Update(me, id, Heartbeat(claim, now, ttl)));
        UpdateKeepsGood(mid, me, id, Heartbeat(claim, now, ttl));
        UpdateKeepsClaims(mid, me, id, Heartbeat(claim, now, ttl));
        StepIsConserving(mid, Update(me, id, Heartbeat(claim, now, ttl)));
        ConservesChains(old(Snapshot()), mid, Snapshot());
      }
    }

    method RequeueTask(me: Pid, id: TaskId, claim: string, delay: real)
      returns (changed: bool, fails: bool, ghost mid: State)
      requires Valid()
      modifies this, tasks, auth
      ensures Valid() && Undisturbed(old(Snapshot()), mid, me) && Undisturbed(mid, Snapshot(), me)
      ensures Conserves(old(Snapshot()), Snapshot()) && Onward(old(schedule), schedule)
      ensures fails ==> MayFail(old(schedule))
      ensures old(Calm(schedule, tasks.rows, id, claim)) ==> id in tasks.rows && tasks.rows[id].status == Queued
      ensures !fails && claim != "" ==> !Holds(tasks.rows, id, claim)
    {
      var now;
      now, fails, mid := Pause(me);
      changed := false;
      if !fails {
        changed := tasks.RequeueTask(id, claim, now, delay);
        assert Snapshot() == Apply(mid, Update(me, id, Requeue(claim, now, delay)));
        UpdateKeepsGood(mid, me, id, Requeue(claim, now, delay));
        UpdateKeepsClaims(mid, me, id, Requeue(claim, now, delay));
        StepIsConserving(mid, Update(me, id, Requeue(claim, now, delay)));
        ConservesChains(old(Snapshot()), mid, Snapshot());
      }
    }

    method FailTask(me: Pid, id: TaskId, claim: string, message: string)
      returns (changed: bool, fails: bool, now: real, ghost mid: State)
      requires Valid() && !Blank(claim)
      modifies this, tasks, auth
      ensures Valid() && Undisturbed(old(Snapshot()), mid, me)
      ensures Conserves(old(Snapshot()), Snapshot()) && Onward(old(schedule), schedule)
      ensures old(Calm(schedule, tasks.rows, id, claim)) ==> changed
      ensures fails ==> !changed && MayFail(old(schedule))
      ensures !changed ==> Snapshot() == mid && (fails || !Holds(tasks.rows, id, claim))
      ensures changed ==>
                var st := Fail(claim, message, now);
                Matches(mid.rows, id, st) && Snapshot() == ApplyUpdate(mid, me, id, st)
    {
      now, fails, mid := Pause(me);
      changed := false;
      if !fails {
        changed := FailNow(me, id, claim, message, now);
        ConservesChains(old(Snapshot()), mid, Snapshot());
      }
    }

    method FailNow(me: Pid, id: TaskId, claim: string, message: string, now: real) returns (changed: bool)
      requires Valid() && !Blank(claim)
      modifies this`owed, this`log, tasks
      ensures Valid() && Conserves(old(Snapshot()), Snapshot())
      ensures !changed ==> Snapshot() == old(Snapshot()) && !Holds(tasks.rows, id, claim)
      ensures changed ==>
                var st := Fail(claim, message, now);
                Matches(old(tasks.rows), id, st) && Snapshot() == ApplyUpdate(old(Snapshot()), me, id, st)
    {
      ghost var before, st := Snapshot(), Fail(claim, message, now);
      changed := tasks.FailTask(id, claim, message, now);
      if changed {
        Note(me, id);
        assert Snapshot() == Apply(before, Update(me, id, st));
        UpdateKeepsGood(before, me, id, st);
        StepIsConserving(before, Update(me, id, st));
      }
    }

    method CompleteTask(me: Pid, id: TaskId, claim: string, data: seq<string>)
      returns (changed: bool, fails: bool, now: real, ghost mid: State)
      requires Valid() && claim in usedClaims
      requires forall i :: Holds(tasks.rows, i, claim) ==> |data| <= tasks.rows[i].n
      modifies this, tasks, auth
      ensures Valid() && Undisturbed(old(Snapshot()), mid, me)
      ensures Conserves(old(Snapshot()), Snapshot()) && Onward(old(schedule), schedule)
      ensures old(Calm(schedule, tasks.rows, id, claim)) ==> changed
      ensures fails ==> !changed && MayFail(old(schedule))
      ensures !changed ==> Snapshot() == mid && (fails || claim == "" || !Holds(tasks.rows, id, claim))
      ensures changed ==>
                var st := Complete(claim, data, now);
                Matches(mid.rows, id, st) && Snapshot() == ApplyUpdate(mid, me, id, st)
    {
      now, fails, mid := Pause(me);
      changed := false;
      if !fails {
        assert Holds(mid.rows, id, claim) ==> Holds(old(tasks.rows), id, claim);
        changed := CompleteNow(me, id, claim, data, now);
        ConservesChains(old(Snapshot()), mid, Snapshot());
      }
    }

    method CompleteNow(me: Pid, id: TaskId, claim: string, data: seq<string>, now: real) returns (changed: bool)
      requires Valid() && (Holds(tasks.rows, id, claim) ==> |data| <= tasks.rows[id].n)
      modifies this`owed, this`log, tasks
      ensures Valid() && Conserves(old(Snapshot()), Snapshot())
      ensures !changed ==> Snapshot() == old(Snapshot()) && (claim == "" || !Holds(tasks.rows, id, claim))
      ensures changed ==>
                var st := Complete(claim, data, now);
                Matches(old(tasks.rows), id, st) && Snapshot() == ApplyUpdate(old(Snapshot()), me, id, st)
    {
      ghost var before, st := Snapshot(), Complete(claim, data, now);
      changed := tasks.CompleteTask(id, claim, data, now);
      if changed {
        Note(me, id);
        assert Snapshot() == Apply(before, Update(me, id, st));
        UpdateKeepsGood(before, me, id, st);
        StepIsConserving(before, Update(me, id, st));
      }
    }

    /** refundImage: nothing for a root identity or an amount below one. */
    method RefundImage(me: Pid, who: Identity, n: int)
      requires Valid()
      requires who.root ==> who.id == "admin"
      requires n > 0 ==> Mine(owed, me) != [] && Mine(owed, me)[0] == Entry(me, who.id, n)
      modifies this, tasks, auth
      ensures Valid()
      ensures Mine(owed, me) == if n > 0 then old(Mine(owed, me))[1..] else old(Mine(owed, me))
      ensures Mine(charges, me) == old(Mine(charges, me)) && MyEvents(log, me) == old(MyEvents(log, me))
      ensures Conserves(old(Snapshot()), Snapshot()) && Onward(old(schedule), schedule)
      ensures Alone(old(schedule)) ==> tasks.rows == old(tasks.rows)
      ensures Alone(old(schedule)) ==>
                auth.keys == if n > 0 then Refund(old(auth.keys), who.id, n, true) else old(auth.keys)
    {
      if n <= 0 {
        return;
      }
      ghost var mid := RefundQuota(me, who, n);
    }

    /** The refund as one step of the protocol. */
    method RefundQuota(me: Pid, who: Identity, n: int) returns (ghost mid: State)
      requires Valid() && n > 0
      requires who.root ==> who.id == "admin"
      requires Mine(owed, me) != [] && Mine(owed, me)[0] == Entry(me, who.id, n)
      modifies this, tasks, auth
      ensures Valid() && Undisturbed(old(Snapshot()), mid, me)
      ensures Snapshot() == Apply(mid, Pay(me, who.id, n))
      ensures Mine(owed, me) == old(Mine(owed, me))[1..]
      ensures Conserves(old(Snapshot()), Snapshot()) && Onward(old(schedule), schedule)
      ensures Alone(old(schedule)) ==> mid == old(Snapshot())
    {
      var now, fails;
      now, fails, mid := Pause(me);
      PayingIsMine(mid, me, who.id, n);
      StepIsConserving(mid, Pay(me, who.id, n));
      ConservesChains(old(Snapshot()), mid, Apply(mid, Pay(me, who.id, n)));
      if !who.root {
        auth.RefundQuota(who.id, n, true);
      }
      owed := Without(owed, Entry(me, who.id, n));
      assert Snapshot() == Apply(mid, Pay(me, who.id, n));
    }

    /** taskOwnerIdentity: a refund to root is none at all. A disabled key is treated like an enabled one. */
    function TaskOwnerIdentity(ownerId: string, ownerRole: string): (who: Identity)
      reads auth
      ensures who.id == ownerId
      ensures who.root <==> !HasKey(auth.keys, ownerId) && ownerId == "admin" && Lower(TrimSpace(ownerRole)) == "admin"
    {
      var role := Lower(TrimSpace(ownerRole));
      if HasKey(auth.keys, ownerId) then Identity(ownerId, "user", false)
      else if role == "admin" && ownerId == "admin" then Identity(ownerId, "admin", true)
      else Identity(ownerId, "user", false)
    }

    /** FailTask and, when it changed the row, the refund of the whole charge: six exits of
        runDBImageTask share this. It settles nothing only when the claim is gone or the store fails. */
    method FailAndRefund(me: Pid, claim: string, id: TaskId, task: Row, who: Identity, message: string)
      requires Valid() && Mine(owed, me) == []
      requires OurClaim(claim, id, task) && who.id == task.ownerId && (who.root ==> who.id == "admin")
      modifies this, tasks, auth
      ensures Valid() && Mine(owed, me) == []
      ensures Mine(charges, me) == old(Mine(charges, me))
      ensures FailedAtMost(old(MyEvents(log, me)), MyEvents(log, me), me, id, task)
      ensures Conserves(old(Snapshot()), Snapshot()) && Onward(old(schedule), schedule)
      ensures old(Calm(schedule, tasks.rows, id, claim)) ==> 
                FailedWith(old(MyEvents(log, me)), MyEvents(log, me), me, id, task)
      ensures MyEvents(log, me) == old(MyEvents(log, me)) ==> MayFail(old(schedule)) || !Holds(tasks.rows, id, claim)
    {
      var changed, fails, now;
      ghost var mid;
      changed, fails, now, mid := FailTask(me, id, claim, message);
      if changed {
        ClaimedRow(old(Snapshot()), mid, claim, id, task);
        FailingIsMine(mid, me, id, claim, message, now, task);
        assert Mine(owed, me) == [Entry(me, task.ownerId, task.n)];
        ghost var failed := Snapshot();
        RefundImage(me, who, MaxInt(task.n, 1));
        ConservesChains(old(Snapshot()), failed, Snapshot());
      }
    }

    /** `claim` was drawn, and the only row that can carry it is the one `task` was read from. */
    ghost predicate OurClaim(claim: string, id: TaskId, task: Row)
      reads this, tasks
    {
      && !Blank(claim) && claim in usedClaims && 1 <= task.n <= 4
      && forall i :: Holds(tasks.rows, i, claim) ==>
           i == id && tasks.rows[i].n == task.n && tasks.rows[i].ownerId == task.ownerId
    }

    lemma ClaimedRow(s: State, t: State, claim: string, id: TaskId, task: Row)
      requires ClaimsKept(s, t) && claim in s.usedClaims && Holds(t.rows, id, claim)
      requires forall i :: Holds(s.rows, i, claim) ==>
                 i == id && s.rows[i].n == task.n && s.rows[i].ownerId == task.ownerId
      ensures t.rows[id].n == task.n && t.rows[id].ownerId == task.ownerId
    {
    }

    /** runDBImageTask. Whatever the outside world and the other processes do, no key gains or loses a unit,
        the worker leaves with every refund paid, has settled its task at most once, and leaves image files
        behind exactly when it reports success: one per delivered image. Unless the claim is gone or a store
        call fails, it ends the task the way the outside world calls for. */
    method RunDBImageTask(me: Pid, claim: string, ttl: real, id: TaskId, task: Row, o: Outside)
      returns (err: bool, disk: seq<string>)
      requires Valid() && Mine(owed, me) == []
      requires OurClaim(claim, id, task)
      modifies this, tasks, auth
      ensures Valid() && Mine(owed, me) == []
      ensures Mine(charges, me) == old(Mine(charges, me))
      ensures Conserves(old(Snapshot()), Snapshot()) && Onward(old(schedule), schedule)
      ensures !err ==>
                && EndingOf(task, o) == Delivers(|disk|) && |disk| <= task.n && SavedAs(o, disk)
                && DeliveredWith(old(MyEvents(log, me)), MyEvents(log, me), me, id, task, |disk|)
      ensures err ==> disk == [] && FailedAtMost(old(MyEvents(log, me)), MyEvents(log, me), me, id, task)
      ensures err && MyEvents(log, me) != old(MyEvents(log, me)) ==> EndingOf(task, o) == Fails
      ensures err && MyEvents(log, me) == old(MyEvents(log, me)) ==>
                MayFail(old(schedule)) || !Holds(tasks.rows, id, claim)
      ensures old(Calm(schedule, tasks.rows, id, claim)) ==>
                && EndsAs(EndingOf(task, o), id, task, me, old(MyEvents(log, me)), MyEvents(log, me), tasks.rows)
                && err == !EndingOf(task, o).Delivers?
      ensures old(Calm(schedule, tasks.rows, id, claim)) ==>
                AsCalledFor(task, o, id, me, old(MyEvents(log, me)), MyEvents(log, me), tasks.rows, err, |disk|)
    {
      err, disk := WorkOn(me, claim, ttl, id, task, o);
      if old(Calm(schedule, tasks.rows, id, claim)) {
        EndingIsCalledFor(task, o, id, me, old(MyEvents(log, me)), MyEvents(log, me), tasks.rows, err, |disk|);
      }
    }

    /** The exits of runDBImageTask. */
    method WorkOn(me: Pid, claim: string, ttl: real, id: TaskId, task: Row, o: Outside)
      returns (err: bool, disk: seq<string>)
      requires Valid() && Mine(owed, me) == []
      requires OurClaim(claim, id, task)
      modifies this, tasks, auth
      ensures Valid() && Mine(owed, me) == []
      ensures Mine(charges, me) == old(Mine(charges, me))
      ensures Conserves(old(Snapshot()), Snapshot()) && Onward(old(schedule), schedule)
      ensures !err ==>
                && EndingOf(task, o) == Delivers(|disk|) && |disk| <= task.n && SavedAs(o, disk)
                && DeliveredWith(old(MyEvents(log, me)), MyEvents(log, me), me, id, task, |disk|)
      ensures err ==> disk == [] && FailedAtMost(old(MyEvents(log, me)), MyEvents(log, me), me, id, task)
      ensures err && MyEvents(log, me) != old(MyEvents(log, me)) ==> EndingOf(task, o) == Fails
      ensures err && MyEvents(log, me) == old(MyEvents(log, me)) ==>
                MayFail(old(schedule)) || !Holds(tasks.rows, id, claim)
      ensures old(Calm(schedule, tasks.rows, id, claim)) ==>
                && EndsAs(EndingOf(task, o), id, task, me, old(MyEvents(log, me)), MyEvents(log, me), tasks.rows)
                && err == !EndingOf(task, o).Delivers?
    {
      disk := [];
      var who := TaskOwnerIdentity(task.ownerId, task.ownerRole);
      if task.deadline - o.startedAt <= 0.0 {
        FailAndRefund(me, claim, id, task, who, "image task timed out");
        return true, disk;
      }
      if task.mode == "edit" {
        if o.unreadable {
          FailAndRefund(me, claim, id, task, who, "input file cannot be read");
          return true, disk;
        }
        if task.inputPaths == [] {
          FailAndRefund(me, claim, id, task, who, "image file is required");
          return true, disk;
        }
      }
      var count := task.n;
      if count < 1 {
        count := 1;
      }
      if o.denied {
        FailAndRefund(me, claim, id, task, who, "access denied");
        return true, disk;
      }
      err, disk := Generate(me, claim, ttl, id, task, who, o, count);
    }

    /** runDBImageTask from the generation on. */
    method Generate(me: Pid, claim: string, ttl: real, id: TaskId, task: Row, who: Identity, o: Outside, count: int)
      returns (err: bool, disk: seq<string>)
      requires Valid() && Mine(owed, me) == [] && OurClaim(claim, id, task)
      requires who.id == task.ownerId && (who.root ==> who.id == "admin") && count == task.n
      modifies this, tasks, auth
      ensures Valid() && Mine(owed, me) == [] && Mine(charges, me) == old(Mine(charges, me))
      ensures Conserves(old(Snapshot()), Snapshot()) && Onward(old(schedule), schedule)
      ensures !err ==>
                && Generated(task, o) == Delivers(|disk|) && |disk| <= task.n && SavedAs(o, disk)
                && DeliveredWith(old(MyEvents(log, me)), MyEvents(log, me), me, id, task, |disk|)
      ensures err ==> disk == [] && FailedAtMost(old(MyEvents(log, me)), MyEvents(log, me), me, id, task)
      ensures err && MyEvents(log, me) != old(MyEvents(log, me)) ==> Generated(task, o) == Fails
      ensures err && MyEvents(log, me) == old(MyEvents(log, me)) ==>
                MayFail(old(schedule)) || !Holds(tasks.rows, id, claim)
      ensures old(Calm(schedule, tasks.rows, id, claim)) ==>
                && EndsAs(Generated(task, o), id, task, me, old(MyEvents(log, me)), MyEvents(log, me), tasks.rows)
                && err == !Generated(task, o).Delivers?
    {
      disk := [];
      match o.generated {
        case Busy =>
          var changed, fails;
          ghost var mid;
          changed, fails, mid := RequeueTask(me, id, claim, o.pollInterval + 1.0);
          return true, disk;
        case Broken =>
          FailAndRefund(me, claim, id, task, who, "image generation failed");
          return true, disk;
        case Images(_) =>
      }
      err, disk := Deliver(me, claim, ttl, id, task, who, o, count);
    }

    /** runDBImageTask from the generated images on. */
    method Deliver(me: Pid, claim: string, ttl: real, id: TaskId, task: Row, who: Identity, o: Outside, count: int)
      returns (err: bool, disk: seq<string>)
      requires Valid() && Mine(owed, me) == [] && OurClaim(claim, id, task)
      requires who.id == task.ownerId && (who.root ==> who.id == "admin")
      requires o.generated.Images? && count == task.n
      modifies this, tasks, auth
      ensures Valid() && Mine(owed, me) == [] && Mine(charges, me) == old(Mine(charges, me))
      ensures Conserves(old(Snapshot()), Snapshot()) && Onward(old(schedule), schedule)
      ensures !err ==>
                && SavedAs(o, disk) && |disk| == MinInt(count, |o.generated.items|)
                && DeliveredWith(old(MyEvents(log, me)), MyEvents(log, me), me, id, task, |disk|)
      ensures err ==> disk == [] && FailedAtMost(old(MyEvents(log, me)), MyEvents(log, me), me, id, task)
      ensures err && MyEvents(log, me) != old(MyEvents(log, me)) ==> !AllSaved(o, MinInt(count, |o.generated.items|))
      ensures err && MyEvents(log, me) == old(MyEvents(log, me)) ==>
                MayFail(old(schedule)) || !Holds(tasks.rows, id, claim)
      ensures old(Calm(schedule, tasks.rows, id, claim)) && err ==>
                FailedWith(old(MyEvents(log, me)), MyEvents(log, me), me, id, task)
    {
      var stopped, data;
      stopped, data, disk := SaveImages(me, claim, ttl, id, task, who, o, count);
      if stopped {
        return true, disk;
      }
      ghost var saved := Snapshot();
      err, disk := Finish(me, claim, id, task, who, data, disk);
      assert !err ==> |disk| == |data|;
      ConservesChains(old(Snapshot()), saved, Snapshot());
    }

    /** Since `start` process `me` has settled nothing, still works under its claim and owes nothing. */
    ghost predicate Going(start: State, turns: seq<Turn>, me: Pid, claim: string, id: TaskId, task: Row)
      reads this, tasks, auth
    {
      && Valid() && OurClaim(claim, id, task) && Onward(turns, schedule) && Conserves(start, Snapshot())
      && Mine(owed, me) == [] && Mine(charges, me) == Mine(start.charges, me)
      && MyEvents(log, me) == MyEvents(start.log, me)
      && (Calm(turns, start.rows, id, claim) ==> Calm(schedule, tasks.rows, id, claim))
    }

    /** Since `start` process `me` has settled nothing, for want of the claim or the store, or has failed the task,
        for want of a saved image; if all was calm, the latter. It owes nothing. */
    ghost predicate Broke(start: State, turns: seq<Turn>, me: Pid, claim: string, id: TaskId, task: Row, saved: bool)
      reads this, tasks, auth
    {
      && Valid() && Onward(turns, schedule) && Conserves(start, Snapshot())
      && Mine(owed, me) == [] && Mine(charges, me) == Mine(start.charges, me)
      && FailedAtMost(MyEvents(start.log, me), MyEvents(log, me), me, id, task)
      && (MyEvents(log, me) != MyEvents(start.log, me) ==> !saved)
      && (MyEvents(log, me) == MyEvents(start.log, me) ==> MayFail(turns) || !Holds(tasks.rows, id, claim))
      && (Calm(turns, start.rows, id, claim) ==> FailedWith(MyEvents(start.log, me), MyEvents(log, me), me, id, task))
    }

    /** The saving loop of runDBImageTask. Stopping it deletes what it saved. */
    method SaveImages(me: Pid, claim: string, ttl: real, id: TaskId, task: Row, who: Identity, o: Outside, count: int)
      returns (stopped: bool, data: seq<string>, disk: seq<string>)
      requires Valid() && Mine(owed, me) == [] && OurClaim(claim, id, task)
      requires who.id == task.ownerId && (who.root ==> who.id == "admin")
      requires o.generated.Images? && count >= 1
      modifies this, tasks, auth
      ensures var start, turns, m := old(Snapshot()), old(schedule), MinInt(count, |o.generated.items|);
              if stopped then
                disk == [] && Broke(start, turns, me, claim, id, task, AllSaved(o, m))
              else
                Going(start, turns, me, claim, id, task) && data == disk && |data| == m && SavedAs(o, disk)
    {
      data, disk, stopped := [], [], false;
      ghost var start, turns := Snapshot(), schedule;
      for i := 0 to |o.generated.items|
        invariant Going(start, turns, me, claim, id, task)
        invariant data == disk && |data| == i < count && SavedAs(o, disk)
      {
        stopped := SaveNext(me, claim, ttl, id, task, who, SavingOf(o, i), start, turns);
        if stopped {
          disk := [];
          return;
        }
        disk := disk + [SavingOf(o, i).rel];
        data := data + [SavingOf(o, i).rel];
        if |data| >= count {
          break;
        }
      }
    }

    /** One turn of the saving loop that began at `start`. */
    method SaveNext(me: Pid, claim: string, ttl: real, id: TaskId, task: Row, who: Identity, saving: Saving,
                    ghost start: State, ghost turns: seq<Turn>)
      returns (stopped: bool)
      requires Going(start, turns, me, claim, id, task)
      requires who.id == task.ownerId && (who.root ==> who.id == "admin")
      modifies this, tasks, auth
      ensures if stopped then Broke(start, turns, me, claim, id, task, saving.Saved?)
              else saving.Saved? && Going(start, turns, me, claim, id, task)
    {
      ghost var before := Snapshot();
      stopped := SaveOne(me, claim, ttl, id, task, who, saving);
      ConservesChains(start, before, Snapshot());
    }

    /** A heartbeat and one image saved. */
    method SaveOne(me: Pid, claim: string, ttl: real, id: TaskId, task: Row, who: Identity, saving: Saving)
      returns (stopped: bool)
      requires Valid() && Mine(owed, me) == [] && OurClaim(claim, id, task)
      requires who.id == task.ownerId && (who.root ==> who.id == "admin")
      modifies this, tasks, auth
      ensures Valid() && Mine(owed, me) == [] && Mine(charges, me) == old(Mine(charges, me))
      ensures Conserves(old(Snapshot()), Snapshot()) && Onward(old(schedule), schedule)
      ensures FailedAtMost(old(MyEvents(log, me)), MyEvents(log, me), me, id, task)
      ensures !stopped ==> saving.Saved? && OurClaim(claim, id, task) && MyEvents(log, me) == old(MyEvents(log, me))
      ensures MyEvents(log, me) != old(MyEvents(log, me)) ==> !saving.Saved?
      ensures old(Calm(schedule, tasks.rows, id, claim)) ==>
                if stopped then
                  FailedWith(old(MyEvents(log, me)), MyEvents(log, me), me, id, task)
                else Calm(schedule, tasks.rows, id, claim)
      ensures stopped && MyEvents(log, me) == old(MyEvents(log, me)) ==>
                MayFail(old(schedule)) || !Holds(tasks.rows, id, claim)
    {
      var ok, fails := KeepAlive(me, claim, ttl, id, task);
      if fails || !ok {
        return true;
      }
      stopped := !saving.Saved?;
      if stopped {
        ghost var before := Snapshot();
        FailAndRefund(me, claim, id, task, who,
                      if saving.SaveFails? then "saving failed" else "saving metadata failed");
        ConservesChains(old(Snapshot()), before, Snapshot());
      }
    }

    /** The heartbeat before one image is saved. */
    method KeepAlive(me: Pid, claim: string, ttl: real, id: TaskId, task: Row) returns (ok: bool, fails: bool)
      requires Valid() && OurClaim(claim, id, task)
      modifies this, tasks, auth
      ensures Valid() && OurClaim(claim, id, task)
      ensures Mine(owed, me) == old(Mine(owed, me)) && Mine(charges, me) == old(Mine(charges, me))
      ensures MyEvents(log, me) == old(MyEvents(log, me))
      ensures Conserves(old(Snapshot()), Snapshot()) && Onward(old(schedule), schedule)
      ensures old(Calm(schedule, tasks.rows, id, claim)) ==> ok && !fails && Calm(schedule, tasks.rows, id, claim)
      ensures fails ==> MayFail(old(schedule))
      ensures !fails && !ok ==> !Holds(tasks.rows, id, claim)
    {
      ghost var mid;
      ok, fails, mid := HeartbeatTask(me, id, claim, ttl);
    }

    /** The last part of runDBImageTask: complete the row and refund the missing images. */
    method Finish(me: Pid, claim: string, id: TaskId, task: Row, who: Identity, data: seq<string>, saved: seq<string>)
      returns (err: bool, disk: seq<string>)
      requires Valid() && Mine(owed, me) == [] && OurClaim(claim, id, task)
      requires who.id == task.ownerId && (who.root ==> who.id == "admin")
      requires |data| == |saved| <= task.n
      modifies this, tasks, auth
      ensures Valid() && Mine(owed, me) == []
      ensures Mine(charges, me) == old(Mine(charges, me))
      ensures Conserves(old(Snapshot()), Snapshot()) && Onward(old(schedule), schedule)
      ensures !err ==>
                && disk == saved
                && DeliveredWith(old(MyEvents(log, me)), MyEvents(log, me), me, id, task, |data|)
      ensures old(Calm(schedule, tasks.rows, id, claim)) ==> !err
      ensures err ==> disk == [] && MyEvents(log, me) == old(MyEvents(log, me))
      ensures err ==> MayFail(old(schedule)) || !Holds(tasks.rows, id, claim)
    {
      var changed, fails := CompleteOurs(me, claim, id, task, data);
      if fails || !changed {
        return true, [];
      }
      ghost var completed := Snapshot();
      if |data| < task.n {
        RefundImage(me, who, task.n - |data|);
        ConservesChains(old(Snapshot()), completed, Snapshot());
      }
      return false, saved;
    }

    /** CompleteTask as seen by the worker that holds the claim. */
    method CompleteOurs(me: Pid, claim: string, id: TaskId, task: Row, data: seq<string>)
      returns (changed: bool, fails: bool)
      requires Valid() && Mine(owed, me) == [] && OurClaim(claim, id, task) && |data| <= task.n
      modifies this, tasks, auth
      ensures Valid() && Mine(charges, me) == old(Mine(charges, me))
      ensures Conserves(old(Snapshot()), Snapshot()) && Onward(old(schedule), schedule)
      ensures old(Calm(schedule, tasks.rows, id, claim)) ==> changed && !fails
      ensures fails ==> !changed && MayFail(old(schedule))
      ensures !fails && !changed ==> !Holds(tasks.rows, id, claim)
      ensures changed ==> id in tasks.rows && tasks.rows[id].status == Success && tasks.rows[id].results == data
      ensures Mine(owed, me) == if changed then Owing(me, task.ownerId, task.n - |data|) else []
      ensures MyEvents(log, me) == old(MyEvents(log, me)) +
                if changed then [Settled(me, id, task.ownerId, task.n, Success, task.n - |data|)] else []
    {
      var now;
      ghost var mid;
      changed, fails, now, mid := CompleteTask(me, id, claim, data);
      if changed {
        ClaimedRow(old(Snapshot()), mid, claim, id, task);
        CompletingIsMine(mid, me, id, claim, data, now, task);
      }
    }

    /** One claim of workerLoop. A random claim id that is blank or was drawn before does not occur. */
    method ClaimTask(me: Pid, ttl: real, locked: set<TaskId>)
      returns (claim: string, got: Option<(TaskId, Row)>)
      requires Valid()
      modifies this, tasks, auth
      ensures Valid()
      ensures Mine(owed, me) == old(Mine(owed, me)) && Mine(charges, me) == old(Mine(charges, me))
      ensures MyEvents(log, me) == old(MyEvents(log, me))
      ensures Conserves(old(Snapshot()), Snapshot()) && Onward(old(schedule), schedule)
      ensures got.Some? ==>
                && OurClaim(claim, got.value.0, got.value.1)
                && Holds(tasks.rows, got.value.0, claim) && tasks.rows[got.value.0] == got.value.1
      ensures claim == DrawnIn(old(schedule)) && schedule == Rest(old(schedule))
      ensures var s := Passed(old(Snapshot()), old(schedule), me);
              var st := Claim(claim, ClockOf(old(schedule)), ttl);
              && (got.Some? ==>
                    && OldestHit(s.rows, got.value.0, st, locked)
                    && got.value.1 == Updated(s.rows[got.value.0], st))
              && (got.None? && !MayFail(old(schedule)) && !Blank(claim) && claim !in s.usedClaims ==>
                    !Claimable(s.rows, st, locked) && tasks.rows == s.rows)
    {
      var now, fails;
      ghost var mid;
      now, fails, mid := Pause(me);
      claim, got := drawn, None;
      if fails || Blank(claim) || claim in usedClaims {
        return;
      }
      got := ClaimDrawn(me, claim, now, ttl, locked);
      ConservesChains(old(Snapshot()), mid, Snapshot());
    }

    method ClaimDrawn(me: Pid, claim: string, now: real, ttl: real, locked: set<TaskId>)
      returns (got: Option<(TaskId, Row)>)
      requires Valid() && !Blank(claim) && claim !in usedClaims
      modifies this`usedClaims, tasks
      ensures Valid() && Conserves(old(Snapshot()), Snapshot())
      ensures got.Some? ==>
                && OurClaim(claim, got.value.0, got.value.1)
                && Holds(tasks.rows, got.value.0, claim) && tasks.rows[got.value.0] == got.value.1
      ensures var st := Claim(claim, now, ttl);
              && (got.Some? ==>
                    && OldestHit(old(tasks.rows), got.value.0, st, locked)
                    && got.value.1 == Updated(old(tasks.rows)[got.value.0], st))
              && (got.None? ==> tasks.rows == old(tasks.rows) && !Claimable(tasks.rows, st, locked))
    {
      ghost var mid := Snapshot();
      got := tasks.ClaimTask(claim, now, ttl, locked);
      usedClaims := usedClaims + {claim};
      if got.Some? {
        var (id, r) := got.value;
        assert Snapshot() == Apply(mid, Update(me, id, Claim(claim, now, ttl)));
        UpdateKeepsGood(mid, me, id, Claim(claim, now, ttl));
        StepIsConserving(mid, Update(me, id, Claim(claim, now, ttl)));
        assert RowOk(tasks.rows[id]);
        assert forall i :: Holds(mid.rows, i, claim) ==> claim in mid.usedClaims;
      } else {
        assert Snapshot() == mid.(usedClaims := mid.usedClaims + {claim});
        ChronicleStands(mid, Snapshot());
      }
    }

    /** One round of workerLoop: at most one settlement, nothing left to refund, no unit gained or lost. With a
        fresh claim id and a store that answers, a claimable task is worked on to the end it calls for. */
    method WorkOnce(me: Pid, ttl: real, locked: set<TaskId>, o: Outside)
      requires Valid() && Mine(owed, me) == []
      modifies this, tasks, auth
      ensures Valid() && Mine(owed, me) == [] && Mine(charges, me) == old(Mine(charges, me))
      ensures Conserves(old(Snapshot()), Snapshot()) && Onward(old(schedule), schedule)
      ensures |MyEvents(log, me)| <= |old(MyEvents(log, me))| + 1
      ensures old(MyEvents(log, me)) <= MyEvents(log, me)
      ensures var s := Passed(old(Snapshot()), old(schedule), me);
              var claim := DrawnIn(old(schedule));
              !MayFail(old(schedule)) && !Blank(claim) && claim !in s.usedClaims ==>
                Worked(s.rows, Claim(claim, ClockOf(old(schedule)), ttl), locked, Rest(old(schedule)), o, me,
                       old(MyEvents(log, me)), MyEvents(log, me), tasks.rows)
    {
      var claim, got := ClaimTask(me, ttl, locked);
      if got.Some? {
        ghost var claimed := Snapshot();
        ghost var calm := Calm(schedule, tasks.rows, got.value.0, claim);
        var err, disk := RunDBImageTask(me, claim, ttl, got.value.0, got.value.1, o);
        ConservesChains(old(Snapshot()), claimed, Snapshot());
        if calm || !Spares(Rest(old(schedule)), got.value.0) {
          WorkedOn(Passed(old(Snapshot()), old(schedule), me).rows, Claim(claim, ClockOf(old(schedule)), ttl), locked,
                   Rest(old(schedule)), o, me, old(MyEvents(log, me)), MyEvents(log, me), tasks.rows, got.value.0);
        }
      }
    }

    /** consumeImage, with the charge now in our hands. */
    method ConsumeImage(me: Pid, who: Identity, n: int, clock: Clock) returns (ok: bool, ghost mid: State)
      requires Valid() && n >= 1 && (who.root <==> who.id == "admin")
      modifies this, tasks, auth
      ensures Valid() && Undisturbed(old(Snapshot()), mid, me)
      ensures Conserves(old(Snapshot()), Snapshot()) && Onward(old(schedule), schedule)
      ensures Alone(old(schedule)) ==> mid == old(Snapshot())
      ensures ok == TaskProtocol.Accepted(mid, who, n, clock)
      ensures Snapshot() == Apply(mid, Charge(me, who, n, clock))
      ensures Mine(charges, me) == old(Mine(charges, me)) + if ok then [Entry(me, who.id, n)] else []
      ensures Mine(owed, me) == old(Mine(owed, me))
    {
      var now, fails;
      now, fails, mid := Pause(me);
      ok := who.root;
      if !ok {
        ok := auth.ConsumeQuota(who.id, n, true, clock);
      }
      if ok {
        charges := charges + [Entry(me, who.id, n)];
      }
      MineAppends(mid.charges, [Entry(me, who.id, n)], me);
      assert Mine([Entry(me, who.id, n)], me) == [Entry(me, who.id, n)];
      StepKeepsGood(mid, Charge(me, who, n, clock));
      StepIsConserving(mid, Charge(me, who, n, clock));
      ConservesChains(old(Snapshot()), mid, Apply(mid, Charge(me, who, n, clock)));
    }

    /** The charge will not become a task: it is refunded instead. */
    method GiveUp(me: Pid, who: Identity, n: int)
      requires Valid() && n >= 1 && (who.root ==> who.id == "admin")
      requires Mine(charges, me) == [Entry(me, who.id, n)] && Mine(owed, me) == []
      modifies this, tasks, auth
      ensures Valid() && Mine(charges, me) == [] && Mine(owed, me) == []
      ensures MyEvents(log, me) == old(MyEvents(log, me))
      ensures Conserves(old(Snapshot()), Snapshot()) && Onward(old(schedule), schedule)
    {
      ghost var s := Snapshot();
      ForfeitingIsMine(s, me, who.id, n);
      charges, owed := Without(charges, Entry(me, who.id, n)), owed + [Entry(me, who.id, n)];
      ghost var t := Apply(s, Forfeit(me, who.id, n));
      assert Snapshot() == t;
      StepKeepsGood(s, Forfeit(me, who.id, n));
      StepIsConserving(s, Forfeit(me, who.id, n));
      RefundImage(me, who, n);
      ConservesChains(s, t, Snapshot());
    }

    /** The INSERT of a submission. */
    method CreateTask(me: Pid, t: NewTask) returns (r: Created, fails: bool)
      requires Valid() && 1 <= t.n <= 4 && !Blank(t.id)
      requires Mine(charges, me) == [Entry(me, t.ownerId, t.n)] && Mine(owed, me) == []
      modifies this, tasks, auth
      ensures Valid() && Conserves(old(Snapshot()), Snapshot()) && Onward(old(schedule), schedule)
      ensures fails ==> r.Refused? && MayFail(old(schedule))
      ensures r.Stored? && r.created ==> NewIn(tasks.rows, t)
      ensures !fails ==> (r.Refused? <==> !Insertable(t))
      ensures r.Stored? && Alone(old(schedule)) ==> (r.created <==> t.id !in old(tasks.rows))
      ensures var created := r.Stored? && r.created;
              && Mine(charges, me) == (if fails then old(Mine(charges, me)) else [])
              && Mine(owed, me) == (if fails || created then [] else [Entry(me, t.ownerId, t.n)])
              && MyEvents(log, me) == old(MyEvents(log, me)) +
                   if created then [Born(me, t.id, t.ownerId, t.n)] else []
    {
      var now;
      ghost var mid;
      now, fails, mid := Pause(me);
      r := Refused;
      if fails {
        return;
      }
      r := SubmitRow(me, t, now);
      ConservesChains(old(Snapshot()), mid, Snapshot());
    }

    method SubmitRow(me: Pid, t: NewTask, now: real) returns (r: Created)
      requires Valid() && 1 <= t.n <= 4 && !Blank(t.id)
      requires Mine(charges, me) == [Entry(me, t.ownerId, t.n)] && Mine(owed, me) == []
      modifies this`charges, this`owed, this`log, tasks
      ensures Valid() && Conserves(old(Snapshot()), Snapshot()) && Mine(charges, me) == []
      ensures r.Refused? <==> !Insertable(t)
      ensures r.Stored? && r.created ==> NewIn(tasks.rows, t)
      ensures r.Stored? ==> (r.created <==> t.id !in old(tasks.rows))
      ensures var created := r.Stored? && r.created;
              && Mine(owed, me) == (if created then [] else [Entry(me, t.ownerId, t.n)])
              && MyEvents(log, me) == old(MyEvents(log, me)) +
                   if created then [Born(me, t.id, t.ownerId, t.n)] else []
    {
      SubmittingIsMine(Snapshot(), me, t, now);
      StepIsConserving(Snapshot(), Submit(me, t, now));
      r := InsertRow(me, t, now);
    }

    /** The INSERT as one step of the protocol. */
    method InsertRow(me: Pid, t: NewTask, now: real) returns (r: Created)
      requires !Blank(t.id) && 1 <= t.n <= 4
      modifies this`charges, this`owed, this`log, tasks
      ensures Snapshot() == Apply(old(Snapshot()), Submit(me, t, now))
      ensures r.Refused? <==> !Insertable(t)
      ensures r.Stored? ==> (r.created <==> t.id !in old(tasks.rows))
      ensures r.Stored? && r.created <==> Inserts(old(tasks.rows), t)
    {
      r := tasks.CreateTask(t, now, t.id);
      NoteInsert(me, t, r.Stored? && r.created);
    }

    /** After the INSERT the charge belongs to the new row, or is owed back. */
    method NoteInsert(me: Pid, t: NewTask, created: bool)
      modifies this`charges, this`owed, this`log
      ensures charges == Without(old(charges), Entry(me, t.ownerId, t.n))
      ensures owed == old(owed) + if created then [] else [Entry(me, t.ownerId, t.n)]
      ensures log == old(log) + if created then [Born(me, t.id, t.ownerId, t.n)] else []
    {
      charges := Without(charges, Entry(me, t.ownerId, t.n));
      if created {
        log := log + [Born(me, t.id, t.ownerId, t.n)];
      } else {
        owed := owed + [Entry(me, t.ownerId, t.n)];
      }
    }

    /** The end of createDBImageTask: a charge that did not create a row goes back to the key. */
    method InsertTask(me: Pid, who: Identity, t: NewTask) returns (reply: Reply)
      requires Valid() && 1 <= t.n <= 4 && t.ownerId == who.id && !Blank(t.id) && (who.root ==> who.id == "admin")
      requires Mine(charges, me) == [Entry(me, who.id, t.n)] && Mine(owed, me) == []
      modifies this, tasks, auth
      ensures Valid() && Mine(charges, me) == [] && Mine(owed, me) == []
      ensures Conserves(old(Snapshot()), Snapshot()) && Onward(old(schedule), schedule)
      ensures reply == Reply.Accepted ==> NewIn(tasks.rows, t)
      ensures MyEvents(log, me) == old(MyEvents(log, me)) +
                if reply == Reply.Accepted then [Born(me, t.id, who.id, t.n)] else []
      ensures Alone(old(schedule)) && !MayFail(old(schedule)) ==>
                reply == if !Insertable(t) then Rejected
                         else if t.id in old(tasks.rows) then Duplicate
                         else Reply.Accepted
    {
      var r, fails := CreateTask(me, t);
      ghost var inserted := Snapshot();
      if fails {
        GiveUp(me, who, t.n);
        ConservesChains(old(Snapshot()), inserted, Snapshot());
        return Rejected;
      }
      if r.Refused? || !r.created {
        RefundImage(me, who, t.n);
        ConservesChains(old(Snapshot()), inserted, Snapshot());
        return if r.Stored? then Duplicate else Rejected;
      }
      return Reply.Accepted;
    }

    /** createDBImageTask: look up, charge, insert, compensate. Every way out leaves this process with
        no open charge and no refund to pay, no key gains or loses a unit, and it reports a new task only if
        it created the row. With nobody else at work and no failing store the reply is the expected one. */
    method CreateDBImageTask(me: Pid, who: Identity, req: Request, clock: Clock) returns (reply: Reply)
      requires Valid() && Mine(charges, me) == [] && Mine(owed, me) == []
      requires (who.root <==> who.id == "admin") && !Blank(req.taskId)
      modifies this, tasks, auth
      ensures Valid() && Mine(charges, me) == [] && Mine(owed, me) == []
      ensures Conserves(old(Snapshot()), Snapshot()) && Onward(old(schedule), schedule)
      ensures reply == Reply.Accepted ==>
                AsAsked(tasks.rows, who, req, ChargeOf(req), ModeOf(req), ClockOf(old(schedule)) + req.timeout)
      ensures MyEvents(log, me) == old(MyEvents(log, me)) +
                if reply == Reply.Accepted then [Born(me, req.taskId, who.id, ChargeOf(req))] else []
      ensures Alone(old(schedule)) && !MayFail(old(schedule)) ==> reply == ReplyFor(old(Snapshot()), who, req, clock)
    {
      if Blank(req.prompt) {
        return Rejected;
      }
      var n := req.n;
      if n < 1 {
        n := 1;
      }
      if n > 4 {
        n := 4;
      }
      var mode := if req.mode == "" then "generate" else req.mode;
      if mode == "edit" {
        n := 1;
        if req.inputs == [] {
          return Rejected;
        }
      }
      if !req.allowed {
        return Rejected;
      }
      assert n == ChargeOf(req) && mode == ModeOf(req);
      reply := Admit(me, who, req, clock, n, mode);
    }

    /** createDBImageTask from the lookup on. */
    method Admit(me: Pid, who: Identity, req: Request, clock: Clock, n: int, mode: string) returns (reply: Reply)
      requires Valid() && Mine(charges, me) == [] && Mine(owed, me) == []
      requires (who.root <==> who.id == "admin") && !Blank(req.taskId) && !Blank(req.prompt) && 1 <= n <= 4
      modifies this, tasks, auth
      ensures Valid() && Mine(charges, me) == [] && Mine(owed, me) == []
      ensures Conserves(old(Snapshot()), Snapshot()) && Onward(old(schedule), schedule)
      ensures reply == Reply.Accepted ==>
                AsAsked(tasks.rows, who, req, n, mode, ClockOf(old(schedule)) + req.timeout)
      ensures MyEvents(log, me) == old(MyEvents(log, me)) +
                if reply == Reply.Accepted then [Born(me, req.taskId, who.id, n)] else []
      ensures Alone(old(schedule)) && !MayFail(old(schedule)) ==>
                reply == if req.taskId in old(tasks.rows) && Visible(old(tasks.rows)[req.taskId], who) then Existing
                         else ReplyToCharge(old(Snapshot()), who, req, clock, n, mode)
    {
      var now, found := LookUp(me, who, req.taskId);
      if found {
        return Existing;
      }
      ghost var mid := Snapshot();
      reply := ChargeAndInsert(me, who, req, clock, n, mode, now);
      ConservesChains(old(Snapshot()), mid, Snapshot());
    }

    /** The lookup before the charge. */
    method LookUp(me: Pid, who: Identity, id: TaskId) returns (now: real, found: bool)
      requires Valid()
      modifies this, tasks, auth
      ensures Valid() && Conserves(old(Snapshot()), Snapshot()) && Onward(old(schedule), schedule)
      ensures now == ClockOf(old(schedule))
      ensures Mine(owed, me) == old(Mine(owed, me)) && Mine(charges, me) == old(Mine(charges, me))
      ensures MyEvents(log, me) == old(MyEvents(log, me))
      ensures Alone(old(schedule)) && !MayFail(old(schedule)) ==>
                && Snapshot() == old(Snapshot())
                && (found <==> id in old(tasks.rows) && Visible(old(tasks.rows)[id], who))
    {
      var fails;
      ghost var mid;
      now, fails, mid := Pause(me);
      found := !fails && tasks.GetTask(id, who).Some?;
    }

    /** createDBImageTask from the charge on. */
    method ChargeAndInsert(me: Pid, who: Identity, req: Request, clock: Clock, n: int, mode: string, now: real)
      returns (reply: Reply)
      requires Valid() && Mine(charges, me) == [] && Mine(owed, me) == []
      requires (who.root <==> who.id == "admin") && !Blank(req.taskId) && !Blank(req.prompt) && 1 <= n <= 4
      modifies this, tasks, auth
      ensures Valid() && Mine(charges, me) == [] && Mine(owed, me) == []
      ensures Conserves(old(Snapshot()), Snapshot()) && Onward(old(schedule), schedule)
      ensures reply == Reply.Accepted ==> AsAsked(tasks.rows, who, req, n, mode, now + req.timeout)
      ensures MyEvents(log, me) == old(MyEvents(log, me)) +
                if reply == Reply.Accepted then [Born(me, req.taskId, who.id, n)] else []
      ensures Alone(old(schedule)) && !MayFail(old(schedule)) ==>
                reply == ReplyToCharge(old(Snapshot()), who, req, clock, n, mode)
    {
      var ok;
      ghost var mid;
      ok, mid := ConsumeImage(me, who, n, clock);
      if !ok {
        return NoQuota;
      }
      ghost var charged := Snapshot();
      if mode == "edit" && (req.stored.None? || req.stored.value == []) {
        GiveUp(me, who, n);
        ConservesChains(old(Snapshot()), charged, Snapshot());
        return Rejected;
      }
      reply := InsertAsked(me, who, req, n, mode, now);
      ConservesChains(old(Snapshot()), charged, Snapshot());
    }

    /** The row of a submission that has been charged. */
    method InsertAsked(me: Pid, who: Identity, req: Request, n: int, mode: string, now: real) returns (reply: Reply)
      requires Valid() && Mine(charges, me) == [Entry(me, who.id, n)] && Mine(owed, me) == []
      requires (who.root ==> who.id == "admin") && !Blank(req.taskId) && !Blank(req.prompt) && 1 <= n <= 4
      requires mode == "edit" ==> req.stored.Some?
      modifies this, tasks, auth
      ensures Valid() && Mine(charges, me) == [] && Mine(owed, me) == []
      ensures Conserves(old(Snapshot()), Snapshot()) && Onward(old(schedule), schedule)
      ensures reply == Reply.Accepted ==> AsAsked(tasks.rows, who, req, n, mode, now + req.timeout)
      ensures MyEvents(log, me) == old(MyEvents(log, me)) +
                if reply == Reply.Accepted then [Born(me, req.taskId, who.id, n)] else []
      ensures Alone(old(schedule)) && !MayFail(old(schedule)) ==>
                reply == if Blank(who.id) then Rejected
                         else if req.taskId in old(tasks.rows) then Duplicate
                         else Reply.Accepted
    {
      var paths := if mode == "edit" then req.stored.value else [];
      var t := NewTask(req.taskId, TrimSpace(req.clientTaskId), who.id, who.role, mode, req.prompt, n, paths,
                       now + req.timeout);
      reply := InsertTask(me, who, t);
      if reply == Reply.Accepted {
        NewIsAsAsked(tasks.rows, who, req, n, mode, now + req.timeout, t);
      }
    }

    /** After a settling batch: note what it leaves to refund. */
    method NoteAll(me: Pid, ids: seq<TaskId>, ghost status: Status) returns (dues: seq<Entry>)
      requires forall id :: id in ids ==> id in tasks.rows && tasks.rows[id].status == status
      requires status == Error || status == Canceled
      requires forall id :: id in ids ==> tasks.rows[id].n > 0
      modifies this`owed, this`log
      ensures dues == Dues(tasks.rows, ids, me)
      ensures owed == old(owed) + dues
      ensures log == old(log) + Endings(tasks.rows, ids, status, me)
    {
      dues := [];
      var ends: seq<Event> := [];
      for i := 0 to |ids|
        invariant dues == Dues(tasks.rows, ids[..i], me)
        invariant ends == Endings(tasks.rows, ids[..i], status, me)
      {
        var id := ids[i];
        assert id in ids;
        assert ids[..i + 1][..i] == ids[..i];
        var r := tasks.rows[id];
        dues := dues + [Entry(me, r.ownerId, r.n)];
        ends := ends + [Settled(me, id, r.ownerId, r.n, r.status, r.n)];
      }
      assert ids[..|ids|] == ids;
      owed, log := owed + dues, log + ends;
    }

    /** One refund per settled row. */
    method RefundAll(me: Pid, dues: seq<Entry>)
      requires Valid() && Mine(owed, me) == dues && forall e :: e in dues ==> e.pid == me && e.n > 0
      modifies this, tasks, auth
      ensures Valid() && Mine(owed, me) == []
      ensures Mine(charges, me) == old(Mine(charges, me)) && MyEvents(log, me) == old(MyEvents(log, me))
      ensures Conserves(old(Snapshot()), Snapshot()) && Onward(old(schedule), schedule)
      ensures Alone(old(schedule)) ==> tasks.rows == old(tasks.rows)
      ensures dues == [] ==> tasks.rows == old(tasks.rows)
    {
      for i := 0 to |dues|
        invariant Valid() && Mine(owed, me) == dues[i..]
        invariant Mine(charges, me) == old(Mine(charges, me)) && MyEvents(log, me) == old(MyEvents(log, me))
        invariant Conserves(old(Snapshot()), Snapshot()) && Onward(old(schedule), schedule)
        invariant Alone(old(schedule)) || dues == [] ==> tasks.rows == old(tasks.rows)
      {
        var e := dues[i];
        assert e in dues && e == Entry(me, e.key, e.n);
        ghost var before := Snapshot();
        RefundImage(me, Identity(e.key, "", false), MaxInt(e.n, 1));
        ConservesChains(old(Snapshot()), before, Snapshot());
      }
    }

    /** ExpireOverdueTasks as one step of the protocol. */
    method ExpireBatch(me: Pid, locked: set<TaskId>) returns (items: seq<TaskId>, dues: seq<Entry>)
      requires Valid() && Mine(owed, me) == []
      modifies this, tasks, auth
      ensures Valid() && Mine(charges, me) == old(Mine(charges, me))
      ensures Conserves(old(Snapshot()), Snapshot()) && Onward(old(schedule), schedule)
      ensures Mine(owed, me) == dues && forall e :: e in dues ==> e.pid == me && e.n > 0
      ensures Refunded(old(MyEvents(log, me)), MyEvents(log, me), items, Error)
      ensures Alone(old(schedule)) && !MayFail(old(schedule)) ==>
                OldestBatch(Overdue(old(tasks.rows), ClockOf(old(schedule)), locked), items, 50)
    {
      var now, fails;
      ghost var mid;
      now, fails, mid := Pause(me);
      items, dues := [], [];
      if fails {
        return;
      }
      items := tasks.ExpireOverdueTasks(50, now, locked);
      dues := BookBatch(me, items, Expire(now), mid);
      ConservesChains(old(Snapshot()), mid, Snapshot());
    }

    /** The multi-row statement just run was ours. */
    method BookBatch(me: Pid, items: seq<TaskId>, ghost st: Stmt, ghost s: State) returns (dues: seq<Entry>)
      requires Good(s) && (st.CancelClient? || st.Expire?) && Mine(s.owed, me) == []
      requires Distinct(items) && forall id :: id in items ==> Matches(s.rows, id, st)
      requires Snapshot() == s.(rows := ExecAll(s.rows, items, st))
      modifies this`owed, this`log
      ensures Valid() && Snapshot() == ApplyMany(s, me, items, st) && Conserves(s, Snapshot())
      ensures Mine(owed, me) == dues && forall e :: e in dues ==> e.pid == me && e.n > 0
      ensures items == [] ==> dues == []
      ensures Refunded(MyEvents(s.log, me), MyEvents(log, me), items, EndStatus(st))
    {
      SettlingBatch(s, me, items, st);
      StepIsConserving(s, UpdateMany(me, items, st));
      dues := NoteAll(me, items, EndStatus(st));
      DuesInHand(s.owed, tasks.rows, items, me);
      EndingsRefunded(s.log, tasks.rows, items, EndStatus(st), me);
      assert Snapshot() == ApplyMany(s, me, items, st);
    }

    /** expireOverdueDBTasks: every task it timed out is refunded in full, once. */
    method ExpireOverdueDBTasks(me: Pid, locked: set<TaskId>) returns (items: seq<TaskId>)
      requires Valid() && Mine(owed, me) == []
      modifies this, tasks, auth
      ensures Valid() && Mine(owed, me) == [] && Mine(charges, me) == old(Mine(charges, me))
      ensures Conserves(old(Snapshot()), Snapshot()) && Onward(old(schedule), schedule)
      ensures Refunded(old(MyEvents(log, me)), MyEvents(log, me), items, Error)
      ensures Alone(old(schedule)) && !MayFail(old(schedule)) ==>
                OldestBatch(Overdue(old(tasks.rows), ClockOf(old(schedule)), locked), items, 50)
    {
      var dues;
      items, dues := ExpireBatch(me, locked);
      ghost var expired := Snapshot();
      RefundAll(me, dues);
      ConservesChains(old(Snapshot()), expired, Snapshot());
    }

    /** CancelTask as one step of the protocol. */
    method CancelRow(me: Pid, id: TaskId, who: Identity) returns (got: Option<Row>, fails: bool)
      requires Valid() && Mine(owed, me) == []
      modifies this, tasks, auth
      ensures Valid() && Mine(charges, me) == old(Mine(charges, me))
      ensures Conserves(old(Snapshot()), Snapshot()) && Onward(old(schedule), schedule)
      ensures got.Some? ==> got.value.n > 0
      ensures Mine(owed, me) == if got.Some? then [Entry(me, got.value.ownerId, got.value.n)] else []
      ensures Refunded(old(MyEvents(log, me)), MyEvents(log, me), if got.Some? then [id] else [], Canceled)
      ensures fails ==> got.None? && MayFail(old(schedule))
      ensures !fails ==> Uncancelable(tasks.rows, id, who)
      ensures Alone(old(schedule)) ==> OnlyCloses(old(tasks.rows), tasks.rows)
    {
      var now;
      ghost var mid;
      now, fails, mid := Pause(me);
      got := None;
      if fails {
        return;
      }
      got := CancelNow(me, id, who, now);
      ConservesChains(old(Snapshot()), mid, Snapshot());
    }

    method CancelNow(me: Pid, id: TaskId, who: Identity, now: real) returns (got: Option<Row>)
      requires Valid() && Mine(owed, me) == []
      modifies this`owed, this`log, tasks
      ensures Valid() && Conserves(old(Snapshot()), Snapshot())
      ensures got.Some? ==> got.value.n > 0
      ensures Mine(owed, me) == if got.Some? then [Entry(me, got.value.ownerId, got.value.n)] else []
      ensures Refunded(old(MyEvents(log, me)), MyEvents(log, me), if got.Some? then [id] else [], Canceled)
      ensures Uncancelable(tasks.rows, id, who) && OnlyCloses(old(tasks.rows), tasks.rows)
    {
      ghost var mid := Snapshot();
      CancelCloses(tasks.rows, id, who, now);
      got := tasks.CancelTask(id, who, now);
      if got.Some? {
        Note(me, id);
        assert Snapshot() == Apply(mid, Update(me, id, Cancel(who, now)));
        CancellingIsMine(mid, me, id, who, now);
        StepIsConserving(mid, Update(me, id, Cancel(who, now)));
      }
    }

    /** CancelTask and its refund. */
    method CancelOne(me: Pid, id: TaskId, who: Identity) returns (ok: bool, fails: bool)
      requires Valid() && Mine(owed, me) == []
      modifies this, tasks, auth
      ensures Valid() && Mine(owed, me) == [] && Mine(charges, me) == old(Mine(charges, me))
      ensures Conserves(old(Snapshot()), Snapshot()) && Onward(old(schedule), schedule)
      ensures Refunded(old(MyEvents(log, me)), MyEvents(log, me), if ok then [id] else [], Canceled)
      ensures fails ==> !ok && MayFail(old(schedule))
      ensures !fails && !ok ==> Uncancelable(tasks.rows, id, who)
      ensures Alone(old(schedule)) ==> OnlyCloses(old(tasks.rows), tasks.rows)
    {
      var got;
      got, fails := CancelRow(me, id, who);
      ok := got.Some?;
      if ok {
        ghost var canceled := Snapshot();
        RefundImage(me, Identity(got.value.ownerId, got.value.ownerRole, false), MaxInt(got.value.n, 1));
        ConservesChains(old(Snapshot()), canceled, Snapshot());
      }
    }

    /** CancelTasksByClientTaskID as one step of the protocol. */
    method CancelBatch(me: Pid, clientTaskId: string, who: Identity)
      returns (items: seq<TaskId>, dues: seq<Entry>, fails: bool)
      requires Valid() && Mine(owed, me) == [] && who.role != "admin"
      modifies this, tasks, auth
      ensures Valid() && Mine(charges, me) == old(Mine(charges, me))
      ensures Conserves(old(Snapshot()), Snapshot()) && Onward(old(schedule), schedule)
      ensures Mine(owed, me) == dues && (items == [] ==> dues == []) && forall e :: e in dues ==> e.pid == me && e.n > 0
      ensures Refunded(old(MyEvents(log, me)), MyEvents(log, me), items, Canceled)
      ensures fails ==> MayFail(old(schedule))
      ensures !fails && !Blank(clientTaskId) ==> NoneOpen(tasks.rows, TrimSpace(clientTaskId), who)
      ensures forall id :: id in items ==> id in tasks.rows && tasks.rows[id].clientTaskId == TrimSpace(clientTaskId)
      ensures Alone(old(schedule)) ==> OnlyCloses(old(tasks.rows), tasks.rows)
    {
      var now;
      ghost var mid;
      now, fails, mid := Pause(me);
      items, dues := [], [];
      if fails || Blank(clientTaskId) {
        return;
      }
      var got := tasks.CancelTasksByClientTaskID(clientTaskId, who, now);
      items := got.value;
      ghost var st := CancelClient(TrimSpace(clientTaskId), who, now);
      ClientBatch(mid.rows, items, TrimSpace(clientTaskId), who, now);
      dues := BookBatch(me, items, st, mid);
      ConservesChains(old(Snapshot()), mid, Snapshot());
    }

    /** The fallback by client task id, with its refunds. */
    method CancelByClient(me: Pid, clientTaskId: string, who: Identity) returns (items: seq<TaskId>, fails: bool)
      requires Valid() && Mine(owed, me) == [] && who.role != "admin"
      modifies this, tasks, auth
      ensures Valid() && Mine(owed, me) == [] && Mine(charges, me) == old(Mine(charges, me))
      ensures Conserves(old(Snapshot()), Snapshot()) && Onward(old(schedule), schedule)
      ensures Refunded(old(MyEvents(log, me)), MyEvents(log, me), items, Canceled)
      ensures fails ==> MayFail(old(schedule))
      ensures !fails && items == [] && !Blank(clientTaskId) ==> NoneOpen(tasks.rows, TrimSpace(clientTaskId), who)
      ensures Alone(old(schedule)) ==>
                && OnlyCloses(old(tasks.rows), tasks.rows)
                && forall id :: id in items ==>
                     id in tasks.rows && tasks.rows[id].clientTaskId == TrimSpace(clientTaskId)
    {
      var dues;
      items, dues, fails := CancelBatch(me, clientTaskId, who);
      ghost var canceled := Snapshot();
      RefundAll(me, dues);
      ConservesChains(old(Snapshot()), canceled, Snapshot());
    }

    /** One requested id: it is tried as a task id, as the id derived from it, and, for non-admins, as a client
        task id. */
    method CancelRequested(me: Pid, asked: TaskId, who: Identity, derive: (string, string) -> TaskId)
      returns (items: seq<TaskId>, fails: bool)
      requires Valid() && Mine(owed, me) == []
      modifies this, tasks, auth
      ensures Valid() && Mine(owed, me) == [] && Mine(charges, me) == old(Mine(charges, me))
      ensures Conserves(old(Snapshot()), Snapshot()) && Onward(old(schedule), schedule)
      ensures Refunded(old(MyEvents(log, me)), MyEvents(log, me), items, Canceled)
      ensures fails ==> MayFail(old(schedule))
      ensures Alone(old(schedule)) ==>
                && OnlyCloses(old(tasks.rows), tasks.rows)
                && (!fails && items == [] ==> NothingOpen(tasks.rows, asked, who, derive))
                && forall id :: id in items ==> Answers(tasks.rows, asked, who, derive, id)
    {
      items, fails := CancelCandidates(me, PossibleIds(derive, who.id, asked), who);
      if fails || items != [] || who.role == "admin" {
        return;
      }
      ghost var tried, before, rows := Snapshot(), MyEvents(log, me), tasks.rows;
      items, fails := CancelByClient(me, asked, who);
      ConservesChains(old(Snapshot()), tried, Snapshot());
      assert before == old(MyEvents(log, me));
      if Alone(old(schedule)) {
        OnlyClosesChains(old(tasks.rows), rows, tasks.rows);
      }
    }

    /** The loop over the candidate ids, up to the first that can be canceled. */
    method CancelCandidates(me: Pid, candidates: seq<TaskId>, who: Identity) returns (items: seq<TaskId>, fails: bool)
      requires Valid() && Mine(owed, me) == []
      modifies this, tasks, auth
      ensures Valid() && Mine(owed, me) == [] && Mine(charges, me) == old(Mine(charges, me))
      ensures Conserves(old(Snapshot()), Snapshot()) && Onward(old(schedule), schedule)
      ensures Refunded(old(MyEvents(log, me)), MyEvents(log, me), items, Canceled)
      ensures fails ==> MayFail(old(schedule))
      ensures forall id :: id in items ==> id in candidates
      ensures Alone(old(schedule)) ==>
                && OnlyCloses(old(tasks.rows), tasks.rows)
                && (!fails && items == [] ==> AllUncancelable(tasks.rows, candidates, who))
    {
      items, fails := [], false;
      for j := 0 to |candidates|
        invariant Valid() && Mine(owed, me) == [] && Mine(charges, me) == old(Mine(charges, me))
        invariant MyEvents(log, me) == old(MyEvents(log, me)) && items == [] && !fails
        invariant Conserves(old(Snapshot()), Snapshot()) && Onward(old(schedule), schedule)
        invariant Alone(old(schedule)) ==>
                    OnlyCloses(old(tasks.rows), tasks.rows) && AllUncancelable(tasks.rows, candidates[..j], who)
      {
        assert candidates[..j + 1] == candidates[..j] + [candidates[j]];
        ghost var before := Snapshot();
        var ok;
        ok, fails := CancelOne(me, candidates[j], who);
        ConservesChains(old(Snapshot()), before, Snapshot());
        if Alone(old(schedule)) {
          OnlyClosesChains(old(tasks.rows), before.rows, tasks.rows);
          StayUncancelable(before.rows, tasks.rows, candidates[..j], candidates[j], who);
        }
        if ok {
          items := [candidates[j]];
        }
        if ok || fails {
          return;
        }
      }
      assert candidates[..|candidates|] == candidates;
    }

    /** The database branch of handleImageTaskCancel: every task it cancelled, and no other, is refunded in
        full, once, and no key gains or loses a unit. With nobody else at work and no failing store the ids
        reported as missing are those for which nothing was left to cancel. */
    method CancelImageTasks(me: Pid, requested: seq<TaskId>, who: Identity, derive: (string, string) -> TaskId)
      returns (canceled: seq<TaskId>, missing: seq<TaskId>)
      requires Valid() && Mine(owed, me) == []
      modifies this, tasks, auth
      ensures Valid() && Mine(owed, me) == [] && Mine(charges, me) == old(Mine(charges, me))
      ensures Conserves(old(Snapshot()), Snapshot()) && Onward(old(schedule), schedule)
      ensures Refunded(old(MyEvents(log, me)), MyEvents(log, me), canceled, Canceled)
      ensures Alone(old(schedule)) && !MayFail(old(schedule)) ==>
                && (forall asked :: asked in missing ==>
                      asked in requested && NothingOpen(tasks.rows, asked, who, derive))
                && (forall asked :: asked in requested && asked !in missing ==>
                      exists id :: id in canceled && Answers(tasks.rows, asked, who, derive, id))
    {
      canceled, missing := [], [];
      ghost var calm := Alone(old(schedule)) && !MayFail(old(schedule));
      for i := 0 to |requested|
        invariant Valid() && Mine(owed, me) == [] && Mine(charges, me) == old(Mine(charges, me))
        invariant Conserves(old(Snapshot()), Snapshot()) && Onward(old(schedule), schedule)
        invariant Refunded(old(MyEvents(log, me)), MyEvents(log, me), canceled, Canceled)
        invariant calm ==> CancelSoFar(tasks.rows, requested[..i], who, derive, canceled, missing)
      {
        ghost var before, events := Snapshot(), MyEvents(log, me);
        var items, fails := CancelRequested(me, requested[i], who, derive);
        ConservesChains(old(Snapshot()), before, Snapshot());
        RefundedChains(old(MyEvents(log, me)), events, MyEvents(log, me), canceled, items, Canceled);
        if calm {
          CancelGoesOn(before.rows, tasks.rows, requested, i, who, derive, canceled, missing, items);
        }
        canceled := canceled + items;
        if fails {
          return;
        }
        if items == [] {
          missing := missing + [requested[i]];
        }
      }
      assert requested[..|requested|] == requested;
    }
  }
}
