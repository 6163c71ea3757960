/** Table image_tasks_v3 and the SQL statements that change it (internal/app/pg_tasks.go). */
module TaskTable {
  import opened Common
  import opened Text

  type TaskId = string

  datatype Status = Queued | Running | Success | Error | Canceled

  datatype Row = Row(
    clientTaskId: string, ownerId: string, ownerRole: string,
    mode: string, prompt: string, n: int, inputPaths: seq<string>,
    status: Status, results: seq<string>, error: string,
    claimedBy: string, claimedUntil: real,
    deadline: real, createdTs: real, updatedTs: real)

  type Rows = map<TaskId, Row>

  datatype Identity = Identity(id: string, role: string, root: bool)

  /** What a caller hands to CreateTask. */
  datatype NewTask = NewTask(
    id: TaskId, clientTaskId: string, ownerId: string, ownerRole: string,
    mode: string, prompt: string, n: int, inputPaths: seq<string>, deadline: real)

  predicate IsOpen(r: Row) {
    r.status == Queued || r.status == Running
  }

  predicate Visible(r: Row, who: Identity) {
    who.role == "admin" || r.ownerId == who.id
  }

  /** The guarded single-row updates: each one is a WHERE clause and a SET clause. */
  datatype Stmt =
    | Claim(worker: string, now: real, ttl: real)
    | ClaimQueued(worker: string, now: real, ttl: real)
    | Heartbeat(worker: string, now: real, ttl: real)
    | Complete(worker: string, data: seq<string>, now: real)
    | Fail(worker: string, message: string, now: real)
    | Requeue(worker: string, now: real, delay: real)
    | Cancel(who: Identity, now: real)
    | CancelClient(clientTaskId: string, who: Identity, now: real)
    | Expire(now: real)

  /** The WHERE clause. */
  predicate Hits(r: Row, st: Stmt) {
    match st
    case Claim(_, now, _) =>
      && r.deadline > now
      && ((r.status == Queued && r.claimedUntil <= now)
          || (r.status == Running && (r.claimedBy == "" || r.claimedUntil <= now)))
    case ClaimQueued(_, now, _) => r.status == Queued && r.deadline > now
    case Heartbeat(w, _, _) => r.status == Running && r.claimedBy == w
    case Complete(w, _, _) => r.status == Running && r.claimedBy == w
    case Fail(w, _, _) => IsOpen(r) && (!Blank(w) ==> r.claimedBy == w)
    case Requeue(w, _, _) => r.status == Running && r.claimedBy == w
    case Cancel(who, _) => IsOpen(r) && Visible(r, who)
    case CancelClient(c, who, _) => IsOpen(r) && r.clientTaskId == c && Visible(r, who)
    case Expire(now) => IsOpen(r) && r.deadline > 0.0 && r.deadline <= now
  }

  /** The SET clause. */
  function Updated(r: Row, st: Stmt): Row {
    match st
    case Claim(w, now, ttl) => r.(status := Running, claimedBy := w, claimedUntil := now + ttl, updatedTs := now)
    case ClaimQueued(w, now, ttl) => r.(status := Running, claimedBy := w, claimedUntil := now + ttl, updatedTs := now)
    case Heartbeat(_, now, ttl) => r.(claimedUntil := now + ttl, updatedTs := now)
    case Complete(_, data, now) =>
      r.(status := Success, results := data, error := "", claimedBy := "", claimedUntil := 0.0, updatedTs := now)
    case Fail(_, message, now) =>
      r.(status := Error, error := LimitTaskError(message), claimedBy := "", claimedUntil := 0.0, updatedTs := now)
    case Requeue(_, now, delay) =>
      r.(status := Queued, claimedBy := "", claimedUntil := now + delay, updatedTs := now)
    case Cancel(_, now) =>
      r.(status := Canceled, error := "canceled", claimedBy := "", claimedUntil := 0.0, updatedTs := now)
    case CancelClient(_, _, now) =>
      r.(status := Canceled, error := "canceled", claimedBy := "", claimedUntil := 0.0, updatedTs := now)
    case Expire(now) =>
      r.(status := Error, error := "image task timed out", claimedBy := "", claimedUntil := 0.0, updatedTs := now)
  }

  function LimitTaskError(message: string): string {
    var m := TrimSpace(message);
    if |m| <= 4000 then m else m[..4000]
  }

  predicate Matches(rows: Rows, id: TaskId, st: Stmt) {
    id in rows && Hits(rows[id], st)
  }

  /** One statement run against one row. */
  function Exec(rows: Rows, id: TaskId, st: Stmt): Rows {
    if Matches(rows, id, st) then rows[id := Updated(rows[id], st)] else rows
  }

  /** One statement that reaches several rows. */
  function ExecAll(rows: Rows, ids: seq<TaskId>, st: Stmt): Rows {
    if ids == [] then rows else Exec(ExecAll(rows, ids[..|ids| - 1], st), ids[|ids| - 1], st)
  }

  predicate Purgeable(rows: Rows, id: TaskId, cutoff: real) {
    id in rows && !IsOpen(rows[id]) && rows[id].updatedTs <= cutoff
  }

  function Purge(rows: Rows, id: TaskId, cutoff: real): Rows {
    if Purgeable(rows, id, cutoff) then rows - {id} else rows
  }

  function PurgeAll(rows: Rows, ids: seq<TaskId>, cutoff: real): Rows {
    if ids == [] then rows else Purge(PurgeAll(rows, ids[..|ids| - 1], cutoff), ids[|ids| - 1], cutoff)
  }

  function ClampN(n: int): int {
    if n < 1 then 1 else if n > 4 then 4 else n
  }

  predicate Insertable(t: NewTask) {
    !Blank(t.ownerId) && !Blank(t.prompt)
  }

  function NewRow(t: NewTask, now: real): Row {
    Row(t.clientTaskId, t.ownerId, t.ownerRole, t.mode, t.prompt, ClampN(t.n), t.inputPaths,
        Queued, [], "", "", 0.0, if t.deadline <= 0.0 then now + 300.0 else t.deadline, now, now)
  }

  /** INSERT … ON CONFLICT (id) DO NOTHING, with the argument checks in front of it. */
  predicate Inserts(rows: Rows, t: NewTask) {
    Insertable(t) && t.id !in rows
  }

  function Insert(rows: Rows, t: NewTask, now: real): Rows {
    if Inserts(rows, t) then rows[t.id := NewRow(t, now)] else rows
  }

  /** A row that the ordered, lock-skipping SELECT may return first. */
  predicate IsOldest(age: map<TaskId, real>, cands: set<TaskId>, id: TaskId)
    requires cands <= age.Keys
  {
    id in cands && forall o :: o in cands ==> age[id] <= age[o]
  }

  /** A nonempty set has an oldest member. */
  lemma {:induction false} OldestExists(age: map<TaskId, real>, cands: set<TaskId>)
    requires cands <= age.Keys && cands != {}
    ensures exists id :: IsOldest(age, cands, id)
    decreases cands
  {
    var x :| x in cands;
    var rest := cands - {x};
    if rest == {} {
      assert cands == {x};
      assert IsOldest(age, cands, x);
    } else {
      OldestExists(age, rest);
      var y :| IsOldest(age, rest, y);
      assert IsOldest(age, cands, if age[x] <= age[y] then x else y);
    }
  }

  /** SELECT … ORDER BY age LIMIT most over the rows in `age`. */
  ghost predicate OldestBatch(age: map<TaskId, real>, items: seq<TaskId>, most: int) {
    && |items| <= most
    && Distinct(items)
    && (forall id :: id in items ==> id in age)
    && (forall id :: id in age && id !in items ==> |items| == most && forall o :: o in items ==> age[o] <= age[id])
  }

  ghost predicate Distinct(items: seq<TaskId>) {
    forall i, j :: 0 <= i < j < |items| ==> items[i] != items[j]
  }

  method TakeOldest(age: map<TaskId, real>, most: int) returns (items: seq<TaskId>)
    requires most >= 0
    ensures OldestBatch(age, items, most)
  {
    var left := age.Keys;
    items := [];
    while |items| < most && left != {}
      invariant |items| <= most && Distinct(items)
      invariant left <= age.Keys
      invariant forall id :: id in items ==> id in age && id !in left
      invariant forall id :: id in age ==> id in left || id in items
      invariant forall o, id :: o in items && id in left ==> age[o] <= age[id]
      decreases left
    {
      OldestExists(age, left);
      var id :| id in left && IsOldest(age, left, id);
      items := items + [id];
      left := left - {id};
    }
  }

  /** A multi-row statement leaves the rows it does not name alone. */
  lemma {:induction false} ExecAllFrame(rows: Rows, ids: seq<TaskId>, st: Stmt)
    ensures ExecAll(rows, ids, st).Keys == rows.Keys
    ensures forall id :: id in rows && id !in ids ==> ExecAll(rows, ids, st)[id] == rows[id]
  {
    if ids != [] {
      ExecAllFrame(rows, ids[..|ids| - 1], st);
    }
  }

  lemma {:induction false} PurgeAllFrame(rows: Rows, ids: seq<TaskId>, cutoff: real)
    ensures PurgeAll(rows, ids, cutoff).Keys <= rows.Keys
    ensures forall id :: id in PurgeAll(rows, ids, cutoff) ==> PurgeAll(rows, ids, cutoff)[id] == rows[id]
    ensures forall id :: id in rows && id !in ids ==> id in PurgeAll(rows, ids, cutoff)
  {
    if ids != [] {
      PurgeAllFrame(rows, ids[..|ids| - 1], cutoff);
    }
  }

  datatype Created = Refused | Stored(task: Option<Row>, created: bool)

  class PGTaskStore {
    var rows: Rows

    constructor ()
      ensures rows == map[]
    {
      rows := map[];
    }

    /** GetTask: the row, if this identity may see it. */
    function GetTask(id: TaskId, who: Identity): (r: Option<Row>)
      reads this
      ensures r.Some? <==> id in rows && Visible(rows[id], who)
      ensures r.Some? ==> r.value == rows[id]
    {
      if id in rows && Visible(rows[id], who) then Some(rows[id]) else None
    }

    /** `freshId` stands for the random id used when the caller passes a blank one. */
    method CreateTask(t: NewTask, now: real, freshId: TaskId) returns (r: Created)
      requires !Blank(t.id) || freshId !in rows
      modifies this
      ensures var u := if Blank(t.id) then t.(id := freshId) else t;
              && rows == Insert(old(rows), u, now)
              && (r.Refused? <==> !Insertable(t))
              && (r.Stored? ==> r.created == (u.id !in old(rows)))
              && (r.Stored? && r.created ==> r.task == Some(NewRow(u, now)))
              && (r.Stored? && r.task.Some? ==> u.id in rows && r.task.value == rows[u.id])
    {
      var task := t;
      if Blank(task.id) {
        task := task.(id := freshId);
      }
      if Blank(task.ownerId) {
        return Refused;
      }
      if Blank(task.prompt) {
        return Refused;
      }
      if task.n < 1 {
        task := task.(n := 1);
      }
      if task.n > 4 {
        task := task.(n := 4);
      }
      if task.deadline <= 0.0 {
        task := task.(deadline := now + 300.0);
      }
      var created := task.id !in rows;
      if created {
        rows := rows[task.id := Row(
          task.clientTaskId, task.ownerId, task.ownerRole, task.mode, task.prompt, task.n, task.inputPaths,
          Queued, [], "", "", 0.0, task.deadline, now, now)];
      }
      r := Stored(GetTask(task.id, Identity(task.ownerId, task.ownerRole, false)), created);
    }

    /** `locked` are the rows other transactions hold, which SKIP LOCKED passes over. */
    method ClaimTask(worker: string, now: real, ttl: real, locked: set<TaskId>)
      returns (got: Option<(TaskId, Row)>)
      modifies this
      ensures got.None? ==>
                rows == old(rows)
                && forall id :: id in rows && id !in locked ==> !Hits(rows[id], Claim(worker, now, ttl))
      ensures got.Some? ==>
                var (id, r) := got.value;
                && Matches(old(rows), id, Claim(worker, now, ttl)) && id !in locked
                && rows == Exec(old(rows), id, Claim(worker, now, ttl))
                && r == rows[id]
                && (forall o :: o in old(rows) && o !in locked && Hits(old(rows)[o], Claim(worker, now, ttl))
                      ==> old(rows)[id].createdTs <= old(rows)[o].createdTs)
    {
      var until := now + ttl;
      var candidates := map id | id in rows && id !in locked && rows[id].deadline > now
        && ((rows[id].status == Queued && rows[id].claimedUntil <= now)
            || (rows[id].status == Running && (rows[id].claimedBy == "" || rows[id].claimedUntil <= now)))
        :: rows[id].createdTs;
      assert forall id :: id in candidates <==> Matches(rows, id, Claim(worker, now, ttl)) && id !in locked;
      if candidates.Keys == {} {
        return None;
      }
      OldestExists(candidates, candidates.Keys);
      var id :| id in candidates.Keys && IsOldest(candidates, candidates.Keys, id);
      rows := rows[id := rows[id].(status := Running, claimedBy := worker, claimedUntil := until, updatedTs := now)];
      got := Some((id, rows[id]));
    }

    method ClaimTaskByID(id: TaskId, worker: string, now: real, ttl: real) returns (got: Option<Row>)
      modifies this
      ensures rows == Exec(old(rows), id, ClaimQueued(worker, now, ttl))
      ensures got == if Matches(old(rows), id, ClaimQueued(worker, now, ttl)) then Some(rows[id]) else None
    {
      if id in rows && rows[id].status == Queued && rows[id].deadline > now {
        rows := rows[id := rows[id].(status := Running, claimedBy := worker,
                                           claimedUntil := now + ttl, updatedTs := now)];
        return Some(rows[id]);
      }
      return None;
    }

    method HeartbeatTask(id: TaskId, worker: string, now: real, ttl: real) returns (ok: bool)
      modifies this
      ensures rows == Exec(old(rows), id, Heartbeat(worker, now, ttl))
      ensures ok == Matches(old(rows), id, Heartbeat(worker, now, ttl))
    {
      ok := id in rows && rows[id].status == Running && rows[id].claimedBy == worker;
      if ok {
        rows := rows[id := rows[id].(claimedUntil := now + ttl, updatedTs := now)];
      }
    }

    method CompleteTask(id: TaskId, worker: string, data: seq<string>, now: real) returns (changed: bool)
      modifies this
      ensures rows == Exec(old(rows), id, Complete(worker, data, now))
      ensures changed == Matches(old(rows), id, Complete(worker, data, now))
    {
      changed := id in rows && rows[id].status == Running && rows[id].claimedBy == worker;
      if changed {
        rows := rows[id := rows[id].(
          status := Success, results := data, error := "", claimedBy := "", claimedUntil := 0.0, updatedTs := now)];
      }
    }

    method FailTask(id: TaskId, worker: string, message: string, now: real) returns (changed: bool)
      modifies this
      ensures rows == Exec(old(rows), id, Fail(worker, message, now))
      ensures changed == Matches(old(rows), id, Fail(worker, message, now))
    {
      changed := id in rows && (rows[id].status == Queued || rows[id].status == Running);
      if !Blank(worker) {
        changed := changed && rows[id].claimedBy == worker;
      }
      if changed {
        rows := rows[id := rows[id].(
          status := Error, error := LimitTaskError(message), claimedBy := "", claimedUntil := 0.0, updatedTs := now)];
      }
    }

    method RequeueTask(id: TaskId, worker: string, now: real, delay: real) returns (changed: bool)
      modifies this
      ensures rows == Exec(old(rows), id, Requeue(worker, now, delay))
      ensures changed == Matches(old(rows), id, Requeue(worker, now, delay))
    {
      changed := id in rows && rows[id].status == Running && rows[id].claimedBy == worker;
      if changed {
        rows := rows[id := rows[id].(status := Queued, claimedBy := "", claimedUntil := now + delay, updatedTs := now)];
      }
    }

    method CancelTask(id: TaskId, who: Identity, now: real) returns (got: Option<Row>)
      modifies this
      ensures rows == Exec(old(rows), id, Cancel(who, now))
      ensures got == if Matches(old(rows), id, Cancel(who, now)) then Some(rows[id]) else None
    {
      if id in rows && IsOpen(rows[id]) && (who.role == "admin" || rows[id].ownerId == who.id) {
        rows := rows[id := rows[id].(
          status := Canceled, error := "canceled", claimedBy := "", claimedUntil := 0.0, updatedTs := now)];
        return Some(rows[id]);
      }
      return None;
    }

    /** None is the error for an admin caller; the statement has no row limit. */
    method CancelTasksByClientTaskID(clientTaskId: string, who: Identity, now: real)
      returns (got: Option<seq<TaskId>>)
      modifies this
      ensures got.None? <==> !Blank(clientTaskId) && who.role == "admin"
      ensures got.None? || Blank(clientTaskId) ==> rows == old(rows)
      ensures got.Some? && Blank(clientTaskId) ==> got.value == []
      ensures got.Some? && !Blank(clientTaskId) ==>
                var st := CancelClient(TrimSpace(clientTaskId), who, now);
                && rows == ExecAll(old(rows), got.value, st)
                && Distinct(got.value)
                && forall id :: id in got.value <==> Matches(old(rows), id, st)
    {
      if Blank(clientTaskId) {
        return Some([]);
      }
      var c := TrimSpace(clientTaskId);
      if who.role == "admin" {
        return None;
      }
      ghost var st := CancelClient(c, who, now);
      var found := map id | id in rows && IsOpen(rows[id]) && rows[id].clientTaskId == c && rows[id].ownerId == who.id
        :: rows[id].createdTs;
      assert forall id :: id in found <==> Matches(rows, id, st);
      var items := Listing(found.Keys);
      for i := 0 to |items|
        invariant rows == ExecAll(old(rows), items[..i], st)
      {
        var id := items[i];
        assert id in items && id in found.Keys;
        ExecAllFrame(old(rows), items[..i], st);
        assert items[..i + 1][..i] == items[..i];
        rows := rows[id := rows[id].(
          status := Canceled, error := "canceled", claimedBy := "", claimedUntil := 0.0, updatedTs := now)];
      }
      assert items[..|items|] == items;
      got := Some(items);
    }

    /** The oldest overdue rows that nobody else holds, at most `limit` of them. */
    method ExpireOverdueTasks(limit: int, now: real, locked: set<TaskId>) returns (items: seq<TaskId>)
      modifies this
      ensures rows == ExecAll(old(rows), items, Expire(now))
      ensures OldestBatch(map id | id in old(rows) && Matches(old(rows), id, Expire(now)) && id !in locked
                          :: old(rows)[id].createdTs,
                          items, if limit <= 0 then 50 else limit)
    {
      var most := if limit <= 0 then 50 else limit;
      var candidates := map id |
        id in rows && IsOpen(rows[id]) && rows[id].deadline > 0.0 && rows[id].deadline <= now && id !in locked
        :: rows[id].createdTs;
      assert candidates == map id | id in rows && Matches(rows, id, Expire(now)) && id !in locked :: rows[id].createdTs;
      items := TakeOldest(candidates, most);
      for i := 0 to |items|
        invariant rows == ExecAll(old(rows), items[..i], Expire(now))
      {
        var id := items[i];
        assert id in candidates;
        ExecAllFrame(old(rows), items[..i], Expire(now));
        assert items[..i + 1][..i] == items[..i];
        rows := rows[id := rows[id].(
          status := Error, error := "image task timed out", claimedBy := "", claimedUntil := 0.0, updatedTs := now)];
      }
      assert items[..|items|] == items;
    }

    /** Settled rows last touched by the cutoff, at most `limit` of them. */
    method DeleteFinishedTasksBefore(cutoff: real, limit: int, locked: set<TaskId>) returns (items: seq<TaskId>)
      modifies this
      ensures rows == PurgeAll(old(rows), items, cutoff)
      ensures OldestBatch(map id | id in old(rows) && Purgeable(old(rows), id, cutoff) && id !in locked
                          :: old(rows)[id].updatedTs,
                          items, if limit <= 0 then 200 else limit)
    {
      var most := if limit <= 0 then 200 else limit;
      var candidates := map id | id in rows && !IsOpen(rows[id]) && rows[id].updatedTs <= cutoff && id !in locked
        :: rows[id].updatedTs;
      assert candidates == map id | id in rows && Purgeable(rows, id, cutoff) && id !in locked :: rows[id].updatedTs;
      items := TakeOldest(candidates, most);
      for i := 0 to |items|
        invariant rows == PurgeAll(old(rows), items[..i], cutoff)
      {
        var id := items[i];
        PurgeAllFrame(old(rows), items[..i], cutoff);
        assert items[..i + 1][..i] == items[..i];
        rows := rows - {id};
      }
      assert items[..|items|] == items;
    }
  }

  method Listing(s: set<TaskId>) returns (items: seq<TaskId>)
    ensures Distinct(items)
    ensures forall id :: id in items <==> id in s
  {
    var left := s;
    items := [];
    while left != {}
      invariant left <= s && Distinct(items)
      invariant forall id :: id in items <==> id in s && id !in left
      decreases left
    {
      var id :| id in left;
      items := items + [id];
      left := left - {id};
    }
  }
}
