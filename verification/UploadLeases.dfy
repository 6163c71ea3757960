/** Leases with an upload weight never promise more uploads than the account has left
    (internal/app/pg_tasks.go, image_pool.go, account_state.go, upstream.go). */
module UploadLeases {
  import opened Common
  import opened Text
  import opened Accounts
  import opened AccountLeases

  /** The request acquireUploadAccountLease makes from an account snapshot; None is its own refusal. */
  function AskFor(a: Account, required: int, concurrency: int, holder: string, ttl: real): Option<Ask> {
    if required > 0 && a.uploadUnknown then None
    else
      Some(Ask(a.token, if concurrency < 1 then 1 else concurrency,
               if required > 0 then a.uploadQuota else -1, required, holder, ttl))
  }

  /** Lease rows, account records, and per lease row the uploads its holder has still to make. */
  datatype Yard = Yard(leases: Leases, left: Leases, accounts: seq<Account>)

  datatype Move =
    | Take(snapshot: Account, required: nat, concurrency: int, holder: string, ttl: real, now: real, newId: LeaseId)
    | Upload(id: LeaseId, defaultReset: int)
    | GiveBack(id: LeaseId)
    | SweepAt(now: real)

  function Restricted(left: Leases, leases: Leases): Leases {
    map id | id in left && id in leases :: left[id]
  }

  ghost function Moved(y: Yard, m: Move): Yard {
    match m
    case Take(a, required, concurrency, holder, ttl, now, newId) =>
      var ask := AskFor(a, required, concurrency, holder, ttl);
      if ask.None? || !Answer(y.leases, ask.value, now, newId).Granted? then y
      else
        var leases := After(y.leases, ask.value, now, newId);
        y.(leases := leases, left := Restricted(y.left, leases)[newId := leases[newId]])
    case Upload(id, defaultReset) =>
      if id !in y.left then y else
      var l := y.left[id];
      y.(left := y.left[id := l.(weight := l.weight - 1)],
         accounts := MarkUploads(y.accounts, l.token, 1, defaultReset))
    case GiveBack(id) => y.(leases := y.leases - {id}, left := y.left - {id})
    case SweepAt(now) => y.(leases := Swept(y.leases, now), left := Restricted(y.left, Swept(y.leases, now)))
  }

  function Record(accounts: seq<Account>, token: Token): Option<Account> {
    var i := Accounts.IndexOf(accounts, token);
    if i < |accounts| then Some(accounts[i]) else None
  }

  /** A snapshot that a lease may be asked for with: it promises no uploads, or no more than the record still
      has. A negative quota in a snapshot would switch the table's upload bound off. */
  ghost predicate SafeSnapshot(accounts: seq<Account>, a: Account) {
    || Blank(a.token) || a.uploadUnknown || a.uploadQuota == 0
    || (var r := Record(accounts, a.token);
        0 < a.uploadQuota && r.Some? && !r.value.uploadUnknown && a.uploadQuota <= r.value.uploadQuota)
  }

  /** Snapshots are safe when the lease is taken, and uploads are made while the lease row exists, one per
      reference image. */
  ghost predicate Disciplined(y: Yard, m: Move) {
    match m
    case Take(a, _, _, _, _, _, newId) => newId !in y.leases && SafeSnapshot(y.accounts, a)
    case Upload(id, _) => id in y.leases && id in y.left && y.left[id].weight > 0
    case _ => true
  }

  /** Uploads that the holders of leases on a token have still to make. */
  ghost function Promised(y: Yard, token: Token): int {
    Weight(y.left, token)
  }

  ghost predicate Covered(y: Yard, token: Token) {
    Promised(y, token) > 0 ==>
      var a := Record(y.accounts, token);
      a.Some? && !a.value.uploadUnknown && Promised(y, token) <= a.value.uploadQuota
  }

  ghost predicate Tidy(y: Yard) {
    && y.left.Keys == y.leases.Keys
    && forall id :: id in y.left ==>
         y.left[id].token == y.leases[id].token && 0 <= y.left[id].weight <= y.leases[id].weight
         && !Blank(y.left[id].token)
  }

  /** Loading an account record makes a negative upload quota zero. */
  ghost predicate Loaded(accounts: seq<Account>) {
    forall i :: 0 <= i < |accounts| ==> accounts[i].uploadQuota >= 0
  }

  ghost predicate Honoured(y: Yard) {
    Tidy(y) && Loaded(y.accounts) && forall token :: Covered(y, token)
  }

  lemma {:induction false} WeightBelow(a: Leases, b: Leases, token: Token)
    requires a.Keys <= b.Keys
    requires forall id :: id in a ==> a[id].token == b[id].token && a[id].weight <= b[id].weight
    requires forall id :: id in b ==> b[id].weight >= 0
    ensures Weight(a, token) <= Weight(b, token)
    decreases b.Keys
  {
    if b != map[] {
      var id :| id in b;
      WeightSplits(b, id, token);
      if id in a {
        WeightSplits(a, id, token);
      }
      assert id !in a ==> a - {id} == a;
      WeightBelow(a - {id}, b - {id}, token);
    }
  }

  lemma {:induction false} WeightNonNegative(a: Leases, token: Token)
    requires forall id :: id in a ==> a[id].weight >= 0
    ensures Weight(a, token) >= 0
    ensures forall id :: id in a && a[id].token == token ==> Weight(a, token) >= a[id].weight
    decreases a.Keys
  {
    forall id | id in a
      ensures Weight(a, token) >= 0 && (a[id].token == token ==> Weight(a, token) >= a[id].weight)
    {
      WeightSplits(a, id, token);
      WeightNonNegative(a - {id}, token);
    }
  }

  /** The lease table only lets an upload weight in beside the weights it already holds. */
  lemma GrantFits(leases: Leases, a: Account, required: nat, concurrency: int, holder: string, ttl: real,
                  now: real, newId: LeaseId)
    requires required > 0 && a.uploadQuota >= 0 && !a.uploadUnknown
    requires Answer(leases, AskFor(a, required, concurrency, holder, ttl).value, now, newId).Granted?
    ensures Weight(Swept(leases, now), a.token) + required <= a.uploadQuota
  {
  }

  /** A lease is granted only while fewer than the configured number of leases on the account are unexpired, and
      it runs for the term that was asked for. */
  lemma GrantHasRoom(leases: Leases, a: Account, required: nat, concurrency: int, holder: string, ttl: real,
                     now: real, newId: LeaseId)
    requires AskFor(a, required, concurrency, holder, ttl).Some?
    requires Answer(leases, AskFor(a, required, concurrency, holder, ttl).value, now, newId).Granted?
    ensures |Active(leases, a.token, now)| < if concurrency >= 1 then concurrency else 1
    ensures var after := After(leases, AskFor(a, required, concurrency, holder, ttl).value, now, newId);
            && newId in after && after[newId].token == a.token && after[newId].weight == required
            && (ttl > 0.0 ==> after[newId].expires == now + ttl)
  {
    assert Of(Swept(leases, now), a.token) == Active(leases, a.token, now);
  }

  /** The leases that survive the sweep have no more uploads left than before, nor than their rows. */
  lemma RestIsBelow(y: Yard, now: real, newId: LeaseId, l: Lease, token: Token)
    requires Tidy(y) && newId !in y.leases
    ensures var rest := Restricted(y.left, Swept(y.leases, now)[newId := l]);
            && newId !in rest
            && Weight(rest, token) <= Weight(y.left, token)
            && Weight(rest, token) <= Weight(Swept(y.leases, now), token)
  {
    var kept := Swept(y.leases, now);
    var rest := Restricted(y.left, kept[newId := l]);
    assert rest.Keys == kept.Keys;
    WeightBelow(rest, y.left, token);
    WeightBelow(rest, kept, token);
  }

  lemma GrantedRow(y: Yard, m: Move) returns (l: Lease)
    requires m.Take? && Moved(y, m) != y
    ensures l.token == m.snapshot.token && l.weight == m.required
    ensures var leases := Swept(y.leases, m.now)[m.newId := l];
            Moved(y, m) == y.(leases := leases, left := Restricted(y.left, leases)[m.newId := l])
  {
    var ask := AccountLeases.Normal(AskFor(m.snapshot, m.required, m.concurrency, m.holder, m.ttl).value);
    l := Lease(ask.token, ask.holder, ask.weight, m.now + ask.ttl);
  }

  /** What is left after a grant: the leases that survived the sweep, and the new one in full. */
  lemma TakeShape(y: Yard, m: Move, token: Token)
    requires Tidy(y) && m.Take? && Disciplined(y, m) && Moved(y, m) != y
    ensures var rest := Weight(Restricted(y.left, Moved(y, m).leases), token);
            && Promised(Moved(y, m), token) == rest + (if token == m.snapshot.token then m.required else 0)
            && rest <= Promised(y, token) && rest <= Weight(Swept(y.leases, m.now), token)
  {
    var l := GrantedRow(y, m);
    RestIsBelow(y, m.now, m.newId, l, token);
    var rest := Restricted(y.left, Swept(y.leases, m.now)[m.newId := l]);
    WeightSplits(rest[m.newId := l], m.newId, token);
    assert rest[m.newId := l] - {m.newId} == rest;
  }

  lemma TakeIsCovered(y: Yard, m: Move, token: Token)
    requires Honoured(y) && m.Take? && Disciplined(y, m)
    ensures Covered(Moved(y, m), token)
  {
    assert Covered(y, token);
    if Moved(y, m) != y {
      TakeShape(y, m, token);
      if token == m.snapshot.token && m.required > 0 {
        GrantFits(y.leases, m.snapshot, m.required, m.concurrency, m.holder, m.ttl, m.now, m.newId);
        WeightNonNegative(Swept(y.leases, m.now), token);
      }
    }
  }

  lemma TakeIsTidy(y: Yard, m: Move)
    requires Tidy(y) && m.Take? && Disciplined(y, m)
    ensures Tidy(Moved(y, m))
  {
  }

  lemma MarkTouchesOne(accounts: seq<Account>, token: Token, n: int, defaultReset: int, other: Token)
    requires token != other
    ensures Record(MarkUploads(accounts, token, n, defaultReset), other) == Record(accounts, other)
  {
    var after := MarkUploads(accounts, token, n, defaultReset);
    assert |after| == |accounts| && forall j :: 0 <= j < |accounts| ==> after[j].token == accounts[j].token;
    Accounts.FirstIndex(after, other, Accounts.IndexOf(accounts, other));
  }

  /** While a holder still has uploads to make, marking one lowers the quota by exactly one: the floor
      at zero is not reached from below. */
  lemma UploadIsCounted(y: Yard, id: LeaseId, defaultReset: int)
    requires Honoured(y) && Disciplined(y, Upload(id, defaultReset))
    ensures var token := y.left[id].token;
            var before := Record(y.accounts, token);
            var after := Record(MarkUploads(y.accounts, token, 1, defaultReset), token);
            && before.Some? && after.Some? && before.value.uploadQuota >= 1
            && !after.value.uploadUnknown && after.value.uploadQuota == before.value.uploadQuota - 1
  {
    var token := y.left[id].token;
    WeightNonNegative(y.left, token);
    assert Covered(y, token);
    var i := Accounts.IndexOf(y.accounts, token);
    var after := MarkUploads(y.accounts, token, 1, defaultReset);
    assert token != "" by { assert !Blank(y.left[id].token); }
    Accounts.FirstIndex(after, token, i);
  }

  lemma UploadIsCovered(y: Yard, id: LeaseId, defaultReset: int, token: Token)
    requires Honoured(y) && Disciplined(y, Upload(id, defaultReset))
    ensures Covered(Moved(y, Upload(id, defaultReset)), token)
  {
    assert Covered(y, token);
    var l := y.left[id];
    var z := Moved(y, Upload(id, defaultReset));
    WeightSplits(y.left, id, token);
    WeightSplits(z.left, id, token);
    assert z.left - {id} == y.left - {id};
    if token == l.token {
      UploadIsCounted(y, id, defaultReset);
    } else {
      MarkTouchesOne(y.accounts, l.token, 1, defaultReset, token);
    }
  }

  lemma MoveHonours(y: Yard, m: Move)
    requires Honoured(y) && Disciplined(y, m)
    ensures Honoured(Moved(y, m))
  {
    match m {
      case Take(_, _, _, _, _, _, _) => TakeIsTidy(y, m);
      case _ =>
    }
    forall token ensures Covered(Moved(y, m), token) {
      assert Covered(y, token);
      match m {
        case Take(_, _, _, _, _, _, _) => TakeIsCovered(y, m, token);
        case Upload(id, defaultReset) => UploadIsCovered(y, id, defaultReset, token);
        case GiveBack(id) => WeightBelow(y.left - {id}, y.left, token);
        case SweepAt(now) => WeightBelow(Restricted(y.left, Swept(y.leases, now)), y.left, token);
      }
    }
  }

  ghost predicate Moves(y: Yard, ms: seq<Move>, z: Yard)
    decreases |ms|
  {
    if ms == [] then y == z else Disciplined(y, ms[0]) && Moves(Moved(y, ms[0]), ms[1..], z)
  }

  /** No upload over-commit: in every run, for every token, the uploads that lease holders have still
      to make are covered by the account's remaining upload quota. */
  lemma {:induction false} NoOverCommit(y: Yard, ms: seq<Move>, z: Yard)
    requires Honoured(y) && Moves(y, ms, z)
    ensures Honoured(z)
    decreases |ms|
  {
    if ms != [] {
      MoveHonours(y, ms[0]);
      NoOverCommit(Moved(y, ms[0]), ms[1..], z);
    }
  }

  lemma {:induction false} EmptyYardIsHonoured(accounts: seq<Account>)
    requires Loaded(accounts)
    ensures Honoured(Yard(map[], map[], accounts))
  {
  }

  /** The first lease on an account without leases takes all the uploads its snapshot allows. */
  lemma FirstTake(accounts: seq<Account>, a: Account, required: nat)
    requires !Blank(a.token) && !a.uploadUnknown && required > 0 && (a.uploadQuota < 0 || required <= a.uploadQuota)
    ensures Promised(Moved(Yard(map[], map[], accounts), Take(a, required, 1, "h", 60.0, 0.0, "l")),
                     a.token) == required
  {
    assert Of(map[], a.token) == {};
    assert Swept(map[], 0.0) == map[];
    var z := Moved(Yard(map[], map[], accounts), Take(a, required, 1, "h", 60.0, 0.0, "l"));
    WeightSplits(z.left, "l", a.token);
    assert z.left - {"l"} == map[];
  }

  /** Every lease taken with this snapshot keeps the promises, whatever else is going on. */
  ghost predicate TakesSafely(accounts: seq<Account>, a: Account) {
    forall y: Yard, m: Move ::
      y.accounts == accounts && Honoured(y) && m.Take? && m.snapshot == a && m.newId !in y.leases ==>
        Honoured(Moved(y, m))
  }

  /** The condition on snapshots is exact: freshness is not needed, only that the snapshot is not above the
      record. */
  lemma SafeSnapshotIff(accounts: seq<Account>, a: Account)
    requires Loaded(accounts)
    ensures TakesSafely(accounts, a) <==> SafeSnapshot(accounts, a)
  {
    if SafeSnapshot(accounts, a) {
      forall y: Yard, m: Move |
        y.accounts == accounts && Honoured(y) && m.Take? && m.snapshot == a && m.newId !in y.leases
        ensures Honoured(Moved(y, m))
      {
        MoveHonours(y, m);
      }
    } else {
      var r := Record(accounts, a.token);
      var left := if r.Some? then r.value.uploadQuota else 0;
      assert left >= 0;
      var required := if a.uploadQuota > 0 then a.uploadQuota else left + 1;
      var y, m := Yard(map[], map[], accounts), Take(a, required, 1, "h", 60.0, 0.0, "l");
      EmptyYardIsHonoured(accounts);
      FirstTake(accounts, a, required);
      assert !Covered(Moved(y, m), a.token);
      assert !Honoured(Moved(y, m));
    }
  }

  /** A snapshot from before another holder's last upload is not safe. */
  lemma StaleSnapshotOverCommits(a: Account)
    requires !Blank(a.token) && !a.uploadUnknown && a.uploadQuota == 1
    ensures !TakesSafely([Uploaded(a, 1, 0)], a)
  {
    var spent := Uploaded(a, 1, 0);
    assert Accounts.IndexOf([spent], a.token) == 0;
    SafeSnapshotIff([spent], a);
  }
}
