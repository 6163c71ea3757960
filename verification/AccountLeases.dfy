/** Table account_leases_v1, which caps how many workers use an account at a time and how many uploads
    they may still make (internal/app/pg_tasks.go, image_pool.go, account_state.go). */
module AccountLeases {
  import opened Common
  import opened Text

  type LeaseId = string
  type Token = string

  /** The table keeps a hash of the token; hashing is taken to be injective. */
  datatype Lease = Lease(token: Token, holder: string, weight: int, expires: real)

  type Leases = map<LeaseId, Lease>

  datatype Grant = Granted(id: LeaseId) | AtLimit | QuotaReserved | BlankToken

  datatype Ask = Ask(token: Token, maxLeases: int, maxUploads: int, weight: int, holder: string, ttl: real)

  function Normal(a: Ask): Ask {
    a.(maxLeases := if a.maxLeases < 1 then 1 else a.maxLeases,
       ttl := if a.ttl <= 0.0 then 300.0 else a.ttl,
       weight := if a.weight < 0 then 0 else a.weight)
  }

  function Swept(leases: Leases, now: real): Leases {
    map id | id in leases && leases[id].expires > now :: leases[id]
  }

  function Of(leases: Leases, token: Token): set<LeaseId> {
    set id | id in leases && leases[id].token == token
  }

  /** Total weight of the leases on one token. */
  ghost function Weight(leases: Leases, token: Token): int
    decreases leases.Keys
  {
    if leases == map[] then 0
    else
      var id :| id in leases;
      (if leases[id].token == token then leases[id].weight else 0) + Weight(leases - {id}, token)
  }

  lemma {:induction false} WeightSplits(leases: Leases, id: LeaseId, token: Token)
    requires id in leases
    ensures Weight(leases, token)
         == (if leases[id].token == token then leases[id].weight else 0) + Weight(leases - {id}, token)
    decreases leases.Keys
  {
    var x :| x in leases
      && Weight(leases, token)
      == (if leases[x].token == token then leases[x].weight else 0) + Weight(leases - {x}, token);
    if x != id {
      WeightSplits(leases - {x}, id, token);
      WeightSplits(leases - {id}, x, token);
      assert leases - {x} - {id} == leases - {id} - {x};
    }
  }

  /** What AcquireAccountLeaseWithUploadQuota answers. */
  ghost function Answer(leases: Leases, ask: Ask, now: real, newId: LeaseId): Grant {
    var a := Normal(ask);
    var kept := Swept(leases, now);
    if Blank(a.token) then BlankToken
    else if |Of(kept, a.token)| >= a.maxLeases then AtLimit
    else if a.weight > 0 && a.maxUploads >= 0 && Weight(kept, a.token) + a.weight > a.maxUploads then QuotaReserved
    else Granted(newId)
  }

  /** The sweep and the INSERT commit together; a refusal rolls the sweep back too. */
  ghost function After(leases: Leases, ask: Ask, now: real, newId: LeaseId): Leases {
    var a := Normal(ask);
    if Answer(leases, ask, now, newId).Granted? then
      Swept(leases, now)[newId := Lease(a.token, a.holder, a.weight, now + a.ttl)]
    else
      leases
  }

  class LeaseTable {
    var leases: Leases

    constructor ()
      ensures leases == map[]
    {
      leases := map[];
    }

    /** The transaction holds the table lock from start to end; `now` was read before it. */
    method Acquire(ask: Ask, now: real, newId: LeaseId) returns (grant: Grant)
      requires newId !in leases
      modifies this
      ensures grant == Answer(old(leases), ask, now, newId)
      ensures leases == After(old(leases), ask, now, newId)
    {
      var a := ask;
      if Blank(a.token) {
        return BlankToken;
      }
      if a.maxLeases < 1 {
        a := a.(maxLeases := 1);
      }
      if a.ttl <= 0.0 {
        a := a.(ttl := 300.0);
      }
      if a.weight < 0 {
        a := a.(weight := 0);
      }
      var kept := Swept(leases, now);
      var active := |Of(kept, a.token)|;
      var activeWeight := SumWeights(kept, a.token);
      if active >= a.maxLeases {
        return AtLimit;
      }
      if a.weight > 0 && a.maxUploads >= 0 && activeWeight + a.weight > a.maxUploads {
        return QuotaReserved;
      }
      leases := kept[newId := Lease(a.token, a.holder, a.weight, now + a.ttl)];
      return Granted(newId);
    }

    /** COALESCE(SUM(upload_weight), 0) over the rows of one token. */
    method SumWeights(rows: Leases, token: Token) returns (sum: int)
      ensures sum == Weight(rows, token)
    {
      sum := 0;
      var left := rows;
      while left != map[]
        invariant sum + Weight(left, token) == Weight(rows, token)
        decreases left.Keys
      {
        var id :| id in left;
        WeightSplits(left, id, token);
        if left[id].token == token {
          sum := sum + left[id].weight;
        }
        left := left - {id};
      }
    }

    method Release(id: LeaseId)
      modifies this
      ensures leases == if Blank(id) then old(leases) else old(leases) - {id}
    {
      if Blank(id) {
        return;
      }
      leases := leases - {id};
    }

    method Sweep(now: real)
      modifies this
      ensures leases == Swept(old(leases), now)
    {
      leases := map id | id in leases && leases[id].expires > now :: leases[id];
    }
  }

  // ---------- Capacity under clocks that disagree ----------

  datatype Step = DoAcquire(ask: Ask, now: real, newId: LeaseId) | DoRelease(id: LeaseId) | DoSweep(now: real)

  /** How long a holder may count on a lease it asks for. */
  function Term(ask: Ask): real {
    if ask.ttl > 0.0 then ask.ttl else 300.0
  }

  /** The table, and the leases that were granted and not given back: `held` is what the holders count on,
      from the reading they asked with, whether or not somebody's sweep has dropped the row. */
  datatype World = World(leases: Leases, held: Leases)

  ghost function Next(w: World, s: Step): World {
    match s
    case DoAcquire(ask, now, newId) =>
      var leases := After(w.leases, ask, now, newId);
      World(leases,
            if Answer(w.leases, ask, now, newId).Granted? then
              w.held[newId := Lease(ask.token, ask.holder, if ask.weight > 0 then ask.weight else 0, now + Term(ask))]
            else
              w.held)
    case DoRelease(id) => World(w.leases - {id}, w.held - {id})
    case DoSweep(now) => World(Swept(w.leases, now), w.held)
  }

  /** Lease ids are fresh, every acquisition allows at most `most` leases, and no clock reading is
      later than `latest`. Readings need not be in order. */
  ghost predicate Allowed(w: World, s: Step, most: int, latest: real) {
    match s
    case DoAcquire(ask, now, newId) =>
      newId !in w.leases && newId !in w.held && Normal(ask).maxLeases <= most && now <= latest
    case DoRelease(_) => true
    case DoSweep(now) => now <= latest
  }

  ghost predicate Reaches(w: World, steps: seq<Step>, v: World, most: int, latest: real)
    decreases |steps|
  {
    if steps == [] then w == v
    else Allowed(w, steps[0], most, latest) && Reaches(Next(w, steps[0]), steps[1..], v, most, latest)
  }

  /** No token has more rows than its bound, and a held lease without a row has expired. */
  ghost predicate Capped(w: World, most: int, latest: real) {
    && (forall token :: |Of(w.leases, token)| <= most)
    && (forall id :: id in w.held ==> (id in w.leases && w.leases[id] == w.held[id]) || w.held[id].expires <= latest)
  }

  lemma CardMonotone<T>(a: set<T>, b: set<T>)
    requires a <= b
    ensures |a| <= |b|
  {
    assert b == a + (b - a);
  }

  lemma OfGrows(leases: Leases, id: LeaseId, lease: Lease, token: Token)
    requires id !in leases
    ensures Of(leases[id := lease], token) == Of(leases, token) + if lease.token == token then {id} else {}
  {
  }

  lemma OneMore(kept: Leases, newId: LeaseId, lease: Lease, most: int, token: Token)
    requires newId !in kept && |Of(kept, token)| <= most && (lease.token == token ==> |Of(kept, token)| < most)
    ensures |Of(kept[newId := lease], token)| <= most
  {
    OfGrows(kept, newId, lease, token);
  }

  lemma AcquireKeepsCap(leases: Leases, ask: Ask, now: real, newId: LeaseId, most: int, token: Token)
    requires newId !in leases && Normal(ask).maxLeases <= most && |Of(leases, token)| <= most
    ensures |Of(After(leases, ask, now, newId), token)| <= most
  {
    var kept := Swept(leases, now);
    CardMonotone(Of(kept, token), Of(leases, token));
    if Answer(leases, ask, now, newId).Granted? {
      var a := Normal(ask);
      OneMore(kept, newId, Lease(a.token, a.holder, a.weight, now + a.ttl), most, token);
    }
  }

  lemma StepKeepsCap(w: World, s: Step, most: int, latest: real)
    requires Capped(w, most, latest) && Allowed(w, s, most, latest)
    ensures Capped(Next(w, s), most, latest)
  {
    var v := Next(w, s);
    forall token ensures |Of(v.leases, token)| <= most {
      match s {
        case DoAcquire(ask, now, newId) => AcquireKeepsCap(w.leases, ask, now, newId, most, token);
        case DoRelease(id) => CardMonotone(Of(v.leases, token), Of(w.leases, token));
        case DoSweep(now) => CardMonotone(Of(v.leases, token), Of(w.leases, token));
      }
    }
  }

  lemma {:induction false} RunKeepsCap(w: World, steps: seq<Step>, v: World, most: int, latest: real)
    requires Capped(w, most, latest) && Reaches(w, steps, v, most, latest)
    ensures Capped(v, most, latest)
    decreases |steps|
  {
    if steps != [] {
      StepKeepsCap(w, steps[0], most, latest);
      RunKeepsCap(Next(w, steps[0]), steps[1..], v, most, latest);
    }
  }

  /** The leases on a token that their holders may rely on at real time `t`. */
  function Active(held: Leases, token: Token, t: real): set<LeaseId> {
    set id | id in held && held[id].token == token && held[id].expires > t
  }

  /** Capacity: at any real time no earlier than the clock readings used so far, no token has more
      unexpired leases than the bound, however far apart or out of order the readings were. */
  lemma CapacityHolds(steps: seq<Step>, v: World, most: int, latest: real, token: Token, t: real)
    requires most >= 1 && Reaches(World(map[], map[]), steps, v, most, latest) && t >= latest
    ensures |Active(v.held, token, t)| <= most
  {
    assert forall k :: Of(map[], k) == {};
    RunKeepsCap(World(map[], map[]), steps, v, most, latest);
    assert Active(v.held, token, t) <= Of(v.leases, token);
    CardMonotone(Active(v.held, token, t), Of(v.leases, token));
  }

  // ---------- How long a lease lasts ----------

  /** A lease that was granted stays in the table, as it was asked for, in every run whose readings are before
      the end of its term and that does not release it. */
  lemma {:induction false} LeaseLasts(w: World, id: LeaseId, steps: seq<Step>, v: World, most: int, latest: real)
    requires id in w.leases && latest < w.leases[id].expires && DoRelease(id) !in steps
    requires Reaches(w, steps, v, most, latest)
    ensures id in v.leases && v.leases[id] == w.leases[id]
    decreases |steps|
  {
    if steps != [] {
      assert steps[0] in steps && forall s :: s in steps[1..] ==> s in steps;
      LeaseLasts(Next(w, steps[0]), id, steps[1..], v, most, latest);
    }
  }

  /** From the grant on: the row is there until its term has passed, and the first sweep after that drops it. */
  lemma GrantLasts(w: World, ask: Ask, now: real, id: LeaseId, steps: seq<Step>, v: World,
                   most: int, latest: real, t: real)
    requires Answer(w.leases, ask, now, id).Granted? && DoRelease(id) !in steps
    requires Reaches(Next(w, DoAcquire(ask, now, id)), steps, v, most, latest) && latest < now + Term(ask)
    ensures id in v.leases && v.leases[id].token == ask.token && v.leases[id].holder == ask.holder
    ensures id in Swept(v.leases, t) <==> t < now + Term(ask)
  {
    LeaseLasts(Next(w, DoAcquire(ask, now, id)), id, steps, v, most, latest);
  }

  /** A lease is granted exactly when fewer than the allowed number of leases on the token are unexpired at the
      reading, and its uploads fit beside theirs. */
  lemma GrantedIff(leases: Leases, ask: Ask, now: real, id: LeaseId)
    ensures var mine := map x | x in leases && x in Active(leases, ask.token, now) :: leases[x];
            Answer(leases, ask, now, id) == Granted(id) <==>
              && !Blank(ask.token) && (|mine| == 0 || |mine| < ask.maxLeases)
              && (ask.weight <= 0 || ask.maxUploads < 0 || Weight(mine, ask.token) + ask.weight <= ask.maxUploads)
  {
    var mine := map x | x in leases && x in Active(leases, ask.token, now) :: leases[x];
    var kept := Swept(leases, now);
    assert Of(kept, ask.token) == Active(leases, ask.token, now) == mine.Keys;
    assert |mine| == |mine.Keys|;
    assert mine == map x | x in kept && kept[x].token == ask.token :: kept[x];
    WeightOfToken(kept, ask.token);
  }

  /** Only the leases on the token weigh. */
  lemma {:induction false} WeightOfToken(leases: Leases, token: Token)
    ensures Weight(leases, token) == Weight(map x | x in leases && leases[x].token == token :: leases[x], token)
    decreases leases.Keys
  {
    var mine := map x | x in leases && leases[x].token == token :: leases[x];
    if leases == map[] {
      assert mine == map[];
    } else {
      var id :| id in leases;
      var rest := leases - {id};
      var others := map x | x in rest && rest[x].token == token :: rest[x];
      WeightSplits(leases, id, token);
      WeightOfToken(rest, token);
      if leases[id].token == token {
        WeightSplits(mine, id, token);
        assert mine - {id} == others;
      } else {
        assert mine == others;
      }
    }
  }

  // ---------- A fast clock ----------

  /** The id of the k-th lease. */
  function Name(k: nat): LeaseId {
    seq(k + 1, _ => 'l')
  }

  function AskOf(most: int): Ask {
    Ask("a", most, -1, 0, "h", 1.0)
  }

  /** The first `k` leases, all of which expire at `latest`. */
  function Full(k: nat, latest: real): Leases {
    if k == 0 then map[] else Full(k - 1, latest)[Name(k - 1) := Lease("a", "h", 0, latest)]
  }

  lemma {:induction false} FullIs(k: nat, latest: real)
    ensures forall id :: id in Full(k, latest) ==> 1 <= |id| <= k && Full(k, latest)[id] == Lease("a", "h", 0, latest)
    ensures |Of(Full(k, latest), "a")| == k
  {
    if k == 0 {
      assert Of(map[], "a") == {};
    } else {
      FullIs(k - 1, latest);
      assert |Name(k - 1)| == k;
      OfGrows(Full(k - 1, latest), Name(k - 1), Lease("a", "h", 0, latest), "a");
    }
  }

  /** Leases from the j-th on are taken up to the bound, and one more at the latest reading. */
  function Rush(j: nat, most: nat, latest: real): seq<Step>
    requires j <= most
    decreases most - j
  {
    if j == most then [DoAcquire(AskOf(most), latest, Name(most))]
    else [DoAcquire(AskOf(most), latest - 1.0, Name(j))] + Rush(j + 1, most, latest)
  }

  function Crowded(most: nat, latest: real): World {
    var last := Lease("a", "h", 0, latest + 1.0);
    World(map[Name(most) := last], Full(most, latest)[Name(most) := last])
  }

  lemma NameIsNew(k: nat, latest: real)
    ensures Name(k) !in Full(k, latest) && !Blank("a")
  {
    FullIs(k, latest);
    assert |Name(k)| == k + 1;
    assert 'a' in "a";
  }

  lemma OneMoreTaken(j: nat, most: nat, latest: real)
    requires j < most
    ensures var w := World(Full(j, latest), Full(j, latest));
            Next(w, DoAcquire(AskOf(most), latest - 1.0, Name(j))) == World(Full(j + 1, latest), Full(j + 1, latest))
  {
    FullIs(j, latest);
    NameIsNew(j, latest);
    assert Swept(Full(j, latest), latest - 1.0) == Full(j, latest);
  }

  lemma OneTooMany(most: nat, latest: real)
    requires most >= 1
    ensures var w := World(Full(most, latest), Full(most, latest));
            Next(w, DoAcquire(AskOf(most), latest, Name(most))) == Crowded(most, latest)
  {
    FullIs(most, latest);
    NameIsNew(most, latest);
    assert Swept(Full(most, latest), latest) == map[];
    assert Of(map[], "a") == {};
  }

  lemma {:induction false} RushReaches(j: nat, most: nat, latest: real)
    requires j <= most && most >= 1
    ensures Reaches(World(Full(j, latest), Full(j, latest)), Rush(j, most, latest), Crowded(most, latest), most, latest)
    decreases most - j
  {
    NameIsNew(j, latest);
    var steps := Rush(j, most, latest);
    if j == most {
      OneTooMany(most, latest);
      assert steps[1..] == [];
    } else {
      OneMoreTaken(j, most, latest);
      RushReaches(j + 1, most, latest);
      assert steps[1..] == Rush(j + 1, most, latest);
    }
  }

  /** The condition on `t` is needed: for every bound and every `t` before some reading there is a run that goes
      over the bound at `t`, because a fast clock sweeps leases that their holders still rely on. */
  lemma FastClockOvergrants(most: nat, t: real, latest: real)
    requires most >= 1 && t < latest
    ensures exists steps, v ::
              Reaches(World(map[], map[]), steps, v, most, latest) && |Active(v.held, "a", t)| == most + 1
  {
    RushReaches(0, most, latest);
    FullIs(most, latest);
    NameIsNew(most, latest);
    var v := Crowded(most, latest);
    OfGrows(Full(most, latest), Name(most), v.held[Name(most)], "a");
    assert Active(v.held, "a", t) == Of(v.held, "a");
    assert Reaches(World(map[], map[]), Rush(0, most, latest), v, most, latest);
  }
}
