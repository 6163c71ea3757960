/** One image request working through accounts and routes (internal/app/image_pool.go), while any number
    of other requests use the same pool and lease table. */
module ImageRoutes {
  import opened Common
  import opened Text
  import opened Accounts
  import opened AccountPool
  import opened ImageAttempts
  import L = AccountLeases

  class ImageService {
    const world: World
    const pool: Pool
    const table: L.LeaseTable
    ghost const me: Holder
    var tick: nat
    var round: nat

    constructor (world: World, pool: Pool, table: L.LeaseTable, ghost me: Holder)
      ensures this.world == world && this.pool == pool && this.table == table && this.me == me
    {
      this.world, this.pool, this.table, this.me, tick, round := world, pool, table, me, 0, 0;
    }

    /** The pool counts exactly what everyone holds, and this request holds exactly `h`. */
    ghost predicate Holds(h: Hold)
      reads pool, table
    {
      && pool.Valid() && Has(pool.users, me, h.slots) && Has(pool.reservers, me, h.uploads)
      && OnlyLease(world, table.leases, h.lease)
    }

    ghost predicate NoneEligibleNow(a: Attempt, w: Wish)
      reads pool
    {
      forall i :: 0 <= i < |a.accounts| ==>
        !Eligible(a.accounts[i], w, pool.inflight, pool.uploadReserved, pool.Most())
    }

    /** Other requests act. */
    method Pause(h: Hold)
      requires Fair(world) && Holds(h)
      modifies `tick, pool, table
      ensures Holds(h) && tick == old(tick) + 1
      ensures h.lease == "" ==> table.leases == world.others(old(tick)).leases
    {
      var c := world.others(tick);
      tick := tick + 1;
      PausePool(c, h);
      var mine := map id | id in table.leases && id == h.lease && h.lease != "" && c.sparesMine :: table.leases[id];
      table.leases := c.leases + mine;
    }

    method PausePool(c: Crowd, h: Hold)
      requires FairCrowd(world, c)
      modifies pool
      ensures pool.Valid() && Has(pool.users, me, h.slots) && Has(pool.reservers, me, h.uploads)
    {
      PauseSlots(c, h);
      PauseUploads(c, h);
      pool.index := c.index;
    }

    method PauseSlots(c: Crowd, h: Hold)
      requires FairCrowd(world, c)
      modifies pool`inflight, pool`users
      ensures Tallies(pool.inflight, pool.users) && Has(pool.users, me, h.slots)
    {
      MixedTallies(c.inflight, h.slots, me);
      pool.inflight := Mixed(c.inflight, h.slots);
      pool.users := MixedHolders(c.inflight, h.slots, me);
    }

    method PauseUploads(c: Crowd, h: Hold)
      requires FairCrowd(world, c)
      modifies pool`uploadReserved, pool`reservers
      ensures Tallies(pool.uploadReserved, pool.reservers) && Has(pool.reservers, me, h.uploads)
    {
      MixedTallies(c.reserved, h.uploads, me);
      pool.uploadReserved := Mixed(c.reserved, h.uploads);
      pool.reservers := MixedHolders(c.reserved, h.uploads, me);
    }

    method DropSlot(h: Hold, t: Token) returns (k: Hold)
      requires Fair(world) && Holds(h) && t in h.slots
      modifies `tick, pool, table
      ensures Holds(k) && k == h.(slots := h.slots[t := h.slots[t] - 1])
    {
      TakenHas(pool.users, me, h.slots, t, 1);
      pool.ReleaseToken(t, me);
      k := h.(slots := h.slots[t := h.slots[t] - 1]);
      Pause(k);
    }

    method DropUploads(h: Hold, t: Token, n: nat) returns (k: Hold)
      requires Fair(world) && Holds(h) && h.uploads[t] >= n && t != ""
      modifies `tick, pool, table
      ensures Holds(k) && k == h.(uploads := h.uploads[t := h.uploads[t] - n])
    {
      TakenHas(pool.reservers, me, h.uploads, t, n);
      pool.ReleaseUploadReservation(t, n, me);
      k := h.(uploads := h.uploads[t := h.uploads[t] - n]);
      Pause(k);
    }

    method RetainAlias(token: Token, alias: Token, n: nat)
      requires Fair(world) && Holds(Selected(token, "", n, "")) && IsToken(alias)
      modifies `tick, pool, table
      ensures Holds(Selected(token, alias, n, "")) && table.leases == world.others(old(tick)).leases
    {
      SelectedParts(token, alias, n);
      if alias != "" && alias != token {
        GivenHas(pool.users, me, multiset{token}, alias, 1);
        pool.RetainToken(alias, me);
      }
      Pause(Selected(token, alias, n, ""));
    }

    method ReleaseSelected(token: Token, alias: Token, n: nat, lease: L.LeaseId)
      requires Fair(world) && Holds(Selected(token, alias, n, lease)) && token != ""
      modifies `tick, pool, table
      ensures Holds(NOTHING.(lease := lease))
    {
      SelectedParts(token, alias, n);
      var h := DropSlot(Selected(token, alias, n, lease), token);
      if n > 0 {
        h := DropUploads(h, token, n);
      }
      if alias != "" && alias != token {
        h := DropSlot(h, alias);
      }
    }

    method ReleaseLease(lease: L.LeaseId)
      requires Fair(world) && Holds(NOTHING.(lease := lease))
               && (lease == "" || (world.config.hasStore && !Blank(lease)))
      modifies `tick, pool, table
      ensures Holds(NOTHING)
    {
      if world.config.hasStore && lease != "" {
        table.Release(lease);
      }
      Pause(NOTHING);
    }

    method AcquireLease(a: Attempt, h: Hold, n: nat) returns (leased: Leased)
      requires Fair(world) && FairAttempt(world, a) && Holds(h) && h.lease == "" && a.setup.Ready?
      modifies `tick, pool, table
      ensures leased.Leased? ==>
                Holds(h.(lease := leased.id)) && (leased.id == "" || (world.config.hasStore && !Blank(leased.id)))
      ensures !leased.Leased? ==> Holds(h)
      ensures leased == LeaseAnswer(world, old(table.leases), a, n)
    {
      if !world.config.hasStore {
        return Leased("");
      }
      var account := a.setup.actual;
      var maxConc := if world.config.concurrency < 1 then 1 else world.config.concurrency;
      var maxUploads := -1;
      if n > 0 {
        if account.uploadUnknown {
          return LeaseFailed(UploadsReserved);
        }
        maxUploads := account.uploadQuota;
      }
      if a.leaseFails {
        return LeaseFailed(a.leaseError);
      }
      var ask := L.Ask(account.token, maxConc, maxUploads, n, a.holder, world.config.ttl);
      AcquireKeepsOnly(world, table.leases, ask, a.leaseClock, a.newLease);
      var grant := table.Acquire(ask, a.leaseClock, a.newLease);
      match grant {
        case Granted(id) =>
          Pause(h.(lease := id));
          return Leased(id);
        case AtLimit =>
          return NotLeased;
        case QuotaReserved =>
          return LeaseFailed(UploadsReserved);
        case BlankToken =>
          return LeaseFailed(LeaseError(false));
      }
    }

    /** From the refreshed token on: lease, generate, and hand everything back on every way out. */
    method LeaseAndGenerate(a: Attempt, token: Token, alias: Token, n: nat) returns (v: Verdict)
      requires Fair(world) && FairAttempt(world, a) && a.setup.Ready? && token != ""
      requires Holds(Selected(token, alias, n, ""))
      modifies `tick, pool, table
      ensures Holds(NOTHING) && v == AttemptResult(world, old(table.leases), a, n)
    {
      var leased := AcquireLease(a, Selected(token, alias, n, ""), n);
      match leased {
        case LeaseFailed(problem) =>
          ReleaseSelected(token, alias, n, "");
          if a.doneInLease {
            return Return(Outcome.Problem(ContextDone));
          }
          return Retry(problem);
        case NotLeased =>
          ReleaseSelected(token, alias, n, "");
          return Retry(Busy);
        case Leased(id) =>
          ReleaseSelected(token, alias, n, id);
          ReleaseLease(id);
          if a.outcome.Images? {
            return Return(a.outcome);
          }
          if a.doneAfter {
            return Return(Outcome.Problem(ContextDone));
          }
          if a.outcome.problem == CancelError {
            return Return(a.outcome);
          }
          if !Retryable(a.outcome.problem) {
            return Return(a.outcome);
          }
          return Retry(a.outcome.problem);
      }
    }

    /** Every way out after a setup that failed. */
    method AbandonSetup(problem: Problem, done: bool, token: Token, n: nat) returns (v: Verdict)
      requires Fair(world) && Holds(Selected(token, "", n, "")) && token != ""
      modifies `tick, pool, table
      ensures Holds(NOTHING) && v == SetupVerdict(problem, done)
    {
      ReleaseSelected(token, "", n, "");
      if done {
        return Return(Outcome.Problem(ContextDone));
      }
      if problem == CancelError {
        return Return(Outcome.Problem(problem));
      }
      if problem == Busy {
        return Retry(problem);
      }
      if Retryable(problem) {
        return Retry(problem);
      }
      return Return(Outcome.Problem(problem));
    }

    /** What becomes of a picked and reserved account: the lease is asked for after one more turn of others. */
    method UseAccount(a: Attempt, token: Token, n: nat) returns (v: Verdict)
      requires Fair(world) && FairAttempt(world, a) && Holds(Selected(token, "", n, "")) && token != ""
      modifies `tick, pool, table
      ensures Holds(NOTHING) && v == AttemptResult(world, world.others(old(tick)).leases, a, n)
    {
      match a.setup {
        case SetupFailed(problem) =>
          v := AbandonSetup(problem, a.doneInSetup, token, n);
        case Ready(actual) =>
          RetainAlias(token, actual.token, n);
          v := LeaseAndGenerate(a, token, actual.token, n);
      }
    }

    /** pickAccountExcludingForUploads, leaving out everything the scope has tried. */
    method PickAccount(a: Attempt, w: Wish) returns (picked: Picked)
      requires Fair(world) && FairAttempt(world, a) && Holds(NOTHING)
      modifies `tick, pool, table
      ensures PickedFrom(a.accounts, w, old(pool.index), old(pool.inflight),
                         old(pool.uploadReserved), old(pool.Most()), picked)
      ensures picked.Failed? ==> Holds(NOTHING) && NoneEligibleNow(a, w)
      ensures picked.Token? ==>
                && picked.token != "" && IsToken(picked.token) && picked.token !in w.excluded && tick == old(tick) + 1
                && Holds(Selected(picked.token, "", Weight(w), ""))
    {
      var at;
      ghost var users, reservers := pool.users, pool.reservers;
      picked, at := pool.Pick(a.accounts, w, me);
      if picked.Token? {
        PickedHas(users, reservers, me, picked.token, Weight(w));
        Pause(Selected(picked.token, "", Weight(w), ""));
      }
    }

    /** scope.reserve, which cannot refuse a token picked from outside the attempted ones, and scope.alias. */
    method Enter(scope: AttemptScope, a: Attempt, token: Token)
      requires FairAttempt(world, a) && scope.Valid() && !scope.Exhausted()
      requires token != "" && IsToken(token) && token !in scope.attempted
      modifies scope
      ensures scope.Valid() && scope.used == old(scope.used) + 1
      ensures scope.tried == old(scope.tried) + [(token, UsedAs(a, token))]
      ensures scope.attempted == Seen(old(scope.attempted), a, token)
    {
      BlankMeansTrimmedAway(token);
      var ok := scope.Reserve(token);
      if a.setup.Ready? {
        scope.Alias(token, a.setup.actual.token);
      }
    }

    /** The attempt on a picked account, the i-th of the request. */
    method TryPicked(scope: AttemptScope, rq: Request, a: Attempt, token: Token, ghost i: nat) returns (v: Verdict)
      requires Fair(world) && FairAttempt(world, a) && Holds(Selected(token, "", UploadsOf(rq), ""))
      requires scope.Valid() && !scope.Exhausted() && a == world.attempts(i) && !a.doneAtStart
      requires token != "" && IsToken(token) && token !in scope.attempted
      modifies `tick, pool, table, scope
      ensures Holds(NOTHING) && scope.Valid() && scope.used == old(scope.used) + 1
      ensures Ended(world, rq, i, v)
    {
      Enter(scope, a, token);
      v := UseAccount(a, token, UploadsOf(rq));
    }

    /** A pick from outside what the scope has tried. */
    method PickUntried(a: Attempt, rq: Request, attempted: set<Token>) returns (picked: Picked)
      requires Fair(world) && FairAttempt(world, a) && Holds(NOTHING)
      modifies `tick, pool, table
      ensures picked.Failed? ==>
                && Holds(NOTHING) && NoneEligibleNow(a, WishFor(rq, attempted, a.now))
                && (rq.needCodex <==> picked.error == NoCodexAccount)
      ensures picked.Token? ==>
                && picked.token != "" && IsToken(picked.token) && picked.token !in attempted
                && Holds(Selected(picked.token, "", UploadsOf(rq), ""))
    {
      picked := PickAccount(a, WishFor(rq, attempted, a.now));
    }

    /** One turn of the loop, the i-th of the request. */
    method Turn(scope: AttemptScope, rq: Request, a: Attempt, lastErr: Option<Problem>, ghost i: nat)
      returns (v: Verdict, picked: Picked)
      requires Fair(world) && FairAttempt(world, a) && a == world.attempts(i)
      requires Holds(NOTHING) && scope.Valid() && !scope.Exhausted()
      modifies `tick, pool, table, scope
      ensures Holds(NOTHING) && scope.Valid()
      ensures TurnMeans(world, rq, i, lastErr, v, picked)
      ensures scope.used == old(scope.used) + if picked.Token? then 1 else 0
      ensures picked.Failed? ==> scope.attempted == old(scope.attempted)
      ensures StopOf(world, i, picked) == NoAccount ==> NoneLeftIn(scope, rq, i + 1)
    {
      picked := Failed(NoImageQuota);
      if a.doneAtStart {
        v := Return(Outcome.Problem(ContextDone));
      } else {
        picked := PickUntried(a, rq, scope.attempted);
        if picked.Failed? {
          v := Return(Outcome.Problem(if lastErr.Some? then lastErr.value else Refused(picked.error)));
        } else {
          v := TryPicked(scope, rq, a, picked.token, i);
        }
      }
    }

    /** Between two turns of a route that began with attempt `from` and budget `before`. */
    ghost predicate OnRoute(scope: AttemptScope, rq: Request, from: nat, before: int, lastErr: Option<Problem>)
      reads this, pool, table, scope
    {
      && Holds(NOTHING) && scope.Valid() && scope.used - before == round - from >= 0
      && AllRetried(world, rq, from, round, lastErr)
    }

    /** After such a route. */
    ghost predicate OffRoute(scope: AttemptScope, rq: Request, from: nat, before: int, run: RouteRun)
      reads this, pool, table, scope
    {
      && Holds(NOTHING) && scope.Valid() && scope.used >= before
      && RanFor(run, rq, from, round, before, scope.used) && Explained(world, scope.max, run)
      && (run.stop == NoAccount ==> NoneLeftIn(scope, rq, run.to))
    }

    /** A route is given up because the budget is spent, because no untried account is eligible, or because its
        latest attempt calls for it. */
    ghost predicate GivesUpFor(scope: AttemptScope, rq: Request, r: Outcome)
      reads this, pool, scope
    {
      scope.Exhausted() || NoneLeftIn(scope, rq, round) || (round > 0 && EndsRoute(world.attempts(round - 1), r))
    }

    /** In the latest of the first `to` attempts no account is eligible that the scope has not tried. */
    ghost predicate NoneLeftIn(scope: AttemptScope, rq: Request, to: nat)
      reads pool, scope
    {
      to > 0 &&
      var a := world.attempts(to - 1);
      NoneEligibleNow(a, WishFor(rq, scope.attempted, a.now))
    }

    /** One turn, and what it means for the route. */
    method NextTurn(scope: AttemptScope, rq: Request, lastErr: Option<Problem>, ghost from: nat, ghost before: int)
      returns (v: Verdict, ghost run: RouteRun)
      requires Fair(world) && OnRoute(scope, rq, from, before, lastErr) && !scope.Exhausted()
      modifies this, pool, table, scope
      ensures v.Retry? ==> OnRoute(scope, rq, from, before, Some(v.problem)) && scope.used == old(scope.used) + 1
      ensures v.Return? ==> OffRoute(scope, rq, from, before, run) && run.outcome == v.outcome
    {
      var picked;
      var i := round;
      round := round + 1;
      v, picked := Turn(scope, rq, world.attempts(i), lastErr, i);
      run := TurnEnds(world, scope.max, rq, from, i, lastErr, v, picked, before, scope.used);
    }

    /** generateImageWithPoolScopedRoute. Whatever the outside events, the request ends with nothing held,
        stays within its budget, repeats no account, ends with the outcome its attempts call for, and gives up
        on a problem that another account might not meet only when the budget is spent or no untried account is
        eligible. */
    method GenerateRoute(scope: AttemptScope, rq: Request) returns (r: Outcome, ghost run: RouteRun)
      requires Fair(world) && Holds(NOTHING) && scope.Valid()
      modifies this, pool, table, scope
      ensures OffRoute(scope, rq, old(round), old(scope.used), run) && run.outcome == r
      ensures GivesUpFor(scope, rq, r)
      ensures r.Problem? && (r.problem in {Busy, UploadsReserved} || r.problem.LeaseError? || Retryable(r.problem)) ==>
                scope.Exhausted() || NoneLeftIn(scope, rq, round)
    {
      r, run := TryAccounts(scope, rq);
      RouteHasReason(world, scope.max, run);
    }

    /** The loop over accounts. */
    method TryAccounts(scope: AttemptScope, rq: Request) returns (r: Outcome, ghost run: RouteRun)
      requires Fair(world) && Holds(NOTHING) && scope.Valid()
      modifies this, pool, table, scope
      ensures OffRoute(scope, rq, old(round), old(scope.used), run) && run.outcome == r
    {
      var lastErr: Option<Problem> := None;
      ghost var from, before := round, scope.used;
      while !scope.Exhausted()
        invariant OnRoute(scope, rq, from, before, lastErr)
        decreases scope.max - scope.used
      {
        var v;
        v, run := NextTurn(scope, rq, lastErr, from, before);
        if v.Return? {
          return v.outcome, run;
        }
        lastErr := Some(v.problem);
      }
      r := Outcome.Problem(if lastErr.Some? then lastErr.value else NoneLeft);
      run := BudgetRun(world, scope.max, rq, from, round, before, scope.used, lastErr, r);
    }

    /** Between two routes: all `runs` so far have failed, the latest with a problem that calls for the next. */
    ghost predicate OnRoutes(scope: AttemptScope, routes: seq<Route>, runs: seq<RouteRun>, from: nat, before: int,
                             firstErr: Option<Problem>, lastErr: Option<Problem>)
      reads this, pool, table, scope
    {
      && Holds(NOTHING) && scope.Valid()
      && Tried(world, scope.max, routes, runs, from, round, before, scope.used)
      && AllFailed(runs, firstErr, lastErr)
      && |runs| <= |routes| && (runs != [] ==> FailsOver(runs[|runs| - 1], routes[|runs| - 1]))
    }

    /** The next route, after the `runs` so far. */
    method NextRoute(scope: AttemptScope, route: Route, firstErr: Option<Problem>, lastErr: Option<Problem>,
                     ghost routes: seq<Route>, ghost runs: seq<RouteRun>, ghost from: nat, ghost before: int)
      returns (r: Outcome, ghost tried: seq<RouteRun>)
      requires Fair(world) && OnRoutes(scope, routes, runs, from, before, firstErr, lastErr)
      requires |runs| < |routes| && route == routes[|runs|]
      modifies this, pool, table, scope
      ensures Holds(NOTHING) && scope.Valid()
      ensures Tried(world, scope.max, routes, tried, from, round, before, scope.used)
      ensures |tried| == |runs| + 1 && tried[|runs|].outcome == r
      ensures r.Problem? ==>
                AllFailed(tried, Some(First(firstErr, r.problem)), Some(Preferred(firstErr, r.problem)))
    {
      ghost var run;
      r, run := GenerateRoute(scope, route.request);
      OneMoreRun(world, scope.max, routes, runs, from, before, run);
      tried := runs + [run];
      if r.Problem? {
        OneMoreFailed(runs, run, firstErr, lastErr);
      }
    }

    /** generateImageWithPoolScopedRoutes: all routes share one scope, hence one budget. */
    method GenerateRoutes(scope: AttemptScope, routes: seq<Route>, requestedCodex: bool)
      returns (r: Outcome, ghost runs: seq<RouteRun>)
      requires Fair(world) && Holds(NOTHING) && scope.Valid()
      modifies this, pool, table, scope
      ensures Holds(NOTHING) && scope.Valid()
      ensures Tried(world, scope.max, routes, runs, old(round), round, old(scope.used), scope.used)
      ensures |runs| <= |routes| && Concludes(routes, requestedCodex, runs, r)
    {
      var lastErr, firstErr: Option<Problem> := None, None;
      runs := [];
      ghost var from, before := round, scope.used;
      for idx := 0 to |routes|
        invariant |runs| == idx && OnRoutes(scope, routes, runs, from, before, firstErr, lastErr)
      {
        var route := routes[idx];
        if idx > 0 && route.codex && firstErr.Some? && !requestedCodex && !route.potentialAccount {
          break;
        }
        r, runs := NextRoute(scope, route, firstErr, lastErr, routes, runs, from, before);
        if r.Images? {
          return;
        }
        lastErr := Some(Preferred(firstErr, r.problem));
        if firstErr.None? {
          firstErr := Some(r.problem);
        }
        if !TryNext(r.problem, route.doneAfter) {
          break;
        }
      }
      r := Outcome.Problem(if lastErr.Some? then lastErr.value else NoRoute);
    }
  }
}
