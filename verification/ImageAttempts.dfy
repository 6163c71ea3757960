/** What one image request may try, what the outside world answers, and how attempts and routes end
    (internal/app/image_pool.go, image_routing.go). */
module ImageAttempts {
  import opened Common
  import opened Text
  import opened Accounts
  import opened AccountPool
  import L = AccountLeases
  import U = UploadLeases

  /** Error texts are classified by the oracle that produces them. */
  datatype Problem =
    | ContextDone
    | CancelError
    | Busy
    | UploadsReserved
    | LeaseError(retry: bool)
    | Upstream(text: nat, retry: bool)
    | Refused(why: PickError)
    | NoneLeft
    | NoRoute

  /** shouldRetryImageAccount */
  predicate Retryable(p: Problem) {
    match p
    case LeaseError(retry) => retry
    case Upstream(_, retry) => retry
    case _ => false
  }

  datatype Outcome = Images(count: nat) | Problem(problem: Problem)

  // ---------- Which accounts one request may still try ----------

  /** No account is tried again, under its own token or one recorded for an earlier attempt. */
  ghost predicate NoRepeats(tried: seq<(Token, Token)>) {
    forall i, j :: 0 <= i < j < |tried| ==> tried[j].0 != tried[i].0 && tried[j].0 != tried[i].1
  }

  ghost predicate Recorded(attempted: set<Token>, tried: seq<(Token, Token)>) {
    forall i :: 0 <= i < |tried| ==> tried[i].0 in attempted && (tried[i].1 == "" || tried[i].1 in attempted)
  }

  /** reserve: the token must be new and the budget not used up. */
  predicate Accepts(attempted: set<Token>, used: int, max: int, token: Token) {
    !Blank(token) && TrimSpace(token) !in attempted && used < max
  }

  /** imageAccountAttemptScope. Ghost `tried` lists the attempts in order: the token reserved, and the
      token the account was used under. */
  class AttemptScope {
    const max: int
    var used: int
    var attempted: set<Token>
    ghost var tried: seq<(Token, Token)>

    ghost predicate Valid()
      reads this
    {
      0 <= used == |tried| <= max && Recorded(attempted, tried) && NoRepeats(tried)
    }

    constructor (limit: int)
      ensures Valid() && used == 0 && attempted == {} && max == MaxInt(limit, 1)
    {
      max := MaxInt(limit, 1);
      used, attempted, tried := 0, {}, [];
    }

    predicate Exhausted()
      reads this
    {
      used >= max
    }

    /** Whether the token may be tried: it must be new and the budget not used up. */
    method Reserve(primary: Token) returns (ok: bool)
      requires Valid()
      modifies this
      ensures Valid()
      ensures ok == Accepts(old(attempted), old(used), max, primary)
      ensures !ok ==> unchanged(this)
      ensures ok ==> used == old(used) + 1 && attempted == old(attempted) + {TrimSpace(primary)}
                     && tried == old(tried) + [(TrimSpace(primary), TrimSpace(primary))]
    {
      var p := TrimSpace(primary);
      BlankMeansTrimmedAway(primary);
      if p == "" {
        return false;
      }
      if p in attempted || used >= max {
        return false;
      }
      attempted := attempted + {p};
      used := used + 1;
      tried := tried + [(p, p)];
      return true;
    }

    /** The account reserved last is in use under another token. */
    method Alias(primary: Token, token: Token)
      requires Valid() && tried != [] && tried[|tried| - 1].0 == TrimSpace(primary)
      modifies this
      ensures Valid() && used == old(used)
      ensures attempted == old(attempted) + if TrimSpace(token) != "" then {TrimSpace(token)} else {}
      ensures tried == old(tried)[|old(tried)| - 1 := (TrimSpace(primary), TrimSpace(token))]
    {
      var p, t := TrimSpace(primary), TrimSpace(token);
      if p != "" {
        attempted := attempted + {p};
      }
      if t != "" {
        attempted := attempted + {t};
      }
      tried := tried[|tried| - 1 := (p, t)];
    }
  }

  // ---------- The world one request runs in ----------

  /** What everyone else holds at some moment: any counts and any leases will do. `sparesMine` says
      whether some sweep has dropped this request's lease meanwhile. */
  datatype Crowd = Crowd(inflight: map<Token, nat>, reserved: map<Token, nat>, index: nat,
                         leases: L.Leases, sparesMine: bool)

  datatype Setup = Ready(actual: Account) | SetupFailed(problem: Problem)

  /** The outside events of one attempt: the accounts loaded, the clock, the context readings, and what
      the upstream client and the lease statement answer. */
  datatype Attempt = Attempt(accounts: seq<Account>, now: int, doneAtStart: bool,
                             setup: Setup, doneInSetup: bool,
                             leaseFails: bool, leaseError: Problem, leaseClock: real,
                             newLease: L.LeaseId, holder: string,
                             doneInLease: bool, outcome: Outcome, doneAfter: bool)

  datatype Config = Config(concurrency: int, ttl: real, hasStore: bool)

  /** `ours` tells this request's lease ids from all others. */
  datatype World = World(others: nat -> Crowd, attempts: nat -> Attempt, ours: L.LeaseId -> bool, config: Config)

  predicate IsToken(t: Token) {
    TrimSpace(t) == t
  }

  ghost predicate FairCrowd(w: World, c: Crowd) {
    NoZeros(c.inflight) && NoZeros(c.reserved) && forall id :: id in c.leases ==> !w.ours(id)
  }

  /** The upstream client fails with an error of its own or because the request was canceled. */
  predicate FromClient(p: Problem) {
    p.Upstream? || p == CancelError
  }

  ghost predicate FairAttempt(w: World, a: Attempt) {
    && (a.setup.SetupFailed? ==> a.setup.problem == Busy || FromClient(a.setup.problem))
    && a.leaseError.LeaseError? && (a.outcome.Problem? ==> FromClient(a.outcome.problem))
    && (forall i :: 0 <= i < |a.accounts| ==> IsToken(a.accounts[i].token))
    && (a.setup.Ready? ==> IsToken(a.setup.actual.token))
    && w.ours(a.newLease) && !Blank(a.newLease)
  }

  /** Tokens are stored trimmed, lease ids are fresh and other requests keep their own books. */
  ghost predicate Fair(w: World) {
    && !w.ours("")
    && (forall k :: FairCrowd(w, w.others(k)))
    && (forall k :: FairAttempt(w, w.attempts(k)))
  }

  /** What this request has taken and not handed back. */
  datatype Hold = Hold(slots: multiset<Token>, uploads: multiset<Token>, lease: L.LeaseId)

  const NOTHING := Hold(multiset{}, multiset{}, "")

  /** Of this request's leases, at most the one named is in the table. */
  ghost predicate OnlyLease(w: World, leases: L.Leases, id: L.LeaseId) {
    forall x :: x in leases && w.ours(x) ==> x == id
  }

  /** One selected account: its slot, a second one if the token was refreshed, its reserved uploads and
      its lease. */
  function Selected(token: Token, alias: Token, uploads: nat, lease: L.LeaseId): Hold {
    Hold(if alias != "" && alias != token then multiset{token, alias} else multiset{token},
         multiset{}[token := uploads], lease)
  }

  lemma SelectedParts(token: Token, alias: Token, n: nat)
    ensures multiset{}[token := 1] == multiset{token} == Selected(token, "", n, "").slots
    ensures alias != token ==> multiset{token}[alias := 1] == multiset{token, alias}
    ensures alias != token ==> multiset{token, alias}[token := 0][alias := 0] == multiset{}
    ensures multiset{token}[token := 0] == multiset{} && multiset{}[token := n][token := 0] == multiset{}
  {
  }

  datatype Leased = Leased(id: L.LeaseId) | NotLeased | LeaseFailed(problem: Problem)

  datatype Verdict = Return(outcome: Outcome) | Retry(problem: Problem)

  /** How an attempt ends when the client cannot be set up. */
  function SetupVerdict(problem: Problem, done: bool): Verdict {
    if done then Return(Outcome.Problem(ContextDone))
    else if problem == Busy || Retryable(problem) then Retry(problem)
    else Return(Outcome.Problem(problem))
  }

  /** How an attempt ends once the account has been leased and used. */
  function UseVerdict(outcome: Outcome, done: bool): Verdict {
    match outcome
    case Images(_) => Return(outcome)
    case Problem(p) =>
      if done then Return(Outcome.Problem(ContextDone))
      else if Retryable(p) then Retry(p)
      else Return(outcome)
  }

  function LeaseVerdict(leased: Leased, done: bool): Verdict
    requires !leased.Leased?
  {
    match leased
    case NotLeased => Retry(Busy)
    case LeaseFailed(p) => if done then Return(Outcome.Problem(ContextDone)) else Retry(p)
  }

  /** How an attempt ends, given what the lease table said. */
  function AttemptVerdict(a: Attempt, leased: Leased): Verdict {
    if a.setup.SetupFailed? then SetupVerdict(a.setup.problem, a.doneInSetup)
    else if leased.Leased? then UseVerdict(a.outcome, a.doneAfter)
    else LeaseVerdict(leased, a.doneInLease)
  }

  /** A kind of request: codex or web, a plan, and the number of reference images. */
  datatype Request = Request(needCodex: bool, plan: string, refs: nat)

  function WishFor(rq: Request, excluded: set<Token>, now: int): Wish {
    Wish(rq.needCodex, rq.plan, excluded, if rq.needCodex then 0 else rq.refs, now)
  }

  function UploadsOf(rq: Request): nat {
    if rq.needCodex then 0 else rq.refs
  }

  /** acquireUploadAccountLease, given the rows of the lease table. */
  ghost function LeaseAnswer(w: World, leases: L.Leases, a: Attempt, n: nat): Leased
    requires a.setup.Ready?
  {
    var ask := U.AskFor(a.setup.actual, n, w.config.concurrency, a.holder, w.config.ttl);
    if !w.config.hasStore then Leased("")
    else if ask.None? then LeaseFailed(UploadsReserved)
    else if a.leaseFails then LeaseFailed(a.leaseError)
    else
      match L.Answer(leases, ask.value, a.leaseClock, a.newLease)
      case Granted(id) => Leased(id)
      case AtLimit => NotLeased
      case QuotaReserved => LeaseFailed(UploadsReserved)
      case BlankToken => LeaseFailed(LeaseError(false))
  }

  /** How the attempt on a picked account ends, given the rows of the lease table when it asks for a lease. */
  ghost function AttemptResult(w: World, leases: L.Leases, a: Attempt, n: nat): Verdict {
    AttemptVerdict(a, if a.setup.Ready? then LeaseAnswer(w, leases, a, n) else NotLeased)
  }

  /** What the pool answers in a given state. */
  ghost predicate PickedFrom(accounts: seq<Account>, w: Wish, start: nat, inflight: map<Token, int>,
                             reserved: map<Token, int>, most: int, picked: Picked)
  {
    match picked
    case Failed(why) =>
      && (forall i :: 0 <= i < |accounts| ==> !Eligible(accounts[i], w, inflight, reserved, most))
      && why == if w.needCodex then NoCodexAccount
                else if SomeUploadBlocked(accounts, w, reserved) then NoUploadQuota
                else NoImageQuota
    case Token(t) =>
      exists at: nat :: IsPick(at, accounts, start, w, inflight, reserved, most) && accounts[at].token == t
  }

  /** A configured route, and what the surroundings say when it is reached and when it has failed. */
  datatype Route = Route(codex: bool, request: Request, potentialAccount: bool, doneAfter: bool)

  /** shouldTryNextImageRoute */
  predicate TryNext(p: Problem, done: bool) {
    !done && (p.Refused? || p == NoneLeft || p == UploadsReserved || Retryable(p))
  }

  /** A missing codex account never hides the error of the first route. */
  function Reported(errors: seq<Problem>): Problem {
    if errors == [] then NoRoute
    else if errors[|errors| - 1] == Refused(NoCodexAccount) then errors[0]
    else errors[|errors| - 1]
  }

  /** Why one route ended. */
  datatype Stop = Settled | NoAccount | BudgetSpent

  /** One route as it was tried: the attempts from..to, the budget before and after, the latest
      problem that was retried, how the route ended and why. */
  datatype RouteRun = RouteRun(request: Request, from: nat, to: nat, usedBefore: int, usedAfter: int,
                               last: Option<Problem>, outcome: Outcome, stop: Stop)

  predicate RanFor(run: RouteRun, rq: Request, from: nat, to: nat, before: int, after: int) {
    run.request == rq && run.from == from && run.to == to && run.usedBefore == before && run.usedAfter == after
  }

  /** The i-th attempt was made on an account and ended this way, for some contents of the lease table. */
  ghost predicate Ended(w: World, rq: Request, i: nat, v: Verdict) {
    !w.attempts(i).doneAtStart && exists leases: L.Leases :: AttemptResult(w, leases, w.attempts(i), UploadsOf(rq)) == v
  }

  ghost predicate Retried(w: World, rq: Request, i: nat) {
    exists p :: Ended(w, rq, i, Retry(p))
  }

  /** The attempts from..to were all made and all are to be retried; `last` is the problem of the latest. */
  ghost predicate AllRetried(w: World, rq: Request, from: nat, to: nat, last: Option<Problem>) {
    && from <= to && (forall i: nat :: from <= i < to ==> Retried(w, rq, i))
    && if from == to then last == None else last.Some? && Ended(w, rq, to - 1, Retry(last.value))
  }

  /** The problem of a route without an eligible account: the latest one, or the refusal of the pool. */
  ghost predicate Dry(rq: Request, last: Option<Problem>, p: Problem) {
    if last.Some? then p == last.value
    else p.Refused? && (rq.needCodex <==> p.why == NoCodexAccount)
  }

  /** The outcome of a route is the one its attempts call for. */
  ghost predicate Explained(w: World, max: int, run: RouteRun) {
    match run.stop
    case BudgetSpent =>
      && AllRetried(w, run.request, run.from, run.to, run.last)
      && run.usedAfter >= max && run.usedAfter - run.usedBefore == run.to - run.from
      && run.outcome == Outcome.Problem(if run.last.Some? then run.last.value else NoneLeft)
    case NoAccount =>
      && run.from < run.to && AllRetried(w, run.request, run.from, run.to - 1, run.last)
      && run.usedAfter - run.usedBefore == run.to - 1 - run.from
      && run.outcome.Problem? && Dry(run.request, run.last, run.outcome.problem)
    case Settled =>
      && run.from < run.to && AllRetried(w, run.request, run.from, run.to - 1, run.last)
      && if w.attempts(run.to - 1).doneAtStart then
           run.usedAfter - run.usedBefore == run.to - 1 - run.from && run.outcome == Outcome.Problem(ContextDone)
         else
           run.usedAfter - run.usedBefore == run.to - run.from && Ended(w, run.request, run.to - 1, Return(run.outcome))
  }

  /** What of the outside events of an attempt ends a route with outcome `r` whatever budget and accounts are
      left: images, an ended context, or a problem of the upstream client that no other account would cure. */
  predicate EndsRoute(a: Attempt, r: Outcome) {
    match r
    case Images(_) => a.setup.Ready? && a.outcome == r
    case Problem(ContextDone) =>
      || a.doneAtStart || (a.setup.SetupFailed? && a.doneInSetup)
      || (a.setup.Ready? && (a.doneInLease || (a.outcome.Problem? && a.doneAfter)))
    case Problem(CancelError) => if a.setup.Ready? then a.outcome == r else a.setup.problem == CancelError
    case Problem(Upstream(_, retry)) =>
      !retry && if a.setup.Ready? then a.outcome == r else a.setup.problem == r.problem
    case _ => false
  }

  /** Problems for which another account is tried: the account is busy or at its lease cap, its uploads are
      promised to others, the lease table fails, or the upstream error is one that another account may not meet. */
  predicate CallsForAnother(p: Problem) {
    p == Busy || p == UploadsReserved || p.LeaseError? || (p.Upstream? && p.retry)
  }

  /** A route that neither has used up its budget nor run out of accounts has been ended by its latest attempt. In
      particular neither an account that is busy or at its lease cap, nor uploads that are promised to others, nor a
      failing lease table ends a route. */
  lemma RouteHasReason(w: World, max: int, run: RouteRun)
    requires Fair(w) && Explained(w, max, run)
    ensures || run.usedAfter >= max || run.stop == NoAccount
            || (run.to > 0 && EndsRoute(w.attempts(run.to - 1), run.outcome))
    ensures run.outcome.Problem? && CallsForAnother(run.outcome.problem) ==>
              run.usedAfter >= max || run.stop == NoAccount
  {
    if run.stop == Settled {
      assert FairAttempt(w, w.attempts(run.to - 1));
    }
  }

  /** Where such a problem comes from. */
  predicate TroubleIn(a: Attempt, p: Problem) {
    if a.setup.SetupFailed? then p == a.setup.problem && !a.doneInSetup
    else
      || p == Busy || (!a.doneInLease && (p == UploadsReserved || p.LeaseError?))
      || (!a.doneAfter && a.outcome == Outcome.Problem(p))
  }

  /** The problem that a route keeps in mind is one of its latest attempt, and one for which another account is
      tried. */
  lemma RetriedHasReason(w: World, rq: Request, from: nat, to: nat, last: Option<Problem>)
    requires AllRetried(w, rq, from, to, last) && from < to && FairAttempt(w, w.attempts(to - 1))
    ensures last.Some? && CallsForAnother(last.value) && TroubleIn(w.attempts(to - 1), last.value)
  {
  }

  /** A codex route is passed over after a failure when no codex account could serve it. */
  predicate Skips(route: Route, requestedCodex: bool) {
    route.codex && !requestedCodex && !route.potentialAccount
  }

  function ProblemsOf(runs: seq<RouteRun>): seq<Problem>
    requires forall i :: 0 <= i < |runs| ==> runs[i].outcome.Problem?
  {
    seq(|runs|, i requires 0 <= i < |runs| => runs[i].outcome.problem)
  }

  /** A failed route that calls for the next one. */
  predicate FailsOver(run: RouteRun, route: Route) {
    run.outcome.Problem? && TryNext(run.outcome.problem, route.doneAfter)
  }

  /** The routes were tried in order, one after the other, each with what the last one left of the budget, and
      each but the latest failed with a problem that calls for the next one. */
  ghost predicate Tried(w: World, max: int, routes: seq<Route>, runs: seq<RouteRun>,
                          from: nat, to: nat, before: int, after: int) {
    if runs == [] then from == to && before == after
    else
      var n := |runs| - 1;
      && n < |routes| && runs[n].request == routes[n].request && Explained(w, max, runs[n])
      && runs[n].to == to && runs[n].usedAfter == after
      && (n > 0 ==> FailsOver(runs[n - 1], routes[n - 1]))
      && Tried(w, max, routes, runs[..n], from, runs[n].from, before, runs[n].usedBefore)
  }

  lemma OneMoreRun(w: World, max: int, routes: seq<Route>, runs: seq<RouteRun>, from: nat, before: int, run: RouteRun)
    requires Tried(w, max, routes, runs, from, run.from, before, run.usedBefore) && |runs| < |routes|
    requires runs != [] ==> FailsOver(runs[|runs| - 1], routes[|runs| - 1])
    requires run.request == routes[|runs|].request && Explained(w, max, run)
    ensures Tried(w, max, routes, runs + [run], from, run.to, before, run.usedAfter)
  {
    assert (runs + [run])[..|runs|] == runs;
  }

  /** The result of the routes is that of the latest one, except that a missing codex account never hides the
      first problem; and the routes end with images, with a problem that rules out the next route, or with all
      routes tried or passed over. */
  ghost predicate Concludes(routes: seq<Route>, requestedCodex: bool, runs: seq<RouteRun>, r: Outcome)
    requires |runs| <= |routes|
  {
    match r
    case Images(_) => runs != [] && runs[|runs| - 1].outcome == r
    case Problem(p) =>
      && (forall i :: 0 <= i < |runs| ==> runs[i].outcome.Problem?)
      && p == Reported(ProblemsOf(runs))
      && (|runs| == |routes|
          || (runs != [] && (!FailsOver(runs[|runs| - 1], routes[|runs| - 1])
                         || Skips(routes[|runs|], requestedCodex))))
  }

  /** A request that gives up before its last route, with its context alive and not for want of an account for a
      codex route, has met a problem of the upstream client or of the lease table that no other route would cure;
      a route without an account, without room for uploads, or with a passing problem leads on to the next. */
  lemma GivesUpEarly(routes: seq<Route>, requestedCodex: bool, runs: seq<RouteRun>, r: Outcome)
    requires runs != [] && |runs| < |routes| && Concludes(routes, requestedCodex, runs, r) && r.Problem?
    requires !routes[|runs| - 1].doneAfter
    requires !(routes[|runs|].codex && !requestedCodex && !routes[|runs|].potentialAccount)
    ensures var p := runs[|runs| - 1].outcome.problem;
            && r.problem == p && p != NoneLeft && p != UploadsReserved && !p.Refused?
            && (p.Upstream? || p.LeaseError? ==> !p.retry)
  {
    assert ProblemsOf(runs)[|runs| - 1] == runs[|runs| - 1].outcome.problem;
  }

  /** The token an attempt goes under: a refresh may have replaced the one picked. */
  function UsedAs(a: Attempt, token: Token): Token {
    if a.setup.Ready? then a.setup.actual.token else token
  }

  /** What later picks leave out, after an attempt on `token`. */
  function Seen(attempted: set<Token>, a: Attempt, token: Token): set<Token> {
    attempted + {token} + if UsedAs(a, token) != "" then {UsedAs(a, token)} else {}
  }

  /** After an attempt on `token`, an account that goes under another token by then, because a refresh renamed
      it, can be picked exactly if it could be before, unless the attempt was set up under that token. */
  lemma RenamedIsPickable(b: Account, rq: Request, attempted: set<Token>, a: Attempt, token: Token, now: int)
    requires b.token != token
    ensures Usable(b, WishFor(rq, Seen(attempted, a, token), now)) <==>
              Usable(b, WishFor(rq, attempted, now)) && !(a.setup.Ready? && a.setup.actual.token == b.token)
  {
  }

  lemma OnlyPick(a: Account, w: Wish, inflight: map<Token, int>, reserved: map<Token, int>, most: int)
    requires Eligible(a, w, inflight, reserved, most)
    ensures IsPick(0, [a], 0, w, inflight, reserved, most)
  {
  }

  /** So one account can be attempted twice. After an attempt that is retried, the account is picked and accepted
      again under the new token that a refresh gave it, exactly if the attempt was not set up under that token. */
  lemma SameAccountTwice(a: Attempt, leased: Leased, account: Account, renamed: Token, rq: Request, most: int, max: int)
    requires a.accounts == [account] && IsToken(account.token) && IsToken(renamed)
             && renamed != account.token && renamed != ""
    requires Eligible(account, WishFor(rq, {}, a.now), map[], map[], most) && max >= 2
    requires AttemptVerdict(a, leased).Retry?
    ensures IsPick(0, a.accounts, 0, WishFor(rq, {}, a.now), map[], map[], most) && Accepts({}, 0, max, account.token)
    ensures var next := account.(token := renamed);
            var seen := Seen({}, a, account.token);
            IsPick(0, [next], 0, WishFor(rq, seen, a.now), map[], map[], most) && Accepts(seen, 1, max, renamed)
            <==> !(a.setup.Ready? && a.setup.actual.token == renamed)
  {
    var next := account.(token := renamed);
    BlankMeansTrimmedAway(account.token);
    BlankMeansTrimmedAway(renamed);
    OnlyPick(account, WishFor(rq, {}, a.now), map[], map[], most);
    RenamedIsPickable(next, rq, {}, a, account.token, a.now);
    assert Usable(next, WishFor(rq, {}, a.now));
    if !(a.setup.Ready? && a.setup.actual.token == renamed) {
      OnlyPick(next, WishFor(rq, Seen({}, a, account.token), a.now), map[], map[], most);
    }
  }

  /** The smallest failing case: the setup of the first attempt fails in a way that is retried. */
  lemma SetupFailedTwice(a: Attempt, account: Account, renamed: Token, rq: Request, most: int, max: int)
    requires a.accounts == [account] && IsToken(account.token) && IsToken(renamed)
             && renamed != account.token && renamed != ""
    requires Eligible(account, WishFor(rq, {}, a.now), map[], map[], most) && max >= 2
    requires a.setup == SetupFailed(Busy) && !a.doneInSetup
    ensures var seen := Seen({}, a, account.token);
            && AttemptVerdict(a, NotLeased) == Retry(Busy)
            && IsPick(0, [account.(token := renamed)], 0, WishFor(rq, seen, a.now), map[], map[], most)
            && Accepts(seen, 1, max, renamed)
  {
    SameAccountTwice(a, NotLeased, account, renamed, rq, most, max);
  }

  /** Why tokens have to be stored trimmed: the scope keeps the trimmed form, the pick compares the raw one. An
      account with an untrimmed token is picked again after its attempt, refused by the scope, and handed back,
      which leaves the pool as it was; the loop goes round without using up its budget. */
  lemma UntrimmedIsPickedAgain(account: Account, rq: Request, used: int, max: int, now: int, most: int)
    requires TrimSpace(account.token) != account.token
    requires Eligible(account, WishFor(rq, {}, now), map[], map[], most)
    ensures var tried := {TrimSpace(account.token)};
            var w := WishFor(rq, tried, now);
            && IsPick(0, [account], 0, w, map[], map[], most)
            && !Accepts(tried, used, max, account.token)
            && Minus(Plus(map[], account.token, 1), account.token, 1) == map[]
            && (Uploads(w) ==> Minus(Plus(map[], account.token, w.uploads), account.token, w.uploads) == map[])
  {
    OnlyPick(account, WishFor(rq, {TrimSpace(account.token)}, now), map[], map[], most);
  }

  lemma PickedHas(users: map<Token, multiset<Holder>>, reservers: map<Token, multiset<Holder>>, me: Holder,
                  token: Token, n: nat)
    requires Has(users, me, multiset{}) && Has(reservers, me, multiset{})
    ensures Has(Given(users, token, me, 1), me, Selected(token, "", n, "").slots)
    ensures Has(Given(reservers, token, me, n), me, Selected(token, "", n, "").uploads)
  {
    GivenHas(users, me, multiset{}, token, 1);
    GivenHas(reservers, me, multiset{}, token, n);
    SelectedParts(token, "", n);
  }

  lemma AcquireKeepsOnly(w: World, leases: L.Leases, ask: L.Ask, now: real, newId: L.LeaseId)
    requires OnlyLease(w, leases, "") && w.ours(newId) && !w.ours("")
    ensures OnlyLease(w, L.After(leases, ask, now, newId),
                      if L.Answer(leases, ask, now, newId).Granted? then newId else "")
  {
  }

  /** One turn of the loop over accounts, the i-th of the request. */
  ghost predicate TurnMeans(w: World, rq: Request, i: nat, last: Option<Problem>, v: Verdict, picked: Picked) {
    if w.attempts(i).doneAtStart then v == Return(Outcome.Problem(ContextDone)) && picked.Failed?
    else
      match picked
      case Failed(why) =>
        && (rq.needCodex <==> why == NoCodexAccount)
        && v == Return(Outcome.Problem(if last.Some? then last.value else Refused(why)))
      case Token(_) => Ended(w, rq, i, v)
  }

  function StopOf(w: World, i: nat, picked: Picked): Stop {
    if picked.Failed? && !w.attempts(i).doneAtStart then NoAccount else Settled
  }

  /** A turn that is retried adds one to the retried attempts; one that returns explains the end of the route. */
  lemma TurnEnds(w: World, max: int, rq: Request, from: nat, i: nat, last: Option<Problem>, v: Verdict, picked: Picked,
                 before: int, after: int)
    returns (run: RouteRun)
    requires AllRetried(w, rq, from, i, last) && TurnMeans(w, rq, i, last, v, picked)
    requires after - before == i - from + if picked.Token? then 1 else 0
    ensures v.Retry? ==> picked.Token? && AllRetried(w, rq, from, i + 1, Some(v.problem))
    ensures v.Return? ==>
              && Explained(w, max, run) && RanFor(run, rq, from, i + 1, before, after)
              && run.outcome == v.outcome && run.stop == StopOf(w, i, picked)
  {
    var outcome := if v.Return? then v.outcome else Outcome.Problem(v.problem);
    run := RouteRun(rq, from, i + 1, before, after, last, outcome, StopOf(w, i, picked));
  }

  /** The run of a route whose budget is used up. */
  lemma BudgetRun(w: World, max: int, rq: Request, from: nat, to: nat,
                    before: int, after: int, last: Option<Problem>, r: Outcome)
    returns (run: RouteRun)
    requires AllRetried(w, rq, from, to, last) && after >= max && after - before == to - from
    requires r == Outcome.Problem(if last.Some? then last.value else NoneLeft)
    ensures Explained(w, max, run) && RanFor(run, rq, from, to, before, after)
            && run.outcome == r && run.stop == BudgetSpent
  {
    run := RouteRun(rq, from, to, before, after, last, r, BudgetSpent);
  }

  /** The state of the loop over the routes: every route so far has failed. */
  ghost predicate AllFailed(runs: seq<RouteRun>, first: Option<Problem>, last: Option<Problem>) {
    && (forall i :: 0 <= i < |runs| ==> runs[i].outcome.Problem?)
    && first == (if runs == [] then None else Some(runs[0].outcome.problem))
    && last == if runs == [] then None else Some(Reported(ProblemsOf(runs)))
  }

  /** preferPreviousImageRouteError: a missing codex account does not hide the first problem. */
  function Preferred(first: Option<Problem>, p: Problem): Problem {
    if first.Some? && p == Refused(NoCodexAccount) then first.value else p
  }

  function First(first: Option<Problem>, p: Problem): Problem {
    if first.Some? then first.value else p
  }

  lemma OneMoreFailed(runs: seq<RouteRun>, run: RouteRun, first: Option<Problem>, last: Option<Problem>)
    requires AllFailed(runs, first, last) && run.outcome.Problem?
    ensures var p := run.outcome.problem;
            AllFailed(runs + [run], Some(First(first, p)), Some(Preferred(first, p)))
  {
    assert ProblemsOf(runs + [run]) == ProblemsOf(runs) + [run.outcome.problem];
  }
}
