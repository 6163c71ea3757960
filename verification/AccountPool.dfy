/** The in-process account pool (internal/app/account_pool.go): per-token in-flight counts, upload
    reservations and the pick of the best account over a rotating window. Ghost fields record which
    request holds what. */
module AccountPool {
  import opened Common
  import opened Accounts
  import opened Rotation

  type Token = string
  type Holder = nat

  datatype PickError = NoCodexAccount | NoUploadQuota | NoImageQuota

  datatype Picked = Token(token: Token) | Failed(error: PickError)

  /** What a request asks of the pool: the codex route or the web route, accounts to leave out, and
      the reference images it will upload. */
  datatype Wish = Wish(needCodex: bool, plan: string, excluded: set<Token>, uploads: nat, now: int)

  datatype Candidate = Candidate(account: Account, idx: nat, offset: nat, inflight: int, used: int, free: int)

  /** accountHasActiveLimitWindow, blocking a limited account without a reset time. */
  predicate InLimitWindow(a: Account, now: int) {
    a.health == Limited &&
    match a.reset
    case NoReset => true
    case Unreadable => true
    case At(t) => now < t
  }

  predicate RightKind(a: Account, w: Wish) {
    if w.needCodex then
      a.sourceType == "codex"
      && if w.plan != "" then a.planType == w.plan
         else a.planType == "plus" || a.planType == "pro" || a.planType == "team"
    else
      a.sourceType != "codex"
  }

  predicate Usable(a: Account, w: Wish) {
    && a.token != "" && a.token !in w.excluded
    && !a.pendingDelete && a.health != Disabled && a.health != Invalid
    && !InLimitWindow(a, w.now)
    && !a.quotaUnknown && a.quota > 0
    && RightKind(a, w)
  }

  predicate Uploads(w: Wish) {
    w.uploads > 0 && !w.needCodex
  }

  predicate UploadBlocked(a: Account, w: Wish, reserved: map<Token, int>) {
    Uploads(w) && !EnoughUploads(a, w.uploads, Count(reserved, a.token))
  }

  /** Some account was passed over for its upload quota alone. */
  ghost predicate SomeUploadBlocked(accounts: seq<Account>, w: Wish, reserved: map<Token, int>) {
    exists i :: 0 <= i < |accounts| && Usable(accounts[i], w) && UploadBlocked(accounts[i], w, reserved)
  }

  predicate Eligible(a: Account, w: Wish, inflight: map<Token, int>, reserved: map<Token, int>, most: int) {
    && Usable(a, w)
    && !UploadBlocked(a, w, reserved)
    && Count(inflight, a.token) < most
  }

  function CandidateAt(accounts: seq<Account>, start: nat, offset: nat,
                       inflight: map<Token, int>, reserved: map<Token, int>): Candidate
    requires offset < |accounts|
  {
    var i := Around(start, offset, |accounts|);
    var a := accounts[i];
    Candidate(a, i, offset, Count(inflight, a.token), a.success + a.fail,
              AvailableUploads(a, Count(reserved, a.token)))
  }

  /** The sort order: newest account, most image quota, fewest in flight, then for uploads known before
      unknown and most free uploads, then least used, then the rotation. */
  predicate Better(x: Candidate, y: Candidate, uploads: bool) {
    if x.account.createdAt != y.account.createdAt then x.account.createdAt > y.account.createdAt
    else if x.account.quota != y.account.quota then x.account.quota > y.account.quota
    else if x.inflight != y.inflight then x.inflight < y.inflight
    else if uploads && x.account.uploadUnknown != y.account.uploadUnknown then !x.account.uploadUnknown
    else if uploads && !x.account.uploadUnknown && x.free != y.free then x.free > y.free
    else if x.used != y.used then x.used < y.used
    else x.offset < y.offset
  }

  /** The comparator is a strict total order on the candidates of one pick. */
  lemma BetterIsStrictOrder(x: Candidate, y: Candidate, z: Candidate, uploads: bool)
    ensures !Better(x, x, uploads)
    ensures Better(x, y, uploads) ==> !Better(y, x, uploads)
    ensures Better(x, y, uploads) && Better(y, z, uploads) ==> Better(x, z, uploads)
    ensures x.offset != y.offset ==> Better(x, y, uploads) || Better(y, x, uploads)
  {
  }

  predicate IsBest(cs: seq<Candidate>, c: Candidate, uploads: bool) {
    c in cs && forall d :: d in cs && d != c ==> Better(c, d, uploads)
  }

  ghost predicate DistinctOffsets(cs: seq<Candidate>) {
    forall c, d :: c in cs && d in cs && c.offset == d.offset ==> c == d
  }

  /** A nonempty list of candidates has a best one. */
  lemma {:induction false} BestExists(cs: seq<Candidate>, uploads: bool)
    requires cs != [] && DistinctOffsets(cs)
    ensures exists c :: IsBest(cs, c, uploads)
  {
    var h, t := cs[0], cs[1..];
    if t == [] {
      assert IsBest(cs, h, uploads);
    } else {
      BestExists(t, uploads);
      var b :| IsBest(t, b, uploads);
      var c := if Better(h, b, uploads) then h else b;
      forall d | d in cs && d != c ensures Better(c, d, uploads) {
        BetterIsStrictOrder(h, b, d, uploads);
        BetterIsStrictOrder(b, h, d, uploads);
      }
      assert IsBest(cs, c, uploads);
    }
  }

  /** The candidates of one pick: one per eligible account, tagged with its offset in the window. */
  ghost predicate AreCandidates(cs: seq<Candidate>, upTo: nat, accounts: seq<Account>, start: nat, w: Wish,
                                inflight: map<Token, int>, reserved: map<Token, int>, most: int)
    requires upTo <= |accounts|
  {
    && (forall c :: c in cs ==>
          && c.offset < upTo && c == CandidateAt(accounts, start, c.offset, inflight, reserved)
          && Eligible(c.account, w, inflight, reserved, most))
    && (forall o: nat :: o < upTo && Eligible(accounts[Around(start, o, |accounts|)], w, inflight, reserved, most) ==>
          CandidateAt(accounts, start, o, inflight, reserved) in cs)
  }

  /** The loop over the rotating window. */
  method Candidates(accounts: seq<Account>, start: nat, w: Wish,
                    inflight: map<Token, int>, reserved: map<Token, int>, most: int)
    returns (cs: seq<Candidate>, uploadBlocked: bool)
    ensures AreCandidates(cs, |accounts|, accounts, start, w, inflight, reserved, most)
    ensures uploadBlocked <==> SomeUploadBlocked(accounts, w, reserved)
  {
    cs, uploadBlocked := [], false;
    ghost var at: nat := 0;
    for offset := 0 to |accounts|
      invariant AreCandidates(cs, offset, accounts, start, w, inflight, reserved, most)
      invariant uploadBlocked ==> at < |accounts| && Usable(accounts[at], w) && UploadBlocked(accounts[at], w, reserved)
      invariant !uploadBlocked ==> forall o: nat :: o < offset ==>
                  !(Usable(accounts[Around(start, o, |accounts|)], w)
                    && UploadBlocked(accounts[Around(start, o, |accounts|)], w, reserved))
    {
      var idx := (start + offset) % |accounts|;
      assert idx == Around(start, offset, |accounts|);
      var a := accounts[idx];
      if !Usable(a, w) {
        continue;
      }
      if UploadBlocked(a, w, reserved) {
        uploadBlocked := true;
        at := idx;
        continue;
      }
      if Count(inflight, a.token) >= most {
        continue;
      }
      cs := cs + [Candidate(a, idx, offset, Count(inflight, a.token), a.success + a.fail,
                            AvailableUploads(a, Count(reserved, a.token)))];
    }
    if !uploadBlocked {
      forall i | 0 <= i < |accounts|
        ensures !(Usable(accounts[i], w) && UploadBlocked(accounts[i], w, reserved))
      {
        LapVisitsOnce(start, i, StepsTo(start, i, |accounts|), |accounts|);
      }
    }
  }

  /** The account at `at` is the unique best of exactly the eligible accounts. */
  ghost predicate IsPick(at: nat, accounts: seq<Account>, start: nat, w: Wish,
                         inflight: map<Token, int>, reserved: map<Token, int>, most: int)
  {
    && at < |accounts| && Eligible(accounts[at], w, inflight, reserved, most)
    && forall i :: 0 <= i < |accounts| && i != at && Eligible(accounts[i], w, inflight, reserved, most) ==>
         Better(CandidateAt(accounts, start, StepsTo(start, at, |accounts|), inflight, reserved),
                CandidateAt(accounts, start, StepsTo(start, i, |accounts|), inflight, reserved), Uploads(w))
  }

  lemma BestIsPick(cs: seq<Candidate>, c: Candidate, accounts: seq<Account>, start: nat, w: Wish,
                   inflight: map<Token, int>, reserved: map<Token, int>, most: int)
    requires AreCandidates(cs, |accounts|, accounts, start, w, inflight, reserved, most) && IsBest(cs, c, Uploads(w))
    ensures IsPick(c.idx, accounts, start, w, inflight, reserved, most)
  {
    var n := |accounts|;
    LapVisitsOnce(start, c.idx, c.offset, n);
    forall i | 0 <= i < n && i != c.idx && Eligible(accounts[i], w, inflight, reserved, most)
      ensures Better(c, CandidateAt(accounts, start, StepsTo(start, i, n), inflight, reserved), Uploads(w))
    {
      LapVisitsOnce(start, i, StepsTo(start, i, n), n);
      var d := CandidateAt(accounts, start, StepsTo(start, i, n), inflight, reserved);
      assert d in cs && d.idx == i;
    }
  }

  /** What the pick means for the accounts `x` picked and `y` passed over, both eligible: `y` is not newer; if
      equally new, it has no more image quota; if equal in that too, no fewer requests in flight; then, for a
      request with uploads, no more uploads left beside the reservations; then it has been used at least as
      much; and then it stands later in the walk from the index. */
  lemma PickMeans(at: nat, i: nat, accounts: seq<Account>, start: nat, w: Wish,
                  inflight: map<Token, int>, reserved: map<Token, int>, most: int)
    requires IsPick(at, accounts, start, w, inflight, reserved, most)
    requires i < |accounts| && i != at && Eligible(accounts[i], w, inflight, reserved, most)
    ensures var x, y := accounts[at], accounts[i];
            var busyX := if x.token in inflight then inflight[x.token] else 0;
            var busyY := if y.token in inflight then inflight[y.token] else 0;
            var leftX := x.uploadQuota - if x.token in reserved && reserved[x.token] > 0 then reserved[x.token] else 0;
            var leftY := y.uploadQuota - if y.token in reserved && reserved[y.token] > 0 then reserved[y.token] else 0;
            var uploads := w.uploads > 0 && !w.needCodex;
            var usedX, usedY := x.success + x.fail, y.success + y.fail;
            || y.createdAt < x.createdAt
            || (y.createdAt == x.createdAt &&
                (|| y.quota < x.quota
                 || (y.quota == x.quota &&
                     (|| busyX < busyY
                      || (busyX == busyY &&
                          (|| (uploads && leftY < leftX)
                           || ((uploads ==> leftY == leftX) &&
                               (|| usedX < usedY
                                || (usedX == usedY &&
                                    forall k: nat, l: nat ::
                                      k < |accounts| && l < |accounts|
                                      && Around(start, k, |accounts|) == at && Around(start, l, |accounts|) == i
                                      ==> k < l)))))))))
  {
    var n := |accounts|;
    LapVisitsOnce(start, at, StepsTo(start, at, n), n);
    LapVisitsOnce(start, i, StepsTo(start, i, n), n);
    forall k: nat, l: nat | k < n && l < n && Around(start, k, n) == at && Around(start, l, n) == i
      ensures k == StepsTo(start, at, n) && l == StepsTo(start, i, n)
    {
      LapVisitsOnce(start, at, k, n);
      LapVisitsOnce(start, i, l, n);
    }
    if Uploads(w) {
      ReservationsFit(accounts[at], w.uploads, Count(reserved, accounts[at].token));
      ReservationsFit(accounts[i], w.uploads, Count(reserved, accounts[i].token));
    }
  }

  /** Which accounts a web request may be served with: those that are there, healthy or past their limit, have
      image quota, are not codex accounts, were not left out, have room for its uploads beside the reserved ones,
      and have a free slot. */
  lemma WebServable(a: Account, w: Wish, inflight: map<Token, int>, reserved: map<Token, int>, most: int)
    requires !w.needCodex
    ensures var busy := if a.token in inflight then inflight[a.token] else 0;
            var taken := if a.token in reserved && reserved[a.token] > 0 then reserved[a.token] else 0;
            Eligible(a, w, inflight, reserved, most) <==>
              && a.token != "" && a.token !in w.excluded && !a.pendingDelete
              && (a.health == Normal || (a.health == Limited && a.reset.At? && a.reset.time <= w.now))
              && !a.quotaUnknown && a.quota >= 1 && a.sourceType != "codex"
              && (w.uploads == 0 || (!a.uploadUnknown && taken + w.uploads <= a.uploadQuota))
              && busy + 1 <= most
  {
    if w.uploads > 0 {
      ReservationsFit(a, w.uploads, Count(reserved, a.token));
    }
  }

  /** The same for a codex request, which uploads nothing: a codex account of the wanted plan, or of any of the
      three paid ones. */
  lemma CodexServable(a: Account, w: Wish, inflight: map<Token, int>, reserved: map<Token, int>, most: int)
    requires w.needCodex
    ensures var busy := if a.token in inflight then inflight[a.token] else 0;
            Eligible(a, w, inflight, reserved, most) <==>
              && a.token != "" && a.token !in w.excluded && !a.pendingDelete
              && (a.health == Normal || (a.health == Limited && a.reset.At? && a.reset.time <= w.now))
              && !a.quotaUnknown && a.quota >= 1 && a.sourceType == "codex"
              && (a.planType == w.plan != "" || (w.plan == "" && a.planType in {"plus", "team", "pro"}))
              && busy + 1 <= most
  {
  }

  /** A pick never pushes the count past the cap. */
  lemma PickStaysUnderCap(at: nat, accounts: seq<Account>, start: nat, w: Wish,
                          inflight: map<Token, int>, reserved: map<Token, int>, most: int)
    requires IsPick(at, accounts, start, w, inflight, reserved, most)
    ensures Count(inflight, accounts[at].token) + 1 <= most
  {
  }

  /** There are candidates as soon as one account is eligible. */
  lemma NoneEligible(accounts: seq<Account>, start: nat, w: Wish,
                     inflight: map<Token, int>, reserved: map<Token, int>, most: int)
    requires AreCandidates([], |accounts|, accounts, start, w, inflight, reserved, most)
    ensures forall i :: 0 <= i < |accounts| ==> !Eligible(accounts[i], w, inflight, reserved, most)
  {
    forall i | 0 <= i < |accounts| ensures !Eligible(accounts[i], w, inflight, reserved, most) {
      LapVisitsOnce(start, i, StepsTo(start, i, |accounts|), |accounts|);
    }
  }

  /** The candidates, sorted, and the first of them: its position, or why there is none. */
  method Choose(accounts: seq<Account>, start: nat, w: Wish,
                inflight: map<Token, int>, reserved: map<Token, int>, most: int)
    returns (at: Option<nat>, error: PickError)
    ensures at.None? <==> forall i :: 0 <= i < |accounts| ==> !Eligible(accounts[i], w, inflight, reserved, most)
    ensures at.Some? ==> IsPick(at.value, accounts, start, w, inflight, reserved, most)
    ensures error == if w.needCodex then NoCodexAccount
                     else if SomeUploadBlocked(accounts, w, reserved) then NoUploadQuota
                     else NoImageQuota
  {
    var cs, uploadBlocked := Candidates(accounts, start, w, inflight, reserved, most);
    error := if w.needCodex then NoCodexAccount
             else if w.uploads > 0 && uploadBlocked then NoUploadQuota
             else NoImageQuota;
    if cs == [] {
      NoneEligible(accounts, start, w, inflight, reserved, most);
      return None, error;
    }
    BestExists(cs, Uploads(w));
    var chosen :| chosen in cs && IsBest(cs, chosen, Uploads(w));
    BestIsPick(cs, chosen, accounts, start, w, inflight, reserved, most);
    at := Some(chosen.idx);
  }

  // ---------- Counting who holds what ----------

  ghost function Bag(who: map<Token, multiset<Holder>>, t: Token): multiset<Holder> {
    if t in who then who[t] else multiset{}
  }

  /** The map counts exactly what is outstanding and holds no zeros. */
  ghost predicate Tallies(m: map<Token, int>, who: map<Token, multiset<Holder>>) {
    && (forall t :: Count(m, t) == |Bag(who, t)|)
    && (forall t :: t in m ==> m[t] > 0)
  }

  /** m[t] += n on a Go map. */
  function Plus(m: map<Token, int>, t: Token, n: int): map<Token, int> {
    m[t := Count(m, t) + n]
  }

  /** A count that would drop to zero or below is deleted. */
  function Minus(m: map<Token, int>, t: Token, n: int): map<Token, int> {
    if Count(m, t) <= n then m - {t} else m[t := Count(m, t) - n]
  }

  ghost function Given(who: map<Token, multiset<Holder>>, t: Token, h: Holder, n: nat): map<Token, multiset<Holder>> {
    if n == 0 then who else who[t := Bag(who, t)[h := Bag(who, t)[h] + n]]
  }

  ghost function Taken(who: map<Token, multiset<Holder>>, t: Token, h: Holder, n: nat): map<Token, multiset<Holder>>
    requires Bag(who, t)[h] >= n
  {
    if n == 0 then who else who[t := Bag(who, t)[h := Bag(who, t)[h] - n]]
  }

  /** What a pick reserves, besides one slot. */
  function Weight(w: Wish): nat {
    if Uploads(w) then w.uploads else 0
  }

  function Reserving(m: map<Token, int>, t: Token, w: Wish): map<Token, int> {
    if Uploads(w) then Plus(m, t, w.uploads) else m
  }

  lemma TakingTallies(m: map<Token, int>, who: map<Token, multiset<Holder>>, t: Token, h: Holder, n: nat)
    requires Tallies(m, who) && n > 0
    ensures Tallies(Plus(m, t, n), Given(who, t, h, n))
  {
    forall u ensures Count(Plus(m, t, n), u) == |Bag(Given(who, t, h, n), u)| {
      assert Count(m, u) == |Bag(who, u)|;
    }
  }

  /** Handing back part of what one holder has never drives a count below zero. */
  lemma GivingTallies(m: map<Token, int>, who: map<Token, multiset<Holder>>, t: Token, h: Holder, n: nat)
    requires Tallies(m, who) && n > 0 && Bag(who, t)[h] >= n
    ensures Count(m, t) >= n
    ensures Tallies(Minus(m, t, n), Taken(who, t, h, n))
  {
    assert Count(m, t) == |Bag(who, t)|;
    assert |Bag(who, t)| >= Bag(who, t)[h] by {
      assert |Bag(Taken(who, t, h, n), t)| == |Bag(who, t)| - n;
    }
    forall u ensures Count(Minus(m, t, n), u) == |Bag(Taken(who, t, h, n), u)| {
      assert Count(m, u) == |Bag(who, u)|;
    }
  }

  /** What one holder has on each token. */
  ghost predicate Has(who: map<Token, multiset<Holder>>, me: Holder, mine: multiset<Token>) {
    forall t :: Bag(who, t)[me] == mine[t]
  }

  lemma GivenHas(who: map<Token, multiset<Holder>>, me: Holder, mine: multiset<Token>, t: Token, n: nat)
    requires Has(who, me, mine)
    ensures Has(Given(who, t, me, n), me, mine[t := mine[t] + n])
  {
    assert Bag(who, t)[me] == mine[t];
    forall u ensures Bag(Given(who, t, me, n), u)[me] == mine[t := mine[t] + n][u] {
      assert Bag(who, u)[me] == mine[u];
    }
  }

  lemma TakenHas(who: map<Token, multiset<Holder>>, me: Holder, mine: multiset<Token>, t: Token, n: nat)
    requires Has(who, me, mine) && mine[t] >= n
    ensures Bag(who, t)[me] >= n
    ensures Has(Taken(who, t, me, n), me, mine[t := mine[t] - n])
  {
    assert Bag(who, t)[me] == mine[t];
    forall u ensures Bag(Taken(who, t, me, n), u)[me] == mine[t := mine[t] - n][u] {
      assert Bag(who, u)[me] == mine[u];
    }
  }

  // ---------- The pool after other requests have acted ----------

  /** The counts when everyone else holds `others` and one request holds `mine`. */
  function Mixed(others: map<Token, nat>, mine: multiset<Token>): map<Token, int> {
    map t | t in others.Keys + (set x | x in mine) :: (if t in others then others[t] else 0) + mine[t]
  }

  ghost function MixedHolders(others: map<Token, nat>, mine: multiset<Token>, me: Holder)
    : map<Token, multiset<Holder>> {
    map t | t in others.Keys + (set x | x in mine) ::
      multiset{}[me := mine[t]][me + 1 := if t in others then others[t] else 0]
  }

  ghost predicate NoZeros(others: map<Token, nat>) {
    forall t :: t in others ==> others[t] > 0
  }

  lemma MixedTallies(others: map<Token, nat>, mine: multiset<Token>, me: Holder)
    requires NoZeros(others)
    ensures Tallies(Mixed(others, mine), MixedHolders(others, mine, me))
    ensures Has(MixedHolders(others, mine, me), me, mine)
  {
  }

  class Pool {
    var index: nat
    var inflight: map<Token, int>
    var uploadReserved: map<Token, int>
    var concurrency: Option<int>
    ghost var users: map<Token, multiset<Holder>>
    ghost var reservers: map<Token, multiset<Holder>>

    /** The requests that count on a token, each as often as it took it. */
    ghost function Users(t: Token): multiset<Holder>
      reads this
    {
      Bag(users, t)
    }

    /** The requests that reserved uploads of a token, each once per upload. */
    ghost function Reservers(t: Token): multiset<Holder>
      reads this
    {
      Bag(reservers, t)
    }

    ghost predicate Valid()
      reads this
    {
      Tallies(inflight, users) && Tallies(uploadReserved, reservers)
    }

    /** ImageAccountConcurrency, three when it is not configured. */
    function Most(): int
      reads this
    {
      if concurrency.Some? && concurrency.value >= 1 then concurrency.value else 3
    }

    constructor (concurrency: Option<int>)
      ensures Valid() && inflight == map[] && uploadReserved == map[] && index == 0
      ensures forall t :: Users(t) == multiset{} && Reservers(t) == multiset{}
    {
      index, inflight, uploadReserved, this.concurrency := 0, map[], map[], concurrency;
      users, reservers := map[], map[];
    }

    /** pickTokenExcludingForUploads. The token goes to the unique best of exactly the eligible
        accounts; there is an error exactly when no account is eligible, and then nothing changes. */
    method Pick(accounts: seq<Account>, w: Wish, ghost me: Holder) returns (r: Picked, at: nat)
      requires Valid()
      modifies this
      ensures Valid() && concurrency == old(concurrency)
      ensures r.Failed? <==>
                forall i :: 0 <= i < |accounts| ==>
                  !Eligible(accounts[i], w, old(inflight), old(uploadReserved), old(Most()))
      ensures r.Failed? ==>
                && unchanged(this)
                && r.error == if w.needCodex then NoCodexAccount
                              else if SomeUploadBlocked(accounts, w, uploadReserved) then NoUploadQuota
                              else NoImageQuota
      ensures r.Token? ==>
                && IsPick(at, accounts, old(index), w, old(inflight), old(uploadReserved), old(Most()))
                && accounts[at].token == r.token && index == (at + 1) % |accounts|
                && inflight == Plus(old(inflight), r.token, 1)
                && uploadReserved == Reserving(old(uploadReserved), r.token, w)
                && users == Given(old(users), r.token, me, 1)
                && reservers == Given(old(reservers), r.token, me, Weight(w))
    {
      var chosen, error := Choose(accounts, index, w, inflight, uploadReserved, Most());
      at := 0;
      if chosen.None? {
        return Failed(error), at;
      }
      at := chosen.value;
      r := Token(accounts[at].token);
      index := (at + 1) % |accounts|;
      Take(r.token, w, me);
    }

    /** The bookkeeping of a successful pick. */
    method Take(token: Token, w: Wish, ghost me: Holder)
      requires Valid()
      modifies this`inflight, this`users, this`uploadReserved, this`reservers
      ensures Valid()
      ensures inflight == Plus(old(inflight), token, 1) && users == Given(old(users), token, me, 1)
      ensures uploadReserved == Reserving(old(uploadReserved), token, w)
      ensures reservers == Given(old(reservers), token, me, Weight(w))
    {
      TakeSlot(token, me);
      if w.uploads > 0 && !w.needCodex {
        ReserveUploads(token, w.uploads, me);
      }
    }

    method TakeSlot(token: Token, ghost me: Holder)
      requires Valid()
      modifies this`inflight, this`users
      ensures Valid()
      ensures inflight == Plus(old(inflight), token, 1) && users == Given(old(users), token, me, 1)
    {
      TakingTallies(inflight, users, token, me, 1);
      inflight := Plus(inflight, token, 1);
      users := Given(users, token, me, 1);
    }

    method ReserveUploads(token: Token, n: nat, ghost me: Holder)
      requires Valid() && n > 0
      modifies this`uploadReserved, this`reservers
      ensures Valid()
      ensures uploadReserved == Plus(old(uploadReserved), token, n)
      ensures reservers == Given(old(reservers), token, me, n)
    {
      TakingTallies(uploadReserved, reservers, token, me, n);
      uploadReserved := Plus(uploadReserved, token, n);
      reservers := Given(reservers, token, me, n);
    }

    /** releaseToken, by a request that holds the token. */
    method ReleaseToken(token: Token, ghost me: Holder)
      requires Valid() && me in Users(token)
      modifies this`inflight, this`users
      ensures Valid()
      ensures inflight == Minus(old(inflight), token, 1) && users == Taken(old(users), token, me, 1)
    {
      GivingTallies(inflight, users, token, me, 1);
      var v := Count(inflight, token);
      if v <= 1 {
        inflight := inflight - {token};
      } else {
        inflight := inflight[token := v - 1];
      }
      users := Taken(users, token, me, 1);
    }

    method RetainToken(token: Token, ghost me: Holder)
      requires Valid()
      modifies this`inflight, this`users
      ensures Valid()
      ensures token == "" ==> unchanged(this)
      ensures token != "" ==> inflight == Plus(old(inflight), token, 1) && users == Given(old(users), token, me, 1)
    {
      if token == "" {
        return;
      }
      TakeSlot(token, me);
    }

    /** releaseUploadReservation, by a request that reserved at least `n` uploads. */
    method ReleaseUploadReservation(token: Token, n: int, ghost me: Holder)
      requires Valid() && (token != "" && n > 0 ==> Reservers(token)[me] >= n)
      modifies this`uploadReserved, this`reservers
      ensures Valid()
      ensures token == "" || n <= 0 ==> unchanged(this)
      ensures token != "" && n > 0 ==>
                && uploadReserved == Minus(old(uploadReserved), token, n)
                && reservers == Taken(old(reservers), token, me, n)
    {
      if token == "" || n <= 0 {
        return;
      }
      var v := Count(uploadReserved, token);
      GivingTallies(uploadReserved, reservers, token, me, n);
      if v <= n {
        uploadReserved := uploadReserved - {token};
      } else {
        uploadReserved := uploadReserved[token := v - n];
      }
      reservers := Taken(reservers, token, me, n);
    }

    function ActiveCount(token: Token): (n: int)
      reads this
      ensures Valid() ==> n == |Users(token)|
    {
      Count(inflight, token)
    }

    /** When nobody holds anything, both maps are empty. */
    lemma IdleIsEmpty()
      requires Valid()
      requires forall t :: Users(t) == multiset{} && Reservers(t) == multiset{}
      ensures inflight == map[] && uploadReserved == map[]
    {
      forall t ensures t !in inflight && t !in uploadReserved {
        assert Count(inflight, t) == |Users(t)| && Count(uploadReserved, t) == |Reservers(t)|;
      }
    }
  }
}
