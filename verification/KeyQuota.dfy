/** Image and chat quotas of the API keys (internal/app/auth.go). */
module KeyQuota {
  import opened Common

  datatype Counter = Counter(quota: int, used: int, unlimited: bool)

  /** The three counters of one kind and the periods the first two were last reset in. */
  datatype Meter = Meter(daily: Counter, monthly: Counter, total: Counter, dayKey: string, monthKey: string)

  datatype UserKey = UserKey(id: string, image: Meter, chat: Meter)

  type Keys = seq<UserKey>

  /** What todayKey() and monthKey() answer during one call. */
  datatype Clock = Clock(day: string, month: string)

  predicate Enough(c: Counter, n: int) {
    c.unlimited || c.quota - c.used >= n
  }

  function RolledMeter(m: Meter, now: Clock): Meter {
    m.(daily := if m.dayKey != now.day then m.daily.(used := 0) else m.daily,
       dayKey := now.day,
       monthly := if m.monthKey != now.month then m.monthly.(used := 0) else m.monthly,
       monthKey := now.month)
  }

  function Rolled(k: UserKey, now: Clock): UserKey {
    k.(image := RolledMeter(k.image, now), chat := RolledMeter(k.chat, now))
  }

  function Spend(c: Counter, n: int): Counter {
    c.(used := c.used + n)
  }

  function GiveBack(c: Counter, n: int): Counter {
    c.(used := MaxInt(0, c.used - n))
  }

  predicate MeterAllows(m: Meter, n: int) {
    Enough(m.daily, n) && Enough(m.monthly, n) && Enough(m.total, n)
  }

  function MeterSpend(m: Meter, n: int): Meter {
    m.(daily := Spend(m.daily, n), monthly := Spend(m.monthly, n), total := Spend(m.total, n))
  }

  function MeterGiveBack(m: Meter, n: int): Meter {
    m.(daily := GiveBack(m.daily, n), monthly := GiveBack(m.monthly, n), total := GiveBack(m.total, n))
  }

  function MeterOf(k: UserKey, image: bool): Meter {
    if image then k.image else k.chat
  }

  function WithMeter(k: UserKey, image: bool, m: Meter): UserKey {
    if image then k.(image := m) else k.(chat := m)
  }

  /** Position of a key, or the length of the list. */
  function IndexOf(keys: Keys, id: string): (i: nat)
    ensures i <= |keys|
    ensures i < |keys| ==> keys[i].id == id
    ensures forall j :: 0 <= j < i ==> keys[j].id != id
  {
    if keys == [] || keys[0].id == id then 0 else 1 + IndexOf(keys[1..], id)
  }

  predicate HasKey(keys: Keys, id: string) {
    IndexOf(keys, id) < |keys|
  }

  function AtLeastOne(n: int): int {
    if n < 1 then 1 else n
  }

  predicate Charges(keys: Keys, id: string, n: int, image: bool, now: Clock) {
    var i := IndexOf(keys, id);
    i < |keys| && MeterAllows(MeterOf(Rolled(keys[i], now), image), AtLeastOne(n))
  }

  function Consume(keys: Keys, id: string, n: int, image: bool, now: Clock): Keys {
    if Charges(keys, id, n, image, now) then
      var i := IndexOf(keys, id);
      var k := Rolled(keys[i], now);
      keys[i := WithMeter(k, image, MeterSpend(MeterOf(k, image), AtLeastOne(n)))]
    else
      keys
  }

  function Refund(keys: Keys, id: string, n: int, image: bool): Keys {
    var i := IndexOf(keys, id);
    if i < |keys| then
      keys[i := WithMeter(keys[i], image, MeterGiveBack(MeterOf(keys[i], image), n))]
    else
      keys
  }

  class KeyStore {
    var keys: Keys

    constructor (initial: Keys)
      ensures keys == initial
    {
      keys := initial;
    }

    method ConsumeQuota(id: string, n: int, image: bool, now: Clock) returns (consumed: bool)
      modifies this
      ensures keys == Consume(old(keys), id, n, image, now)
      ensures consumed == Charges(old(keys), id, n, image, now)
    {
      var amount := n;
      if amount < 1 {
        amount := 1;
      }
      for i := 0 to |keys|
        invariant keys == old(keys)
        invariant forall j :: 0 <= j < i ==> keys[j].id != id
      {
        var k := keys[i];
        if k.id != id {
          continue;
        }
        assert i == IndexOf(keys, id) by { FirstIndex(keys, id, i); }
        k := ResetPeriods(k, now);
        if image {
          if !Enough(k.image.daily, amount) || !Enough(k.image.monthly, amount) || !Enough(k.image.total, amount) {
            return false;
          }
          k := k.(image := k.image.(
            daily := k.image.daily.(used := k.image.daily.used + amount),
            monthly := k.image.monthly.(used := k.image.monthly.used + amount),
            total := k.image.total.(used := k.image.total.used + amount)));
        } else {
          if !Enough(k.chat.daily, amount) || !Enough(k.chat.monthly, amount) || !Enough(k.chat.total, amount) {
            return false;
          }
          k := k.(chat := k.chat.(
            daily := k.chat.daily.(used := k.chat.daily.used + amount),
            monthly := k.chat.monthly.(used := k.chat.monthly.used + amount),
            total := k.chat.total.(used := k.chat.total.used + amount)));
        }
        keys := keys[i := k];
        return true;
      }
      FirstIndex(keys, id, |keys|);
      return false;
    }

    method RefundQuota(id: string, n: int, image: bool)
      modifies this
      ensures keys == Refund(old(keys), id, n, image)
    {
      for i := 0 to |keys|
        invariant keys == old(keys)
        invariant forall j :: 0 <= j < i ==> keys[j].id != id
      {
        var k := keys[i];
        if k.id != id {
          continue;
        }
        assert i == IndexOf(keys, id) by { FirstIndex(keys, id, i); }
        if image {
          k := k.(image := k.image.(
            daily := k.image.daily.(used := MaxInt(0, k.image.daily.used - n)),
            monthly := k.image.monthly.(used := MaxInt(0, k.image.monthly.used - n)),
            total := k.image.total.(used := MaxInt(0, k.image.total.used - n))));
        } else {
          k := k.(chat := k.chat.(
            daily := k.chat.daily.(used := MaxInt(0, k.chat.daily.used - n)),
            monthly := k.chat.monthly.(used := MaxInt(0, k.chat.monthly.used - n)),
            total := k.chat.total.(used := MaxInt(0, k.chat.total.used - n))));
        }
        keys := keys[i := k];
        return;
      }
      FirstIndex(keys, id, |keys|);
    }

    method ResetPeriods(key: UserKey, now: Clock) returns (k: UserKey)
      ensures k == Rolled(key, now)
    {
      k := key;
      if k.image.dayKey != now.day {
        k := k.(image := k.image.(daily := k.image.daily.(used := 0), dayKey := now.day));
      }
      if k.chat.dayKey != now.day {
        k := k.(chat := k.chat.(daily := k.chat.daily.(used := 0), dayKey := now.day));
      }
      if k.image.monthKey != now.month {
        k := k.(image := k.image.(monthly := k.image.monthly.(used := 0), monthKey := now.month));
      }
      if k.chat.monthKey != now.month {
        k := k.(chat := k.chat.(monthly := k.chat.monthly.(used := 0), monthKey := now.month));
      }
    }
  }

  lemma FirstIndex(keys: Keys, id: string, i: nat)
    requires i <= |keys| && (i < |keys| ==> keys[i].id == id)
    requires forall j :: 0 <= j < i ==> keys[j].id != id
    ensures IndexOf(keys, id) == i
  {
  }

  // ---------- What the counters promise ----------

  /** A limited counter stays between nothing and its quota. */
  predicate InBounds(c: Counter) {
    0 <= c.used && (!c.unlimited ==> c.used <= c.quota)
  }

  predicate MeterInBounds(m: Meter) {
    InBounds(m.daily) && InBounds(m.monthly) && InBounds(m.total)
  }

  predicate NoNegativeQuota(m: Meter) {
    m.daily.quota >= 0 && m.monthly.quota >= 0 && m.total.quota >= 0
  }

  predicate KeyInBounds(k: UserKey) {
    && MeterInBounds(k.image) && NoNegativeQuota(k.image)
    && MeterInBounds(k.chat) && NoNegativeQuota(k.chat)
  }

  predicate AllInBounds(keys: Keys) {
    forall j :: 0 <= j < |keys| ==> KeyInBounds(keys[j])
  }

  /** A request's charge, or a refund behind the n <= 0 guard of refundImage and refundChat. */
  datatype Op = DoConsume(id: string, n: int, image: bool, now: Clock) | DoRefund(id: string, n: int, image: bool)

  function Do(keys: Keys, op: Op): Keys {
    match op
    case DoConsume(id, n, image, now) => Consume(keys, id, n, image, now)
    case DoRefund(id, n, image) => if n <= 0 then keys else Refund(keys, id, n, image)
  }

  function DoAll(keys: Keys, ops: seq<Op>): Keys
    decreases |ops|
  {
    if ops == [] then keys else DoAll(Do(keys, ops[0]), ops[1..])
  }

  /** Any run of charges and refunds, over any sequence of days and months, keeps every
      limited counter within [0, quota]. */
  lemma {:induction false} CountersStayInBounds(keys: Keys, ops: seq<Op>)
    requires AllInBounds(keys)
    ensures AllInBounds(DoAll(keys, ops))
    decreases |ops|
  {
    if ops != [] {
      OneOpStaysInBounds(keys, ops[0]);
      CountersStayInBounds(Do(keys, ops[0]), ops[1..]);
    }
  }

  lemma OneOpStaysInBounds(keys: Keys, op: Op)
    requires AllInBounds(keys)
    ensures AllInBounds(Do(keys, op))
  {
    var i := IndexOf(keys, op.id);
    if i < |keys| {
      assert KeyInBounds(keys[i]);
      if op.DoConsume? {
        if Charges(keys, op.id, op.n, op.image, op.now) {
          SpendInBounds(keys[i], op.n, op.image, op.now);
        }
      } else if op.n > 0 {
        GiveBackInBounds(keys[i], op.n, op.image);
      }
    }
  }

  lemma SpendInBounds(key: UserKey, n: int, image: bool, now: Clock)
    requires KeyInBounds(key) && MeterAllows(MeterOf(Rolled(key, now), image), AtLeastOne(n))
    ensures var k := Rolled(key, now);
            KeyInBounds(WithMeter(k, image, MeterSpend(MeterOf(k, image), AtLeastOne(n))))
  {
  }

  lemma GiveBackInBounds(key: UserKey, n: int, image: bool)
    requires KeyInBounds(key) && n > 0
    ensures KeyInBounds(WithMeter(key, image, MeterGiveBack(MeterOf(key, image), n)))
  {
  }

  /** A charge is accepted exactly when every limited counter would still be within its quota. */
  lemma ChargeAcceptedIffItFits(keys: Keys, id: string, n: int, image: bool, now: Clock)
    requires AllInBounds(keys)
    ensures Charges(keys, id, n, image, now) <==>
              HasKey(keys, id)
              && MeterInBounds(MeterSpend(MeterOf(Rolled(keys[IndexOf(keys, id)], now), image), AtLeastOne(n)))
    ensures Charges(keys, id, n, image, now) <==>
              HasKey(keys, id) &&
              var k := keys[IndexOf(keys, id)];
              var m := if image then k.image else k.chat;
              var amount := if n >= 1 then n else 1;
              && (m.daily.unlimited || (if m.dayKey == now.day then m.daily.used else 0) + amount <= m.daily.quota)
              && (m.monthly.unlimited
                  || (if m.monthKey == now.month then m.monthly.used else 0) + amount <= m.monthly.quota)
              && (m.total.unlimited || m.total.used + amount <= m.total.quota)
  {
    if HasKey(keys, id) {
      assert KeyInBounds(keys[IndexOf(keys, id)]);
    }
  }

  /** A charge is all or nothing: it either moves all three counters of one kind by the same
      amount, or leaves the whole key list, periods included, as it was. */
  lemma ChargeIsAllOrNothing(keys: Keys, id: string, n: int, image: bool, now: Clock)
    ensures !Charges(keys, id, n, image, now) ==> Consume(keys, id, n, image, now) == keys
    ensures Charges(keys, id, n, image, now) ==>
              var i := IndexOf(keys, id);
              var after := Consume(keys, id, n, image, now);
              var was := MeterOf(keys[i], image);
              var got := MeterOf(after[i], image);
              && |after| == |keys|
              && (forall j :: 0 <= j < |keys| && j != i ==> after[j] == keys[j])
              && got.total.used == was.total.used + AtLeastOne(n)
              && got.daily.used == (if was.dayKey == now.day then was.daily.used else 0) + AtLeastOne(n)
              && got.monthly.used == (if was.monthKey == now.month then was.monthly.used else 0) + AtLeastOne(n)
              && got.dayKey == now.day && got.monthKey == now.month && SameLimits(was, got)
              && RolledOnly(MeterOf(keys[i], !image), MeterOf(after[i], !image), now)
  {
  }

  /** No quota has changed. */
  predicate SameLimits(m: Meter, k: Meter) {
    && k.daily == m.daily.(used := k.daily.used) && k.monthly == m.monthly.(used := k.monthly.used)
    && k.total == m.total.(used := k.total.used)
  }

  /** A new day or month has started the counters of its period at zero, and nothing else has happened. */
  predicate RolledOnly(m: Meter, k: Meter, now: Clock) {
    && SameLimits(m, k) && k.dayKey == now.day && k.monthKey == now.month && k.total.used == m.total.used
    && k.daily.used == (if m.dayKey == now.day then m.daily.used else 0)
    && k.monthly.used == (if m.monthKey == now.month then m.monthly.used else 0)
  }

  /** A refund lowers the three counters of one kind of one key, none below zero, and touches nothing else: not the
      other kind, no quota, no period and no other key. */
  lemma RefundTouchesOneMeter(keys: Keys, id: string, n: nat, image: bool)
    requires AllInBounds(keys)
    ensures var i := IndexOf(keys, id);
            var after := Refund(keys, id, n, image);
            && |after| == |keys| && (forall j :: 0 <= j < |keys| && j != i ==> after[j] == keys[j])
            && (i < |keys| ==>
                  var was := MeterOf(keys[i], image);
                  var got := MeterOf(after[i], image);
                  && after[i].id == id && MeterOf(after[i], !image) == MeterOf(keys[i], !image)
                  && SameLimits(was, got) && got.dayKey == was.dayKey && got.monthKey == was.monthKey
                  && got.daily.used == (if was.daily.used >= n then was.daily.used - n else 0)
                  && got.monthly.used == (if was.monthly.used >= n then was.monthly.used - n else 0)
                  && got.total.used == if was.total.used >= n then was.total.used - n else 0)
  {
    var i := IndexOf(keys, id);
    assert i < |keys| ==> KeyInBounds(keys[i]);
  }

  function ImageTotalUsed(keys: Keys, id: string): int {
    var i := IndexOf(keys, id);
    if i < |keys| then keys[i].image.total.used else 0
  }

  /** The effect of the two operations on one lifetime image counter. */
  lemma {:induction false} TotalAfterConsume(keys: Keys, id: string, n: int, now: Clock, k: string)
    ensures ImageTotalUsed(Consume(keys, id, n, true, now), k)
         == ImageTotalUsed(keys, k) + if k == id && Charges(keys, id, n, true, now) then AtLeastOne(n) else 0
    ensures HasKey(Consume(keys, id, n, true, now), k) <==> HasKey(keys, k)
  {
    SameIds(keys, Consume(keys, id, n, true, now), k);
  }

  lemma {:induction false} TotalAfterRefund(keys: Keys, id: string, n: int, k: string)
    ensures ImageTotalUsed(Refund(keys, id, n, true), k)
         == if k == id && HasKey(keys, id) then MaxInt(0, ImageTotalUsed(keys, k) - n) else ImageTotalUsed(keys, k)
    ensures HasKey(Refund(keys, id, n, true), k) <==> HasKey(keys, k)
  {
    SameIds(keys, Refund(keys, id, n, true), k);
  }

  lemma {:induction false} SameIds(a: Keys, b: Keys, k: string)
    requires |a| == |b| && forall j :: 0 <= j < |a| ==> a[j].id == b[j].id
    ensures IndexOf(a, k) == IndexOf(b, k)
  {
    FirstIndex(b, k, IndexOf(a, k));
  }

  /** Why conservation is stated for the lifetime counter only. A key is charged `a`, later `b`, and then the
      `a` is refunded. Compared with never having charged it, the lifetime counter always comes out the same,
      the daily one exactly if both charges fell on one day, and the monthly one exactly if they fell in one
      month: a refund is taken from the current period, whenever the charge was made. */
  lemma RefundIsNeutralIff(keys: Keys, id: string, a: int, b: int, image: bool, first: Clock, second: Clock)
    requires a >= 1 && HasKey(keys, id) && KeyInBounds(keys[IndexOf(keys, id)])
    requires Charges(keys, id, a, image, first) && Charges(keys, id, b, image, second)
    requires Charges(Consume(keys, id, a, image, first), id, b, image, second)
    ensures var i := IndexOf(keys, id);
            var spent := Consume(Consume(keys, id, a, image, first), id, b, image, second);
            var got := MeterOf(Refund(spent, id, a, image)[i], image);
            var want := MeterOf(Consume(keys, id, b, image, second)[i], image);
            && got.total.used == want.total.used
            && (got.daily.used == want.daily.used <==> first.day == second.day)
            && (got.monthly.used == want.monthly.used <==> first.month == second.month)
  {
    var one := Consume(keys, id, a, image, first);
    SameIds(keys, one, id);
    SameIds(keys, Consume(one, id, b, image, second), id);
    SameIds(keys, Consume(keys, id, b, image, second), id);
  }

  /** Such charges exist. */
  lemma RefundCrossesMidnight(k: UserKey, today: Clock, tomorrow: Clock)
    requires KeyInBounds(k) && today.day != tomorrow.day
    requires k.image.daily.unlimited && k.image.monthly.unlimited && k.image.total.unlimited
    ensures var spent := Consume(Consume([k], k.id, 2, true, today), k.id, 1, true, tomorrow);
            spent[0].image.daily.used == 1 && Refund(spent, k.id, 2, true)[0].image.daily.used == 0
  {
    var one := Consume([k], k.id, 2, true, today);
    assert IndexOf([k], k.id) == 0;
    assert IndexOf(one, k.id) == 0;
    assert IndexOf(Consume(one, k.id, 1, true, tomorrow), k.id) == 0;
  }
}
