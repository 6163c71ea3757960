/** The mail-domain blacklist and its JSON file
    (register-executor/services/register/mail_provider.py, lines 218-486). */
module DomainBlacklist {
  import opened Common
  import opened Text

  // ---------- Domains ----------

  predicate IsAt(c: char) { c == '@' }

  predicate IsDot(c: char) { c == '.' }

  /** text.rsplit("@", 1)[1] */
  function AfterLastAt(s: string): string {
    if s == "" || s[|s| - 1] == '@' then "" else AfterLastAt(s[..|s| - 1]) + [s[|s| - 1]]
  }

  /** _normalize_domain */
  function Normalize(value: string): string {
    var t := Lower(Strip(value));
    var u := if '@' in t then AfterLastAt(t) else t;
    Trim(Strip(TrimLeft(u, IsAt)), IsDot)
  }

  predicate Plain(s: string) {
    forall c :: c in s ==> c != '@' && LowerChar(c) == c
  }

  lemma {:induction false} AfterLastAtIsPlain(s: string)
    requires forall c :: c in s ==> LowerChar(c) == c
    ensures Plain(AfterLastAt(s))
  {
    if s != "" && s[|s| - 1] != '@' {
      AfterLastAtIsPlain(s[..|s| - 1]);
    }
  }

  lemma TrimIsPlain(s: string, drop: char -> bool)
    requires Plain(s)
    ensures Plain(Trim(s, drop)) && Plain(TrimLeft(s, drop))
  {
    TrimMembers(s, drop);
  }

  lemma NormalIsPlain(value: string)
    ensures Plain(Normalize(value)) && Trimmed(Normalize(value), IsDot)
  {
    var t := Lower(Strip(value));
    assert forall c :: c in t ==> LowerChar(c) == c;
    AfterLastAtIsPlain(t);
    var u := if '@' in t then AfterLastAt(t) else t;
    TrimIsPlain(u, IsAt);
    TrimIsPlain(TrimLeft(u, IsAt), IsPySpace);
    TrimIsPlain(Strip(TrimLeft(u, IsAt)), IsDot);
    TrimFixes(Strip(TrimLeft(u, IsAt)), IsDot);
  }

  lemma {:induction false} AfterTheAt(a: string, d: string)
    requires '@' !in d
    ensures AfterLastAt(a + "@" + d) == d
  {
    var s := a + "@" + d;
    if d != "" {
      var n := |d| - 1;
      assert d[n] in d && forall c :: c in d[..n] ==> c in d;
      AfterTheAt(a, d[..n]);
      assert s[..|s| - 1] == a + "@" + d[..n] && s[|s| - 1] == d[n];
      assert d == d[..n] + [d[n]];
    }
  }

  /** A domain is known by its lower-case form, whether it is given alone, with a dot behind it, or as the end of a
      mail address. */
  lemma NormalizeMeans(user: string, v: string)
    requires v != "" && '@' !in v && Trimmed(v, IsPySpace) && Trimmed(v, IsDot)
    requires user == "" || !IsPySpace(user[0])
    ensures Normalize(v) == Lower(v) && Normalize(v + ".") == Lower(v) && Normalize(user + "@" + v) == Lower(v)
  {
    LowerEnds(v);
    PlainEnds(Lower(v));
    DotBehind(Lower(v));
    StripsNothing(v);
    StripsNothing(v + ".");
    assert Lower(v + ".") == Lower(v) + ".";
    MailEnds(user, v);
  }

  lemma StripsNothing(s: string)
    requires Trimmed(s, IsPySpace)
    ensures Strip(s) == s
  {
    TrimFixes(s, IsPySpace);
  }

  lemma LowerEnds(v: string)
    requires v != "" && '@' !in v && Trimmed(v, IsPySpace) && Trimmed(v, IsDot)
    ensures var d := Lower(v);
            d != "" && '@' !in d && Trimmed(d, IsPySpace) && Trimmed(d, IsDot)
  {
    var d := Lower(v);
    forall c | c in d ensures c != '@' {
      var i :| 0 <= i < |d| && d[i] == c;
      assert v[i] in v;
    }
  }

  lemma MailEnds(user: string, v: string)
    requires v != "" && '@' !in v && Trimmed(v, IsPySpace) && Trimmed(v, IsDot)
    requires user == "" || !IsPySpace(user[0])
    ensures Normalize(user + "@" + v) == Lower(v)
  {
    var mail := user + "@" + v;
    assert mail[|mail| - 1] == v[|v| - 1] && mail[0] == (if user == "" then '@' else user[0]);
    StripsNothing(mail);
    assert Lower(mail) == Lower(user) + "@" + Lower(v);
    assert (Lower(user) + "@" + Lower(v))[|user|] == '@';
    LowerEnds(v);
    AfterTheAt(Lower(user), Lower(v));
    PlainEnds(Lower(v));
  }

  /** Such a text is left as it is by the trimming that follows the cut at the last @. */
  lemma PlainEnds(d: string)
    requires d != "" && d[0] != '@' && Trimmed(d, IsPySpace) && Trimmed(d, IsDot)
    ensures Trim(Strip(TrimLeft(d, IsAt)), IsDot) == d
  {
    TrimFixes(d, IsPySpace);
    TrimFixes(d, IsDot);
  }

  lemma DotBehind(d: string)
    requires d != "" && d[0] != '@' && Trimmed(d, IsPySpace) && Trimmed(d, IsDot)
    ensures Trim(Strip(TrimLeft(d + ".", IsAt)), IsDot) == d
  {
    var e := d + ".";
    assert e[0] == d[0] && e[|e| - 1] == '.' && e[..|e| - 1] == d;
    TrimFixes(e, IsPySpace);
    TrimFixes(d, IsDot);
    assert TrimLeft(e, IsDot) == e && TrimLeft(d, IsDot) == d;
  }

  /** A normalised domain is read back as itself exactly when no white space hides inside its dots. */
  lemma NormalizeTwice(value: string)
    ensures Normalize(Normalize(value)) == Normalize(value) <==> Trimmed(Normalize(value), IsPySpace)
  {
    var d := Normalize(value);
    NormalIsPlain(value);
    TrimFixes(d, IsPySpace);
    if Trimmed(d, IsPySpace) {
      NormalStays(d);
    } else {
      NormalIsShorter(d);
    }
  }

  lemma NormalStays(d: string)
    requires Plain(d) && Trimmed(d, IsDot) && Trimmed(d, IsPySpace)
    ensures Normalize(d) == d
  {
    TrimFixes(d, IsPySpace);
    assert Lower(d) == d;
    TrimFixes(d, IsDot);
  }

  lemma NormalIsShorter(d: string)
    requires Plain(d) && !Trimmed(d, IsPySpace)
    ensures |Normalize(d)| < |d|
  {
    var t := Strip(d);
    TrimFixes(d, IsPySpace);
    var i := TrimIsSlice(d, IsPySpace);
    assert |t| < |d|;
    assert Lower(t) == t;
    assert '@' !in t;
    TrimLeftDrops(t, IsAt);
    var j := TrimIsSlice(TrimLeft(t, IsAt), IsPySpace);
    var k := TrimIsSlice(Strip(TrimLeft(t, IsAt)), IsDot);
  }

  /** Without white space in the given text there is none in the domain. */
  lemma SpaceFreeStays(value: string)
    requires forall c :: c in value ==> !IsPySpace(c)
    ensures Normalize(Normalize(value)) == Normalize(value)
  {
    var t := Lower(Strip(value));
    TrimMembers(value, IsPySpace);
    assert forall c :: c in t ==> !IsPySpace(c);
    AfterLastAtIsPart(t);
    var u := if '@' in t then AfterLastAt(t) else t;
    TrimMembers(u, IsAt);
    TrimMembers(TrimLeft(u, IsAt), IsPySpace);
    TrimMembers(Strip(TrimLeft(u, IsAt)), IsDot);
    NormalizeTwice(value);
  }

  lemma {:induction false} AfterLastAtIsPart(s: string)
    ensures forall c :: c in AfterLastAt(s) ==> c in s
  {
    if s != "" && s[|s| - 1] != '@' {
      AfterLastAtIsPart(s[..|s| - 1]);
    }
  }

  // ---------- Entries and their file form ----------

  datatype Entry = Entry(domain: string, manual: bool, auto: string, reason: string, provider: string,
                         hits: int, first: string, last: string)

  type Entries = map<string, Entry>

  /** One object of the file's "entries" list, missing fields read as empty. */
  datatype Raw = Raw(domain: string, source: string, autoSource: string, manual: bool, reason: string,
                     provider: string, hits: int, first: string, last: string)

  /** The shapes of the file that are told apart. */
  datatype File = Nothing | Names(names: seq<string>) | Objects(items: seq<Raw>)

  const HARD_REJECT := "openai_hard_reject"
  const PROVIDER_INVALID := "provider_invalid"

  /** The two automatic sources in use. */
  predicate Known(source: string) {
    source == HARD_REJECT || source == PROVIDER_INVALID
  }

  predicate Auto(e: Entry) {
    Strip(e.auto) != ""
  }

  predicate Blocked(e: Entry) {
    e.manual || Auto(e)
  }

  /** _yyds_blacklist_entry */
  function MakeEntry(domain: string, manual: bool, auto: string, reason: string, provider: string,
                     hits: int, first: string, last: string, now: string): Entry {
    Entry(domain, manual, Strip(auto), Strip(if reason != "" then reason else if manual then "manual" else ""),
          Strip(provider), MaxInt(0, hits), if first != "" then first else now, if last != "" then last else now)
  }

  function NewEntry(domain: string, now: string): Entry {
    MakeEntry(domain, false, "", "", "", 0, "", "", now)
  }

  function NamedEntry(domain: string, now: string): Entry {
    MakeEntry(domain, true, "", "manual", "", 0, "", "", now)
  }

  const MANUAL_PLUS := "manual+"

  /** _yyds_blacklist_source */
  function Source(e: Entry): string {
    if e.manual && Auto(e) then MANUAL_PLUS + Strip(e.auto)
    else if e.manual then "manual"
    else Strip(e.auto)
  }

  /** _yyds_blacklist_view: the automatic source is written as part of `source` only. */
  function View(e: Entry): Raw {
    Raw(Strip(e.domain), Source(e), "", e.manual, Strip(e.reason),
        Strip(e.provider), MaxInt(0, e.hits), e.first, e.last)
  }

  function ReadAuto(raw: Raw): string {
    var source := Strip(raw.source);
    var auto := Strip(raw.autoSource);
    var known := if auto == "" && Known(source) then source else auto;
    if known == "" && MANUAL_PLUS <= source then Strip(source[|MANUAL_PLUS|..]) else known
  }

  predicate ReadManual(raw: Raw) {
    raw.manual || Strip(raw.source) == "manual" || MANUAL_PLUS <= Strip(raw.source)
  }

  /** One turn of the loading loop, for an object with a domain. */
  function Read(raw: Raw, now: string): Entry {
    MakeEntry(Normalize(raw.domain), ReadManual(raw), ReadAuto(raw), Strip(raw.reason), Strip(raw.provider),
              raw.hits, raw.first, raw.last, now)
  }

  /** The entries whose file form says everything about them. */
  predicate Faithful(e: Entry) {
    && Normalize(e.domain) == e.domain != ""
    && Strip(e.auto) == e.auto && Strip(e.reason) == e.reason && Strip(e.provider) == e.provider
    && (if e.manual then e.reason != "" else Known(e.auto))
    && e.hits >= 0 && e.first != "" && e.last != ""
  }

  lemma ManualPlusTrims(auto: string)
    requires Strip(auto) == auto != ""
    ensures Strip(MANUAL_PLUS + auto) == MANUAL_PLUS + auto
  {
    TrimFixes(auto, IsPySpace);
    var s := MANUAL_PLUS + auto;
    assert s[0] == 'm' && s[|s| - 1] == auto[|auto| - 1];
    TrimFixes(s, IsPySpace);
  }

  lemma StripTwice(s: string)
    ensures Strip(Strip(s)) == Strip(s)
  {
    TrimFixes(s, IsPySpace);
    TrimFixes(Strip(s), IsPySpace);
  }

  lemma WordTrims(s: string)
    requires s == "manual" || Known(s) || s == ""
    ensures Strip(s) == s
  {
    assert Trimmed(s, IsPySpace);
    TrimFixes(s, IsPySpace);
  }

  lemma WordsTrim()
    ensures Strip("manual") == "manual" && Strip(HARD_REJECT) == HARD_REJECT
                && Strip(PROVIDER_INVALID) == PROVIDER_INVALID
    ensures Strip("") == ""
  {
    WordTrims("manual");
    WordTrims(HARD_REJECT);
    WordTrims(PROVIDER_INVALID);
    WordTrims("");
  }

  /** Manual entries keep any automatic source, as "manual+source". */
  lemma ReadsManual(e: Entry)
    requires e.manual
    ensures ReadManual(View(e)) && ReadAuto(View(e)) == Strip(e.auto)
  {
    WordsTrim();
    StripTwice(e.auto);
    if Auto(e) {
      var auto := Strip(e.auto);
      ManualPlusTrims(auto);
      assert (MANUAL_PLUS + auto)[|MANUAL_PLUS|..] == auto;
    }
  }

  /** A blocked entry that is not manual keeps its automatic source exactly when that is a known one. */
  lemma ReadsAuto(e: Entry)
    requires !e.manual && Auto(e)
    ensures Known(Strip(e.auto)) ==> ReadAuto(View(e)) == Strip(e.auto) && !ReadManual(View(e))
    ensures !Known(Strip(e.auto)) ==> ReadAuto(View(e)) != Strip(e.auto)
  {
    WordsTrim();
    StripTwice(e.auto);
    var a := Strip(e.auto);
    if !Known(a) && MANUAL_PLUS <= a {
      var i := TrimIsSlice(a[|MANUAL_PLUS|..], IsPySpace);
      assert |Strip(a[|MANUAL_PLUS|..])| < |a|;
    }
  }

  /** The file form of a blocked entry reads back as that entry exactly when the entry is faithful. */
  lemma EntryRoundTrip(e: Entry, now: string)
    requires Blocked(e) && now != "" && Normalize(e.domain) == e.domain != ""
    ensures Read(View(e), now) == e <==> Faithful(e)
  {
    StripTwice(e.reason);
    StripTwice(e.provider);
    WordsTrim();
    NormalIsPlain(e.domain);
    NormalizeTwice(e.domain);
    TrimFixes(e.domain, IsPySpace);
    if e.manual {
      ReadsManual(e);
    } else {
      ReadsAuto(e);
    }
    StripTwice(e.auto);
  }

  // ---------- Loading and saving ----------

  /** The dictionary the loading loop builds: blank domains are skipped, later items win. */
  function Built(pairs: seq<(string, Entry)>): Entries {
    if pairs == [] then map[]
    else
      var last := pairs[|pairs| - 1];
      var before := Built(pairs[..|pairs| - 1]);
      if last.0 == "" then before else before[last.0 := last.1]
  }

  function NamePairs(names: seq<string>, now: string): seq<(string, Entry)> {
    seq(|names|, i requires 0 <= i < |names| => (Normalize(names[i]), NamedEntry(Normalize(names[i]), now)))
  }

  function ItemPairs(items: seq<Raw>, now: string): seq<(string, Entry)> {
    seq(|items|, i requires 0 <= i < |items| => (Normalize(items[i].domain), Read(items[i], now)))
  }

  function OnlyBlocked(entries: Entries): Entries {
    map d | d in entries && Blocked(entries[d]) :: entries[d]
  }

  /** _load_yyds_domain_blacklist_entries */
  function Loaded(file: File, now: string): Entries {
    match file
    case Nothing => map[]
    case Names(names) => Built(NamePairs(names, now))
    case Objects(items) => OnlyBlocked(Built(ItemPairs(items, now)))
  }

  ghost predicate Distinct(order: seq<string>) {
    forall i, j :: 0 <= i < j < |order| ==> order[i] != order[j]
  }

  ghost predicate Enumerates(order: seq<string>, entries: Entries) {
    Distinct(order) && forall d :: d in order <==> d in entries && Blocked(entries[d])
  }

  ghost predicate ViewsOf(items: seq<Raw>, order: seq<string>, entries: Entries) {
    |items| == |order| && forall i :: 0 <= i < |order| ==> order[i] in entries && items[i] == View(entries[order[i]])
  }

  /** The file lists the views of exactly the blocked entries, in some order. */
  ghost predicate Holds(file: File, entries: Entries) {
    file.Objects? && exists order :: Enumerates(order, entries) && ViewsOf(file.items, order, entries)
  }

  /** Every entry is blocked, stored under its own domain, and faithful. */
  ghost predicate Sound(entries: Entries) {
    forall d :: d in entries ==> entries[d].domain == d && Blocked(entries[d]) && Faithful(entries[d])
  }

  lemma ItemReadsBack(e: Entry, now: string)
    requires Blocked(e) && Faithful(e) && now != ""
    ensures Normalize(View(e).domain) == e.domain != "" && Read(View(e), now) == e
  {
    EntryRoundTrip(e, now);
    NormalizeTwice(e.domain);
    TrimFixes(e.domain, IsPySpace);
  }

  /** Every pair is an entry under its own key. */
  ghost predicate PairsOf(pairs: seq<(string, Entry)>, order: seq<string>, entries: Entries) {
    && |pairs| == |order|
    && forall i :: 0 <= i < |order| ==>
         order[i] in entries && order[i] != "" && pairs[i] == (order[i], entries[order[i]])
  }

  lemma ViewsReadBack(items: seq<Raw>, order: seq<string>, entries: Entries, now: string)
    requires Sound(entries) && ViewsOf(items, order, entries) && now != ""
    ensures PairsOf(ItemPairs(items, now), order, entries)
  {
    forall i | 0 <= i < |order|
      ensures order[i] != "" && ItemPairs(items, now)[i] == (order[i], entries[order[i]])
    {
      ItemReadsBack(entries[order[i]], now);
    }
  }

  function Restricted(entries: Entries, order: seq<string>): Entries {
    map d | d in entries && d in order :: entries[d]
  }

  lemma RestrictedGrows(entries: Entries, order: seq<string>, n: nat)
    requires n < |order| && order[n] in entries
    ensures Restricted(entries, order[..n + 1]) == Restricted(entries, order[..n])[order[n] := entries[order[n]]]
  {
    assert order[..n + 1] == order[..n] + [order[n]];
  }

  lemma {:induction false} BuiltBack(pairs: seq<(string, Entry)>, order: seq<string>, entries: Entries)
    requires PairsOf(pairs, order, entries)
    ensures Built(pairs) == Restricted(entries, order)
  {
    if pairs != [] {
      var n := |pairs| - 1;
      RestrictedGrows(entries, order, n);
      assert order[..n + 1] == order;
      BuiltBack(pairs[..n], order[..n], entries);
    }
  }

  lemma AllBlocked(order: seq<string>, entries: Entries)
    requires Enumerates(order, entries) && forall d :: d in entries ==> Blocked(entries[d])
    ensures OnlyBlocked(Restricted(entries, order)) == entries
  {
    forall d | d in entries ensures d in Restricted(entries, order) {
    }
  }

  /** Saving and loading is the identity on sound entries. */
  lemma SaveThenLoad(file: File, entries: Entries, now: string)
    requires Sound(entries) && Holds(file, entries) && now != ""
    ensures Loaded(file, now) == entries
  {
    var order :| Enumerates(order, entries) && ViewsOf(file.items, order, entries);
    ViewsReadBack(file.items, order, entries, now);
    BuiltBack(ItemPairs(file.items, now), order, entries);
    AllBlocked(order, entries);
  }

  // ---------- The operations, one domain at a time ----------

  datatype Op =
    | Add(domain: string)
    | Remove(domain: string)
    | Replace(domains: set<string>)
    | Reset
    | Record(domain: string, source: string, why: string, ref: string)

  function Slot(entries: Entries, d: string): Option<Entry> {
    if d in entries then Some(entries[d]) else None
  }

  function OrDefault(slot: Option<Entry>, d: string, now: string): Entry {
    if slot.Some? then slot.value else NewEntry(d, now)
  }

  function OrManual(reason: string): string {
    var r := Strip(if reason != "" then reason else "manual");
    if r != "" then r else "manual"
  }

  function MadeManual(slot: Option<Entry>, d: string, now: string): Entry {
    var e := OrDefault(slot, d, now);
    e.(manual := true, reason := OrManual(e.reason), last := now)
  }

  /** An entry that is no longer manual stays only if it is blocked automatically. */
  function NoLongerManual(e: Entry, now: string): Option<Entry> {
    if Auto(e) then Some(e.(manual := false, last := now)) else None
  }

  function FirstSeen(e: Entry, now: string): Entry {
    if Strip(e.first) == "" then e.(first := now) else e
  }

  function Recorded(slot: Option<Entry>, d: string, source: string, why: string, ref: string, now: string): Entry {
    var e := OrDefault(slot, d, now);
    FirstSeen(e.(auto := Strip(source),
                 reason := Strip(if why != "" then why else if e.reason != "" then e.reason else Strip(source)),
                 provider := if ref != "" then Strip(ref) else e.provider,
                 hits := MaxInt(0, e.hits) + 1, last := now), now)
  }

  /** Whether the operation writes the file at all. */
  predicate Writes(op: Op, entries: Entries) {
    match op
    case Add(domain) =>
      var d := Normalize(domain);
      d != "" && !(d in entries && entries[d].manual)
    case Remove(domain) =>
      var d := Normalize(domain);
      d != "" && d in entries && entries[d].manual
    case Record(domain, source, _, _) => Normalize(domain) != "" && Strip(source) != ""
    case _ => true
  }

  ghost predicate Named(op: Op, d: string) {
    match op
    case Replace(domains) => d != "" && exists v :: v in domains && Normalize(v) == d
    case Reset => false
    case _ => d == Normalize(op.domain)
  }

  /** What the operation makes of one domain's entry. */
  ghost function SlotAfter(op: Op, d: string, slot: Option<Entry>, now: string): Option<Entry> {
    match op
    case Add(_) => if Named(op, d) then Some(MadeManual(slot, d, now)) else slot
    case Remove(_) => if Named(op, d) && slot.Some? then NoLongerManual(slot.value, now) else slot
    case Record(_, source, why, ref) => if Named(op, d) then Some(Recorded(slot, d, source, why, ref, now)) else slot
    case _ =>
      if Named(op, d) then Some(MadeManual(Some(FirstSeen(OrDefault(slot, d, now), now)), d, now))
      else if slot.Some? && slot.value.manual then NoLongerManual(slot.value, now)
      else slot
  }

  ghost predicate IsAfter(op: Op, before: Entries, after: Entries, now: string) {
    forall d :: Slot(after, d) == SlotAfter(op, d, Slot(before, d), now)
  }

  /** What the operations mean for the domain they name, and that they leave every other one alone. */
  lemma AddMeans(domain: string, before: Entries, after: Entries, now: string, d: string)
    requires IsAfter(Add(domain), before, after, now)
    ensures d == Normalize(domain) ==>
              && d in after && after[d].manual
              && (if d in before then
                    after[d].auto == before[d].auto && after[d].provider == before[d].provider
                    && after[d].hits == before[d].hits && after[d].first == before[d].first
                  else after[d].hits <= 0 && !Auto(after[d]))
    ensures d != Normalize(domain) ==> (d in after <==> d in before) && (d in before ==> after[d] == before[d])
  {
    assert Slot(after, d) == SlotAfter(Add(domain), d, Slot(before, d), now);
    WordsTrim();
  }

  lemma RemoveMeans(domain: string, before: Entries, after: Entries, now: string, d: string)
    requires IsAfter(Remove(domain), before, after, now)
    ensures d == Normalize(domain) && d in before ==>
              && (d in after <==> Auto(before[d]))
              && (d in after ==> !after[d].manual && after[d] == before[d].(manual := false, last := now))
    ensures d != Normalize(domain) ==> (d in after <==> d in before) && (d in before ==> after[d] == before[d])
  {
    assert Slot(after, d) == SlotAfter(Remove(domain), d, Slot(before, d), now);
  }

  lemma ResetMeans(before: Entries, after: Entries, now: string, d: string)
    requires IsAfter(Reset, before, after, now)
    ensures d in after <==> d in before && (!before[d].manual || Auto(before[d]))
    ensures d in after ==> !after[d].manual && after[d] == before[d].(manual := false, last := after[d].last)
  {
    assert Slot(after, d) == SlotAfter(Reset, d, Slot(before, d), now);
  }

  lemma RecordMeans(domain: string, source: string, why: string, ref: string, before: Entries, after: Entries,
                    now: string, d: string)
    requires IsAfter(Record(domain, source, why, ref), before, after, now)
    ensures d == Normalize(domain) ==>
              && d in after && after[d].auto == Strip(source) && after[d].last == now
              && after[d].manual == (d in before && before[d].manual)
              && after[d].hits == 1 + (if d in before && before[d].hits > 0 then before[d].hits else 0)
              && (why != "" ==> after[d].reason == Strip(why)) && (ref != "" ==> after[d].provider == Strip(ref))
    ensures d != Normalize(domain) ==> (d in after <==> d in before) && (d in before ==> after[d] == before[d])
  {
    assert Slot(after, d) == SlotAfter(Record(domain, source, why, ref), d, Slot(before, d), now);
    WordsTrim();
  }

  /** One operation on the file: it loads, changes and saves, or leaves the file alone. */
  ghost predicate Step(op: Op, before: File, after: File, now: string) {
    var entries := Loaded(before, now);
    if Writes(op, entries) then exists saved :: IsAfter(op, entries, saved, now) && Holds(after, saved)
    else after == before
  }

  // ---------- What holds over every run ----------

  predicate SettledDomain(v: string) {
    Normalize(Normalize(v)) == Normalize(v)
  }

  /** Domains without hidden white space, a known source, and no reason made of white space alone. */
  ghost predicate Harmless(op: Op) {
    match op
    case Replace(domains) => forall v :: v in domains ==> SettledDomain(v)
    case Reset => true
    case Record(domain, source, why, _) =>
      SettledDomain(domain) && Known(Strip(source)) && (why == "" || Strip(why) != "")
    case _ => SettledDomain(op.domain)
  }

  lemma NewEntryIsPlain(d: string, now: string)
    requires now != ""
    ensures NewEntry(d, now) == Entry(d, false, "", "", "", 0, now, now)
  {
    WordsTrim();
  }

  lemma MadeManualIsFaithful(slot: Option<Entry>, d: string, now: string)
    requires d != "" && Normalize(d) == d && now != ""
    requires slot.Some? ==> slot.value.domain == d && Faithful(slot.value)
    ensures var e := MadeManual(slot, d, now); e.manual && e.domain == d && Faithful(e)
    ensures var e := MadeManual(Some(FirstSeen(OrDefault(slot, d, now), now)), d, now);
            e.manual && e.domain == d && Faithful(e)
  {
    NewEntryIsPlain(d, now);
    WordsTrim();
    StripTwice(OrDefault(slot, d, now).reason);
  }

  lemma NoLongerManualIsFaithful(e: Entry, now: string)
    requires Faithful(e) && (e.auto == "" || Known(e.auto)) && now != ""
    ensures var s := NoLongerManual(e, now); s.Some? ==> Faithful(s.value) && Blocked(s.value)
  {
    WordsTrim();
  }

  lemma RecordedIsFaithful(slot: Option<Entry>, d: string, source: string, why: string, ref: string, now: string)
    requires d != "" && Normalize(d) == d && now != "" && Known(Strip(source)) && (why == "" || Strip(why) != "")
    requires slot.Some? ==> slot.value.domain == d && Faithful(slot.value)
    ensures var e := Recorded(slot, d, source, why, ref, now); Auto(e) && e.domain == d && Faithful(e) && Known(e.auto)
  {
    NewEntryIsPlain(d, now);
    WordsTrim();
    StripTwice(source);
    StripTwice(why);
    StripTwice(ref);
  }

  /** Sound entries whose automatic sources are the two in use. */
  ghost predicate Regular(entries: Entries) {
    Sound(entries) && forall d :: d in entries ==> entries[d].auto == "" || Known(entries[d].auto)
  }

  ghost predicate RegularSlot(slot: Option<Entry>, d: string) {
    slot.Some? ==>
      && slot.value.domain == d && Blocked(slot.value) && Faithful(slot.value)
      && (slot.value.auto == "" || Known(slot.value.auto))
  }

  lemma SlotStaysRegular(op: Op, d: string, slot: Option<Entry>, now: string)
    requires RegularSlot(slot, d) && Harmless(op) && now != ""
    requires op.Add? || op.Remove? || op.Record? ==> Normalize(op.domain) != ""
    ensures RegularSlot(SlotAfter(op, d, slot, now), d)
  {
    if op.Record? {
      if Named(op, d) {
        RecordedIsFaithful(slot, d, op.source, op.why, op.ref, now);
      }
    } else {
      if Named(op, d) && !op.Remove? {
        MadeManualIsFaithful(slot, d, now);
        WordsTrim();
        NewEntryIsPlain(d, now);
      } else if slot.Some? {
        NoLongerManualIsFaithful(slot.value, now);
      }
    }
  }

  lemma StaysRegular(op: Op, before: Entries, after: Entries, now: string)
    requires Regular(before) && Harmless(op) && Writes(op, before) && IsAfter(op, before, after, now) && now != ""
    ensures Regular(after)
  {
    forall d | d in after ensures RegularSlot(Slot(after, d), d) {
      SlotStaysRegular(op, d, Slot(before, d), now);
      assert Slot(after, d) == SlotAfter(op, d, Slot(before, d), now);
    }
    RegularBySlot(after);
  }

  lemma RegularBySlot(entries: Entries)
    requires forall d :: d in entries ==> RegularSlot(Slot(entries, d), d)
    ensures Regular(entries)
  {
    forall d | d in entries
      ensures entries[d].domain == d && Blocked(entries[d]) && Faithful(entries[d])
              && (entries[d].auto == "" || Known(entries[d].auto))
    {
      assert RegularSlot(Slot(entries, d), d);
    }
  }

  /** The file is absent, lists domains without hidden white space, or holds regular entries. */
  ghost predicate RegularFile(file: File) {
    match file
    case Nothing => true
    case Names(names) => forall i :: 0 <= i < |names| ==> SettledDomain(names[i])
    case Objects(_) => exists entries :: Regular(entries) && Holds(file, entries)
  }

  lemma NamedEntryIsRegular(name: string, now: string)
    requires SettledDomain(name) && Normalize(name) != "" && now != ""
    ensures RegularSlot(Some(NamedEntry(Normalize(name), now)), Normalize(name))
  {
    WordsTrim();
  }

  /** What the loading loop builds comes from its pairs. */
  lemma {:induction false} BuiltFrom(pairs: seq<(string, Entry)>, d: string) returns (i: nat)
    requires d in Built(pairs)
    ensures i < |pairs| && pairs[i] == (d, Built(pairs)[d]) && d != ""
  {
    var n := |pairs| - 1;
    if pairs[n].0 == d && d != "" {
      i := n;
    } else {
      i := BuiltFrom(pairs[..n], d);
    }
  }

  lemma NamesAreRegular(names: seq<string>, now: string)
    requires RegularFile(Names(names)) && now != ""
    ensures Regular(Loaded(Names(names), now))
  {
    var pairs := NamePairs(names, now);
    forall d | d in Built(pairs) ensures RegularSlot(Slot(Built(pairs), d), d) {
      var i := BuiltFrom(pairs, d);
      NamedEntryIsRegular(names[i], now);
    }
    RegularBySlot(Built(pairs));
  }

  lemma RegularLoads(file: File, now: string)
    requires RegularFile(file) && now != ""
    ensures Regular(Loaded(file, now))
  {
    match file
    case Nothing =>
    case Names(names) => NamesAreRegular(names, now);
    case Objects(_) =>
      var entries :| Regular(entries) && Holds(file, entries);
      SaveThenLoad(file, entries, now);
  }

  /** One step: what the next load sees is exactly what the operation made of what the last load saw. */
  lemma StepIsExact(op: Op, before: File, after: File, now: string, later: string)
    requires RegularFile(before) && Step(op, before, after, now) && Harmless(op) && now != "" && later != ""
    ensures RegularFile(after)
    ensures if Writes(op, Loaded(before, now)) then IsAfter(op, Loaded(before, now), Loaded(after, later), now)
            else after == before
  {
    RegularLoads(before, now);
    var entries := Loaded(before, now);
    if Writes(op, entries) {
      var saved :| IsAfter(op, entries, saved, now) && Holds(after, saved);
      StaysRegular(op, entries, saved, now);
      SaveThenLoad(after, saved, later);
    }
  }

  datatype Call = Call(op: Op, now: string)

  ghost predicate Run(before: File, calls: seq<Call>, after: File)
    decreases |calls|
  {
    if calls == [] then after == before
    else
      exists between :: Step(calls[0].op, before, between, calls[0].now) && Run(between, calls[1..], after)
  }

  ghost predicate AllHarmless(calls: seq<Call>) {
    forall c :: c in calls ==> Harmless(c.op) && c.now != ""
  }

  ghost predicate ManualOnly(calls: seq<Call>) {
    forall c :: c in calls ==> !c.op.Record?
  }

  /** Every reachable file is regular, so saving and loading is the identity all along the run. */
  lemma {:induction false} RunStaysRegular(before: File, calls: seq<Call>, after: File)
    requires RegularFile(before) && Run(before, calls, after) && AllHarmless(calls)
    ensures RegularFile(after)
    decreases |calls|
  {
    if calls != [] {
      var between :| Step(calls[0].op, before, between, calls[0].now) && Run(between, calls[1..], after);
      StepIsExact(calls[0].op, before, between, calls[0].now, calls[0].now);
      RunStaysRegular(between, calls[1..], after);
    }
  }

  /** The automatic block of a domain: what no manual operation touches. */
  datatype Block = Block(auto: string, provider: string, hits: int)

  function BlockOf(slot: Option<Entry>): Option<Block> {
    if slot.Some? && Auto(slot.value)
    then Some(Block(slot.value.auto, slot.value.provider, slot.value.hits))
    else None
  }

  lemma ManualKeepsBlock(op: Op, d: string, slot: Option<Entry>, now: string)
    requires !op.Record? && RegularSlot(slot, d) && BlockOf(slot).Some?
    ensures BlockOf(SlotAfter(op, d, slot, now)) == BlockOf(slot)
  {
  }

  /** Every load sees the automatic block `b` of `d`. */
  ghost predicate BlockedAs(file: File, d: string, b: Block) {
    forall now :: now != "" ==> BlockOf(Slot(Loaded(file, now), d)) == Some(b)
  }

  lemma StepKeepsBlock(op: Op, before: File, after: File, at: string, d: string, b: Block)
    requires RegularFile(before) && Step(op, before, after, at) && Harmless(op) && at != "" && !op.Record?
    requires BlockedAs(before, d, b)
    ensures RegularFile(after) && BlockedAs(after, d, b)
  {
    StepIsExact(op, before, after, at, at);
    RegularLoads(before, at);
    var entries := Loaded(before, at);
    if Writes(op, entries) {
      assert RegularSlot(Slot(entries, d), d);
      ManualKeepsBlock(op, d, Slot(entries, d), at);
      forall now | now != "" ensures BlockOf(Slot(Loaded(after, now), d)) == Some(b) {
        StepIsExact(op, before, after, at, now);
        assert Slot(Loaded(after, now), d) == SlotAfter(op, d, Slot(entries, d), at);
      }
    }
  }

  /** An automatically blocked domain stays blocked, with its source, provider and hit count, through any
      run of manual operations, although the file does not store the source as a field of its own. */
  lemma {:induction false} AutoStaysBlocked(before: File, calls: seq<Call>, after: File, d: string, b: Block)
    requires RegularFile(before) && Run(before, calls, after) && AllHarmless(calls)
    requires ManualOnly(calls) && BlockedAs(before, d, b)
    ensures BlockedAs(after, d, b)
    decreases |calls|
  {
    if calls != [] {
      var c := calls[0];
      var between :| Step(c.op, before, between, c.now) && Run(between, calls[1..], after);
      StepKeepsBlock(c.op, before, between, c.now, d, b);
      AutoStaysBlocked(between, calls[1..], after, d, b);
    }
  }

  predicate ManualSlot(slot: Option<Entry>) {
    slot.Some? && slot.value.manual
  }

  lemma ReplacedSlot(domains: set<string>, d: string, slot: Option<Entry>, now: string)
    ensures ManualSlot(SlotAfter(Replace(domains), d, slot, now)) <==> Named(Replace(domains), d)
  {
  }

  /** After a replacement the manual domains are exactly the given ones. */
  lemma ReplaceIsExact(before: File, domains: set<string>, after: File, now: string, d: string)
    requires RegularFile(before) && Step(Replace(domains), before, after, now)
             && Harmless(Replace(domains)) && now != ""
    ensures ManualSlot(Slot(Loaded(after, now), d)) <==> d != "" && exists v :: v in domains && Normalize(v) == d
  {
    var op := Replace(domains);
    StepIsExact(op, before, after, now, now);
    var slot := Slot(Loaded(before, now), d);
    assert Slot(Loaded(after, now), d) == SlotAfter(op, d, slot, now);
    ReplacedSlot(domains, d, slot, now);
  }

  /** Whether a domain is manual after an operation, if it `was` before. */
  ghost predicate ManualThen(op: Op, d: string, was: bool) {
    match op
    case Add(domain) => was || (d != "" && d == Normalize(domain))
    case Remove(domain) => was && (d == "" || d != Normalize(domain))
    case Replace(domains) => d != "" && exists v :: v in domains && Normalize(v) == d
    case Reset => false
    case Record(_, _, _, _) => was
  }

  lemma ManualSlotThen(op: Op, d: string, slot: Option<Entry>, now: string)
    requires op.Add? || op.Remove? ==> Normalize(op.domain) != ""
    ensures ManualSlot(SlotAfter(op, d, slot, now)) <==> ManualThen(op, d, ManualSlot(slot))
  {
    if op.Record? && slot.None? && Named(op, d) {
      NewIsNotManual(d, now);
    }
  }

  lemma NewIsNotManual(d: string, now: string)
    ensures !NewEntry(d, now).manual
  {
  }

  /** Adding makes the domain manual, removing takes its mark away, a replacement leaves exactly the given ones, a
      reset none, and recording changes no mark. */
  lemma ManualIsExact(op: Op, before: File, after: File, now: string, d: string)
    requires RegularFile(before) && Step(op, before, after, now) && Harmless(op) && now != ""
    ensures ManualSlot(Slot(Loaded(after, now), d)) <==> ManualThen(op, d, ManualSlot(Slot(Loaded(before, now), d)))
  {
    var entries := Loaded(before, now);
    StepIsExact(op, before, after, now, now);
    if Writes(op, entries) {
      assert Slot(Loaded(after, now), d) == SlotAfter(op, d, Slot(entries, d), now);
      ManualSlotThen(op, d, Slot(entries, d), now);
    } else {
      NothingToWrite(op, entries, d);
    }
  }

  lemma NothingToWrite(op: Op, entries: Entries, d: string)
    requires !Writes(op, entries)
    ensures ManualThen(op, d, ManualSlot(Slot(entries, d))) <==> ManualSlot(Slot(entries, d))
  {
  }

  // ---------- Exactly which saved entries come back ----------

  lemma {:induction false} BuiltAt(pairs: seq<(string, Entry)>, i: nat)
    requires i < |pairs| && pairs[i].0 != "" && forall j :: i < j < |pairs| ==> pairs[j].0 != pairs[i].0
    ensures Slot(Built(pairs), pairs[i].0) == Some(pairs[i].1)
  {
    var n := |pairs| - 1;
    if i < n {
      BuiltAt(pairs[..n], i);
    }
  }

  /** Each entry under its own settled domain; nothing is asked of its other fields. */
  ghost predicate Keyed(entries: Entries) {
    forall d :: d in entries ==> d != "" && entries[d].domain == d && Normalize(d) == d
  }

  function Checked(e: Entry): Option<Entry> {
    if Blocked(e) then Some(e) else None
  }

  lemma ReloadedSlot(file: File, entries: Entries, now: string, d: string)
    requires Keyed(entries) && Holds(file, entries) && d in entries && Blocked(entries[d])
    ensures Slot(Loaded(file, now), d) == Checked(Read(View(entries[d]), now))
  {
    var order :| Enumerates(order, entries) && ViewsOf(file.items, order, entries);
    assert d in order;
    var i :| 0 <= i < |order| && order[i] == d;
    ViewsAreKeyed(file.items, order, entries, now);
    PairLoads(file.items, order, i, now);
  }

  lemma PairLoads(items: seq<Raw>, order: seq<string>, i: nat, now: string)
    requires |items| == |order| && i < |order| && Distinct(order)
    requires forall j :: 0 <= j < |order| ==> order[j] != "" && ItemPairs(items, now)[j].0 == order[j]
    ensures Slot(Loaded(Objects(items), now), order[i]) == Checked(ItemPairs(items, now)[i].1)
  {
    BuiltAt(ItemPairs(items, now), i);
  }

  lemma ViewsAreKeyed(items: seq<Raw>, order: seq<string>, entries: Entries, now: string)
    requires Keyed(entries) && ViewsOf(items, order, entries)
    ensures forall i :: 0 <= i < |order| ==>
              order[i] != "" && ItemPairs(items, now)[i] == (order[i], Read(View(entries[order[i]]), now))
  {
    forall i | 0 <= i < |order| ensures order[i] != "" && Normalize(items[i].domain) == order[i] {
      var d := order[i];
      NormalizeTwice(d);
      TrimFixes(d, IsPySpace);
    }
  }

  /** Whatever was saved, a blocked entry is loaded back unchanged exactly when it is faithful. */
  lemma ReloadIsExact(file: File, entries: Entries, now: string, d: string)
    requires Keyed(entries) && Holds(file, entries) && now != "" && d in entries && Blocked(entries[d])
    ensures Slot(Loaded(file, now), d) == Some(entries[d]) <==> Faithful(entries[d])
  {
    ReloadedSlot(file, entries, now, d);
    EntryRoundTrip(entries[d], now);
  }

  ghost predicate AutoUnder(slot: Option<Entry>, source: string) {
    slot.Some? && !slot.value.manual && slot.value.auto == source
  }

  /** Recording a domain that is not manual lasts beyond the next load exactly for the known sources. */
  lemma RecordLasts(before: File, op: Op, after: File, now: string)
    requires RegularFile(before) && op.Record? && Step(op, before, after, now) && now != ""
    requires SettledDomain(op.domain) && Writes(op, Loaded(before, now))
    requires var slot := Slot(Loaded(before, now), Normalize(op.domain)); slot.Some? ==> !slot.value.manual
    ensures AutoUnder(Slot(Loaded(after, now), Normalize(op.domain)), Strip(op.source)) <==>
              Strip(op.source) == "openai_hard_reject" || Strip(op.source) == "provider_invalid"
  {
    var d := Normalize(op.domain);
    var entries := Loaded(before, now);
    RegularLoads(before, now);
    var saved :| IsAfter(op, entries, saved, now) && Holds(after, saved);
    RecordKeepsKeyed(op, entries, saved, now);
    StripTwice(op.source);
    ReloadedSlot(after, saved, now, d);
    CustomIsLost(saved[d], now);
  }

  lemma CustomIsLost(e: Entry, now: string)
    requires !e.manual && Auto(e) && Strip(e.auto) == e.auto
    ensures AutoUnder(Checked(Read(View(e), now)), e.auto) <==> Known(e.auto)
  {
    ReadsAuto(e);
    WordsTrim();
    StripTwice(ReadAuto(View(e)));
  }

  lemma RecordKeepsKeyed(op: Op, before: Entries, after: Entries, now: string)
    requires op.Record? && Regular(before) && IsAfter(op, before, after, now) && SettledDomain(op.domain)
    requires Normalize(op.domain) != "" && Strip(op.source) != ""
    ensures Keyed(after)
    ensures var d := Normalize(op.domain);
            d in after && after[d].auto == Strip(op.source)
            && (after[d].manual <==> d in before && before[d].manual)
  {
    forall d | d in after ensures d != "" && after[d].domain == d && Normalize(d) == d {
      assert Slot(after, d) == SlotAfter(op, d, Slot(before, d), now);
    }
    var d := Normalize(op.domain);
    assert Slot(after, d) == SlotAfter(op, d, Slot(before, d), now);
  }
}
