/** The functions of the mail-domain blacklist, each loading, changing and saving the file
    (register-executor/services/register/mail_provider.py, lines 276-486). */
module BlacklistFile {
  import opened Common
  import opened Text
  import opened DomainBlacklist

  lemma PairsGrow(pairs: seq<(string, Entry)>, i: nat)
    requires i < |pairs|
    ensures Built(pairs[..i + 1])
         == if pairs[i].0 == "" then Built(pairs[..i]) else Built(pairs[..i])[pairs[i].0 := pairs[i].1]
  {
    assert pairs[..i + 1][..i] == pairs[..i];
  }

  lemma OneSlot(op: Op, before: Entries, after: Entries, now: string)
    requires op.Add? || op.Remove? || op.Record?
    requires var d := Normalize(op.domain);
             && Slot(after, d) == SlotAfter(op, d, Slot(before, d), now)
             && after - {d} == before - {d}
    ensures IsAfter(op, before, after, now)
  {
    var target := Normalize(op.domain);
    forall d | d != target ensures Slot(after, d) == Slot(before, d) {
      assert d in after - {target} <==> d in before - {target};
      assert d in after ==> (after - {target})[d] == (before - {target})[d];
    }
  }

  /** The replacement's loops have still to visit the domains in `left`. */
  ghost predicate Pending(op: Op, before: Entries, after: Entries, left: set<string>, now: string) {
    forall d :: Slot(after, d) == if d in left then Slot(before, d) else SlotAfter(op, d, Slot(before, d), now)
  }

  lemma NothingVisited(op: Op, before: Entries, left: set<string>, now: string)
    requires op.Replace? || op.Reset?
    requires forall d :: d in before || Named(op, d) ==> d in left
    ensures Pending(op, before, before, left, now)
  {
  }

  lemma OneVisited(op: Op, before: Entries, mid: Entries, after: Entries, left: set<string>, d: string, now: string)
    requires Pending(op, before, mid, left, now)
    requires Slot(after, d) == SlotAfter(op, d, Slot(before, d), now) && after - {d} == mid - {d}
    ensures Pending(op, before, after, left - {d}, now)
  {
    forall x
      ensures Slot(after, x) == if x in left - {d} then Slot(before, x) else SlotAfter(op, x, Slot(before, x), now)
    {
      assert Slot(mid, x) == if x in left then Slot(before, x) else SlotAfter(op, x, Slot(before, x), now);
      if x != d {
        assert x in after - {d} <==> x in mid - {d};
        assert x in after ==> (after - {d})[x] == (mid - {d})[x];
      }
    }
  }

  function ManualOf(entries: Entries): set<string> {
    set d | d in entries && entries[d].manual
  }

  lemma StillThere(op: Op, before: Entries, after: Entries, left: set<string>, now: string)
    requires Pending(op, before, after, left, now) && left <= before.Keys
    ensures left <= after.Keys
  {
    forall d | d in left ensures d in after {
      assert Slot(after, d) == Slot(before, d);
    }
  }

  lemma CountOne(before: Entries, unnamed: set<string>, left: set<string>, d: string)
    requires d in left && left <= unnamed && d in before
    ensures |ManualOf(before) * (unnamed - (left - {d}))|
         == |ManualOf(before) * (unnamed - left)| + if before[d].manual then 1 else 0
  {
    var old_, new_ := ManualOf(before) * (unnamed - left), ManualOf(before) * (unnamed - (left - {d}));
    assert new_ == if before[d].manual then old_ + {d} else old_;
  }

  class BlacklistFile {
    var file: File

    constructor ()
      ensures file == Nothing && RegularFile(file)
    {
      file := Nothing;
    }

    method Load(now: string) returns (entries: Entries)
      ensures entries == Loaded(file, now)
    {
      match file {
        case Nothing =>
          entries := map[];
        case Names(names) =>
          entries := BuildFrom(NamePairs(names, now));
        case Objects(items) =>
          entries := BuildFrom(ItemPairs(items, now));
          entries := map d | d in entries && Blocked(entries[d]) :: entries[d];
      }
    }

    static method BuildFrom(pairs: seq<(string, Entry)>) returns (entries: Entries)
      ensures entries == Built(pairs)
    {
      entries := map[];
      for i := 0 to |pairs|
        invariant entries == Built(pairs[..i])
      {
        PairsGrow(pairs, i);
        if pairs[i].0 == "" {
          continue;
        }
        entries := entries[pairs[i].0 := pairs[i].1];
      }
      assert pairs[..|pairs|] == pairs;
    }

    method Save(entries: Entries)
      modifies this
      ensures Holds(file, entries)
    {
      var items: seq<Raw> := [];
      ghost var order: seq<string> := [];
      var left := set d | d in entries && Blocked(entries[d]);
      while left != {}
        invariant forall d :: d in left ==> d in entries && Blocked(entries[d])
        invariant Distinct(order) && ViewsOf(items, order, entries)
        invariant forall d :: d in order <==> d in entries && Blocked(entries[d]) && d !in left
        decreases left
      {
        var d :| d in left;
        items := items + [View(entries[d])];
        order := order + [d];
        left := left - {d};
      }
      assert Enumerates(order, entries);
      file := Objects(items);
    }

    method AddDomain(domain: string, now: string) returns (added: bool)
      modifies this
      ensures Step(Add(domain), old(file), file, now)
      ensures added == Writes(Add(domain), Loaded(old(file), now))
    {
      var target := Normalize(domain);
      if target == "" {
        return false;
      }
      var entries := Load(now);
      var entry := if target in entries then entries[target] else NewEntry(target, now);
      if entry.manual {
        return false;
      }
      var reason := Strip(if entry.reason != "" then entry.reason else "manual");
      entry := entry.(manual := true, reason := if reason != "" then reason else "manual", last := now);
      var saved := entries[target := entry];
      OneSlot(Add(domain), entries, saved, now);
      Save(saved);
      return true;
    }

    method RemoveDomain(domain: string, now: string) returns (removed: bool)
      modifies this
      ensures Step(Remove(domain), old(file), file, now)
      ensures removed == Writes(Remove(domain), Loaded(old(file), now))
    {
      var target := Normalize(domain);
      if target == "" {
        return false;
      }
      var entries := Load(now);
      if target !in entries || !entries[target].manual {
        return false;
      }
      var entry := entries[target].(manual := false);
      var saved;
      if Blocked(entry) {
        saved := entries[target := entry.(last := now)];
      } else {
        saved := entries - {target};
      }
      OneSlot(Remove(domain), entries, saved, now);
      Save(saved);
      return true;
    }

    /** Returns whether the domain was not blocked automatically before. */
    method RecordDomain(domain: string, source: string, why: string, ref: string, now: string) returns (first: bool)
      modifies this
      ensures Step(Record(domain, source, why, ref), old(file), file, now)
      ensures first <==> Writes(Record(domain, source, why, ref), Loaded(old(file), now))
                         && BlockOf(Slot(Loaded(old(file), now), Normalize(domain))).None?
    {
      var target := Normalize(domain);
      if target == "" || Strip(source) == "" {
        return false;
      }
      var entries := Load(now);
      var entry, wasAuto := RecordHit(Slot(entries, target), target, source, why, ref, now);
      var saved := entries[target := entry];
      OneSlot(Record(domain, source, why, ref), entries, saved, now);
      Save(saved);
      return !wasAuto;
    }

    static method RecordHit(slot: Option<Entry>, target: string, source: string, why: string, ref: string, now: string)
      returns (entry: Entry, wasAuto: bool)
      ensures entry == Recorded(slot, target, source, why, ref, now)
      ensures wasAuto ==> slot.Some? && Auto(slot.value)
      ensures !wasAuto ==> slot.None? || !Auto(slot.value)
    {
      if slot.Some? {
        entry := slot.value;
      } else {
        entry := NewEntry(target, now);
        WordsTrim();
      }
      wasAuto := Auto(entry);
      entry := Hit(entry, Strip(source), why, ref, now);
    }

    static method Hit(before: Entry, auto: string, why: string, ref: string, now: string) returns (entry: Entry)
      ensures entry == FirstSeen(before.(auto := auto,
                                         reason := Strip(if why != "" then why
                                                         else if before.reason != "" then before.reason else auto),
                                         provider := if ref != "" then Strip(ref) else before.provider,
                                         hits := MaxInt(0, before.hits) + 1, last := now), now)
    {
      entry := before.(auto := auto,
                       reason := Strip(if why != "" then why else if before.reason != "" then before.reason else auto));
      if ref != "" {
        entry := entry.(provider := Strip(ref));
      }
      entry := entry.(hits := MaxInt(0, entry.hits) + 1);
      if Strip(entry.first) == "" {
        entry := entry.(first := now);
      }
      entry := entry.(last := now);
    }

    static method ClearOne(op: Op, entries: Entries, d: string, now: string) returns (saved: Entries)
      requires d in entries && !Named(op, d) && (op.Replace? || op.Reset?)
      ensures saved - {d} == entries - {d} && Slot(saved, d) == SlotAfter(op, d, Slot(entries, d), now)
    {
      var entry := entries[d];
      if !entry.manual {
        return entries;
      }
      entry := entry.(manual := false);
      if Blocked(entry) {
        saved := entries[d := entry.(last := now)];
      } else {
        saved := entries - {d};
      }
    }

    /** The loop that takes the manual mark from every domain that was not named. */
    static method ClearManual(op: Op, before: Entries, entries: Entries, unnamed: set<string>, now: string)
      returns (saved: Entries, cleared: nat)
      requires op.Replace? || op.Reset?
      requires forall d :: d in unnamed ==> d in entries && !Named(op, d)
      requires Pending(op, before, entries, unnamed, now)
      ensures IsAfter(op, before, saved, now)
      ensures cleared == |ManualOf(before) * unnamed|
    {
      saved, cleared := entries, 0;
      var left := unnamed;
      while left != {}
        invariant left <= unnamed && Pending(op, before, saved, left, now)
        invariant cleared == |ManualOf(before) * (unnamed - left)|
        decreases left
      {
        var d :| d in left;
        CountOne(before, unnamed, left, d);
        assert Slot(saved, d) == Slot(before, d) && Slot(entries, d) == Slot(before, d);
        if saved[d].manual {
          cleared := cleared + 1;
        }
        var next := ClearOne(op, saved, d, now);
        OneVisited(op, before, saved, next, left, d, now);
        saved := next;
        left := left - {d};
      }
      assert unnamed - left == unnamed;
    }

    method ResetDomains(now: string) returns (cleared: nat)
      modifies this
      ensures Step(Reset, old(file), file, now)
      ensures cleared == |ManualOf(Loaded(old(file), now))|
    {
      var entries := Load(now);
      NothingVisited(Reset, entries, entries.Keys, now);
      var saved;
      saved, cleared := ClearManual(Reset, entries, entries, entries.Keys, now);
      assert ManualOf(entries) * entries.Keys == ManualOf(entries);
      Save(saved);
    }

    static method MarkOne(op: Op, entries: Entries, d: string, now: string) returns (saved: Entries)
      requires op.Replace? && Named(op, d)
      ensures saved - {d} == entries - {d} && Slot(saved, d) == SlotAfter(op, d, Slot(entries, d), now)
    {
      var entry := if d in entries then entries[d] else NewEntry(d, now);
      if Strip(entry.first) == "" {
        entry := entry.(first := now);
      }
      var reason := Strip(if entry.reason != "" then entry.reason else "manual");
      entry := entry.(manual := true, reason := if reason != "" then reason else "manual", last := now);
      saved := entries[d := entry];
    }

    /** The loop that marks the named domains. */
    static method MarkNamed(op: Op, before: Entries, domains: set<string>, now: string) returns (saved: Entries)
      requires op.Replace? && forall d :: d in domains <==> Named(op, d)
      ensures Pending(op, before, saved, before.Keys - domains, now)
      ensures before.Keys - domains <= saved.Keys
    {
      saved := before;
      var left := domains;
      ghost var pending := before.Keys + domains;
      NothingVisited(op, before, pending, now);
      while left != {}
        invariant left <= domains && pending == left + (before.Keys - domains)
        invariant Pending(op, before, saved, pending, now)
        decreases left
      {
        var d :| d in left;
        assert Slot(saved, d) == Slot(before, d);
        var next := MarkOne(op, saved, d, now);
        OneVisited(op, before, saved, next, pending, d, now);
        saved, left, pending := next, left - {d}, pending - {d};
      }
      assert pending == before.Keys - domains;
      StillThere(op, before, saved, pending, now);
    }

    method ReplaceDomains(values: set<string>, now: string) returns (domains: set<string>)
      modifies this
      ensures Step(Replace(values), old(file), file, now)
      ensures forall d :: d in domains <==> Named(Replace(values), d)
    {
      domains := (set v | v in values :: Normalize(v)) - {""};
      var entries := Load(now);
      var marked := MarkNamed(Replace(values), entries, domains, now);
      var saved, cleared := ClearManual(Replace(values), entries, marked, entries.Keys - domains, now);
      Save(saved);
    }
  }
}
