/** Importing the same mailbox credentials a second time (register-executor/services/register_service.py,
    lines 70-83). */
module MailboxMerge {
  import opened Common
  import opened Text
  import opened MailboxPool

  lemma {:induction false} StartAfresh(cs: seq<Cred>)
    requires DistinctKeys(cs)
    ensures PutAll([], cs) == cs
  {
    if cs != [] {
      var n := |cs| - 1;
      StartAfresh(cs[..n]);
      assert cs == cs[..n] + [cs[n]];
    }
  }

  /** The text kept after importing `after` into the pool kept as `before`. */
  function Import(before: string, after: string): string {
    Serialize(Merged(before, after))
  }

  /** Two pools have the same text exactly when they have the same lines. */
  lemma SameText(a: seq<Cred>, b: seq<Cred>)
    requires forall i :: 0 <= i < |a| ==> OneLineCred(a[i])
    requires forall i :: 0 <= i < |b| ==> OneLineCred(b[i])
    ensures Serialize(a) == Serialize(b) <==> Lines(a) == Lines(b)
  {
    LinesSplit(a);
    LinesSplit(b);
  }

  /** What is known of every credential of a pool. */
  lemma MergedKnown(before: string, after: string, c: Cred)
    requires c in Merged(before, after)
    ensures NoSeparators(c) && CleanCred(c) && Usable(c) && OneLineCred(c)
  {
    MergedIs(before, after);
    var text := if c in Parse(after) then after else before;
    var lines := SplitLines(text);
    ParseIsOneLine(text, c);
    GatherMembers(Parsed(lines), c);
    var i :| 0 <= i < |lines| && Parsed(lines)[i] == Some(c);
    ParsedHoldsNone(lines[i]);
  }

  /** A line that can be read at all is read under its own email exactly when that does not end in a dash. */
  lemma ReadsUnder(c: Cred)
    requires NoSeparators(c) && CleanCred(c) && Usable(c) && ParseLine(Line(c)).Some?
    ensures var d := ParseLine(Line(c)).value;
            (EndsInDash(c.email) ==> |d.email| < |c.email|) && (!EndsInDash(c.email) ==> d.email == c.email)
    ensures Key(ParseLine(Line(c)).value) == Key(c) <==> !EndsInDash(c.email)
  {
    LineIsClean(c);
    var rest := c.password + SEP + (c.clientId + SEP + c.refreshToken);
    if EndsInDash(c.email) {
      CutShort(c.email, rest);
    } else {
      CutOnce(c.email, rest);
    }
  }

  // ---------- Any pool and any import ----------

  /** What the lines of a pool are read as. */
  function Reads(cs: seq<Cred>): seq<Option<Cred>> {
    Parsed(Lines(cs))
  }

  lemma ReadsOne(cs: seq<Cred>, j: nat)
    requires j < |cs|
    ensures |Reads(cs)| == |cs| && Reads(cs)[j] == ParseLine(Line(cs[j]))
  {
  }

  /** Every line of the pool is read under its own email. */
  ghost predicate OwnEmails(pool: seq<Cred>) {
    forall c :: c in pool ==> !EndsInDash(c.email) && ParseLine(Line(c)).Some?
  }

  /** What is read from the lines of such a pool. */
  function ReadBack(pool: seq<Cred>): seq<Cred>
    requires OwnEmails(pool)
  {
    seq(|pool|, i requires 0 <= i < |pool| => ParseLine(Line(pool[i])).value)
  }

  lemma OneBack(before: string, after: string, c: Cred)
    requires c in Merged(before, after) && !EndsInDash(c.email) && ParseLine(Line(c)).Some?
    ensures var d := ParseLine(Line(c)).value;
            OneLineCred(c) && Key(d) == Key(c) && OneLineCred(d)
  {
    MergedKnown(before, after, c);
    ReadsUnder(c);
    OneLineLine(c);
    ParsedIsOneLine(Line(c));
  }

  lemma ReadsBack(pool: seq<Cred>)
    requires OwnEmails(pool)
    ensures Reads(pool) == AllFound(ReadBack(pool))
  {
    forall j | 0 <= j < |pool| ensures Reads(pool)[j] == AllFound(ReadBack(pool))[j] {
      ReadsOne(pool, j);
      assert pool[j] in pool;
    }
  }

  lemma ReadBackIs(before: string, after: string)
    requires OwnEmails(Merged(before, after))
    ensures var pool := Merged(before, after);
            && Parse(Serialize(pool)) == ReadBack(pool)
            && SameKeys(ReadBack(pool), pool) && DistinctKeys(ReadBack(pool))
            && forall i :: 0 <= i < |pool| ==> OneLineCred(ReadBack(pool)[i])
  {
    var pool := Merged(before, after);
    var read := ReadBack(pool);
    forall i | 0 <= i < |pool| ensures OneLineCred(pool[i]) && Key(read[i]) == Key(pool[i]) && OneLineCred(read[i]) {
      assert pool[i] in pool;
      OneBack(before, after, pool[i]);
    }
    MergedIs(before, after);
    LinesSplit(pool);
    ReadsBack(pool);
    GatherAll(read);
  }

  ghost predicate SameKeys(a: seq<Cred>, b: seq<Cred>) {
    |a| == |b| && forall i :: 0 <= i < |a| ==> Key(a[i]) == Key(b[i])
  }

  lemma PutPlaces(cs: seq<Cred>, c: Cred)
    requires DistinctKeys(cs) && HasKey(cs, Key(c))
    ensures SameKeys(Put(cs, c), cs)
    ensures forall i :: 0 <= i < |cs| ==> Put(cs, c)[i] == if Key(cs[i]) == Key(c) then c else cs[i]
  {
    NotThere(cs, Key(c));
  }

  lemma SameKeysHave(a: seq<Cred>, b: seq<Cred>, key: string)
    requires SameKeys(a, b)
    ensures HasKey(a, key) <==> HasKey(b, key)
  {
    if i :| 0 <= i < |a| && Key(a[i]) == key {
      assert Key(b[i]) == key;
    }
    if i :| 0 <= i < |b| && Key(b[i]) == key {
      assert Key(a[i]) == key;
    }
  }

  /** Each of `r` is one of `more`, or still the one of `cs`, whose key is not among `more`. */
  ghost predicate From(r: seq<Cred>, cs: seq<Cred>, more: seq<Cred>)
    requires |r| == |cs|
  {
    forall i :: 0 <= i < |cs| ==> r[i] in more || (r[i] == cs[i] && !HasKey(more, Key(cs[i])))
  }

  lemma PutOneMore(cs: seq<Cred>, r: seq<Cred>, more: seq<Cred>, c: Cred)
    requires DistinctKeys(cs) && SameKeys(r, cs) && From(r, cs, more) && HasKey(cs, Key(c))
    ensures SameKeys(Put(r, c), cs) && From(Put(r, c), cs, more + [c])
  {
    SameKeysHave(r, cs, Key(c));
    PutPlaces(r, c);
    NewKey(more, c);
  }

  /** Putting in credentials whose keys are all there keeps the places. */
  lemma {:induction false} PutAllPlaces(cs: seq<Cred>, more: seq<Cred>)
    requires DistinctKeys(cs) && forall i :: 0 <= i < |more| ==> HasKey(cs, Key(more[i]))
    ensures SameKeys(PutAll(cs, more), cs) && From(PutAll(cs, more), cs, more)
  {
    if more != [] {
      var n := |more| - 1;
      PutAllPlaces(cs, more[..n]);
      PutOneMore(cs, PutAll(cs, more[..n]), more[..n], more[n]);
      assert more[..n] + [more[n]] == more;
    }
  }

  /** Importing the same text again changes nothing exactly if reading back keeps the line of every credential
      that is not imported anew. (All lines are read under their own email; passwords and client ids may end
      in a dash.) */
  lemma MergeTwice(before: string, after: string)
    requires OwnEmails(Merged(before, after))
    ensures Import(Import(before, after), after) == Import(before, after) <==>
              forall c :: c in Merged(before, after) && c !in Parse(after) ==> Line(ParseLine(Line(c)).value) == Line(c)
  {
    var pool, more := Merged(before, after), Parse(after);
    var read, again := ReadBack(pool), Merged(Serialize(pool), after);
    MergedIs(before, after);
    ReadBackIs(before, after);
    StartAfresh(read);
    GatherDistinct(Parsed(SplitLines(after)));
    PutIntoRead(pool, more, read);
    forall i | 0 <= i < |pool| ensures OneLineCred(pool[i]) {
      assert pool[i] in pool;
      MergedKnown(before, after, pool[i]);
    }
    SameText(again, pool);
    LinesAgree(pool, more, again, read);
  }

  lemma PutIntoRead(pool: seq<Cred>, more: seq<Cred>, read: seq<Cred>)
    requires DistinctKeys(pool) && DistinctKeys(more) && DistinctKeys(read) && SameKeys(read, pool)
    requires forall c :: c in more ==> c in pool
    ensures |PutAll(read, more)| == |pool|
    ensures forall i :: 0 <= i < |pool| ==> PutAll(read, more)[i] == if pool[i] in more then pool[i] else read[i]
  {
    forall j | 0 <= j < |more| ensures HasKey(read, Key(more[j])) {
      assert more[j] in more;
      var i :| 0 <= i < |pool| && pool[i] == more[j];
      assert Key(read[i]) == Key(more[j]);
    }
    PutAllPlaces(read, more);
    forall i | 0 <= i < |pool| ensures PutAll(read, more)[i] == if pool[i] in more then pool[i] else read[i] {
      SamePlace(pool, more, PutAll(read, more), read, i);
    }
  }

  lemma SamePlace(pool: seq<Cred>, more: seq<Cred>, again: seq<Cred>, read: seq<Cred>, i: nat)
    requires i < |pool| == |again| == |read| && DistinctKeys(pool) && DistinctKeys(more)
    requires Key(again[i]) == Key(read[i]) == Key(pool[i])
    requires forall c :: c in more ==> c in pool
    requires again[i] in more || (again[i] == read[i] && !HasKey(more, Key(read[i])))
    ensures again[i] == if pool[i] in more then pool[i] else read[i]
  {
    if again[i] in more {
      var j :| 0 <= j < |pool| && pool[j] == again[i];
      assert j == i;
    }
  }

  lemma LinesAgree(pool: seq<Cred>, more: seq<Cred>, again: seq<Cred>, read: seq<Cred>)
    requires OwnEmails(pool) && |again| == |pool| && read == ReadBack(pool)
    requires forall i :: 0 <= i < |pool| ==> again[i] == if pool[i] in more then pool[i] else read[i]
    ensures Lines(again) == Lines(pool) <==>
              forall c :: c in pool && c !in more ==> Line(ParseLine(Line(c)).value) == Line(c)
  {
    if Lines(again) == Lines(pool) {
      forall c | c in pool && c !in more ensures Line(ParseLine(Line(c)).value) == Line(c) {
        var i :| 0 <= i < |pool| && pool[i] == c;
        assert Lines(again)[i] == Lines(pool)[i];
      }
    }
  }

  // ---------- One imported credential ----------

  /** Importing `c` into the pool a second time changes nothing: its line is read under its own email or one
      that the pool has, or, when it cannot be read, its place is at the end anyway. */
  predicate Stays(pool: seq<Cred>, c: Cred) {
    match ParseLine(Line(c))
    case None => Place(pool, Key(c)) + 1 >= |pool|
    case Some(d) => !EndsInDash(c.email) || HasKey(pool, Key(d))
  }

  lemma {:induction false} GatherOn(found: seq<Option<Cred>>, more: seq<Cred>)
    requires DistinctKeys(Gather(found) + more)
    ensures Gather(found + AllFound(more)) == Gather(found) + more
  {
    var all := found + AllFound(more);
    if more == [] {
      assert all == found;
    } else {
      var n := |more| - 1;
      var cs := Gather(found) + more[..n];
      var total := Gather(found) + more;
      assert total == cs + [more[n]];
      assert forall k :: 0 <= k < |cs| ==> cs[k] == total[k] && Key(total[k]) != Key(total[|cs|]);
      GatherOn(found, more[..n]);
      assert all == found + AllFound(more[..n]) + [Some(more[n])];
      assert all[..|all| - 1] == found + AllFound(more[..n]);
    }
  }

  lemma WithoutOne(cs: seq<Cred>, i: nat)
    requires i < |cs| && DistinctKeys(cs)
    ensures var kept := cs[..i] + cs[i + 1..];
            && |kept| == |cs| - 1 && (forall k :: 0 <= k < |kept| ==> kept[k] == cs[if k < i then k else k + 1])
            && DistinctKeys(kept) && !HasKey(kept, Key(cs[i]))
  {
    var kept := cs[..i] + cs[i + 1..];
    forall k | 0 <= k < |kept| ensures kept[k] == cs[if k < i then k else k + 1] {
    }
  }

  ghost predicate SameLines(a: seq<Cred>, b: seq<Cred>) {
    |a| == |b| && forall i :: 0 <= i < |a| ==> Line(a[i]) == Line(b[i])
  }

  lemma UpdatedTwice(cs: seq<Cred>, i: nat, d: Cred, c: Cred)
    requires i < |cs|
    ensures cs[i := d][i := c] == cs[i := c]
  {
  }

  lemma OverwrittenAgain(cs: seq<Cred>, i: nat, d: Cred, c: Cred)
    requires DistinctKeys(cs) && i < |cs| && Key(cs[i]) == Key(d) == Key(c)
    ensures Put(cs[i := d], c) == cs[i := c] == Put(cs, c)
  {
    var read := cs[i := d];
    assert DistinctKeys(read) && read[i] == d;
    PlaceIs(read, i);
    PlaceIs(cs, i);
    UpdatedTwice(cs, i, d, c);
  }

  /** What the lines of a pool hold once `c` has been put in, when its line is read as `d` and all others as
      they were. */
  function Found(cs: seq<Cred>, c: Cred, d: Option<Cred>): seq<Option<Cred>> {
    var i := Place(cs, Key(c));
    if i < |cs| then AllFound(cs)[i := d] else AllFound(cs) + [d]
  }

  lemma AllButOne(cs: seq<Cred>, i: nat)
    requires i < |cs|
    ensures AllFound(cs)[i := None] == AllFound(cs[..i]) + [None] + AllFound(cs[i + 1..])
  {
    var all, parts := AllFound(cs)[i := None], AllFound(cs[..i]) + [None] + AllFound(cs[i + 1..]);
    assert |all| == |parts|;
    forall j | 0 <= j < |cs| ensures all[j] == parts[j] {
      assert j > i ==> cs[i + 1..][j - i - 1] == cs[j];
    }
  }

  lemma GatherNone(found: seq<Option<Cred>>)
    ensures Gather(found + [None]) == Gather(found)
  {
    assert (found + [None])[..|found|] == found;
  }

  lemma FoundWithout(cs: seq<Cred>, i: nat)
    requires i < |cs| && DistinctKeys(cs)
    ensures Gather(AllFound(cs)[i := None]) == cs[..i] + cs[i + 1..]
  {
    GatherAll(cs[..i]);
    GatherNone(AllFound(cs[..i]));
    WithoutOne(cs, i);
    GatherOn(AllFound(cs[..i]) + [None], cs[i + 1..]);
    AllButOne(cs, i);
  }

  lemma FoundWith(cs: seq<Cred>, i: nat, d: Cred)
    requires i < |cs| && DistinctKeys(cs) && Key(d) == Key(cs[i])
    ensures Gather(AllFound(cs)[i := Some(d)]) == cs[i := d]
  {
    assert AllFound(cs)[i := Some(d)] == AllFound(cs[i := d]);
    GatherAll(cs[i := d]);
  }

  lemma FoundAfter(cs: seq<Cred>, d: Option<Cred>)
    requires DistinctKeys(cs)
    ensures Gather(AllFound(cs) + [d]) == if d.None? || HasKey(cs, Key(d.value)) then cs else cs + [d.value]
  {
    assert (AllFound(cs) + [d])[..|cs|] == AllFound(cs);
    GatherAll(cs);
  }

  /** Putting `c` in again changes nothing when its line was read as `d`. */
  predicate Stable(cs: seq<Cred>, c: Cred, d: Option<Cred>) {
    match d
    case None => Place(cs, Key(c)) + 1 >= |cs|
    case Some(e) => Key(e) == Key(c) || HasKey(cs, Key(e))
  }

  /** The pool after putting `c` in, reading the lines, and putting `c` in again. */
  lemma PutTwice(cs: seq<Cred>, c: Cred, d: Option<Cred>)
    requires DistinctKeys(cs)
    requires d.Some? && Place(cs, Key(c)) < |cs| ==> Key(d.value) == Key(c)
    ensures var i, pool, again := Place(cs, Key(c)), Put(cs, c), Put(Gather(Found(cs, c, d)), c);
            && (Stable(cs, c, d) ==> again == pool)
            && (!Stable(cs, c, d) && d.Some? ==> |again| == |pool| + 1)
            && (!Stable(cs, c, d) && d.None? ==>
                  i + 1 < |cs| && |again| == |pool| && pool[i] == c && again[i] == cs[i + 1])
  {
    var i := Place(cs, Key(c));
    if i == |cs| {
      FoundAfter(cs, d);
      if d.Some? && !HasKey(cs, Key(d.value)) {
        PlaceAfter(cs, d.value, Key(c));
      } else if d.Some? {
        NotThere(cs, Key(c));
      }
    } else if d.Some? {
      FoundWith(cs, i, d.value);
      OverwrittenAgain(cs, i, d.value, c);
    } else {
      FoundWithout(cs, i);
      PutLast(cs, i, c);
    }
  }

  lemma NotThere(cs: seq<Cred>, key: string)
    ensures HasKey(cs, key) <==> Place(cs, key) < |cs|
  {
  }

  lemma SameDash(a: Cred, b: Cred)
    requires Key(a) == Key(b)
    ensures EndsInDash(a.email) <==> EndsInDash(b.email)
  {
    var n := |a.email|;
    assert |b.email| == n;
    if n > 0 {
      assert Key(a)[n - 1] == LowerChar(a.email[n - 1]) && Key(b)[n - 1] == LowerChar(b.email[n - 1]);
    }
  }

  lemma PlaceIs(cs: seq<Cred>, i: nat)
    requires i < |cs| && DistinctKeys(cs)
    ensures Place(cs, Key(cs[i])) == i
  {
  }

  /** A credential that was left out is put at the end. */
  lemma PutLast(cs: seq<Cred>, i: nat, c: Cred)
    requires i < |cs| && DistinctKeys(cs) && Key(cs[i]) == Key(c)
    ensures var again := Put(cs[..i] + cs[i + 1..], c);
            && (i + 1 == |cs| ==> again == cs[i := c])
            && (i + 1 < |cs| ==> |again| == |cs| && again[i] == cs[i + 1])
  {
    var kept := cs[..i] + cs[i + 1..];
    WithoutOne(cs, i);
    NotThere(kept, Key(c));
    assert Put(kept, c) == kept + [c];
    if i + 1 == |cs| {
      assert kept + [c] == cs[i := c];
    }
  }

  lemma PlaceAfter(cs: seq<Cred>, d: Cred, key: string)
    requires Place(cs, key) == |cs|
    ensures Place(cs + [d], key) == if Key(d) == key then |cs| else |cs| + 1
  {
    var r := cs + [d];
    assert forall j :: 0 <= j < |cs| ==> r[j] == cs[j] && Key(r[j]) != key;
    assert r[|cs|] == d;
  }

  /** Credentials that their lines are read as. */
  predicate Readable(cs: seq<Cred>) {
    forall j :: 0 <= j < |cs| ==> ParseLine(Line(cs[j])) == Some(cs[j])
  }

  lemma PortableIsReadable(text: string)
    requires NoDashes(Parse(text))
    ensures DistinctKeys(Parse(text)) && Readable(Parse(text))
  {
    var cs := Parse(text);
    GatherDistinct(Parsed(SplitLines(text)));
    forall i | 0 <= i < |cs| ensures ParseLine(Line(cs[i])) == Some(cs[i]) {
      assert cs[i] in cs;
      ParsedIsPortable(text, cs[i]);
      LineRoundTrip(cs[i]);
    }
  }

  lemma ReadsAll(cs: seq<Cred>)
    requires Readable(cs)
    ensures Reads(cs) == AllFound(cs)
  {
    forall j | 0 <= j < |cs| ensures Reads(cs)[j] == AllFound(cs)[j] {
      ReadsOne(cs, j);
    }
  }

  lemma ReadsUpdated(cs: seq<Cred>, i: nat, c: Cred)
    requires i < |cs|
    ensures Reads(cs[i := c]) == Reads(cs)[i := ParseLine(Line(c))]
  {
    var updated := Reads(cs)[i := ParseLine(Line(c))];
    forall j | 0 <= j < |cs| ensures Reads(cs[i := c])[j] == updated[j] {
      ReadsOne(cs[i := c], j);
      ReadsOne(cs, j);
    }
  }

  lemma ReadsMore(cs: seq<Cred>, c: Cred)
    ensures Reads(cs + [c]) == Reads(cs) + [ParseLine(Line(c))]
  {
    var more := Reads(cs) + [ParseLine(Line(c))];
    forall j | 0 <= j <= |cs| ensures Reads(cs + [c])[j] == more[j] {
      ReadsOne(cs + [c], j);
      if j < |cs| {
        ReadsOne(cs, j);
      }
    }
  }

  lemma FoundIs(cs: seq<Cred>, c: Cred)
    requires Readable(cs)
    ensures Reads(Put(cs, c)) == Found(cs, c, ParseLine(Line(c)))
  {
    var i := Place(cs, Key(c));
    ReadsAll(cs);
    if i < |cs| {
      ReadsUpdated(cs, i, c);
    } else {
      ReadsMore(cs, c);
    }
  }

  lemma OtherLine(a: seq<Cred>, b: seq<Cred>, i: nat)
    requires i < |a| == |b| && ParseLine(Line(a[i])) != ParseLine(Line(b[i]))
    ensures !SameLines(a, b)
  {
  }

  lemma ReadAgain(cs: seq<Cred>, c: Cred)
    requires DistinctKeys(cs) && Readable(cs) && NoSeparators(c) && CleanCred(c) && Usable(c)
    requires Place(cs, Key(c)) < |cs| ==> !EndsInDash(c.email)
    ensures SameLines(Put(Gather(Reads(Put(cs, c))), c), Put(cs, c)) <==> Stays(cs, c)
  {
    var i, d := Place(cs, Key(c)), ParseLine(Line(c));
    if d.Some? {
      ReadsUnder(c);
    }
    FoundIs(cs, c);
    PutTwice(cs, c, d);
    var pool, again := Put(cs, c), Put(Gather(Found(cs, c, d)), c);
    if !Stable(cs, c, d) && d.None? {
      OtherLine(again, pool, i);
    }
    assert SameLines(again, pool) <==> Stable(cs, c, d);
  }

  /** Importing one credential into a pool without dashes a second time changes nothing exactly if its email does
      not end in a dash, or is read as one that the pool has; a line that cannot be read has to be the last. */
  lemma ImportTwiceIff(before: string, after: string, c: Cred)
    requires Parse(after) == [c] && NoDashes(Parse(before))
    ensures Import(Import(before, after), after) == Import(before, after) <==> Stays(Parse(before), c)
  {
    var cs := Parse(before);
    var i := Place(cs, Key(c));
    PortableIsReadable(before);
    MergedIs(before, after);
    assert c in Parse(after);
    MergedKnown(before, after, c);
    if i < |cs| {
      assert cs[i] in cs;
      SameDash(cs[i], c);
    }
    ReadAgain(cs, c);
    StartAfresh(cs);
    PutOne(cs, c);
    MergedAgain(before, after, c);
  }

  lemma MergedAgain(before: string, after: string, c: Cred)
    requires Parse(after) == [c]
    ensures var pool := Merged(before, after);
            Import(Serialize(pool), after) == Serialize(pool) <==> SameLines(Put(Gather(Reads(pool)), c), pool)
  {
    var pool, again := Merged(before, after), Merged(Import(before, after), after);
    forall i | 0 <= i < |pool| ensures OneLineCred(pool[i]) {
      assert pool[i] in pool;
      MergedKnown(before, after, pool[i]);
    }
    forall i | 0 <= i < |again| ensures OneLineCred(again[i]) {
      assert again[i] in again;
      MergedKnown(Serialize(pool), after, again[i]);
    }
    LinesSplit(pool);
    var read := Gather(Parsed(Lines(pool)));
    GatherDistinct(Parsed(Lines(pool)));
    StartAfresh(read);
    PutOne(read, c);
    SameText(again, pool);
    LinesSame(again, pool);
  }

  lemma LinesSame(a: seq<Cred>, b: seq<Cred>)
    ensures Lines(a) == Lines(b) <==> SameLines(a, b)
  {
    var k, l := Lines(a), Lines(b);
    assert |k| == |a| && |l| == |b|;
    if k == l {
      forall i | 0 <= i < |a| ensures Line(a[i]) == Line(b[i]) {
        assert k[i] == Line(a[i]) && l[i] == Line(b[i]);
      }
    }
    if SameLines(a, b) {
      assert forall i :: 0 <= i < |a| ==> k[i] == l[i];
    }
  }

  lemma PutOne(cs: seq<Cred>, c: Cred)
    ensures PutAll(cs, [c]) == Put(cs, c)
  {
    assert [c][..0] == [];
  }

  /** Into an empty pool: it changes nothing exactly if the email does not end in a dash or the line cannot be
      read. */
  lemma FirstImportTwiceIff(after: string, c: Cred)
    requires Parse(after) == [c]
    ensures Import(Import("", after), after) == Import("", after) <==> !EndsInDash(c.email) || ParseLine(Line(c)).None?
  {
    assert Parse("") == [];
    ImportTwiceIff("", after, c);
  }

  // ---------- Emails that end in a dash ----------

  lemma ParseSingle(line: string)
    requires line != "" && OneLine(line)
    ensures Parse(line) == Gather([ParseLine(line)])
  {
    SplitJoin([line]);
    assert Parsed([line]) == [ParseLine(line)];
  }

  lemma GatherOne(c: Cred)
    ensures Gather([Some(c)]) == [c]
  {
    assert [Some(c)][..0] == [];
  }

  /** Texts without dashes, white space or odd characters. */
  predicate Simple(s: string) {
    s != "" && forall c :: c in s ==> c != '-' && c != BOM && !IsPySpace(c)
  }

  lemma NoTwoDashes(s: string)
    requires forall j :: 0 <= j < |s| - 1 ==> s[j] != '-' || s[j + 1] != '-'
    ensures Index(s, SEP, 0) == -1
  {
    forall j: nat ensures !StartsAt(s, j, SEP) {
      if j + |SEP| <= |s| {
        assert s[j..j + |SEP|][0] == s[j] && s[j..j + |SEP|][1] == s[j + 1];
      }
    }
  }

  lemma SimpleIsSafe(s: string)
    requires Simple(s)
    ensures Clean(s) == s && Safe(s) && OneLine(s)
  {
    assert forall j :: 0 <= j < |s| ==> s[j] in s;
    CleanFixes(s);
    NoTwoDashes(s);
  }

  lemma DashThenSimple(s: string)
    requires Simple(s)
    ensures Clean("-" + s) == "-" + s && Safe("-" + s) && OneLine("-" + s)
  {
    assert forall j :: 0 <= j < |s| ==> s[j] in s && ("-" + s)[j + 1] == s[j];
    CleanFixes("-" + s);
    NoTwoDashes("-" + s);
  }

  lemma DashedIs(e: string)
    requires Simple(e)
    ensures Clean(e + "- ") == e + "-" && Safe(e + "- ")
  {
    assert forall j :: 0 <= j < |e| ==> e[j] in e && (e + "- ")[j] == e[j];
    NoTwoDashes(e + "- ");
    ScrubKeeps(e + "- ");
    assert e + "-" + " " == e + "- ";
    StripSpace(e + "-");
  }

  lemma StripSpace(s: string)
    requires s != "" && Trimmed(s, IsPySpace)
    ensures Strip(s + " ") == s
  {
    TrimRightAdd(s, ' ', IsPySpace);
    TrimFixes(s, IsPySpace);
    assert TrimLeft(s + " ", IsPySpace) == s + " ";
    assert s + " " == s + [' '];
  }

  /** The pool text that is imported: the space keeps the last dash of the email out of the separator. */
  function Spaced(e: string, p: string, k: string, r: string): string {
    e + "- " + SEP + (p + SEP + (k + SEP + r))
  }

  lemma SpacedParses(e: string, p: string, k: string, r: string)
    requires Simple(e) && Simple(p) && Simple(k) && Simple(r) && '@' in e
    ensures Parse(Spaced(e, p, k, r)) == [Cred(e + "-", p, k, r)]
  {
    SimpleIsSafe(p);
    SimpleIsSafe(k);
    SimpleIsSafe(r);
    DashedIs(e);
    FieldsOf(e + "- ", p, k, r);
    SpacedIsClean(e, p, k, r);
    ParseSingle(Spaced(e, p, k, r));
    GatherOne(Cred(e + "-", p, k, r));
  }

  lemma SpacedIsClean(e: string, p: string, k: string, r: string)
    requires Simple(e) && Simple(p) && Simple(k) && Simple(r)
    ensures Clean(Spaced(e, p, k, r)) == Spaced(e, p, k, r) && OneLine(Spaced(e, p, k, r))
  {
    var line := Spaced(e, p, k, r);
    assert forall c :: c in line ==> c in e || c in p || c in k || c in r || c == '-' || c == ' ';
    assert line[0] == e[0] && e[0] in e && line[|line| - 1] == r[|r| - 1] && r[|r| - 1] in r;
    CleanFixes(line);
  }

  lemma PlainParses(e: string, p: string, k: string, r: string)
    requires Simple(e) && Simple(p) && Simple(k) && Simple(r) && '@' in e
    ensures Parse(Line(Cred(e, "-" + p, k, r))) == [Cred(e, "-" + p, k, r)]
  {
    SimpleIsSafe(e);
    DashThenSimple(p);
    SimpleIsSafe(k);
    SimpleIsSafe(r);
    var c := Cred(e, "-" + p, k, r);
    LineRoundTrip(c);
    OneLineLine(c);
    ParseSingle(Line(c));
    GatherOne(c);
  }

  /** An instance: an email that ends in a dash is read back without it, so importing the same line again
      adds a second account, for every such line. */
  lemma DashedEmailIsDoubled(e: string, p: string, k: string, r: string)
    requires Simple(e) && Simple(p) && Simple(k) && Simple(r) && '@' in e
    ensures var dashed, plain := Cred(e + "-", p, k, r), Cred(e, "-" + p, k, r);
            && Merged("", Spaced(e, p, k, r)) == [dashed]
            && Merged(Serialize([dashed]), Spaced(e, p, k, r)) == [plain, dashed]
  {
    var dashed, plain := Cred(e + "-", p, k, r), Cred(e, "-" + p, k, r);
    SpacedParses(e, p, k, r);
    PlainParses(e, p, k, r);
    SameLine(e, p, k + SEP + r);
    SerializeOne(dashed);
    PutTwo(plain, dashed);
    assert Parse("") == [];
  }

  lemma SameLine(e: string, p: string, rest: string)
    ensures e + "-" + SEP + (p + SEP + rest) == e + SEP + ("-" + p + SEP + rest)
  {
  }

  lemma SerializeOne(c: Cred)
    ensures Serialize([c]) == Line(c)
  {
    assert Lines([c]) == [Line(c)];
  }

  lemma PutTwo(a: Cred, b: Cred)
    requires |a.email| != |b.email|
    ensures PutAll([], [a]) == [a] && PutAll([], [b]) == [b] && PutAll([a], [b]) == [a, b] && PutAll([], []) == []
  {
    assert Key(a) != Key(b);
    assert [a][..0] == [] && [b][..0] == [];
  }
}
