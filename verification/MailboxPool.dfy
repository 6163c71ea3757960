/** The text form of a mailbox pool, one account a line
    (register-executor/services/register/mail_provider.py, lines 1983-2006, register_service.py, lines 70-83). */
module MailboxPool {
  import opened Common
  import opened Text

  datatype Cred = Cred(email: string, password: string, clientId: string, refreshToken: string)

  const SEP := "----"
  const BOM: char := '\U{FEFF}'
  const NBSP: char := '\U{A0}'

  // ---------- Cleaning one value ----------

  function Scrub(s: string): string {
    if s == "" then ""
    else
      var c := s[|s| - 1];
      Scrub(s[..|s| - 1]) + if c == BOM then "" else if c == NBSP then " " else [c]
  }

  /** _clean_outlook_value */
  function Clean(s: string): string {
    Strip(Scrub(s))
  }

  predicate Scrubbed(s: string) {
    forall c :: c in s ==> c != BOM && c != NBSP
  }

  lemma {:induction false} ScrubDoes(s: string)
    ensures Scrubbed(Scrub(s)) && |Scrub(s)| <= |s|
    ensures forall c :: c in Scrub(s) ==> c in s || c == ' '
  {
    if s != "" {
      ScrubDoes(s[..|s| - 1]);
    }
  }

  lemma {:induction false} ScrubKeeps(s: string)
    requires Scrubbed(s)
    ensures Scrub(s) == s
  {
    if s != "" {
      var t := s[..|s| - 1];
      assert s == t + [s[|s| - 1]];
      assert forall c :: c in t ==> c in s;
      ScrubKeeps(t);
      assert s[|s| - 1] in s;
    }
  }

  /** Exactly the texts without the two odd characters and without outer white space are clean. */
  lemma CleanFixes(s: string)
    ensures Clean(s) == s <==> Scrubbed(s) && Trimmed(s, IsPySpace)
    ensures Clean(Clean(s)) == Clean(s) && |Clean(s)| <= |s|
    ensures forall c :: c in Clean(s) ==> c in s || c == ' '
  {
    CleanIsClean(s);
    ScrubKeeps(Clean(s));
    TrimFixes(Clean(s), IsPySpace);
    if Scrubbed(s) {
      ScrubKeeps(s);
      TrimFixes(s, IsPySpace);
    }
  }

  lemma CleanIsClean(s: string)
    ensures Scrubbed(Clean(s)) && Trimmed(Clean(s), IsPySpace) && |Clean(s)| <= |s|
    ensures forall c :: c in Clean(s) ==> c in s || c == ' '
  {
    ScrubDoes(s);
    TrimFixes(Scrub(s), IsPySpace);
    TrimMembers(Scrub(s), IsPySpace);
    var i := TrimIsSlice(Scrub(s), IsPySpace);
  }

  // ---------- One line ----------

  function Line(c: Cred): string {
    c.email + SEP + (c.password + SEP + (c.clientId + SEP + c.refreshToken))
  }

  /** s.split("----", 1) */
  function Cut(s: string): Option<(string, string)> {
    var i := Index(s, SEP, 0);
    if i < 0 then None else Some((s[..i], s[i + |SEP|..]))
  }

  /** line.split("----", 3), when it has four parts, each cleaned. */
  function Fields(line: string): Option<Cred> {
    var a := Cut(line);
    if a.None? then None
    else
      var b := Cut(a.value.1);
      if b.None? then None
      else
        var c := Cut(b.value.1);
        if c.None? then None
        else Some(Cred(Clean(a.value.0), Clean(b.value.0), Clean(c.value.0), Clean(c.value.1)))
  }

  predicate Usable(c: Cred) {
    '@' in c.email && c.clientId != "" && c.refreshToken != ""
  }

  function ParseLine(raw: string): Option<Cred> {
    var c := Fields(Clean(raw));
    if c.Some? && Usable(c.value) then c else None
  }

  /** A field that its separator cannot be confused with. */
  predicate Safe(s: string) {
    Index(s, SEP, 0) == -1 && (s == "" || s[|s| - 1] != '-')
  }

  lemma NoneInSafe(field: string, rest: string, j: nat)
    requires Safe(field) && j < |field|
    ensures !StartsAt(field + SEP + rest, j, SEP)
  {
    var s, n := field + SEP + rest, |field|;
    if j + 4 <= n {
      assert s[j..j + 4] == field[j..j + 4];
      assert !StartsAt(field, j, SEP);
    } else {
      assert s[j..j + 4][n - 1 - j] == field[n - 1];
    }
  }

  lemma EarlyInUnsafe(field: string, rest: string) returns (j: nat)
    requires !Safe(field)
    ensures j < |field| && StartsAt(field + SEP + rest, j, SEP)
  {
    var s, n := field + SEP + rest, |field|;
    if Index(field, SEP, 0) >= 0 {
      j := Index(field, SEP, 0);
      assert s[j..j + 4] == field[j..j + 4];
    } else {
      j := n - 1;
      assert s == field[..j] + "-" + SEP + rest;
      assert s[j..] == "-" + SEP + rest;
    }
  }

  /** The first separator follows the field exactly when the field is safe; otherwise it comes earlier. */
  lemma FirstSeparator(field: string, rest: string)
    ensures var i := Index(field + SEP + rest, SEP, 0);
            0 <= i <= |field| && (i == |field| <==> Safe(field))
  {
    var s := field + SEP + rest;
    assert StartsAt(s, |field|, SEP);
    if Safe(field) {
      forall j: nat | j < |field| ensures !StartsAt(s, j, SEP) {
        NoneInSafe(field, rest, j);
      }
    } else {
      var j := EarlyInUnsafe(field, rest);
    }
  }

  lemma CutOnce(field: string, rest: string)
    ensures var cut := Cut(field + SEP + rest);
            && cut.Some?
            && (Safe(field) ==> cut == Some((field, rest)))
            && (!Safe(field) ==> |cut.value.0| < |field|)
  {
    FirstSeparator(field, rest);
    var s := field + SEP + rest;
    assert s[..|field|] == field && s[|field| + 4..] == rest;
  }

  predicate CleanCred(c: Cred) {
    && Clean(c.email) == c.email && Clean(c.password) == c.password
    && Clean(c.clientId) == c.clientId && Clean(c.refreshToken) == c.refreshToken
  }

  predicate Separable(c: Cred) {
    Safe(c.email) && Safe(c.password) && Safe(c.clientId)
  }

  lemma FieldsOf(a: string, b: string, c: string, d: string)
    requires Safe(a) && Safe(b) && Safe(c)
    ensures Fields(a + SEP + (b + SEP + (c + SEP + d))) == Some(Cred(Clean(a), Clean(b), Clean(c), Clean(d)))
  {
    CutOnce(a, b + SEP + (c + SEP + d));
    CutOnce(b, c + SEP + d);
    CutOnce(c, d);
  }

  lemma CutShort(field: string, rest: string)
    requires !Safe(field)
    ensures Cut(field + SEP + rest).Some? && |Clean(Cut(field + SEP + rest).value.0)| < |field|
  {
    CutOnce(field, rest);
    CleanFixes(Cut(field + SEP + rest).value.0);
  }

  /** A field that is not safe is cut short. */
  lemma FieldsShort(a: string, b: string, c: string, d: string)
    ensures var f := Fields(a + SEP + (b + SEP + (c + SEP + d)));
            f.Some? && !(Safe(a) && Safe(b) && Safe(c)) ==>
              |f.value.email| < |a| || |f.value.password| < |b| || |f.value.clientId| < |c|
  {
    if !Safe(a) {
      CutShort(a, b + SEP + (c + SEP + d));
    } else {
      CutOnce(a, b + SEP + (c + SEP + d));
      if !Safe(b) {
        CutShort(b, c + SEP + d);
      } else {
        CutOnce(b, c + SEP + d);
        if !Safe(c) {
          CutShort(c, d);
        }
      }
    }
  }

  lemma FieldsBack(c: Cred)
    requires CleanCred(c)
    ensures Fields(Line(c)) == Some(c) <==> Separable(c)
  {
    if Separable(c) {
      FieldsOf(c.email, c.password, c.clientId, c.refreshToken);
    } else {
      FieldsShort(c.email, c.password, c.clientId, c.refreshToken);
    }
  }

  lemma EndsTrim(a: string, b: string, c: string)
    requires a != "" && c != "" && Trimmed(a, IsPySpace) && Trimmed(c, IsPySpace)
    ensures Trimmed(a + b + c, IsPySpace)
  {
  }

  lemma LineIsClean(c: Cred)
    requires CleanCred(c) && c.email != "" && c.refreshToken != ""
    ensures Clean(Line(c)) == Line(c)
  {
    CleanFixes(c.email);
    CleanFixes(c.password);
    CleanFixes(c.clientId);
    CleanFixes(c.refreshToken);
    var middle := SEP + (c.password + SEP + (c.clientId + SEP));
    assert Line(c) == c.email + middle + c.refreshToken;
    ScrubbedSum(c.clientId, SEP);
    ScrubbedSum(c.password + SEP, c.clientId + SEP);
    ScrubbedSum(c.password, SEP);
    ScrubbedSum(SEP, c.password + SEP + (c.clientId + SEP));
    ScrubbedSum(c.email, middle);
    ScrubbedSum(c.email + middle, c.refreshToken);
    EndsTrim(c.email, middle, c.refreshToken);
    CleanFixes(Line(c));
  }

  lemma ScrubbedSum(a: string, b: string)
    requires Scrubbed(a) && Scrubbed(b)
    ensures Scrubbed(a + b)
  {
  }

  lemma FieldsAreClean(line: string)
    ensures Fields(line).Some? ==> CleanCred(Fields(line).value)
  {
    if Fields(line).Some? {
      var a := Cut(line).value;
      var b := Cut(a.1).value;
      var d := Cut(b.1).value;
      CleanFixes(a.0);
      CleanFixes(b.0);
      CleanFixes(d.0);
      CleanFixes(d.1);
    }
  }

  predicate Parsable(c: Cred) {
    CleanCred(c) && Usable(c) && Separable(c)
  }

  /** A line reads back as the credential it was written for exactly when the fields are clean, the
      required ones are there, and no field before a separator runs into it. */
  lemma LineRoundTrip(c: Cred)
    ensures ParseLine(Line(c)) == Some(c) <==> Parsable(c)
  {
    FieldsAreClean(Clean(Line(c)));
    if CleanCred(c) && Usable(c) {
      LineIsClean(c);
      FieldsBack(c);
    }
  }

  /** The format: email, password, client id and refresh token, in this order, with four dashes between. */
  lemma FormatIs(email: string, password: string, clientId: string, refreshToken: string)
    ensures Line(Cred(email, password, clientId, refreshToken))
         == email + "----" + password + "----" + clientId + "----" + refreshToken
  {
  }

  /** A part without odd characters and outer white space. */
  predicate Tidy(s: string) {
    Scrubbed(s) && Trimmed(s, IsPySpace)
  }

  /** A part in front of dashes that can be told from them. */
  ghost predicate Apart(s: string) {
    (forall j: nat :: !StartsAt(s, j, "----")) && (s == "" || s[|s| - 1] != '-')
  }

  /** A line is read back as its credential exactly if every part is tidy, the email has an @, the client id and the
      token are there, and the first three parts can be told from the dashes behind them. */
  lemma ReadBackIff(c: Cred)
    ensures ParseLine(Line(c)) == Some(c) <==>
              && Tidy(c.email) && Tidy(c.password) && Tidy(c.clientId) && Tidy(c.refreshToken)
              && '@' in c.email && |c.clientId| >= 1 && |c.refreshToken| >= 1
              && Apart(c.email) && Apart(c.password) && Apart(c.clientId)
  {
    LineRoundTrip(c);
    CleanFixes(c.email);
    CleanFixes(c.password);
    CleanFixes(c.clientId);
    CleanFixes(c.refreshToken);
    SafeIff(c.email);
    SafeIff(c.password);
    SafeIff(c.clientId);
  }

  lemma SafeIff(s: string)
    ensures Safe(s) <==> Apart(s)
  {
  }

  // ---------- Lines of a text ----------

  /** What str.splitlines() breaks at. */
  predicate IsBreak(c: char) {
    var k := c as int;
    10 <= k <= 13 || 0x1C <= k <= 0x1E || k == 0x85 || k == 0x2028 || k == 0x2029
  }

  predicate OneLine(s: string) {
    forall c :: c in s ==> !IsBreak(c)
  }

  function LineLength(text: string): (n: nat)
    ensures n <= |text| && OneLine(text[..n]) && (n < |text| ==> IsBreak(text[n]))
  {
    if text == "" || IsBreak(text[0]) then 0
    else
      var n := LineLength(text[1..]);
      assert text[..1 + n] == [text[0]] + text[1..][..n];
      1 + n
  }

  /** text.splitlines() */
  function SplitLines(text: string): (lines: seq<string>)
    ensures forall l :: l in lines ==> OneLine(l)
    decreases |text|
  {
    if text == "" then []
    else
      var n := LineLength(text);
      if n == |text| then [text]
      else
        var skip := if text[n] == '\r' && n + 1 < |text| && text[n + 1] == '\n' then 2 else 1;
        [text[..n]] + SplitLines(text[n + skip..])
  }

  /** "\n".join(lines) */
  function Join(lines: seq<string>): string {
    if lines == [] then ""
    else if |lines| == 1 then lines[0]
    else lines[0] + "\n" + Join(lines[1..])
  }

  lemma LineLengthIs(text: string, n: nat)
    requires n <= |text| && OneLine(text[..n]) && (n < |text| ==> IsBreak(text[n]))
    ensures LineLength(text) == n
  {
    assert forall i :: 0 <= i < n ==> text[i] in text[..n];
    assert forall i :: 0 <= i < LineLength(text) ==> text[i] in text[..LineLength(text)];
  }

  /** Splitting undoes joining for lines that are single and not empty. */
  lemma {:induction false} SplitJoin(lines: seq<string>)
    requires forall l :: l in lines ==> l != "" && OneLine(l)
    ensures SplitLines(Join(lines)) == lines
  {
    if lines == [] {
    } else if |lines| == 1 {
      assert lines[0][..|lines[0]|] == lines[0];
      LineLengthIs(lines[0], |lines[0]|);
    } else {
      var text := Join(lines);
      var n := |lines[0]|;
      assert text[..n] == lines[0] && text[n] == '\n';
      LineLengthIs(text, n);
      assert text[n + 1..] == Join(lines[1..]);
      assert forall l :: l in lines[1..] ==> l in lines;
      SplitJoin(lines[1..]);
    }
  }

  // ---------- The whole pool ----------

  function Key(c: Cred): string {
    Lower(c.email)
  }

  /** Two emails are taken for the same exactly if they differ in nothing but the case of letters. */
  lemma SameKeyIff(c: Cred, d: Cred)
    ensures Key(c) == Key(d) <==>
              && |c.email| == |d.email|
              && forall i :: 0 <= i < |c.email| ==>
                   || c.email[i] == d.email[i]
                   || ('A' <= c.email[i] <= 'Z' && d.email[i] as int == c.email[i] as int + 32)
                   || ('A' <= d.email[i] <= 'Z' && c.email[i] as int == d.email[i] as int + 32)
  {
    var k, l := Key(c), Key(d);
    if k == l {
      forall i | 0 <= i < |k| ensures LowerChar(c.email[i]) == LowerChar(d.email[i]) {
        assert k[i] == l[i];
      }
    }
    if |k| == |l| && (forall i :: 0 <= i < |k| ==> LowerChar(c.email[i]) == LowerChar(d.email[i])) {
      assert forall i :: 0 <= i < |k| ==> k[i] == l[i];
    }
  }

  predicate HasKey(cs: seq<Cred>, key: string) {
    exists i :: 0 <= i < |cs| && Key(cs[i]) == key
  }

  /** The first credential of an email wins. */
  function Gather(found: seq<Option<Cred>>): seq<Cred> {
    if found == [] then []
    else
      var cs := Gather(found[..|found| - 1]);
      var c := found[|found| - 1];
      if c.None? || HasKey(cs, Key(c.value)) then cs else cs + [c.value]
  }

  function Parsed(lines: seq<string>): seq<Option<Cred>> {
    seq(|lines|, i requires 0 <= i < |lines| => ParseLine(lines[i]))
  }

  /** parse_outlook_credentials */
  function Parse(text: string): seq<Cred> {
    Gather(Parsed(SplitLines(text)))
  }

  function Lines(cs: seq<Cred>): seq<string> {
    seq(|cs|, i requires 0 <= i < |cs| => Line(cs[i]))
  }

  /** _serialize_outlook_pool */
  function Serialize(cs: seq<Cred>): string {
    Join(Lines(cs))
  }

  ghost predicate DistinctKeys(cs: seq<Cred>) {
    forall i, j :: 0 <= i < j < |cs| ==> Key(cs[i]) != Key(cs[j])
  }

  predicate OneLineCred(c: Cred) {
    OneLine(c.email) && OneLine(c.password) && OneLine(c.clientId) && OneLine(c.refreshToken)
  }

  /** Credentials the line format can carry: clean one-line fields, an email with an @, a client and a
      token, and no field in front of a separator that contains it or ends in a dash. */
  predicate Portable(c: Cred) {
    Parsable(c) && OneLineCred(c)
  }

  ghost predicate PortablePool(cs: seq<Cred>) {
    DistinctKeys(cs) && forall i :: 0 <= i < |cs| ==> Portable(cs[i])
  }

  lemma OneLineSum(a: string, b: string)
    ensures OneLine(a + b) <==> OneLine(a) && OneLine(b)
  {
    if OneLine(a + b) {
      assert forall c :: c in a ==> c in a + b;
      assert forall c :: c in b ==> c in a + b;
    }
  }

  lemma OneLineLine(c: Cred)
    ensures OneLine(Line(c)) <==> OneLineCred(c)
  {
    var k := c.clientId + SEP + c.refreshToken;
    OneLineSum(c.clientId, SEP);
    OneLineSum(c.clientId + SEP, c.refreshToken);
    OneLineSum(c.password, SEP);
    OneLineSum(c.password + SEP, k);
    OneLineSum(c.email, SEP);
    OneLineSum(c.email + SEP, c.password + SEP + k);
  }

  lemma LinesSplit(cs: seq<Cred>)
    requires forall i :: 0 <= i < |cs| ==> OneLineCred(cs[i])
    ensures SplitLines(Serialize(cs)) == Lines(cs)
  {
    forall l | l in Lines(cs) ensures l != "" && OneLine(l) {
      var i :| 0 <= i < |cs| && l == Lines(cs)[i];
      OneLineLine(cs[i]);
    }
    SplitJoin(Lines(cs));
  }

  function AllFound(cs: seq<Cred>): seq<Option<Cred>> {
    seq(|cs|, i requires 0 <= i < |cs| => Some(cs[i]))
  }

  lemma {:induction false} GatherAll(cs: seq<Cred>)
    requires DistinctKeys(cs)
    ensures Gather(AllFound(cs)) == cs
  {
    if cs != [] {
      var n := |cs| - 1;
      GatherAll(cs[..n]);
      assert AllFound(cs)[..n] == AllFound(cs[..n]);
      assert cs == cs[..n] + [cs[n]];
    }
  }

  /** At most one credential a line; as many as lines means one from each. */
  lemma {:induction false} GatherFull(found: seq<Option<Cred>>)
    ensures |Gather(found)| <= |found|
    ensures |Gather(found)| == |found| ==> found == AllFound(Gather(found))
  {
    if found != [] {
      GatherFull(found[..|found| - 1]);
      assert found == found[..|found| - 1] + [found[|found| - 1]];
    }
  }

  lemma {:induction false} GatherDistinct(found: seq<Option<Cred>>)
    ensures DistinctKeys(Gather(found))
  {
    if found != [] {
      GatherDistinct(found[..|found| - 1]);
    }
  }

  /** Parsing gives nothing but what the lines gave. */
  lemma {:induction false} GatherMembers(found: seq<Option<Cred>>, c: Cred)
    requires c in Gather(found)
    ensures Some(c) in found
  {
    var init := found[..|found| - 1];
    assert found == init + [found[|found| - 1]];
    if c in Gather(init) {
      GatherMembers(init, c);
    }
  }

  lemma CutOneLine(s: string)
    requires OneLine(s) && Cut(s).Some?
    ensures OneLine(Cut(s).value.0) && OneLine(Cut(s).value.1)
            && OneLine(Clean(Cut(s).value.0)) && OneLine(Clean(Cut(s).value.1))
  {
    CleanFixes(Cut(s).value.0);
    CleanFixes(Cut(s).value.1);
  }

  lemma FieldsOneLine(line: string)
    requires OneLine(line) && Fields(line).Some?
    ensures OneLineCred(Fields(line).value)
  {
    CutOneLine(line);
    CutOneLine(Cut(line).value.1);
    CutOneLine(Cut(Cut(line).value.1).value.1);
  }

  lemma ParsedIsOneLine(raw: string)
    requires OneLine(raw) && ParseLine(raw).Some?
    ensures OneLineCred(ParseLine(raw).value)
  {
    CleanFixes(raw);
    FieldsOneLine(Clean(raw));
  }

  lemma ParseIsOneLine(text: string, c: Cred)
    requires c in Parse(text)
    ensures OneLineCred(c)
  {
    var lines := SplitLines(text);
    GatherMembers(Parsed(lines), c);
    var i :| 0 <= i < |lines| && Parsed(lines)[i] == Some(c);
    ParsedIsOneLine(lines[i]);
  }

  lemma PortableReturns(cs: seq<Cred>)
    requires PortablePool(cs)
    ensures Parse(Serialize(cs)) == cs
  {
    LinesSplit(cs);
    forall i | 0 <= i < |cs| ensures ParseLine(Line(cs[i])) == Some(cs[i]) {
      LineRoundTrip(cs[i]);
    }
    assert Parsed(Lines(cs)) == AllFound(cs);
    GatherAll(cs);
  }

  lemma ReturningIsPortable(cs: seq<Cred>)
    requires Parse(Serialize(cs)) == cs
    ensures PortablePool(cs)
  {
    forall i | 0 <= i < |cs| ensures OneLineCred(cs[i]) {
      ParseIsOneLine(Serialize(cs), cs[i]);
    }
    LinesSplit(cs);
    var found := Parsed(Lines(cs));
    GatherDistinct(found);
    GatherFull(found);
    forall i | 0 <= i < |cs| ensures Portable(cs[i]) {
      assert found[i] == AllFound(cs)[i];
      LineRoundTrip(cs[i]);
    }
  }

  /** Parsing undoes serializing exactly for the portable pools. */
  lemma PoolRoundTrip(cs: seq<Cred>)
    ensures Parse(Serialize(cs)) == cs <==> PortablePool(cs)
  {
    if PortablePool(cs) {
      PortableReturns(cs);
    }
    if Parse(Serialize(cs)) == cs {
      ReturningIsPortable(cs);
    }
  }

  method ParseOutlookCredentials(text: string) returns (credentials: seq<Cred>)
    ensures credentials == Parse(text)
  {
    credentials := [];
    var seen: set<string> := {};
    var lines := SplitLines(text);
    for i := 0 to |lines|
      invariant credentials == Gather(Parsed(lines)[..i])
      invariant forall key :: key in seen <==> HasKey(credentials, key)
    {
      assert Parsed(lines)[..i + 1][..i] == Parsed(lines)[..i];
      var found := ParseLine(lines[i]);
      if found.None? {
        continue;
      }
      var key := Lower(found.value.email);
      if key in seen {
        continue;
      }
      seen := seen + {key};
      NewKey(credentials, found.value);
      credentials := credentials + [found.value];
    }
    assert Parsed(lines)[..|lines|] == Parsed(lines);
  }

  lemma NewKey(cs: seq<Cred>, c: Cred)
    ensures forall key :: HasKey(cs + [c], key) <==> HasKey(cs, key) || key == Key(c)
  {
    forall key ensures HasKey(cs + [c], key) <==> HasKey(cs, key) || key == Key(c) {
      assert (cs + [c])[|cs|] == c;
      if i :| 0 <= i < |cs| && Key(cs[i]) == key {
        assert (cs + [c])[i] == cs[i];
      }
    }
  }

  // ---------- Merging ----------

  /** Where a key stands, or the end. */
  function Place(cs: seq<Cred>, key: string): (i: nat)
    ensures i <= |cs|
    ensures i < |cs| ==> Key(cs[i]) == key
    ensures forall j :: 0 <= j < i ==> Key(cs[j]) != key
  {
    if cs == [] || Key(cs[0]) == key then 0 else 1 + Place(cs[1..], key)
  }

  /** merged[key] = credential: a dictionary keeps the place of a key it has. */
  function Put(cs: seq<Cred>, c: Cred): seq<Cred> {
    var i := Place(cs, Key(c));
    if i < |cs| then cs[i := c] else cs + [c]
  }

  function PutAll(cs: seq<Cred>, more: seq<Cred>): seq<Cred> {
    if more == [] then cs else Put(PutAll(cs, more[..|more| - 1]), more[|more| - 1])
  }

  function Merged(before: string, after: string): seq<Cred> {
    PutAll(PutAll([], Parse(before)), Parse(after))
  }

  method PutEach(cs: seq<Cred>, more: seq<Cred>) returns (merged: seq<Cred>)
    ensures merged == PutAll(cs, more)
  {
    merged := cs;
    for i := 0 to |more|
      invariant merged == PutAll(cs, more[..i])
    {
      assert more[..i + 1][..i] == more[..i];
      merged := Put(merged, more[i]);
    }
    assert more[..|more|] == more;
  }

  /** _merge_outlook_pool */
  method MergeOutlookPool(before: string, after: string) returns (text: string)
    ensures text == Serialize(Merged(before, after))
  {
    var credentials := ParseOutlookCredentials(before);
    var merged := PutEach([], credentials);
    credentials := ParseOutlookCredentials(after);
    merged := PutEach(merged, credentials);
    text := Serialize(merged);
  }

  lemma PutIs(cs: seq<Cred>, c: Cred)
    requires DistinctKeys(cs)
    ensures DistinctKeys(Put(cs, c))
    ensures forall x :: x in Put(cs, c) <==> x == c || (x in cs && Key(x) != Key(c))
  {
    var i := Place(cs, Key(c));
    var r := Put(cs, c);
    forall x ensures x in r <==> x == c || (x in cs && Key(x) != Key(c)) {
      if j :| 0 <= j < |cs| && cs[j] == x {
        assert j != i ==> r[j] == x;
      }
      assert i < |r| && r[i] == c;
    }
  }

  /** The merged pool has every new credential, and the old ones whose email is not among the new. */
  lemma {:induction false} PutAllIs(cs: seq<Cred>, more: seq<Cred>)
    requires DistinctKeys(cs) && DistinctKeys(more)
    ensures DistinctKeys(PutAll(cs, more))
    ensures forall x :: x in PutAll(cs, more) <==> x in more || (x in cs && !HasKey(more, Key(x)))
  {
    if more != [] {
      var n := |more| - 1;
      var c := more[n];
      PutAllIs(cs, more[..n]);
      PutIs(PutAll(cs, more[..n]), c);
      assert more == more[..n] + [c];
      NewKey(more[..n], c);
      forall x | x in more[..n] ensures Key(x) != Key(c) {
      }
    }
  }

  lemma PutSame(cs: seq<Cred>, c: Cred)
    requires DistinctKeys(cs) && c in cs
    ensures Put(cs, c) == cs
  {
    var i :| 0 <= i < |cs| && cs[i] == c;
    assert Place(cs, Key(c)) == i;
  }

  /** Putting in what is there changes nothing. */
  lemma {:induction false} PutAgain(cs: seq<Cred>, more: seq<Cred>)
    requires DistinctKeys(cs) && forall x :: x in more ==> x in cs
    ensures PutAll(cs, more) == cs
  {
    if more != [] {
      var n := |more| - 1;
      assert more == more[..n] + [more[n]];
      PutAgain(cs, more[..n]);
      PutSame(cs, more[n]);
    }
  }

  lemma MergedIs(before: string, after: string)
    ensures DistinctKeys(Merged(before, after))
    ensures forall x :: x in Merged(before, after) <==>
                          x in Parse(after) || (x in Parse(before) && !HasKey(Parse(after), Key(x)))
  {
    GatherDistinct(Parsed(SplitLines(before)));
    GatherDistinct(Parsed(SplitLines(after)));
    PutAllIs([], Parse(before));
    PutAllIs(PutAll([], Parse(before)), Parse(after));
    assert forall x :: x in PutAll([], Parse(before)) <==> x in Parse(before);
  }

  // ---------- Merging twice ----------

  predicate EndsInDash(s: string) {
    s != "" && s[|s| - 1] == '-'
  }

  lemma SliceOfSlice(s: string, k: nat, m: nat, i: nat, j: nat)
    requires k <= m <= |s| && i <= j <= m - k
    ensures s[k..m][i..j] == s[k + i..k + j]
  {
    var a, b := s[k..m][i..j], s[k + i..k + j];
    forall x | 0 <= x < j - i ensures a[x] == b[x] {
      assert a[x] == s[k..m][i + x] == s[k + i + x];
    }
  }

  lemma SliceStartsAt(s: string, k: nat, m: nat, j: nat)
    requires k <= m <= |s| && StartsAt(s[k..m], j, SEP)
    ensures StartsAt(s, k + j, SEP)
  {
    SliceOfSlice(s, k, m, j, j + |SEP|);
  }

  lemma SliceHoldsNone(s: string, n: nat, k: nat, m: nat)
    requires k <= m <= n <= |s| && forall j: nat :: j < n ==> !StartsAt(s, j, SEP)
    ensures Index(s[k..m], SEP, 0) == -1
  {
    var i := Index(s[k..m], SEP, 0);
    if i >= 0 {
      SliceStartsAt(s, k, m, i);
    }
  }

  lemma ScrubbedSlices(s: string, i: nat, j: nat)
    requires Scrubbed(s) && i <= |s| && j <= |s|
    ensures Scrubbed(s[..i]) && Scrubbed(s[j..])
  {
    assert forall c :: c in s[..i] || c in s[j..] ==> c in s;
  }

  /** What stands before the first separator holds none, also when cleaned. */
  lemma CutHoldsNone(s: string)
    requires Scrubbed(s) && Cut(s).Some?
    ensures Index(Clean(Cut(s).value.0), SEP, 0) == -1 && Scrubbed(Cut(s).value.1)
  {
    var i := Index(s, SEP, 0);
    ScrubbedSlices(s, i, i + |SEP|);
    ScrubKeeps(s[..i]);
    var k := TrimIsSlice(s[..i], IsPySpace);
    var r := Clean(s[..i]);
    assert r == s[k..k + |r|];
    SliceHoldsNone(s, i, k, k + |r|);
  }

  ghost predicate NoSeparators(c: Cred) {
    Index(c.email, SEP, 0) == -1 && Index(c.password, SEP, 0) == -1 && Index(c.clientId, SEP, 0) == -1
  }

  lemma FieldsHoldNone(line: string)
    requires Scrubbed(line) && Fields(line).Some?
    ensures NoSeparators(Fields(line).value)
  {
    CutHoldsNone(line);
    CutHoldsNone(Cut(line).value.1);
    CutHoldsNone(Cut(Cut(line).value.1).value.1);
  }

  lemma ParsedHoldsNone(raw: string)
    requires ParseLine(raw).Some?
    ensures var c := ParseLine(raw).value; NoSeparators(c) && CleanCred(c) && Usable(c)
  {
    CleanIsClean(raw);
    FieldsAreClean(Clean(raw));
    FieldsHoldNone(Clean(raw));
  }

  /** A parsed credential is portable unless one of its first three fields ends in a dash. */
  lemma ParsedIsPortable(text: string, c: Cred)
    requires c in Parse(text)
    ensures Portable(c) <==> !EndsInDash(c.email) && !EndsInDash(c.password) && !EndsInDash(c.clientId)
  {
    ParseIsOneLine(text, c);
    var lines := SplitLines(text);
    GatherMembers(Parsed(lines), c);
    var i :| 0 <= i < |lines| && Parsed(lines)[i] == Some(c);
    ParsedHoldsNone(lines[i]);
    PortableIs(c);
  }

  lemma PortableIs(c: Cred)
    requires NoSeparators(c) && CleanCred(c) && Usable(c) && OneLineCred(c)
    ensures Portable(c) <==> !EndsInDash(c.email) && !EndsInDash(c.password) && !EndsInDash(c.clientId)
  {
  }

  ghost predicate NoDashes(pool: seq<Cred>) {
    forall c :: c in pool ==> !EndsInDash(c.email) && !EndsInDash(c.password) && !EndsInDash(c.clientId)
  }

  /** A merged pool reads back as itself exactly when none of its first three fields ends in a dash. */
  lemma MergedReadsBack(before: string, after: string)
    ensures Parse(Serialize(Merged(before, after))) == Merged(before, after) <==> NoDashes(Merged(before, after))
  {
    var pool := Merged(before, after);
    MergedIs(before, after);
    PoolRoundTrip(pool);
    forall i | 0 <= i < |pool|
      ensures Portable(pool[i]) <==>
              !EndsInDash(pool[i].email) && !EndsInDash(pool[i].password) && !EndsInDash(pool[i].clientId)
    {
      assert pool[i] in pool;
      if pool[i] in Parse(after) {
        ParsedIsPortable(after, pool[i]);
      } else {
        ParsedIsPortable(before, pool[i]);
      }
    }
  }
}
