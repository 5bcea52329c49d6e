/** One line of the persisted log: the JSON object `append` writes and the reader that takes it back. */
module LogLine {
  import opened Bytes
  import opened Options
  import opened Merkle

  const DIGITS: set<char> := {'0', '1', '2', '3', '4', '5', '6', '7', '8', '9'}
  const HEX_DIGITS: set<char> := DIGITS + {'a', 'b', 'c', 'd', 'e', 'f'}

  const KEY_SEQ: string := "{\"seq\":"
  const KEY_ID: string := ",\"id_pk_hex\":\""
  const KEY_EVIDENCE: string := "\",\"evidence_sha256_hex\":\""
  const KEY_TIME: string := "\",\"observed_at_unix\":"

  // ---------------------------------------------------------------- numbers and runs

  function DigitChar(d: nat): (c: char)
    requires d < 10
    ensures c in DIGITS && DigitValue(c) == d
  {
    '0' + d as char
  }

  function DigitValue(c: char): nat {
    if '0' <= c <= '9' then (c - '0') as nat else 0
  }

  function Decimal(n: nat): (s: string)
    ensures s != "" && forall i :: 0 <= i < |s| ==> s[i] in DIGITS
  {
    if n < 10 then [DigitChar(n)] else Decimal(n / 10) + [DigitChar(n % 10)]
  }

  function DecimalValue(s: string): nat {
    if s == "" then 0 else 10 * DecimalValue(s[..|s| - 1]) + DigitValue(s[|s| - 1])
  }

  lemma {:induction false} DecimalRoundTrip(n: nat)
    ensures DecimalValue(Decimal(n)) == n
  {
    var s := Decimal(n);
    if n >= 10 {
      DecimalRoundTrip(n / 10);
      assert s[..|s| - 1] == Decimal(n / 10);
    } else {
      assert s[..|s| - 1] == "";
    }
  }

  predicate AllIn(s: string, cls: set<char>) {
    forall i :: 0 <= i < |s| ==> s[i] in cls
  }

  /** Length of the longest prefix made of characters of a class. */
  function RunLength(s: string, cls: set<char>): (k: nat)
    ensures k <= |s| && AllIn(s[..k], cls)
  {
    if s == "" || s[0] !in cls then 0
    else
      var k := 1 + RunLength(s[1..], cls);
      assert forall i :: 0 < i < k ==> s[i] == s[1..][i - 1];
      k
  }

  lemma {:induction false} RunStops(a: string, b: string, cls: set<char>)
    requires AllIn(a, cls) && b != "" && b[0] !in cls
    ensures RunLength(a + b, cls) == |a|
  {
    if a != "" {
      assert (a + b)[1..] == a[1..] + b;
      RunStops(a[1..], b, cls);
    } else {
      assert a + b == b;
    }
  }

  // ---------------------------------------------------------------- writing

  /** What `from_evidence` produces: hex strings and `u64` numbers. */
  predicate Writable(e: Entry) {
    AllIn(e.idPkHex, HEX_DIGITS) && AllIn(e.evidenceSha256Hex, HEX_DIGITS) && e.seqNo < U64 && e.observedAtUnix < U64
  }

  function Format(e: Entry): string {
    KEY_SEQ + (Decimal(e.seqNo) + (KEY_ID + (e.idPkHex + (KEY_EVIDENCE + (e.evidenceSha256Hex
    + (KEY_TIME + (Decimal(e.observedAtUnix) + "}")))))))
  }

  // ---------------------------------------------------------------- reading

  /** The rest of `s` after `p`. */
  function Expect(s: string, p: string): (r: Option<string>)
    ensures r.Some? ==> s == p + r.value
  {
    if p <= s then Some(s[|p|..]) else None
  }

  /** A JSON number, without leading zero and within a `u64`, and the rest. */
  function ReadNumber(s: string): Option<(nat, string)> {
    var k := RunLength(s, DIGITS);
    var v := DecimalValue(s[..k]);
    if k == 0 || s[..k] != Decimal(v) || v >= U64 then None else Some((v, s[k..]))
  }

  function ReadHex(s: string): (string, string) {
    var k := RunLength(s, HEX_DIGITS);
    (s[..k], s[k..])
  }

  /** Reads exactly what `Format` writes. */
  function Parse(s: string): Option<Entry> {
    var s1 := Expect(s, KEY_SEQ);
    if s1.None? then None else
    var number := ReadNumber(s1.value);
    if number.None? then None else
    var s2 := Expect(number.value.1, KEY_ID);
    if s2.None? then None else
    var id := ReadHex(s2.value);
    var s3 := Expect(id.1, KEY_EVIDENCE);
    if s3.None? then None else
    var evidence := ReadHex(s3.value);
    var s4 := Expect(evidence.1, KEY_TIME);
    if s4.None? then None else
    var time := ReadNumber(s4.value);
    if time.None? || time.value.1 != "}" then None
    else Some(Entry(number.value.0, id.0, evidence.0, time.value.0))
  }

  lemma ExpectSkips(p: string, rest: string)
    ensures Expect(p + rest, p) == Some(rest)
  {
    assert (p + rest)[|p|..] == rest;
  }

  lemma ReadNumberStops(n: nat, rest: string)
    requires n < U64 && rest != "" && rest[0] !in DIGITS
    ensures ReadNumber(Decimal(n) + rest) == Some((n, rest))
  {
    RunStops(Decimal(n), rest, DIGITS);
    DecimalRoundTrip(n);
    assert (Decimal(n) + rest)[..|Decimal(n)|] == Decimal(n) && (Decimal(n) + rest)[|Decimal(n)|..] == rest;
  }

  lemma ReadHexStops(h: string, rest: string)
    requires AllIn(h, HEX_DIGITS) && rest != "" && rest[0] !in HEX_DIGITS
    ensures ReadHex(h + rest) == (h, rest)
  {
    RunStops(h, rest, HEX_DIGITS);
    assert (h + rest)[..|h|] == h && (h + rest)[|h|..] == rest;
  }

  /** A written entry is read back. */
  lemma LineRoundTrip(e: Entry)
    requires Writable(e)
    ensures Parse(Format(e)) == Some(e)
  {
    hide Expect, ReadNumber, ReadHex;
    var r5 := Decimal(e.observedAtUnix) + "}";
    var r4 := KEY_TIME + r5;
    var r3 := e.evidenceSha256Hex + r4;
    var r2 := KEY_EVIDENCE + r3;
    var r1 := e.idPkHex + r2;
    var r0 := KEY_ID + r1;
    ExpectSkips(KEY_SEQ, Decimal(e.seqNo) + r0);
    ReadNumberStops(e.seqNo, r0);
    ExpectSkips(KEY_ID, r1);
    ReadHexStops(e.idPkHex, r2);
    ExpectSkips(KEY_EVIDENCE, r3);
    ReadHexStops(e.evidenceSha256Hex, r4);
    ExpectSkips(KEY_TIME, r5);
    ReadNumberStops(e.observedAtUnix, "}");
  }

  lemma ReadNumberIs(s: string)
    requires ReadNumber(s).Some?
    ensures var (v, rest) := ReadNumber(s).value; v < U64 && s == Decimal(v) + rest
  {
  }

  lemma ReadHexIs(s: string)
    ensures var (h, rest) := ReadHex(s); AllIn(h, HEX_DIGITS) && s == h + rest
  {
  }

  /** And nothing else is read: a text that parses is the line of the entry it parses to. */
  lemma ParsedIsFormat(s: string)
    requires Parse(s).Some?
    ensures Writable(Parse(s).value) && s == Format(Parse(s).value)
  {
    hide ReadNumber, ReadHex, Expect;
    var s1 := Expect(s, KEY_SEQ).value;
    ReadNumberIs(s1);
    var s2 := Expect(ReadNumber(s1).value.1, KEY_ID).value;
    ReadHexIs(s2);
    var s3 := Expect(ReadHex(s2).1, KEY_EVIDENCE).value;
    ReadHexIs(s3);
    var s4 := Expect(ReadHex(s3).1, KEY_TIME).value;
    ReadNumberIs(s4);
  }

  /** Somewhere in the text the name is followed by the value. */
  ghost predicate Holds(s: string, name: string, value: string) {
    exists a: string, b: string :: s == a + (name + (value + b))
  }

  lemma HoldsBehind(front: string, s: string, name: string, value: string)
    requires Holds(s, name, value)
    ensures Holds(front + s, name, value)
  {
    var a, b :| s == a + (name + (value + b));
    assert front + s == (front + a) + (name + (value + b));
  }

  lemma HoldsHere(front: string, name: string, value: string, rest: string)
    ensures Holds((front + name) + (value + rest), name, value)
  {
    assert (front + name) + (value + rest) == front + (name + (value + rest));
  }

  lemma SeqName()
    ensures KEY_SEQ == "{" + "\"seq\":" && KEY_ID == "," + "\"id_pk_hex\":\""
  {
  }

  lemma EvidenceName()
    ensures KEY_EVIDENCE == "\"," + "\"evidence_sha256_hex\":\""
  {
  }

  lemma TimeName()
    ensures KEY_TIME == "\"," + "\"observed_at_unix\":"
  {
  }

  /** In the JSON text of an entry every field stands behind its own name. */
  lemma FieldsAreNamed(e: Entry)
    ensures Holds(Format(e), "\"seq\":", Decimal(e.seqNo)) && Holds(Format(e), "\"observed_at_unix\":", Decimal(e.observedAtUnix))
    ensures Holds(Format(e), "\"id_pk_hex\":\"", e.idPkHex)
    ensures Holds(Format(e), "\"evidence_sha256_hex\":\"", e.evidenceSha256Hex)
  {
    SeqName();
    EvidenceName();
    TimeName();
    hide Decimal, Holds;
    var seqName, idName, evidenceName, timeName := "\"seq\":", "\"id_pk_hex\":\"", "\"evidence_sha256_hex\":\"", "\"observed_at_unix\":";
    var n, id, ev, t := Decimal(e.seqNo), e.idPkHex, e.evidenceSha256Hex, Decimal(e.observedAtUnix);
    var r4 := KEY_TIME + (t + "}");
    HoldsHere("\",", timeName, t, "}");
    var r3 := ev + r4;
    var r2 := KEY_EVIDENCE + r3;
    HoldsHere("\",", evidenceName, ev, r4);
    HoldsBehind(ev, r4, timeName, t);
    HoldsBehind(KEY_EVIDENCE, r3, timeName, t);
    var r1 := id + r2;
    var r0 := KEY_ID + r1;
    HoldsHere(",", idName, id, r2);
    HoldsBehind(id, r2, timeName, t);
    HoldsBehind(id, r2, evidenceName, ev);
    HoldsBehind(KEY_ID, r1, timeName, t);
    HoldsBehind(KEY_ID, r1, evidenceName, ev);
    HoldsHere("{", seqName, n, r0);
    HoldsBehind(n, r0, timeName, t);
    HoldsBehind(n, r0, evidenceName, ev);
    HoldsBehind(n, r0, idName, id);
    HoldsBehind(KEY_SEQ, n + r0, timeName, t);
    HoldsBehind(KEY_SEQ, n + r0, evidenceName, ev);
    HoldsBehind(KEY_SEQ, n + r0, idName, id);
  }

  // ---------------------------------------------------------------- torn lines

  predicate Plain(s: string) {
    forall i :: 0 <= i < |s| ==> s[i] != '}' && s[i] != '\n'
  }

  lemma PlainJoin(a: string, b: string)
    requires Plain(a) && Plain(b)
    ensures Plain(a + b)
  {
  }

  lemma PlainRun(s: string)
    requires AllIn(s, HEX_DIGITS)
    ensures Plain(s)
  {
  }

  /** A line without its closing brace. */
  function Stem(e: Entry): string {
    KEY_SEQ + (Decimal(e.seqNo) + (KEY_ID + (e.idPkHex + (KEY_EVIDENCE + (e.evidenceSha256Hex
    + (KEY_TIME + Decimal(e.observedAtUnix)))))))
  }

  lemma StemPlain(e: Entry)
    requires Writable(e)
    ensures Plain(Stem(e)) && Stem(e) != "" && Stem(e)[0] == '{'
  {
    hide Plain;
    assert Plain(KEY_SEQ) && Plain(KEY_ID) && Plain(KEY_EVIDENCE) && Plain(KEY_TIME) by {
      KeysPlain();
    }
    var r5 := Decimal(e.observedAtUnix);
    var r4 := KEY_TIME + r5;
    var r3 := e.evidenceSha256Hex + r4;
    var r2 := KEY_EVIDENCE + r3;
    var r1 := e.idPkHex + r2;
    var r0 := KEY_ID + r1;
    var n := Decimal(e.seqNo);
    PlainRun(r5);
    PlainRun(e.evidenceSha256Hex);
    PlainRun(e.idPkHex);
    PlainRun(n);
    PlainJoin(KEY_TIME, r5);
    PlainJoin(e.evidenceSha256Hex, r4);
    PlainJoin(KEY_EVIDENCE, r3);
    PlainJoin(e.idPkHex, r2);
    PlainJoin(KEY_ID, r1);
    PlainJoin(n, r0);
    PlainJoin(KEY_SEQ, n + r0);
  }

  lemma KeysPlain()
    ensures Plain(KEY_SEQ) && Plain(KEY_ID) && Plain(KEY_EVIDENCE) && Plain(KEY_TIME)
  {
  }

  lemma Regroup(a: string, b: string, c: string)
    ensures (a + b) + c == a + (b + c)
  {
  }

  /** A line is plain text closed by its only brace. */
  lemma LineShape(e: Entry)
    ensures Format(e) == Stem(e) + "}"
  {
    var r5 := Decimal(e.observedAtUnix);
    var r4 := KEY_TIME + r5;
    var r3 := e.evidenceSha256Hex + r4;
    var r2 := KEY_EVIDENCE + r3;
    var r1 := e.idPkHex + r2;
    var r0 := KEY_ID + r1;
    var n := Decimal(e.seqNo);
    Regroup(KEY_TIME, r5, "}");
    Regroup(e.evidenceSha256Hex, r4, "}");
    Regroup(KEY_EVIDENCE, r3, "}");
    Regroup(e.idPkHex, r2, "}");
    Regroup(KEY_ID, r1, "}");
    Regroup(n, r0, "}");
    Regroup(KEY_SEQ, n + r0, "}");
  }

  lemma ClosedLine(e: Entry)
    ensures !Plain(Format(e))
  {
    hide Format, Stem;
    LineShape(e);
    assert Format(e)[|Stem(e)|] == '}';
  }

  /** A line cut short is never read as an entry. */
  lemma TornLineFails(e: Entry, k: nat)
    requires Writable(e) && k < |Format(e)|
    ensures Parse(Format(e)[..k]).None?
  {
    hide Parse, Format, Stem;
    LineShape(e);
    StemPlain(e);
    if Parse(Format(e)[..k]).Some? {
      var f := Parse(Format(e)[..k]).value;
      ParsedIsFormat(Format(e)[..k]);
      ClosedLine(f);
    }
  }
}
