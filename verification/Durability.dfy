/** The transparency log as an object over its file, and what survives of it over whole runs of appends,
    flushes, policy switches, crashes and reopens. */
module Durability {
  import opened Bytes
  import opened Merkle
  import opened LogLine
  import opened LogFile

  datatype Policy = Always | Periodic(everyN: nat)

  /** A file: all bytes written, and how many of them the last fsync covers. */
  datatype Disk = Disk(bytes: string, synced: nat)

  datatype Log = Log(entries: seq<Entry>, disk: Disk, pending: nat, policy: Policy)

  // ---------------------------------------------------------------- entries

  function HexEncode(b: seq<Byte>): (s: string)
    ensures AllIn(s, HEX_DIGITS)
  {
    if b == [] then "" else [HexChar(b[0] / 16), HexChar(b[0] % 16)] + HexEncode(b[1..])
  }

  function HexChar(d: nat): (c: char)
    requires d < 16
    ensures c in HEX_DIGITS
  {
    if d < 10 then DigitChar(d) else 'a' + (d - 10) as char
  }

  /** `from_evidence`; the digest of the evidence is given. */
  function NewEntry(seqNo: nat, idPk: seq<Byte>, digest: seq<Byte>, at: nat): Entry {
    Entry(seqNo, HexEncode(idPk), HexEncode(digest), at)
  }

  /** The value of a lower-case hexadecimal digit. */
  function HexValue(c: char): nat {
    if '0' <= c <= '9' then (c - '0') as nat else if 'a' <= c <= 'f' then 10 + (c - 'a') as nat else 0
  }

  /** The bytes that pairs of hexadecimal digits stand for. */
  function HexDecode(s: string): seq<Byte> {
    if |s| < 2 then [] else [(16 * HexValue(s[0]) + HexValue(s[1])) % 256] + HexDecode(s[2..])
  }

  lemma HexCharValue(d: nat)
    requires d < 16
    ensures HexValue(HexChar(d)) == d
  {
  }

  lemma HexPair(b: Byte)
    ensures (16 * HexValue(HexChar(b / 16)) + HexValue(HexChar(b % 16))) % 256 == b
  {
    hide HexValue, HexChar;
    HexCharValue(b / 16);
    HexCharValue(b % 16);
  }

  lemma HexDecodeStep(c: char, d: char, rest: string)
    ensures HexDecode([c, d] + rest) == [(16 * HexValue(c) + HexValue(d)) % 256] + HexDecode(rest)
  {
    hide HexValue;
    assert ([c, d] + rest)[2..] == rest;
  }

  lemma {:induction false} HexRoundTrip(b: seq<Byte>)
    ensures HexDecode(HexEncode(b)) == b
  {
    hide HexValue, HexChar;
    if b != [] {
      HexRoundTrip(b[1..]);
      HexPair(b[0]);
      HexDecodeStep(HexChar(b[0] / 16), HexChar(b[0] % 16), HexEncode(b[1..]));
      hide HexDecode;
      assert [b[0]] + b[1..] == b;
    }
  }

  /** What somebody asked the log to record. */
  datatype Record = Record(idPk: seq<Byte>, digest: seq<Byte>, at: nat)

  /** What an entry says to whoever reads its hexadecimal digits. */
  function Decoded(e: Entry): Record {
    Record(HexDecode(e.idPkHex), HexDecode(e.evidenceSha256Hex), e.observedAtUnix)
  }

  lemma NewEntrySays(seqNo: nat, idPk: seq<Byte>, digest: seq<Byte>, at: nat)
    ensures Decoded(NewEntry(seqNo, idPk, digest, at)) == Record(idPk, digest, at)
  {
    HexRoundTrip(idPk);
    HexRoundTrip(digest);
  }

  // ---------------------------------------------------------------- the log

  predicate ShouldSync(policy: Policy, pending: nat) {
    match policy
    case Always => true
    case Periodic(n) => n <= 1 || pending >= n
  }

  function Synced(d: Disk): Disk {
    d.(synced := |d.bytes|)
  }

  function Appended(log: Log, e: Entry): Log {
    var written := Disk(log.disk.bytes + Format(e) + "\n", log.disk.synced);
    if ShouldSync(log.policy, log.pending + 1)
    then Log(log.entries + [e], Synced(written), 0, log.policy)
    else Log(log.entries + [e], written, log.pending + 1, log.policy)
  }

  function Flushed(log: Log): Log {
    log.(disk := Synced(log.disk), pending := 0)
  }

  function Switched(log: Log, policy: Policy): Log {
    log.(policy := policy, pending := 0)
  }

  /** A log right after `open_persistent`: what was read is durable, the policy is the default. */
  function Loaded(entries: seq<Entry>, bytes: string): Log {
    Log(entries, Disk(bytes, |bytes|), 0, Always)
  }

  class TransparencyLog {
    var entries: seq<Entry>
    var disk: Disk
    var appendsSinceSync: nat
    var fsyncPolicy: Policy

    function Value(): Log
      reads this
    {
      Log(entries, disk, appendsSinceSync, fsyncPolicy)
    }

    constructor (loaded: seq<Entry>, bytes: string)
      ensures Value() == Loaded(loaded, bytes)
    {
      entries, disk, appendsSinceSync, fsyncPolicy := loaded, Disk(bytes, |bytes|), 0, Always;
    }

    method SetFsyncPolicy(policy: Policy)
      modifies this
      ensures Value() == Switched(old(Value()), policy)
    {
      fsyncPolicy := policy;
      appendsSinceSync := 0;
    }

    method Flush()
      modifies this
      ensures Value() == Flushed(old(Value()))
    {
      disk := disk.(synced := |disk.bytes|);
      appendsSinceSync := 0;
    }

    method Append(idPk: seq<Byte>, digest: seq<Byte>, at: nat) returns (seqNo: nat)
      modifies this
      ensures seqNo == |old(entries)| && Value() == Appended(old(Value()), NewEntry(seqNo, idPk, digest, at))
      ensures |entries| == seqNo + 1 && entries[seqNo].seqNo == seqNo && Decoded(entries[seqNo]) == Record(idPk, digest, at)
    {
      NewEntrySays(|entries|, idPk, digest, at);
      seqNo := |entries|;
      var entry := NewEntry(seqNo, idPk, digest, at);
      var line := Format(entry);
      disk := Disk(disk.bytes + line + "\n", disk.synced);
      appendsSinceSync := appendsSinceSync + 1;
      var shouldSync := match fsyncPolicy case Always => true case Periodic(n) => n <= 1 || appendsSinceSync >= n;
      if shouldSync {
        disk := disk.(synced := |disk.bytes|);
        appendsSinceSync := 0;
      }
      entries := entries + [entry];
    }

    method Status() returns (size: nat, root: Hash)
      ensures size == |entries| && root == MerkleRoot(entries)
    {
      size := |entries|;
      root := RootOfLeaves(Leaves(entries));
    }
  }

  // ---------------------------------------------------------------- runs

  /** What can happen to a log. A crash keeps the first `cut` bytes and the log is reopened; a crash may also
      hit an append whose bytes are written but not yet acknowledged. */
  datatype Event =
    | Append(idPk: seq<Byte>, digest: seq<Byte>, at: nat)
    | Flush
    | Switch(policy: Policy)
    | Crash(cut: nat)
    | CrashInAppend(idPk: seq<Byte>, digest: seq<Byte>, at: nat, cut: nat)

  /** A log with two counts beside it: how many entries the last fsync covers, and how many unsynced ones a
      policy switch has since dropped from the pending counter. */
  datatype Run = Run(log: Log, durable: nat, carried: nat)

  const FRESH := Run(Loaded([], ""), 0, 0)

  function NextEntry(log: Log, ev: Event): Entry
    requires ev.Append? || ev.CrashInAppend?
  {
    NewEntry(|log.entries|, ev.idPk, ev.digest, ev.at)
  }

  /** The bytes in the file when the crash hits. */
  function Written(log: Log, ev: Event): string {
    if ev.CrashInAppend? then log.disk.bytes + Format(NextEntry(log, ev)) + "\n" else log.disk.bytes
  }

  predicate Possible(log: Log, ev: Event) {
    match ev
    case Append(_, _, at) => at < U64 && |log.entries| < U64
    case CrashInAppend(_, _, at, cut) =>
      at < U64 && |log.entries| < U64 && log.disk.synced <= cut <= |Written(log, ev)|
    case Crash(cut) => log.disk.synced <= cut <= |log.disk.bytes|
    case _ => true
  }

  function After(r: Run, ev: Event): Run
    requires Possible(r.log, ev)
  {
    match ev
    case Append(_, _, _) =>
      var log := Appended(r.log, NextEntry(r.log, ev));
      if ShouldSync(r.log.policy, r.log.pending + 1) then Run(log, |log.entries|, 0) else r.(log := log)
    case Flush => Run(Flushed(r.log), |r.log.entries|, 0)
    case Switch(policy) => Run(Switched(r.log, policy), r.durable, r.carried + r.log.pending)
    case _ =>
      var reopened := ReopenFile(Written(r.log, ev)[..ev.cut]);
      if reopened.Refused? then r
      else Run(Loaded(reopened.entries, reopened.bytes), |reopened.entries|, 0)
  }

  /** Largest number of unsynced appends a policy lets stand. */
  function MaxPending(policy: Policy): nat {
    match policy
    case Always => 0
    case Periodic(n) => if n <= 1 then 0 else n - 1
  }

  /** The file is exactly one terminated line per entry, entry `i` carries number `i`, the fsync mark is the
      end of a line, and the counters add up. */
  ghost predicate Inv(r: Run) {
    && WellFormed(r.log.entries)
    && r.log.disk.bytes == Lines(r.log.entries)
    && r.durable + r.carried + r.log.pending == |r.log.entries|
    && r.log.disk.synced == Offset(r.log.entries, r.durable)
    && r.log.pending <= MaxPending(r.log.policy)
  }

  lemma LinesAppend(entries: seq<Entry>, e: Entry)
    ensures Lines(entries + [e]) == Lines(entries) + Format(e) + "\n"
    ensures forall k :: 0 <= k <= |entries| ==> Offset(entries + [e], k) == Offset(entries, k)
    ensures Offset(entries, |entries|) == |Lines(entries)|
  {
    hide Format;
    var longer := entries + [e];
    assert longer[..|longer| - 1] == entries;
    assert entries[..|entries|] == entries;
    forall k | 0 <= k <= |entries| ensures Offset(longer, k) == Offset(entries, k) {
      assert longer[..k] == entries[..k];
    }
  }

  lemma AppendKeepsShape(log: Log, e: Entry)
    requires WellFormed(log.entries) && log.disk.bytes == Lines(log.entries)
    requires Writable(e) && e.seqNo == |log.entries|
    ensures WellFormed(log.entries + [e]) && log.disk.bytes + Format(e) + "\n" == Lines(log.entries + [e])
  {
    hide Format, Lines, Writable;
    LinesAppend(log.entries, e);
  }

  lemma AppendKeepsInv(r: Run, ev: Event)
    requires Inv(r) && Possible(r.log, ev) && ev.Append?
    ensures Inv(After(r, ev))
  {
    hide Format, Lines, Offset, HexEncode;
    var e := NextEntry(r.log, ev);
    AppendKeepsShape(r.log, e);
    LinesAppend(r.log.entries, e);
    LinesAppend(r.log.entries + [e], e);
  }

  /** What a crash leaves: a prefix of the entries written that includes every synced one, in a file with one
      terminated line for each of them. Reopening never refuses. */
  lemma CrashRecovers(r: Run, ev: Event) returns (m: nat)
    requires Inv(r) && Possible(r.log, ev) && (ev.Crash? || ev.CrashInAppend?)
    ensures var written := if ev.Crash? then r.log.entries else r.log.entries + [NextEntry(r.log, ev)];
            && r.durable <= m <= |written|
            && ReopenFile(Written(r.log, ev)[..ev.cut]) == Reopened(written[..m], Lines(written[..m]))
            && After(r, ev) == Run(Loaded(written[..m], Lines(written[..m])), m, 0)
            && WellFormed(written[..m])
  {
    hide Format, Lines, Offset, HexEncode, ReopenFile;
    var es := r.log.entries;
    var written := es;
    if ev.CrashInAppend? {
      var e := NextEntry(r.log, ev);
      AppendKeepsShape(r.log, e);
      LinesAppend(es, e);
      written := es + [e];
    }
    RecoversEveryCut(written, ev.cut);
    m := Surviving(written, ev.cut, 0);
    SurvivesBelow(written, ev.cut, 0, r.durable);
  }

  lemma StepKeepsInv(r: Run, ev: Event)
    requires Inv(r) && Possible(r.log, ev)
    ensures Inv(After(r, ev))
  {
    hide Format, Lines, HexEncode, ReopenFile, Writable;
    match ev
    case Append(_, _, _) => AppendKeepsInv(r, ev);
    case Flush => assert r.log.entries[..|r.log.entries|] == r.log.entries;
    case Switch(_) =>
    case Crash(_) =>
      var m := CrashRecovers(r, ev);
      assert r.log.entries[..m][..m] == r.log.entries[..m];
    case CrashInAppend(_, _, _, _) =>
      var m := CrashRecovers(r, ev);
      var written := r.log.entries + [NextEntry(r.log, ev)];
      assert written[..m][..m] == written[..m];
  }

  // ---------------------------------------------------------------- over whole runs

  ghost predicate PossibleRun(r: Run, evs: seq<Event>)
    decreases |evs|
  {
    evs == [] || (Possible(r.log, evs[0]) && PossibleRun(After(r, evs[0]), evs[1..]))
  }

  ghost function RunOn(r: Run, evs: seq<Event>): Run
    requires PossibleRun(r, evs)
    decreases |evs|
  {
    if evs == [] then r else RunOn(After(r, evs[0]), evs[1..])
  }

  lemma FreshInv()
    ensures Inv(FRESH)
  {
  }

  lemma {:induction false} RunKeepsInv(r: Run, evs: seq<Event>)
    requires Inv(r) && PossibleRun(r, evs)
    ensures Inv(RunOn(r, evs))
    decreases |evs|
  {
    hide Inv, After, Possible;
    if evs != [] {
      StepKeepsInv(r, evs[0]);
      RunKeepsInv(After(r, evs[0]), evs[1..]);
    }
  }

  /** Every policy switch of the run happens when nothing is waiting for an fsync. */
  ghost predicate QuietSwitches(r: Run, evs: seq<Event>)
    requires PossibleRun(r, evs)
    decreases |evs|
  {
    evs == [] || ((evs[0].Switch? ==> r.durable == |r.log.entries|) && QuietSwitches(After(r, evs[0]), evs[1..]))
  }

  lemma {:induction false} QuietRunCarriesNothing(r: Run, evs: seq<Event>)
    requires Inv(r) && PossibleRun(r, evs) && QuietSwitches(r, evs) && r.carried == 0
    ensures RunOn(r, evs).carried == 0
    decreases |evs|
  {
    hide Format, Lines, ReopenFile, WellFormed;
    if evs != [] {
      StepKeepsInv(r, evs[0]);
      QuietRunCarriesNothing(After(r, evs[0]), evs[1..]);
    }
  }

  /** The state some run from an empty file leads to. */
  ghost predicate Reached(evs: seq<Event>, r: Run) {
    PossibleRun(FRESH, evs) && RunOn(FRESH, evs) == r
  }

  lemma ReachedInv(evs: seq<Event>, r: Run)
    requires Reached(evs, r)
    ensures Inv(r)
    ensures QuietSwitches(FRESH, evs) ==> r.carried == 0
  {
    hide After, Inv, Possible;
    FreshInv();
    RunKeepsInv(FRESH, evs);
    if QuietSwitches(FRESH, evs) {
      QuietRunCarriesNothing(FRESH, evs);
    }
  }

  /** The entries whose lines are in the file when the crash hits, acknowledged or not. */
  function InFile(log: Log, ev: Event): seq<Entry> {
    if ev.CrashInAppend? then log.entries + [NextEntry(log, ev)] else log.entries
  }

  /** After any run from an empty file, in every state: reopening after a crash at any byte at or after the
      last fsync, inside an append or not, succeeds, and yields a prefix of the entries written that includes every
      synced one, in a file with one terminated line for each. If policies are switched only when nothing is pending,
      the loss of acknowledged entries is 0 under `Always` and at most `n - 1` under `Periodic{n}`. */
  lemma CrashLossBounded(evs: seq<Event>, r: Run, crash: Event)
    requires Reached(evs, r) && (crash.Crash? || crash.CrashInAppend?) && Possible(r.log, crash)
    ensures var reopened := ReopenFile(Written(r.log, crash)[..crash.cut]);
            && reopened.Reopened?
            && reopened.entries <= InFile(r.log, crash) && reopened.bytes == Lines(reopened.entries)
            && r.durable <= |reopened.entries|
            && (QuietSwitches(FRESH, evs) ==> |r.log.entries| - |reopened.entries| <= MaxPending(r.log.policy))
  {
    hide Format, Lines, ReopenFile, WellFormed, Reached, QuietSwitches, After, Written;
    ReachedInv(evs, r);
    var m := CrashRecovers(r, crash);
  }

  // ---------------------------------------------------------------- what the entries say

  /** The records behind the entries of a run: each append adds one, a crash keeps as many as there are entries left. */
  function Recorded(records: seq<Record>, r: Run, ev: Event): seq<Record>
    requires Possible(r.log, ev)
  {
    var kept := |After(r, ev).log.entries|;
    match ev
    case Append(idPk, digest, at) => records + [Record(idPk, digest, at)]
    case Crash(_) => if kept <= |records| then records[..kept] else records
    case CrashInAppend(idPk, digest, at, _) =>
      var all := records + [Record(idPk, digest, at)];
      if kept <= |all| then all[..kept] else all
    case _ => records
  }

  ghost function History(records: seq<Record>, r: Run, evs: seq<Event>): seq<Record>
    requires PossibleRun(r, evs)
    decreases |evs|
  {
    if evs == [] then records else History(Recorded(records, r, evs[0]), After(r, evs[0]), evs[1..])
  }

  /** Entry `i` says record `i`. */
  ghost predicate Says(entries: seq<Entry>, records: seq<Record>) {
    |entries| == |records| && forall i :: 0 <= i < |entries| ==> Decoded(entries[i]) == records[i]
  }

  lemma NextSays(log: Log, records: seq<Record>, ev: Event)
    requires Says(log.entries, records) && (ev.Append? || ev.CrashInAppend?)
    ensures Says(log.entries + [NextEntry(log, ev)], records + [Record(ev.idPk, ev.digest, ev.at)])
  {
    hide Decoded, NewEntry;
    NewEntrySays(|log.entries|, ev.idPk, ev.digest, ev.at);
  }

  lemma StepSays(r: Run, records: seq<Record>, ev: Event)
    requires Inv(r) && Possible(r.log, ev) && Says(r.log.entries, records)
    ensures Says(After(r, ev).log.entries, Recorded(records, r, ev))
  {
    hide Format, Lines, HexEncode, ReopenFile, WellFormed, Decoded, NewEntry;
    if ev.Append? || ev.CrashInAppend? {
      NextSays(r.log, records, ev);
    }
    if ev.Crash? || ev.CrashInAppend? {
      var m := CrashRecovers(r, ev);
    }
  }

  lemma {:induction false} RunSays(r: Run, records: seq<Record>, evs: seq<Event>)
    requires Inv(r) && PossibleRun(r, evs) && Says(r.log.entries, records)
    ensures Says(RunOn(r, evs).log.entries, History(records, r, evs))
    decreases |evs|
  {
    hide Inv, After, Possible, Says, Recorded;
    if evs != [] {
      StepKeepsInv(r, evs[0]);
      StepSays(r, records, evs[0]);
      RunSays(After(r, evs[0]), Recorded(records, r, evs[0]), evs[1..]);
    }
  }

  lemma ReachedSays(evs: seq<Event>, r: Run)
    requires Reached(evs, r)
    ensures Inv(r) && Says(r.log.entries, History([], FRESH, evs))
  {
    hide After, Inv, Possible, Says, Recorded, History;
    FreshSays();
    FreshInv();
    RunKeepsInv(FRESH, evs);
    RunSays(FRESH, [], evs);
  }

  lemma ReopenSays(r: Run, records: seq<Record>, crash: Event)
    requires Inv(r) && Says(r.log.entries, records)
    requires (crash.Crash? || crash.CrashInAppend?) && Possible(r.log, crash)
    ensures SeqIndexed(r.log.entries)
    ensures var reopened := ReopenFile(Written(r.log, crash)[..crash.cut]);
            && reopened.Reopened? && SeqIndexed(reopened.entries)
            && Says(reopened.entries, Recorded(records, r, crash))
  {
    hide Format, Lines, ReopenFile, Written, Says, Recorded, Writable;
    StepSays(r, records, crash);
    var m := CrashRecovers(r, crash);
  }

  /** After any run from an empty file, whatever the policies and crashes, and after one more crash: entry `i` of the
      reopened log carries number `i` and decodes to exactly what its append was given. */
  lemma EntriesSayAppends(evs: seq<Event>, r: Run, crash: Event)
    requires Reached(evs, r) && (crash.Crash? || crash.CrashInAppend?) && Possible(r.log, crash)
    ensures var records := History([], FRESH, evs);
            && Says(r.log.entries, records) && SeqIndexed(r.log.entries)
            && var reopened := ReopenFile(Written(r.log, crash)[..crash.cut]);
            && reopened.Reopened? && SeqIndexed(reopened.entries)
            && Says(reopened.entries, Recorded(records, r, crash))
  {
    hide ReopenFile, After, Says, Recorded, RunOn, History, Inv;
    ReachedSays(evs, r);
    ReopenSays(r, History([], FRESH, evs), crash);
  }

  lemma FreshSays()
    ensures Says(FRESH.log.entries, [])
  {
  }

  // ---------------------------------------------------------------- switching with appends pending

  /** A crash that keeps only what the last fsync covers loses every unsynced entry. */
  lemma CrashAtMarkLosesUnsynced(r: Run)
    requires Inv(r)
    ensures Possible(r.log, Crash(r.log.disk.synced))
    ensures |After(r, Crash(r.log.disk.synced)).log.entries| == r.durable
  {
    hide Format, Lines, ReopenFile, HexEncode;
    var es, cut := r.log.entries, r.log.disk.synced;
    CutAtLine(es, r.durable);
    var m := CrashRecovers(r, Crash(cut));
    RecoversEveryCut(es, cut);
    LastSurvivor(es, 0, r.durable);
  }

  lemma {:induction false} LastSurvivor(es: seq<Entry>, k: nat, d: nat)
    requires WellFormed(es) && k <= d <= |es|
    ensures Surviving(es, Offset(es, d), k) == d
    decreases d - k
  {
    hide Format, Lines, Writable;
    if k < d {
      LinesStep(es, k);
      OffsetMonotone(es, k + 1, d);
      LastSurvivor(es, k + 1, d);
    } else if d < |es| {
      PlainLine(es[d]);
    }
  }

  predicate AllAppends(evs: seq<Event>) {
    forall k :: 0 <= k < |evs| ==> evs[k].Append?
  }

  lemma {:induction false} AppendsPileUp(r: Run, evs: seq<Event>)
    requires Inv(r) && PossibleRun(r, evs) && AllAppends(evs)
    requires r.log.pending + |evs| <= MaxPending(r.log.policy)
    ensures RunOn(r, evs).durable == r.durable && |RunOn(r, evs).log.entries| == |r.log.entries| + |evs|
    decreases |evs|
  {
    hide Format, Lines, HexEncode, WellFormed;
    if evs != [] {
      StepKeepsInv(r, evs[0]);
      AppendsPileUp(After(r, evs[0]), evs[1..]);
    }
  }

  /** Some appends. */
  function Burst(k: nat): seq<Event> {
    if k == 0 then [] else [Append([], [], 0)] + Burst(k - 1)
  }

  lemma {:induction false} BurstPossible(r: Run, k: nat)
    requires |r.log.entries| + k < U64
    ensures PossibleRun(r, Burst(k)) && AllAppends(Burst(k)) && |Burst(k)| == k
    decreases k
  {
    hide Format, HexEncode;
    if k > 0 {
      BurstPossible(After(r, Burst(k)[0]), k - 1);
      assert Burst(k)[1..] == Burst(k - 1);
    }
  }

  predicate NoSwitch(evs: seq<Event>) {
    forall k :: 0 <= k < |evs| ==> !evs[k].Switch?
  }

  lemma {:induction false} NoSwitchIsQuiet(r: Run, evs: seq<Event>)
    requires PossibleRun(r, evs) && NoSwitch(evs)
    ensures QuietSwitches(r, evs)
    decreases |evs|
  {
    hide After, Possible;
    if evs != [] {
      assert !evs[0].Switch?;
      NoSwitchIsQuiet(After(r, evs[0]), evs[1..]);
    }
  }

  /** Whatever happens from here on without another switch, no more than the policy in force promises is unsynced. */
  ghost predicate KeepsPromise(r: Run) {
    forall evs :: NoSwitch(evs) && PossibleRun(r, evs) ==> Unsynced(RunOn(r, evs)) <= MaxPending(RunOn(r, evs).log.policy)
  }

  /** `set_fsync_policy` drops the pending count without syncing. So a switch to any policy keeps that policy's promise,
      in every state of every run after it, exactly when nothing was unsynced at the switch. */
  lemma SwitchKeepsPromiseIff(r: Run, policy: Policy)
    requires Inv(r) && |r.log.entries| + MaxPending(policy) < U64
    ensures r.durable == |r.log.entries| <==> KeepsPromise(After(r, Switch(policy)))
  {
    hide Format, Lines, HexEncode, PossibleRun, RunOn, WellFormed, NoSwitch;
    var s := After(r, Switch(policy));
    StepKeepsInv(r, Switch(policy));
    if r.durable == |r.log.entries| {
      forall evs | NoSwitch(evs) && PossibleRun(s, evs)
        ensures Unsynced(RunOn(s, evs)) <= MaxPending(RunOn(s, evs).log.policy)
      {
        NoSwitchIsQuiet(s, evs);
        QuietRunCarriesNothing(s, evs);
        RunKeepsInv(s, evs);
      }
    } else {
      var burst := Burst(MaxPending(policy));
      BurstPossible(s, MaxPending(policy));
      AppendsPileUp(s, burst);
      AppendsDoNotSwitch(s, burst);
      assert Unsynced(RunOn(s, burst)) > MaxPending(policy);
    }
  }

  lemma {:induction false} AppendsDoNotSwitch(r: Run, evs: seq<Event>)
    requires PossibleRun(r, evs) && AllAppends(evs)
    ensures NoSwitch(evs) && RunOn(r, evs).log.policy == r.log.policy
    decreases |evs|
  {
    hide Format, HexEncode;
    if evs != [] {
      AppendsDoNotSwitch(After(r, evs[0]), evs[1..]);
    }
  }

  /** Acknowledged entries a crash at the fsync mark would lose. */
  ghost function Unsynced(r: Run): int {
    |r.log.entries| - r.durable
  }

  /** The concrete case: two appends under `Periodic{3}`, a switch to `Periodic{2}`, one more append, and a
      crash loses three entries where the policy in force promises at most one. */
  lemma SwitchLosesMore()
    ensures var evs := [Switch(Periodic(3)), Append([], [], 0), Append([], [], 0), Switch(Periodic(2)), Append([], [], 0)];
            PossibleRun(FRESH, evs) && RunOn(FRESH, evs).log.policy == Periodic(2) && Unsynced(RunOn(FRESH, evs)) == 3
  {
    hide Format, HexEncode;
    var a := Append([], [], 0);
    var r1 := After(FRESH, Switch(Periodic(3)));
    var r2 := After(r1, a);
    var r3 := After(r2, a);
    var r4 := After(r3, Switch(Periodic(2)));
    var r5 := After(r4, a);
    assert PossibleRun(r5, []) && RunOn(r5, []) == r5;
    assert [a][1..] == [];
    assert PossibleRun(r4, [a]) && RunOn(r4, [a]) == r5;
    var e4 := [Switch(Periodic(2)), a];
    assert e4[1..] == [a];
    assert PossibleRun(r3, e4) && RunOn(r3, e4) == r5;
    var e3 := [a] + e4;
    assert e3[1..] == e4;
    assert PossibleRun(r2, e3) && RunOn(r2, e3) == r5;
    var e2 := [a] + e3;
    assert e2[1..] == e3;
    assert PossibleRun(r1, e2) && RunOn(r1, e2) == r5;
    var e1 := [Switch(Periodic(3))] + e2;
    assert e1[1..] == e2;
    assert PossibleRun(FRESH, e1) && RunOn(FRESH, e1) == r5;
    assert e1 == [Switch(Periodic(3)), a, a, Switch(Periodic(2)), a];
  }

  /** And the default: one append under `Periodic{3}` and a switch to `Always`, which promises that nothing is lost,
      leave one entry unsynced. */
  lemma SwitchToAlwaysLoses()
    ensures var evs := [Switch(Periodic(3)), Append([], [], 0), Switch(Always)];
            PossibleRun(FRESH, evs) && RunOn(FRESH, evs).log.policy == Always && Unsynced(RunOn(FRESH, evs)) == 1
  {
    hide Format, HexEncode;
    var a := Append([], [], 0);
    var r1 := After(FRESH, Switch(Periodic(3)));
    var r2 := After(r1, a);
    var r3 := After(r2, Switch(Always));
    assert PossibleRun(r3, []) && RunOn(r3, []) == r3;
    var e2 := [Switch(Always)];
    assert e2[1..] == [];
    assert PossibleRun(r2, e2) && RunOn(r2, e2) == r3;
    var e1 := [a] + e2;
    assert e1[1..] == e2;
    assert PossibleRun(r1, e1) && RunOn(r1, e1) == r3;
    var e0 := [Switch(Periodic(3))] + e1;
    assert e0[1..] == e1;
    assert PossibleRun(FRESH, e0) && RunOn(FRESH, e0) == r3;
    assert e0 == [Switch(Periodic(3)), a, Switch(Always)];
  }
}
