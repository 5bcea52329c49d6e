/** The persisted transparency log: appends under an fsync policy, crashes that keep any byte prefix at or
    above the last fsync, and the recovery on reopen. */
module LogFile {
  import opened Merkle
  import opened LogLine

  // ---------------------------------------------------------------- recovery

  /** End of the chunk `read_until('\n')` returns. */
  function ChunkEnd(content: string, cursor: nat): (end: nat)
    requires cursor < |content|
    ensures cursor < end <= |content|
    ensures forall i :: cursor <= i < end - 1 ==> content[i] != '\n'
    ensures content[end - 1] == '\n' || end == |content|
    decreases |content| - cursor
  {
    if content[cursor] == '\n' || cursor + 1 == |content| then cursor + 1 else ChunkEnd(content, cursor + 1)
  }

  predicate Blank(s: string) {
    forall i :: 0 <= i < |s| ==> s[i] in {' ', '\t', '\n', '\r', '\U{0C}'}
  }

  datatype Scan =
    | Clean(entries: seq<Entry>, terminated: bool)
    | Torn(entries: seq<Entry>, goodEnd: nat, terminated: bool)
    | Corrupt(offset: nat)

  /** The variables of the reopen loop. */
  datatype Scanner = Scanner(cursor: nat, goodEnd: nat, terminated: bool, entries: seq<Entry>)

  datatype Step = Next(s: Scanner) | Stop(scan: Scan)

  /** One round of the reopen loop. A parse failure on the unterminated last chunk is a torn write; any
      other failure, and any entry out of position, refuses the file. */
  function ScanStep(content: string, s: Scanner): (step: Step)
    requires s.cursor < |content|
    ensures step.Next? ==> s.cursor < step.s.cursor <= |content|
  {
    var end := ChunkEnd(content, s.cursor);
    var full := content[end - 1] == '\n';
    var line := if full then content[s.cursor..end - 1] else content[s.cursor..end];
    if Blank(line) then Next(s.(cursor := end, goodEnd := if full then end else s.goodEnd))
    else
      var parsed := Parse(line);
      if parsed.Some? then
        if parsed.value.seqNo != |s.entries| then Stop(Corrupt(s.cursor))
        else Next(Scanner(end, end, full, s.entries + [parsed.value]))
      else Stop(if !full then Torn(s.entries, s.goodEnd, s.terminated) else Corrupt(s.cursor))
  }

  function ScanFrom(content: string, s: Scanner): Scan
    requires s.cursor <= |content|
    decreases |content| - s.cursor
  {
    if s.cursor == |content| then Clean(s.entries, s.terminated)
    else
      match ScanStep(content, s)
      case Next(s') => ScanFrom(content, s')
      case Stop(scan) => scan
  }

  datatype Reopen = Reopened(entries: seq<Entry>, bytes: string) | Refused(offset: nat)

  /** After the loop: a torn tail is truncated, an unterminated last line gets its newline. */
  function Repair(content: string, scan: Scan): Reopen {
    match scan
    case Corrupt(offset) => Refused(offset)
    case Clean(es, terminated) => Reopened(es, if !terminated && es != [] then content + "\n" else content)
    case Torn(es, goodEnd, terminated) =>
      var kept := if goodEnd <= |content| then content[..goodEnd] else content;
      Reopened(es, if !terminated && es != [] then kept + "\n" else kept)
  }

  /** What reopening makes of a file: the entries it loads and the bytes it leaves. */
  function ReopenFile(content: string): Reopen {
    Repair(content, ScanFrom(content, Scanner(0, 0, true, [])))
  }

  /** The body of the reopen loop: read a chunk, trim it, parse it, advance the loop variables. */
  method ScanRound(content: string, s: Scanner) returns (step: Step)
    requires s.cursor < |content|
    ensures step == ScanStep(content, s)
  {
    hide Parse;
    var cursor := ChunkEnd(content, s.cursor);
    var terminated := content[cursor - 1] == '\n';
    var line := if terminated then content[s.cursor..cursor - 1] else content[s.cursor..cursor];
    if Blank(line) {
      var goodEnd := if terminated then cursor else s.goodEnd;
      return Next(Scanner(cursor, goodEnd, s.terminated, s.entries));
    }
    var parsed := Parse(line);
    if parsed.Some? {
      if parsed.value.seqNo != |s.entries| {
        return Stop(Corrupt(s.cursor));
      }
      return Next(Scanner(cursor, cursor, terminated, s.entries + [parsed.value]));
    }
    step := Stop(if terminated then Corrupt(s.cursor) else Torn(s.entries, s.goodEnd, s.terminated));
  }

  /** `open_persistent`: the loop, the truncation of a torn tail and the missing newline. */
  method OpenPersistent(content: string) returns (r: Reopen)
    ensures r == ReopenFile(content)
  {
    hide ScanStep;
    var s := Scanner(0, 0, true, []);
    var bytes := content;
    ghost var scan := ScanFrom(content, s);
    while s.cursor < |content|
      invariant s.cursor <= |content| && bytes == content && scan == ScanFrom(content, s)
      decreases |content| - s.cursor
    {
      var step := ScanRound(content, s);
      if step.Stop? {
        if step.scan.Corrupt? {
          return Refused(step.scan.offset);
        }
        return Repair(content, step.scan);
      }
      s := step.s;
    }
    if !s.terminated && s.entries != [] {
      bytes := bytes + "\n";
    }
    r := Reopened(s.entries, bytes);
  }

  // ---------------------------------------------------------------- files that append wrote

  /** One terminated line per entry. */
  function Lines(entries: seq<Entry>): string {
    if entries == [] then "" else Lines(entries[..|entries| - 1]) + Format(entries[|entries| - 1]) + "\n"
  }

  ghost predicate WellFormed(entries: seq<Entry>) {
    SeqIndexed(entries) && forall i :: 0 <= i < |entries| ==> Writable(entries[i])
  }

  /** Bytes of the first `k` lines. */
  function Offset(entries: seq<Entry>, k: nat): nat
    requires k <= |entries|
  {
    |Lines(entries[..k])|
  }

  lemma {:induction false} LinesPrefix(entries: seq<Entry>, k: nat)
    requires k <= |entries|
    ensures Lines(entries[..k]) <= Lines(entries)
    decreases |entries| - k
  {
    hide Format;
    if k < |entries| {
      LinesStep(entries, k);
      LinesPrefix(entries, k + 1);
    } else {
      assert entries[..k] == entries;
    }
  }

  lemma LinesStep(entries: seq<Entry>, k: nat)
    requires k < |entries|
    ensures Lines(entries[..k + 1]) == Lines(entries[..k]) + Format(entries[k]) + "\n"
    ensures Offset(entries, k + 1) == Offset(entries, k) + |Format(entries[k])| + 1
  {
    hide Format;
    assert entries[..k + 1][..k] == entries[..k];
  }

  lemma {:induction false} OffsetMonotone(entries: seq<Entry>, j: nat, k: nat)
    requires j <= k <= |entries|
    ensures Offset(entries, j) <= Offset(entries, k)
    ensures Offset(entries, k) - Offset(entries, j) >= k - j
    decreases k - j
  {
    hide Format, Lines;
    if j < k {
      LinesStep(entries, k - 1);
      OffsetMonotone(entries, j, k - 1);
    }
  }

  /** The bytes of line `k` sit between its offset and the next. */
  lemma LineAt(entries: seq<Entry>, k: nat)
    requires k < |entries|
    ensures Offset(entries, k) <= Offset(entries, k + 1) <= |Lines(entries)|
    ensures Lines(entries)[Offset(entries, k)..Offset(entries, k + 1)] == Format(entries[k]) + "\n"
  {
    hide Format;
    LinesStep(entries, k);
    LinesPrefix(entries, k + 1);
    var a := Lines(entries[..k]);
    var line := Format(entries[k]) + "\n";
    assert Lines(entries[..k + 1]) == a + line;
    assert Lines(entries)[..Offset(entries, k + 1)] == a + line;
    assert (a + line)[|a|..] == line;
  }

  /** How many entries a file cut after `cut` bytes still holds: a line counts once its brace is there. */
  function Surviving(entries: seq<Entry>, cut: nat, k: nat): (m: nat)
    requires k <= |entries|
    ensures k <= m <= |entries|
    decreases |entries| - k
  {
    if k < |entries| && Offset(entries, k) + |Format(entries[k])| <= cut then Surviving(entries, cut, k + 1) else k
  }

  lemma PlainLine(e: Entry)
    requires Writable(e)
    ensures Format(e) != "" && !Blank(Format(e)) && (forall i :: 0 <= i < |Format(e)| ==> Format(e)[i] != '\n')
    ensures forall j :: 0 < j <= |Format(e)| ==> !Blank(Format(e)[..j])
  {
    hide Format, Stem;
    LineShape(e);
    StemPlain(e);
    forall j | 0 < j <= |Format(e)| ensures !Blank(Format(e)[..j]) {
      assert Format(e)[..j][0] == '{';
    }
    assert Format(e)[0] == '{';
  }

  lemma ChunkOfLine(content: string, cursor: nat, line: string, end: nat)
    requires cursor < end <= |content| && line != "" && (forall i :: 0 <= i < |line| ==> line[i] != '\n')
    requires content[cursor..end] == line + "\n" || (content[cursor..end] == line && end == |content|)
    ensures ChunkEnd(content, cursor) == end
    ensures content[end - 1] == '\n' ==> content[cursor..end - 1] == line
    ensures content[end - 1] != '\n' ==> content[cursor..end] == line
    ensures content[end - 1] == '\n' <==> content[cursor..end] == line + "\n"
  {
    var got := ChunkEnd(content, cursor);
    var chunk := content[cursor..end];
    assert forall i :: cursor <= i < end ==> content[i] == chunk[i - cursor];
    if chunk == line + "\n" {
      assert content[end - 1] == '\n';
      assert forall i :: cursor <= i < end - 1 ==> content[i] == line[i - cursor];
      assert content[cursor..end - 1] == line;
    } else {
      assert content[end - 1] == line[|line| - 1];
    }
  }

  // ---------------------------------------------------------------- recovery from any cut

  /** The file of `entries` cut after `cut` bytes, scanned from line `k` on. */
  function ScanLine(entries: seq<Entry>, cut: nat, k: nat): Scan
    requires k <= |entries| && Offset(entries, k) <= cut <= |Lines(entries)|
  {
    ScanFrom(Lines(entries)[..cut], Scanner(Offset(entries, k), Offset(entries, k), true, entries[..k]))
  }

  lemma CutAtLine(entries: seq<Entry>, k: nat)
    requires k <= |entries|
    ensures Offset(entries, k) <= |Lines(entries)| && Lines(entries)[..Offset(entries, k)] == Lines(entries[..k])
  {
    hide Format, Lines;
    LinesPrefix(entries, k);
  }

  /** A round on a chunk that is a line, with its newline or at the end of the file. */
  lemma RoundOnLine(content: string, s: Scanner, line: string, end: nat)
    requires s.cursor < end <= |content| && line != "" && (forall i :: 0 <= i < |line| ==> line[i] != '\n') && !Blank(line)
    requires content[s.cursor..end] == line + "\n" || (content[s.cursor..end] == line && end == |content|)
    ensures Parse(line).Some? && Parse(line).value.seqNo == |s.entries| ==>
              ScanStep(content, s)
              == Next(Scanner(end, end, content[s.cursor..end] == line + "\n", s.entries + [Parse(line).value]))
    ensures Parse(line).None? && content[s.cursor..end] == line ==>
              ScanStep(content, s) == Stop(Torn(s.entries, s.goodEnd, s.terminated))
  {
    hide Parse, Blank;
    ChunkOfLine(content, s.cursor, line, end);
  }

  lemma CutSlice(whole: string, cut: nat, a: nat, b: nat)
    requires a <= b <= cut <= |whole|
    ensures whole[..cut][a..b] == whole[a..b]
  {
  }

  /** The cut falls exactly before line `k`: nothing is torn. */
  lemma ScanAtBoundary(entries: seq<Entry>, k: nat)
    requires k <= |entries| && Offset(entries, k) <= |Lines(entries)|
    ensures Repair(Lines(entries)[..Offset(entries, k)], ScanLine(entries, Offset(entries, k), k))
            == Reopened(entries[..k], Lines(entries[..k]))
  {
    hide Format, Lines, ScanStep;
    CutAtLine(entries, k);
  }

  /** Line `k` is whole, newline included: it is loaded and the scan goes on. */
  lemma ScanWholeLine(entries: seq<Entry>, cut: nat, k: nat)
    requires WellFormed(entries) && k < |entries| && Offset(entries, k + 1) <= cut <= |Lines(entries)|
    ensures Offset(entries, k) <= cut && ScanLine(entries, cut, k) == ScanLine(entries, cut, k + 1)
  {
    hide Format, Lines, ScanStep, Writable, Parse, Offset;
    var line := Format(entries[k]);
    var cursor, end := Offset(entries, k), Offset(entries, k + 1);
    LineAt(entries, k);
    CutSlice(Lines(entries), cut, cursor, end);
    PlainLine(entries[k]);
    LineRoundTrip(entries[k]);
    LinesStep(entries, k);
    RoundOnLine(Lines(entries)[..cut], Scanner(cursor, cursor, true, entries[..k]), line, end);
    assert entries[..k] + [entries[k]] == entries[..k + 1];
  }

  /** Line `k` is whole but for its newline: it is loaded and the newline written. */
  lemma ScanUnterminatedLine(entries: seq<Entry>, k: nat)
    requires WellFormed(entries) && k < |entries|
    ensures var cut := Offset(entries, k) + |Format(entries[k])|;
            && cut < |Lines(entries)|
            && Repair(Lines(entries)[..cut], ScanLine(entries, cut, k)) == Reopened(entries[..k + 1], Lines(entries[..k + 1]))
  {
    hide Format, Lines, ScanStep, Writable, Parse;
    var line := Format(entries[k]);
    var cursor := Offset(entries, k);
    var cut := cursor + |line|;
    LineAt(entries, k);
    LinesStep(entries, k);
    CutAtLine(entries, k);
    var content := Lines(entries)[..cut];
    LineHead(Lines(entries), cursor, line, |line|);
    assert line[..|line|] == line && |line + "\n"| > |line|;
    CutSlice(Lines(entries), cut, cursor, cut);
    PlainLine(entries[k]);
    LineRoundTrip(entries[k]);
    RoundOnLine(content, Scanner(cursor, cursor, true, entries[..k]), line, cut);
    assert entries[..k] + [entries[k]] == entries[..k + 1];
    var after := Scanner(cut, cut, false, entries[..k + 1]);
    assert ScanStep(content, Scanner(cursor, cursor, true, entries[..k])) == Next(after);
    assert ScanFrom(content, after) == Clean(entries[..k + 1], false);
    assert content == Lines(entries[..k]) + line;
    assert content + "\n" == Lines(entries[..k + 1]);
  }

  /** The first `j` characters of a line found at `cursor`. */
  lemma LineHead(whole: string, cursor: nat, line: string, j: nat)
    requires cursor + |line| + 1 <= |whole| && whole[cursor..cursor + |line| + 1] == line + "\n" && j <= |line|
    ensures whole[cursor..cursor + j] == line[..j]
  {
    var full := whole[cursor..cursor + |line| + 1];
    assert full[..j] == whole[cursor..cursor + j];
  }

  /** Line `k` is cut short: it is dropped and the file truncated to the line before. */
  lemma ScanTornLine(entries: seq<Entry>, cut: nat, k: nat)
    requires WellFormed(entries) && k < |entries|
    requires Offset(entries, k) < cut < Offset(entries, k) + |Format(entries[k])|
    ensures cut < |Lines(entries)|
    ensures Repair(Lines(entries)[..cut], ScanLine(entries, cut, k)) == Reopened(entries[..k], Lines(entries[..k]))
  {
    hide Format, Lines, ScanStep, Writable, Parse;
    var cursor := Offset(entries, k);
    var line := Format(entries[k]);
    LineAt(entries, k);
    LinesStep(entries, k);
    CutAtLine(entries, k);
    var content, torn := Lines(entries)[..cut], line[..cut - cursor];
    LineHead(Lines(entries), cursor, line, cut - cursor);
    CutSlice(Lines(entries), cut, cursor, cut);
    PlainLine(entries[k]);
    TornLineFails(entries[k], cut - cursor);
    RoundOnLine(content, Scanner(cursor, cursor, true, entries[..k]), torn, cut);
    assert content[..cursor] == Lines(entries[..k]);
  }

  lemma {:induction false} ScanRecovers(entries: seq<Entry>, cut: nat, k: nat)
    requires WellFormed(entries) && k <= |entries| && Offset(entries, k) <= cut <= |Lines(entries)|
    ensures var m := Surviving(entries, cut, k);
            Repair(Lines(entries)[..cut], ScanLine(entries, cut, k)) == Reopened(entries[..m], Lines(entries[..m]))
    decreases |entries| - k
  {
    hide Format, Lines, Parse, ScanLine, Repair;
    if k == |entries| || cut == Offset(entries, k) {
      assert k == |entries| ==> entries[..k] == entries;
      ScanAtBoundary(entries, k);
      if k < |entries| {
        PlainLine(entries[k]);
      }
    } else {
      LinesStep(entries, k);
      var whole := Offset(entries, k) + |Format(entries[k])|;
      if cut > whole {
        ScanWholeLine(entries, cut, k);
        ScanRecovers(entries, cut, k + 1);
      } else if cut == whole {
        ScanUnterminatedLine(entries, k);
      } else {
        ScanTornLine(entries, cut, k);
      }
    }
  }

  /** Reopening a file that `append` wrote, cut after any number of bytes, succeeds: it loads the entries
      whose line is there, and leaves exactly one terminated line for each of them. */
  lemma RecoversEveryCut(entries: seq<Entry>, cut: nat)
    requires WellFormed(entries) && cut <= |Lines(entries)|
    ensures var m := Surviving(entries, cut, 0);
            ReopenFile(Lines(entries)[..cut]) == Reopened(entries[..m], Lines(entries[..m]))
  {
    hide Format, Parse;
    ScanRecovers(entries, cut, 0);
    assert entries[..0] == [];
  }

  /** Every line that ends at or before the cut survives. */
  lemma {:induction false} SurvivesBelow(entries: seq<Entry>, cut: nat, k: nat, d: nat)
    requires k <= d <= |entries| && Offset(entries, d) <= cut
    ensures Surviving(entries, cut, k) >= d
    decreases d - k
  {
    hide Format, Lines;
    if k < d {
      LinesStep(entries, k);
      OffsetMonotone(entries, k + 1, d);
      SurvivesBelow(entries, cut, k + 1, d);
    }
  }
}
