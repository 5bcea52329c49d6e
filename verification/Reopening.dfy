/** What reopening makes of any file at all, told from its lines. */
module Reopening {
  import opened Options
  import opened Merkle
  import opened LogLine
  import opened LogFile

  // ---------------------------------------------------------------- lines

  /** The terminated lines of a text and what stands behind the last newline. */
  function Split(content: string): (r: (seq<string>, string))
    ensures |r.1| <= |content|
  {
    if content == "" then ([], "")
    else
      var (lines, tail) := Split(content[1..]);
      if content[0] == '\n' then ([""] + lines, tail)
      else if lines == [] then ([], [content[0]] + tail)
      else ([[content[0]] + lines[0]] + lines[1..], tail)
  }

  predicate OneLine(s: string) {
    forall i :: 0 <= i < |s| ==> s[i] != '\n'
  }

  lemma {:induction false} SplitTail(s: string)
    requires OneLine(s)
    ensures Split(s) == ([], s)
  {
    if s != "" {
      SplitTail(s[1..]);
      assert [s[0]] + s[1..] == s;
    }
  }

  lemma {:induction false} SplitLine(s: string, rest: string)
    requires OneLine(s)
    ensures Split(s + "\n" + rest) == ([s] + Split(rest).0, Split(rest).1)
  {
    var content := s + "\n" + rest;
    if s == "" {
      assert content[1..] == rest;
    } else {
      assert content[1..] == s[1..] + "\n" + rest;
      SplitLine(s[1..], rest);
      assert ([s[1..]] + Split(rest).0)[1..] == Split(rest).0;
      assert [s[0]] + s[1..] == s;
    }
  }

  // ---------------------------------------------------------------- entries

  /** The entries of some lines, blank ones skipped, if every other one holds the entry of its position. */
  function ReadAll(lines: seq<string>, next: nat): Option<seq<Entry>> {
    if lines == [] then Some([])
    else if Blank(lines[0]) then ReadAll(lines[1..], next)
    else
      match Parse(lines[0])
      case None => None
      case Some(e) =>
        if e.seqNo != next then None
        else match ReadAll(lines[1..], next + 1)
             case None => None
             case Some(es) => Some([e] + es)
  }

  /** Where the first line that does not hold the entry of its position starts. */
  function FirstBad(lines: seq<string>, next: nat, at: nat): nat {
    if lines == [] then at
    else if Blank(lines[0]) then FirstBad(lines[1..], next, at + |lines[0]| + 1)
    else if Parse(lines[0]).Some? && Parse(lines[0]).value.seqNo == next then FirstBad(lines[1..], next + 1, at + |lines[0]| + 1)
    else at
  }

  lemma {:induction false} ReadInOrder(lines: seq<string>, next: nat)
    requires ReadAll(lines, next).Some?
    ensures forall i :: 0 <= i < |ReadAll(lines, next).value| ==> ReadAll(lines, next).value[i].seqNo == next + i
  {
    hide Parse, Blank;
    if lines != [] {
      ReadInOrder(lines[1..], if Blank(lines[0]) then next else next + 1);
    }
  }

  /** What the scan of the rest of a file ends with, from the start of a line. */
  ghost predicate ScanEnds(content: string, s: Scanner)
    requires s.cursor <= |content|
  {
    var (lines, tail) := Split(content[s.cursor..]);
    var scan := ScanFrom(content, s);
    match ReadAll(lines, |s.entries|)
    case None => scan == Corrupt(FirstBad(lines, |s.entries|, s.cursor))
    case Some(read) =>
      var es := s.entries + read;
      if Blank(tail) then scan == Clean(es, true)
      else match Parse(tail)
           case None => scan == Torn(es, |content| - |tail|, true)
           case Some(e) => if e.seqNo == |es| then scan == Clean(es + [e], false) else scan == Corrupt(|content| - |tail|)
  }

  lemma ScanStepped(content: string, s: Scanner)
    requires s.cursor < |content|
    ensures var step := ScanStep(content, s);
            ScanFrom(content, s) == if step.Next? then ScanFrom(content, step.s) else step.scan
  {
  }

  lemma LastChunkEnds(content: string, s: Scanner)
    requires s.cursor < |content| && s.goodEnd == s.cursor && s.terminated && OneLine(content[s.cursor..])
    ensures ScanEnds(content, s)
  {
    hide Parse, Blank;
    SplitTail(content[s.cursor..]);
    var end := ChunkEnd(content, s.cursor);
    assert content[s.cursor..][end - 1 - s.cursor] == content[end - 1];
    assert end == |content| && content[s.cursor..end] == content[s.cursor..];
    ScanStepped(content, s);
    var step := ScanStep(content, s);
    assert step.Next? ==> ScanFrom(content, step.s) == Clean(step.s.entries, step.s.terminated);
    hide ScanFrom, Split;
  }

  lemma {:induction false} ScanIs(content: string, s: Scanner)
    requires s.cursor <= |content| && s.goodEnd == s.cursor && s.terminated
    ensures ScanEnds(content, s)
    decreases |content| - s.cursor
  {
    hide Parse, Blank;
    if s.cursor == |content| {
      assert content[s.cursor..] == "";
      BlankEmpty();
    } else {
      var end := ChunkEnd(content, s.cursor);
      if content[end - 1] == '\n' {
        var line := content[s.cursor..end - 1];
        assert OneLine(line);
        assert content[s.cursor..] == line + "\n" + content[end..];
        SplitLine(line, content[end..]);
        ScanStepped(content, s);
        hide Split, ScanFrom;
        LineEnds(content, s, end);
      } else {
        LastChunkEnds(content, s);
      }
    }
  }

  /** The rest of a file from `s'` on is that from `s` on without its first line. */
  predicate OneLineOn(content: string, s: Scanner, s': Scanner, line: string) {
    && s.cursor <= s'.cursor <= |content| && s'.cursor == s.cursor + |line| + 1
    && Split(content[s.cursor..]) == ([line] + Split(content[s'.cursor..]).0, Split(content[s'.cursor..]).1)
    && ScanFrom(content, s) == ScanFrom(content, s')
  }

  lemma BlankLineEnds(content: string, s: Scanner, s': Scanner, line: string)
    requires OneLineOn(content, s, s', line) && Blank(line) && s'.entries == s.entries && ScanEnds(content, s')
    ensures ScanEnds(content, s)
  {
    hide Parse, Blank, Split, ScanFrom;
    var lines := Split(content[s'.cursor..]).0;
    assert ([line] + lines)[1..] == lines;
    assert ReadAll([line] + lines, |s.entries|) == ReadAll(lines, |s.entries|);
    assert FirstBad([line] + lines, |s.entries|, s.cursor) == FirstBad(lines, |s.entries|, s'.cursor);
    hide ReadAll, FirstBad;
  }

  lemma EntryLineEnds(content: string, s: Scanner, s': Scanner, line: string, e: Entry)
    requires OneLineOn(content, s, s', line) && !Blank(line) && Parse(line) == Some(e) && e.seqNo == |s.entries|
    requires s'.entries == s.entries + [e] && ScanEnds(content, s')
    ensures ScanEnds(content, s)
  {
    hide Parse, Blank, Split, ScanFrom;
    var lines := Split(content[s'.cursor..]).0;
    assert ([line] + lines)[1..] == lines;
    assert FirstBad([line] + lines, |s.entries|, s.cursor) == FirstBad(lines, |s'.entries|, s'.cursor);
    var read := ReadAll(lines, |s'.entries|);
    assert ReadAll([line] + lines, |s.entries|) == if read.None? then None else Some([e] + read.value);
    hide ReadAll, FirstBad;
    if read.Some? {
      assert s.entries + ([e] + read.value) == s'.entries + read.value;
    }
  }

  lemma BadLineEnds(content: string, s: Scanner, line: string, rest: seq<string>)
    requires s.cursor <= |content| && Split(content[s.cursor..]).0 == [line] + rest && !Blank(line)
    requires Parse(line).Some? ==> Parse(line).value.seqNo != |s.entries|
    requires ScanFrom(content, s) == Corrupt(s.cursor)
    ensures ScanEnds(content, s)
  {
    hide Parse, Blank, Split, ScanFrom;
  }

  /** A terminated line. */
  lemma {:induction false} LineEnds(content: string, s: Scanner, end: nat)
    requires s.cursor < |content| && s.goodEnd == s.cursor && s.terminated
    requires end == ChunkEnd(content, s.cursor) && content[end - 1] == '\n'
    requires Split(content[s.cursor..])
             == ([content[s.cursor..end - 1]] + Split(content[end..]).0, Split(content[end..]).1)
    ensures ScanEnds(content, s)
    decreases |content| - s.cursor, 0
  {
    hide Parse, Blank, Split, ReadAll, FirstBad, ScanEnds;
    var line := content[s.cursor..end - 1];
    ScanStepped(content, s);
    hide ScanFrom, ChunkEnd;
    if Blank(line) {
      var s' := s.(cursor := end, goodEnd := end);
      ScanIs(content, s');
      BlankLineEnds(content, s, s', line);
    } else if Parse(line).Some? && Parse(line).value.seqNo == |s.entries| {
      var e := Parse(line).value;
      var s' := Scanner(end, end, true, s.entries + [e]);
      ScanIs(content, s');
      EntryLineEnds(content, s, s', line, e);
    } else {
      BadLineEnds(content, s, line, Split(content[end..]).0);
    }
  }

  lemma BlankEmpty()
    ensures Blank("")
  {
  }

  // ---------------------------------------------------------------- the law

  /** Refused exactly when some terminated line that is not blank, or a complete line behind the last newline, does not
      hold the entry of its position, at the start of that line. Otherwise every line that is not blank is loaded; a last line without newline is
      completed if it parses, and cut off if it does not. */
  ghost predicate LoadsAs(content: string, reopened: Reopen) {
    var (lines, tail) := Split(content);
    match ReadAll(lines, 0)
    case None => reopened == Refused(FirstBad(lines, 0, 0))
    case Some(es) =>
      if Blank(tail) then reopened == Reopened(es, content)
      else match Parse(tail)
           case None => reopened == Reopened(es, content[..|content| - |tail|])
           case Some(e) => if e.seqNo == |es| then reopened == Reopened(es + [e], content + "\n") else reopened == Refused(|content| - |tail|)
  }

  /** What reopening makes of every file. */
  lemma ReopenIs(content: string)
    ensures LoadsAs(content, ReopenFile(content))
  {
    hide Split, ScanFrom, Parse, Blank, ReadAll, LoadsAs, ScanEnds;
    ScanIs(content, Scanner(0, 0, true, []));
    Repaired(content, ScanFrom(content, Scanner(0, 0, true, [])));
  }

  lemma Repaired(content: string, scan: Scan)
    requires scan == ScanFrom(content, Scanner(0, 0, true, [])) && ScanEnds(content, Scanner(0, 0, true, []))
    ensures LoadsAs(content, Repair(content, scan))
  {
    hide Split, ScanFrom, Parse, Blank, ReadAll;
    assert content[0..] == content;
    var read := ReadAll(Split(content).0, 0);
    if read.Some? {
      assert [] + read.value == read.value;
    }
  }

  /** So a log that opens has its entries numbered from 0, whatever file it was. */
  lemma ReopenedInOrder(content: string)
    requires ReopenFile(content).Reopened?
    ensures SeqIndexed(ReopenFile(content).entries)
  {
    ReopenIs(content);
    hide Split, Parse, Blank, ReopenFile, ReadAll;
    var lines := Split(content).0;
    if ReadAll(lines, 0).Some? {
      ReadInOrder(lines, 0);
    }
  }
}
