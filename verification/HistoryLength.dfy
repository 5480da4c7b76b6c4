/**
 How long the history's file grows, how well its lines are counted, and how much is written: through
 adds, and through runs with their crashes.
 */
module HistoryLength {
  import opened JsonLines
  import opened RowPieces
  import opened History

  /** The text does not end at one of the breaks only `splitlines` knows. */
  predicate Tidy(text: string) {
    CutShort(text) ==> !EndsInBreak(text)
  }

  /** After an add memory is in every respect, the line count included, what a reopening would read
      exactly when a rewrite writes no row with one of the three characters, or an append writes one
      without them to a file it found tidy; and the file is tidy from then on. */
  lemma LineCountIsReal(file: string, row: Row, keep: nat)
    ensures var s := Added(Opened(file, keep), row, keep);
            && (s == Opened(s.file, keep) <==>
                  if Rewrites(Opened(file, keep), keep) then CleanRows(s.rows) else CleanRow(row) && Tidy(file))
            && Tidy(s.file)
  {
    hide Rows, Encode, CleanRow, SplitLines, CutShort, Back, Dump;
    var s := Opened(file, keep);
    AddAgrees(s, row, keep);
    AddedEndsItsLine(s, row, keep);
    NewestTwice(s.rows + [row], keep);
    if Rewrites(s, keep) {
      if CleanRows(Newest(s.rows + [row], keep)) {
        LinesOfDump(Newest(s.rows + [row], keep));
      }
    } else {
      AppendedLines(s, row);
      RowLines(row);
    }
  }

  lemma AddedEndsItsLine(s: Store, row: Row, keep: nat)
    ensures !CutShort(Added(s, row, keep).file)
  {
    hide Encode;
    if Rewrites(s, keep) {
      DumpEndsItsLine(Newest(s.rows + [row], keep));
    }
  }

  lemma {:induction false} DumpEndsItsLine(rows: seq<Row>)
    ensures !CutShort(Dump(rows))
  {
    hide Encode;
    if rows != [] {
      DumpEndsItsLine(rows[1..]);
      var rest := Dump(rows[1..]);
      assert rest != "" ==> Dump(rows)[|Dump(rows)| - 1] == rest[|rest| - 1];
    }
  }

  lemma AppendedLines(s: Store, row: Row)
    requires s.cut == CutShort(s.file)
    ensures |SplitLines(s.file + Appended(s, row))| ==
            |SplitLines(s.file)| + (if Tidy(s.file) then 0 else 1) + |SplitLines(Encode(row) + "\n")|
  {
    hide Encode, SplitLines;
    var line := Encode(row);
    var start := s.file + if s.cut then "\n" else "";
    assert s.file + Appended(s, row) == start + (line + "\n");
    if s.cut { SplitNewline(s.file); } else { assert start == s.file; }
    SplitAfterBreak(start, line + "\n");
  }

  lemma LinesWithPiece(start: string, piece: string)
    requires (start == "" || EndsInBreak(start)) && OneLine(piece)
    ensures |SplitLines(start + piece)| == |SplitLines(start)| + if piece == "" then 0 else 1
    ensures piece != "" ==> !EndsInBreak(start + piece)
  {
    OneLineHasNoBreak(piece);
    SplitAfterBreak(start, piece);
    if piece != "" { assert piece[|piece| - 1] in piece; }
  }

  lemma TornLines(s: Store, e: Event)
    requires e.Interrupted? && s.cut == CutShort(s.file) && CleanRow(e.row) && Tidy(s.file)
    ensures var file := s.file + Torn(Appended(s, e.row), e.written, e.half);
            Tidy(file) && |SplitLines(file)| <= |SplitLines(s.file)| + 1
  {
    hide Encode, CleanRow, SplitLines, Torn;
    var line, text := Encode(e.row), Appended(s, e.row);
    var sep := if s.cut then "\n" else "";
    var start := s.file + sep;
    var file := s.file + Torn(text, e.written, e.half);
    if e.written < |sep| {
      NothingTorn(text, e.half);
      assert file == s.file;
    } else {
      var n, extra := TornParts(text, sep, line, e.written, e.half);
      if s.cut { SplitNewline(s.file); } else { assert start == s.file; }
      if extra == "\n" {
        assert file[|file| - 1] == '\n' && file == start + (line[..n] + "\n");
        PieceAndNewline(start, e.row, n);
      } else {
        PieceIsOneLine(e.row, n, extra);
        assert file == start + (line[..n] + extra);
        LinesWithPiece(start, line[..n] + extra);
        assert line[..n] + extra == "" ==> file == start;
      }
    }
  }

  lemma NothingTorn(text: string, half: bool)
    requires text != "" && text[0] == '\n'
    ensures Torn(text, 0, half) == ""
  {
  }

  lemma PieceIsOneLine(row: Row, n: nat, extra: string)
    requires CleanRow(row) && n <= |Encode(row)| && (extra == "" || extra == [REPLACEMENT])
    ensures OneLine(Encode(row)[..n] + extra)
  {
    hide Encode, CleanRow, OneLine;
    var line := Encode(row);
    EncodedIsOneLine(row);
    assert line == line[..n] + line[n..];
    OneLineParts(line[..n], line[n..]);
    ExtraIsOneLine(extra);
    OneLineParts(line[..n], extra);
  }

  lemma ExtraIsOneLine(extra: string)
    requires extra == "" || extra == [REPLACEMENT]
    ensures OneLine(extra)
  {
  }

  lemma PieceAndNewline(start: string, row: Row, n: nat)
    requires (start == "" || EndsInBreak(start)) && CleanRow(row) && n <= |Encode(row)|
    ensures |SplitLines(start + (Encode(row)[..n] + "\n"))| == |SplitLines(start)| + 1
  {
    hide Encode, CleanRow, SplitLines, OneLine, IsBreak;
    var piece := Encode(row)[..n];
    PieceIsOneLine(row, n, "");
    assert piece + "" == piece;
    OneLineHasNoBreak(piece);
    NewlineBreaks();
    NoLines();
    assert start + (piece + "\n") == start + (piece + "\n" + "");
    LineThen(piece, "\n", "");
    assert piece + "\n" + "" == piece + "\n";
    SplitAfterBreak(start, piece + "\n");
  }

  lemma StepStaysExact(s: Store, e: Event, keep: nat)
    requires s == Opened(s.file, keep) && Tidy(s.file) && CleanRows(s.rows) && CleanRow(e.row)
    ensures var next := Step(s, e, keep);
            && next == Opened(next.file, keep) && Tidy(next.file) && CleanRows(next.rows)
            && (1 <= keep && (e.Completed? || s.lines < 2 * keep) ==> next.lines < 2 * keep)
  {
    hide Rows, Encode, CleanRow, SplitLines, Torn, Appended, Tidy, CutShort;
    LineCountIsReal(s.file, e.row, keep);
    NewestIsClean(s, e.row, keep);
    StepKeeps(s, e, keep);
    if e.Interrupted? && !Rewrites(s, keep) {
      TornLines(s, e);
    }
  }

  /** The count is never more than the file's own lines, nor more than one behind, and behind only once
      the file is tidy. */
  predicate Counts(s: Store, keep: nat) {
    && Sound(s, keep) && s.lines <= |SplitLines(s.file)| <= s.lines + 1
    && (|SplitLines(s.file)| > s.lines ==> Tidy(s.file))
  }

  /** The file is tidy and has at most twice `keep` lines. */
  predicate Bounded(s: Store, keep: nat) {
    Tidy(s.file) && |SplitLines(s.file)| <= 2 * keep
  }

  lemma AddCounts(s: Store, row: Row, keep: nat)
    requires Counts(s, keep) && CleanRow(row)
    ensures var next := Added(s, row, keep);
            && Counts(next, keep) && Tidy(next.file)
            && (1 <= keep ==> next.lines < 2 * keep)
            && |SplitLines(next.file)| - next.lines ==
               if Rewrites(s, keep) then 0 else |SplitLines(s.file)| - s.lines + if Tidy(s.file) then 0 else 1
  {
    hide Rows, Encode, CleanRow, SplitLines;
    AddAgrees(s, row, keep);
    AddedEndsItsLine(s, row, keep);
    NewestIsClean(s, row, keep);
    if Rewrites(s, keep) {
      LinesOfDump(Newest(s.rows + [row], keep));
    } else {
      AppendedLines(s, row);
      RowLines(row);
    }
  }

  lemma StepCounts(s: Store, e: Event, keep: nat)
    requires Counts(s, keep) && CleanRow(e.row)
    ensures var next := Step(s, e, keep);
            Counts(next, keep) && (1 <= keep && (e.Completed? || Bounded(s, keep)) ==> Bounded(next, keep))
  {
    hide Rows, Encode, CleanRow, SplitLines, Torn, Appended, Tidy, CutShort;
    AddCounts(s, e.row, keep);
    StepKeeps(s, e, keep);
    if e.Interrupted? && !Rewrites(s, keep) && Tidy(s.file) {
      TornLines(s, e);
    }
  }

  /** Over any run, however the file found ends: the file has at most twice `keep` lines from
      the first completed add on, and at most one more than are counted. */
  lemma {:induction false} FileStaysBounded(s: Store, events: seq<Event>, keep: nat)
    requires Counts(s, keep) && CleanRun(events)
    ensures var end := Run(s, events, keep);
            && Counts(end, keep)
            && (1 <= keep && (Bounded(s, keep) || exists e :: e in events && e.Completed?) ==>
                  |SplitLines(end.file)| <= 2 * keep && Tidy(end.file))
    decreases |events|
  {
    hide Step, Counts, SplitLines, Tidy;
    if events != [] {
      StepCounts(s, events[0], keep);
      FileStaysBounded(Step(s, events[0], keep), events[1..], keep);
      assert forall x | x in events :: x == events[0] || x in events[1..];
    }
  }

  lemma OpenedCounts(file: string, keep: nat)
    requires CleanRows(Opened(file, keep).rows)
    ensures Counts(Opened(file, keep), keep)
  {
  }

  /** Over any run from a tidy file, crashes and all: memory is in every respect what a reopening
      would read, the line count included, and the file never again reaches twice `keep` lines. */
  lemma {:induction false} RunStaysExact(s: Store, events: seq<Event>, keep: nat)
    requires s == Opened(s.file, keep) && Tidy(s.file) && CleanRows(s.rows) && CleanRun(events)
    ensures var end := Run(s, events, keep);
            && end == Opened(end.file, keep) && Tidy(end.file) && CleanRows(end.rows)
            && (1 <= keep && s.lines < 2 * keep ==> end.lines < 2 * keep)
            && (1 <= keep && (exists e :: e in events && e.Completed?) ==> end.lines < 2 * keep)
    decreases |events|
  {
    hide Step, Opened;
    if events != [] {
      StepStaysExact(s, events[0], keep);
      RunStaysExact(Step(s, events[0], keep), events[1..], keep);
    }
  }

  /** Lines written to the file over the adds of `rows`. */
  function Written(s: Store, rows: seq<Row>, keep: nat): nat
    decreases |rows|
  {
    if rows == [] then 0 else
      var now := if Rewrites(s, keep) then |Added(s, rows[0], keep).rows| else 1;
      now + Written(Added(s, rows[0], keep), rows[1..], keep)
  }

  /** After any adds, however the file found ends, fewer than twice `keep` lines are counted. The file has just those,
      unless it was found ending in a break other than a newline and no rewrite has come since: then it has
      one more. So it has fewer than twice `keep`, but in that case just before the first rewrite. */
  lemma FileStaysShort(file: string, rows: seq<Row>, keep: nat)
    requires keep >= 1 && rows != [] && CleanRows(rows) && CleanRows(Opened(file, keep).rows)
    ensures var found, end := |SplitLines(file)|, AddAll(Opened(file, keep), rows, keep);
            var more := if !Tidy(file) && found + |rows| < 2 * keep then 1 else 0;
            && end.lines < 2 * keep
            && |SplitLines(end.file)| == end.lines + more
            && (|SplitLines(end.file)| >= 2 * keep <==> !Tidy(file) && found + |rows| == 2 * keep - 1)
  {
    hide Rows, Encode, CleanRow, SplitLines, Tidy;
    var s := Opened(file, keep);
    OpenedCounts(file, keep);
    AddCounts(s, rows[0], keep);
    var s1 := Added(s, rows[0], keep);
    assert forall row | row in rows[1..] :: row in rows;
    AddsAreCounted(s1, rows[1..], keep);
    if s.lines + |rows| < 2 * keep {
      RewritesAreFarApart(s, rows, keep);
    }
  }

  lemma {:induction false} AddsAreCounted(s: Store, rows: seq<Row>, keep: nat)
    requires keep >= 1 && s.lines < 2 * keep && Counts(s, keep) && Tidy(s.file)
    requires CleanRows(rows)
    ensures var end := AddAll(s, rows, keep);
            && end.lines < 2 * keep
            && |SplitLines(end.file)| - end.lines ==
               if s.lines + |rows| < 2 * keep then |SplitLines(s.file)| - s.lines else 0
    decreases |rows|
  {
    hide Rows, Encode, CleanRow, SplitLines, Tidy, Counts;
    if rows != [] {
      AddCounts(s, rows[0], keep);
      assert forall row | row in rows[1..] :: row in rows;
      AddsAreCounted(Added(s, rows[0], keep), rows[1..], keep);
    }
  }

  /** The `keep - 1` adds after a rewrite only append. */
  lemma {:induction false} RewritesAreFarApart(s: Store, rows: seq<Row>, keep: nat)
    requires s.lines + |rows| < 2 * keep
    ensures AddAll(s, rows, keep).lines == s.lines + |rows|
    ensures s.file <= AddAll(s, rows, keep).file
    ensures Written(s, rows, keep) == |rows|
    decreases |rows|
  {
    if rows != [] {
      RewritesAreFarApart(Added(s, rows[0], keep), rows[1..], keep);
    }
  }

  lemma RewriteLeavesKeepLines(s: Store, row: Row, keep: nat)
    requires keep >= 1 && Rewrites(s, keep)
    ensures Added(s, row, keep).lines <= keep
  {
  }

  /** Over n adds at most 2n lines are written, and up to twice `keep` more for what was there. */
  lemma {:induction false} LinesWrittenAreLinear(s: Store, rows: seq<Row>, keep: nat)
    requires keep >= 1
    ensures Written(s, rows, keep) + AddAll(s, rows, keep).lines
         <= 2 * |rows| + if rows == [] || s.lines < 2 * keep then s.lines else 2 * keep - 1
    decreases |rows|
  {
    if rows != [] {
      LinesWrittenAreLinear(Added(s, rows[0], keep), rows[1..], keep);
    }
  }
}
