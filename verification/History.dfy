/**
 The lookup history: rows kept in memory beside a file with one JSON object a line, appended to,
 and rewritten to the newest `keep` rows whenever it has grown to twice that.

 `Store` is the value of a history and its file; the class `History` updates its fields and the
 file step by step and is proved against it. The main results are over whole runs of adds, crashes
 and reopenings: `RecoveredRows`, `AgreesForCleanRows` and `NothingIsInvented`.
 */
module History {
  import opened Wrappers
  import opened JsonLines
  import opened RowPieces

  /** The last `keep` of `rows`, as Python's `rows[-keep:]` has it: all of them for 0. */
  function Newest(rows: seq<Row>, keep: nat): seq<Row> {
    if keep == 0 || |rows| <= keep then rows else rows[|rows| - keep..]
  }

  function Dump(rows: seq<Row>): string {
    if rows == [] then "" else Encode(rows[0]) + "\n" + Dump(rows[1..])
  }

  /** The file ends inside a line. */
  predicate CutShort(text: string) {
    text != "" && text[|text| - 1] != '\n'
  }

  datatype Store = Store(file: string, rows: seq<Row>, lines: nat, cut: bool)

  function Opened(file: string, keep: nat): Store {
    Store(file, Newest(Rows(file), keep), |SplitLines(file)|, CutShort(file))
  }

  predicate Rewrites(s: Store, keep: nat) {
    s.lines + 1 >= 2 * keep
  }

  /** What an add that does not rewrite appends. */
  function Appended(s: Store, row: Row): string {
    (if s.cut then "\n" else "") + Encode(row) + "\n"
  }

  function Added(s: Store, row: Row, keep: nat): Store {
    var rows := Newest(s.rows + [row], keep);
    if Rewrites(s, keep) then Store(Dump(rows), rows, |rows|, false)
    else Store(s.file + Appended(s, row), rows, s.lines + 1, false)
  }

  // ---- the class ----

  class Disk {
    var text: string
    constructor (text: string)
      ensures this.text == text
    {
      this.text := text;
    }
  }

  class History {
    const path: Disk?
    const keep: nat
    var rows: seq<Row>
    var lines: nat
    var cut: bool
    var version: nat

    ghost function Now(): Store
      reads this, path
      requires path != null
    {
      Store(path.text, rows, lines, cut)
    }

    /** Opens the file at `path`, or keeps the history in memory only. */
    constructor (path: Disk?, keep: nat)
      ensures this.path == path && this.keep == keep && version == 0
      ensures path != null ==> Now() == Opened(path.text, keep)
      ensures path == null ==> rows == []
    {
      this.path := path;
      this.keep := keep;
      this.rows, this.lines, this.cut, this.version := [], 0, false, 0;
      new;
      Load();
    }

    /** What the constructor finds at `path`. */
    method Load()
      requires rows == [] && lines == 0 && !cut
      modifies this`rows, this`lines, this`cut
      ensures path != null ==> Now() == Opened(path.text, keep)
      ensures path == null ==> rows == []
    {
      hide Decode, DecodeAll, SplitLines;
      if path == null {
        return;
      }
      var text := path.text;
      lines := |SplitLines(text)|;
      cut := text != "" && text[|text| - 1] != '\n';
      var read := ReadRows(SplitLines(text));
      rows := if keep != 0 && |read| > keep then read[|read| - keep..] else read;
    }

    static method ReadRows(lines: seq<string>) returns (rows: seq<Row>)
      ensures rows == DecodeAll(lines)
    {
      hide Decode;
      rows := [];
      for i := 0 to |lines|
        invariant DecodeAll(lines) == rows + DecodeAll(lines[i..])
      {
        var row := Decode(lines[i]);
        if row.Some? {
          rows := rows + [row.value];
        }
      }
    }

    method Add(row: Row)
      modifies this, path
      ensures version == old(version) + 1
      ensures path != null ==> Now() == Added(old(Now()), row, keep)
      ensures path == null ==> rows == Newest(old(rows) + [row], keep)
    {
      rows := rows + [row];
      if keep != 0 && |rows| > keep {
        rows := rows[|rows| - keep..];
      }
      version := version + 1;
      if path == null {
        return;
      }
      lines := lines + 1;
      if lines >= 2 * keep {
        path.text := Dump(rows);
        lines := |rows|;
      } else {
        path.text := path.text + ((if cut then "\n" else "") + Encode(row) + "\n");
      }
      cut := false;
    }

    method Recent() returns (newestFirst: seq<Row>)
      ensures |newestFirst| == |rows|
      ensures forall i | 0 <= i < |rows| :: newestFirst[i] == rows[|rows| - 1 - i]
    {
      newestFirst := seq(|rows|, i requires 0 <= i < |rows| reads this => rows[|rows| - 1 - i]);
    }
  }

  // ---- one add ----

  /** Memory holds what opening the file now would give, its line count aside. */
  predicate Agrees(s: Store, keep: nat) {
    s.rows == Newest(Rows(s.file), keep) && s.cut == CutShort(s.file)
  }

  lemma NewestOfNewest(xs: seq<Row>, row: Row, keep: nat)
    ensures Newest(Newest(xs, keep) + [row], keep) == Newest(xs + [row], keep)
  {
  }

  /** Where an append begins, the file's lines are whole. */
  lemma RowsBeforeAppend(s: Store)
    requires s.cut == CutShort(s.file)
    ensures var start := s.file + if s.cut then "\n" else "";
            && (start == "" || EndsInBreak(start))
            && Rows(start) == Rows(s.file)
  {
    if s.cut {
      SplitNewline(s.file);
      DecodeAllParts(SplitLines(s.file), [""]);
      UnclosedDoesNotRead("");
    } else {
      assert s.file + "" == s.file;
    }
  }

  lemma RowsJoin(start: string, text: string)
    requires start == "" || EndsInBreak(start)
    ensures Rows(start + text) == Rows(start) + Rows(text)
  {
    hide DecodeAll, SplitLines, EndsInBreak;
    SplitAfterBreak(start, text);
    DecodeAllParts(SplitLines(start), SplitLines(text));
  }

  predicate CleanRows(rows: seq<Row>) {
    forall row | row in rows :: CleanRow(row)
  }

  /** What is read back of a row and of rows one after another, as they are written. */
  function Back(row: Row): seq<Row> {
    Rows(Encode(row) + "\n")
  }

  function BackAll(rows: seq<Row>): seq<Row> {
    if rows == [] then [] else Back(rows[0]) + BackAll(rows[1..])
  }

  lemma BackIs(row: Row)
    ensures if CleanRow(row) then Back(row) == [row] else OnlyEmpty(Back(row))
  {
    hide Encode, Rows, CleanRow;
    assert Encode(row)[..|Encode(row)|] == Encode(row);
    WhatARowLeaves(row, |Encode(row)|, "\n");
  }

  lemma EmptyRowIsClean()
    ensures CleanRow(EMPTY_ROW)
  {
  }

  /** Of rows written one after another the clean ones are read back, and else only rows of empty fields. */
  lemma {:induction false} BackAllIs(rows: seq<Row>)
    ensures CleanRows(rows) ==> BackAll(rows) == rows
    ensures CleanRows(BackAll(rows))
    ensures forall row | row in BackAll(rows) :: row in rows || row == EMPTY_ROW
  {
    hide CleanRow, Back;
    if rows != [] {
      BackIs(rows[0]);
      EmptyRowIsClean();
      BackAllIs(rows[1..]);
    }
  }

  /** An append adds to what is read of the file what is read back of its row, whatever the row holds. */
  lemma AppendedRows(s: Store, row: Row)
    requires s.cut == CutShort(s.file)
    ensures Rows(s.file + Appended(s, row)) == Rows(s.file) + Back(row)
    ensures !CutShort(s.file + Appended(s, row))
  {
    hide Encode, Rows;
    var start := s.file + if s.cut then "\n" else "";
    assert s.file + Appended(s, row) == start + (Encode(row) + "\n");
    RowsBeforeAppend(s);
    RowsJoin(start, Encode(row) + "\n");
  }

  function AddAll(s: Store, rows: seq<Row>, keep: nat): Store
    decreases |rows|
  {
    if rows == [] then s else AddAll(Added(s, rows[0], keep), rows[1..], keep)
  }

  /** And so do adds, as long as they only append. */
  lemma {:induction false} AddsAppendRows(s: Store, rows: seq<Row>, keep: nat)
    requires s.cut == CutShort(s.file) && s.lines + |rows| < 2 * keep
    ensures Rows(AddAll(s, rows, keep).file) == Rows(s.file) + BackAll(rows)
    decreases |rows|
  {
    hide Rows, Back, Appended, CutShort;
    if rows != [] {
      AppendedRows(s, rows[0]);
      AddsAppendRows(Added(s, rows[0], keep), rows[1..], keep);
    }
  }

  /** A rewritten file holds what is read back of each row in it. */
  lemma {:induction false} RowsOfDump(rows: seq<Row>)
    ensures Rows(Dump(rows)) == BackAll(rows)
    ensures !CutShort(Dump(rows))
  {
    hide Encode, Rows;
    if rows == [] {
      NoRows();
    } else {
      RowsOfDump(rows[1..]);
      RowsJoin(Encode(rows[0]) + "\n", Dump(rows[1..]));
      assert Dump(rows) == Encode(rows[0]) + "\n" + Dump(rows[1..]);
    }
  }

  lemma {:induction false} LinesOfDump(rows: seq<Row>)
    requires CleanRows(rows)
    ensures |SplitLines(Dump(rows))| == |rows|
  {
    hide Encode, CleanRow, SplitLines;
    if rows == [] {
      NoLines();
    } else {
      LinesOfDump(rows[1..]);
      RowLines(rows[0]);
      SplitAfterBreak(Encode(rows[0]) + "\n", Dump(rows[1..]));
    }
  }

  /** A row takes one line exactly when it is clean, and more otherwise. */
  lemma RowLines(row: Row)
    ensures |SplitLines(Encode(row) + "\n")| >= 1
    ensures |SplitLines(Encode(row) + "\n")| == 1 <==> CleanRow(row)
  {
    hide Encode, CleanRow, SplitLines, IsBreak;
    var line := Encode(row);
    EncodedIsOneLine(row);
    NewlineBreaks();
    BreakStays(line, "\n");
    EmptyLine();
    CutFirst(line + "\n");
    var i := FirstBreak(line + "\n");
    if i < |line| {
      assert (line + "\n")[i + 1..] == line[i + 1..] + "\n";
      SomeLines(line[i + 1..] + "\n");
      BreakParts(line, i);
    } else {
      assert (line + "\n")[i + 1..] == "" && line[..|line|] == line;
      NoLines();
    }
  }

  lemma SomeLines(s: string)
    requires s != ""
    ensures SplitLines(s) != []
  {
    hide FirstBreak;
  }

  lemma NewestIsClean(s: Store, row: Row, keep: nat)
    requires CleanRows(s.rows) && CleanRow(row)
    ensures CleanRows(Newest(s.rows + [row], keep))
  {
  }

  /** The loss of such a row goes unnoticed where memory holds nothing but copies of it, and full, and
      none of its pieces reads. */
  predicate Unnoticed(s: Store, row: Row, keep: nat) {
    keep >= 1 && |s.rows| == keep && (forall r | r in s.rows :: r == row) && Back(row) == []
  }

  /** What an add writes is what will be read: a rewrite writes every row in memory again, an append the
      one row. */
  predicate ReadsBack(s: Store, row: Row, keep: nat) {
    if Rewrites(s, keep) then CleanRows(Newest(s.rows + [row], keep))
    else CleanRow(row) || Unnoticed(s, row, keep)
  }

  /** An add keeps memory and file in agreement exactly when what it writes holds none of U+0085, U+2028
      and U+2029. */
  lemma AddAgrees(s: Store, row: Row, keep: nat)
    requires Agrees(s, keep)
    ensures Agrees(Added(s, row, keep), keep) <==> ReadsBack(s, row, keep)
  {
    hide Rows, Encode, CleanRow, CutShort, Dump, Back;
    if Rewrites(s, keep) {
      var rows := Newest(s.rows + [row], keep);
      RowsOfDump(rows);
      BackAllIs(rows);
      NewestOfSome(BackAll(rows), keep);
      NewestTwice(s.rows + [row], keep);
    } else {
      AppendedRows(s, row);
      AppendAgrees(Rows(s.file), row, keep);
    }
  }

  lemma NewestOfSome(rows: seq<Row>, keep: nat)
    ensures CleanRows(rows) ==> CleanRows(Newest(rows, keep))
  {
    hide CleanRow;
  }

  lemma NewestTwice(rows: seq<Row>, keep: nat)
    ensures Newest(Newest(rows, keep), keep) == Newest(rows, keep)
  {
  }

  lemma AppendAgrees(found: seq<Row>, row: Row, keep: nat)
    requires keep >= 1
    ensures var rows := Newest(found, keep);
            Newest(rows + [row], keep) == Newest(found + Back(row), keep) <==>
            CleanRow(row) || (|rows| == keep && (forall r | r in rows :: r == row) && Back(row) == [])
  {
    hide CleanRow, Back, Newest, OnlyEmpty;
    BackIs(row);
    EmptyRowIsClean();
    NewestOfNewest(found, row, keep);
    var rows := Newest(found, keep);
    if !CleanRow(row) {
      if Back(row) != [] {
        LastIsNewest(found, row, keep);
        LastOfMany(found, Back(row), keep);
        LastIsEmpty(Back(row));
      } else {
        assert found + Back(row) == found;
        NewestIsShort(found, keep);
        Shifted(rows, row, keep);
      }
    }
  }

  lemma LastIsEmpty(rows: seq<Row>)
    requires rows != [] && OnlyEmpty(rows)
    ensures rows[|rows| - 1] == EMPTY_ROW
  {
    assert rows[|rows| - 1] in rows;
  }

  lemma NewestIsShort(rows: seq<Row>, keep: nat)
    requires keep >= 1
    ensures |Newest(rows, keep)| <= keep
  {
  }

  lemma LastIsNewest(found: seq<Row>, row: Row, keep: nat)
    ensures var all := Newest(Newest(found, keep) + [row], keep);
            all != [] && all[|all| - 1] == row
  {
  }

  lemma LastOfMany(found: seq<Row>, more: seq<Row>, keep: nat)
    requires more != []
    ensures var all := Newest(found + more, keep);
            all != [] && all[|all| - 1] == more[|more| - 1]
  {
  }

  /** Newest rows that one more leaves as they are are copies of it, and as many as are kept. */
  lemma Shifted(rows: seq<Row>, row: Row, keep: nat)
    requires keep >= 1 && |rows| <= keep
    ensures Newest(rows + [row], keep) == rows <==> |rows| == keep && forall r | r in rows :: r == row
  {
    var all := Newest(rows + [row], keep);
    if all == rows && |rows| == keep {
      assert all == (rows + [row])[1..];
      Copies(rows, row, 0);
    } else if |rows| == keep && forall r | r in rows :: r == row {
      assert all == (rows + [row])[1..];
      forall i | 0 <= i < keep
        ensures all[i] == rows[i]
      {
        assert rows[i] in rows && (i + 1 < keep ==> rows[i + 1] in rows);
      }
    }
  }

  lemma {:induction false} Copies(rows: seq<Row>, row: Row, i: nat)
    requires i <= |rows| && rows == (rows + [row])[1..]
    ensures forall j | i <= j < |rows| :: rows[j] == row
    decreases |rows| - i
  {
    if i < |rows| {
      Copies(rows, row, i + 1);
      assert rows[i] == (rows + [row])[i + 1];
    }
  }

  /** A row holding U+0085, U+2028 or U+2029 is lost the next time its file is read: a freshly
      written row reads back exactly when it holds none of them. */
  lemma WrittenRowReadsBack(row: Row)
    ensures Rows(Encode(row) + "\n") == [row] <==> CleanRow(row)
  {
    hide Rows, Encode, CleanRow;
    BackIs(row);
    EmptyRowIsClean();
    if OnlyEmpty([row]) {
      assert row in [row];
    }
  }

  /** Where the file found has a line that reads as such a row, by an escape, a rewrite loses it although
      every add is clean. */
  lemma EscapedRowIsLost(row: Row)
    requires CleanRow(row)
    ensures var found := Row("", "", "\U{2028}", "", "", "");
            var s := Opened("x\n" + ("x\n" + (ESCAPED + "\n")), 2);
            && s.rows == [found] && Rewrites(s, 2)
            && !Agrees(Added(s, row, 2), 2) && found !in Rows(Added(s, row, 2).file)
  {
    hide Encode, Rows, CleanRow, Back, Dump, Decode, OneLine, SplitLines;
    var found := Row("", "", "\U{2028}", "", "", "");
    var file := "x\n" + ("x\n" + (ESCAPED + "\n"));
    EscapedFile(file);
    var s := Opened(file, 2);
    EscapedReads();
    assert Newest(s.rows + [row], 2) == [found, row];
    assert !CleanRows([found, row]) by { assert found in [found, row]; }
    AddAgrees(s, row, 2);
    RowsOfDump([found, row]);
    BackAllIs([found, row]);
  }

  lemma EscapedFile(file: string)
    requires file == "x\n" + ("x\n" + (ESCAPED + "\n"))
    ensures Rows(file) == [Row("", "", "\U{2028}", "", "", "")] && |SplitLines(file)| == 3
  {
    hide Decode, OneLine, SplitLines;
    EscapedReads();
    assert OneLine("x") by { XIsOneLine(); }
    var rest1 := ESCAPED + "\n";
    var rest2 := "x\n" + rest1;
    assert file == "x" + "\n" + rest2 && rest2 == "x" + "\n" + rest1 && rest1 == ESCAPED + "\n" + "";
    NewlineBreaks();
    LineThen("x", "\n", rest2);
    LineThen("x", "\n", rest1);
    LineThen(ESCAPED, "\n", "");
    NoLines();
    NoObject("x");
    assert SplitLines(file) == ["x"] + (["x"] + ([ESCAPED] + []));
    DecodeAllParts(["x"], ["x"] + ([ESCAPED] + []));
    DecodeAllParts(["x"], [ESCAPED] + []);
    assert [ESCAPED] + [] == [ESCAPED];
    DecodeOneLine("x");
    DecodeOneLine(ESCAPED);
  }

  lemma XIsOneLine()
    ensures OneLine("x")
  {
  }

  /** What such a row leaves may read as another: with an object on a line of its own in a field, what
      is read back is one row of empty fields. */
  lemma LostRowLeavesAnother(row: Row)
    requires CleanRow(row.(args := "")) && row.args == OBJECT_BETWEEN
    ensures Rows(Encode(row) + "\n") == [Row("", "", "", "", "", "")]
  {
    hide Decode, Encode, OneLine, SplitLines;
    var cut := "\U{2028}";
    var before, after := ObjectBetween(row);
    var rest := after + "\n" + "";
    assert Encode(row) + "\n" == before + cut + ("{}" + cut + rest);
    ObjectIsOneLine();
    LineThen(before, cut, "{}" + cut + rest);
    LineThen("{}", cut, rest);
    LineThen(after, "\n", "");
    NoLines();
    assert SplitLines(Encode(row) + "\n") == [before] + (["{}"] + ([after] + []));
    DecodeAllParts([before], ["{}"] + ([after] + []));
    DecodeAllParts(["{}"], [after] + []);
    UnclosedDoesNotRead(before);
    EmptyObjectReads();
    NoObject(after);
    DecodeOneLine(before);
    DecodeOneLine("{}");
    DecodeOneLine(after);
    assert [after] + [] == [after];
  }

  lemma ObjectIsOneLine()
    ensures OneLine("{}")
  {
  }

  lemma LineThen(line: string, cut: string, rest: string)
    requires OneLine(line) && |cut| == 1 && IsBreak(cut[0])
    ensures SplitLines(line + cut + rest) == [line] + SplitLines(rest)
  {
    hide IsBreak;
    var s := line + cut + rest;
    OneLineHasNoBreak(line);
    BreakStays(line, cut + rest);
    assert s == line + (cut + rest) && FirstBreak(cut + rest) == 0;
    assert s[..|line|] == line && s[|line| + 1..] == rest;
  }

  // ---- runs: adds, crashes, reopenings ----

  /** An add that completes, or one that a crash interrupts and a reopening follows.

      A crash while appending leaves the first `written` characters, and then the replacement
      character that a multi-byte one cut in half reads as when `half` is set. A crash while
      rewriting leaves the old file or the new one: the rows are written beside it and moved. */
  datatype Event =
    | Completed(row: Row)
    | Interrupted(row: Row, written: nat, half: bool, replaced: bool)

  /** What an interrupted append left of `text`. */
  function Torn(text: string, written: nat, half: bool): string {
    if written >= |text| then text
    else text[..written] + if half && text[written] as int >= 0x80 then [REPLACEMENT] else ""
  }

  function CrashFile(s: Store, e: Event, keep: nat): string
    requires e.Interrupted?
  {
    if !Rewrites(s, keep) then s.file + Torn(Appended(s, e.row), e.written, e.half)
    else if e.replaced then Added(s, e.row, keep).file
    else s.file
  }

  function Step(s: Store, e: Event, keep: nat): Store {
    match e
    case Completed(row) => Added(s, row, keep)
    case Interrupted(_, _, _, _) => Opened(CrashFile(s, e, keep), keep)
  }

  /** Whether an event's row is in the file afterwards: a torn append loses it unless nothing but
      the end of its line was missing. */
  predicate Kept(s: Store, e: Event, keep: nat) {
    match e
    case Completed(_) => true
    case Interrupted(row, written, _, replaced) =>
      if Rewrites(s, keep) then replaced else written + 1 >= |Appended(s, row)|
  }

  function Run(s: Store, events: seq<Event>, keep: nat): Store
    decreases |events|
  {
    if events == [] then s else Run(Step(s, events[0], keep), events[1..], keep)
  }

  /** The rows of a run that were kept, in order. */
  function Log(s: Store, events: seq<Event>, keep: nat): seq<Row>
    decreases |events|
  {
    if events == [] then []
    else (if Kept(s, events[0], keep) then [events[0].row] else []) + Log(Step(s, events[0], keep), events[1..], keep)
  }

  predicate CleanRun(events: seq<Event>) {
    forall e | e in events :: CleanRow(e.row)
  }

  /** An append cut after any character leaves the rows before it as they were. Of a clean row it adds
      the row itself exactly when nothing but its line end is missing, and nothing otherwise; of another,
      nothing but rows of empty fields. */
  lemma TornRows(s: Store, e: Event) returns (tail: seq<Row>)
    requires e.Interrupted? && s.cut == CutShort(s.file)
    ensures Rows(s.file + Torn(Appended(s, e.row), e.written, e.half)) == Rows(s.file) + tail
    ensures if CleanRow(e.row) then tail == if e.written + 1 >= |Appended(s, e.row)| then [e.row] else []
            else OnlyEmpty(tail)
  {
    hide Encode, Rows, CleanRow;
    var line, text := Encode(e.row), Appended(s, e.row);
    var sep := if s.cut then "\n" else "";
    var start := s.file + sep;
    var torn := Torn(text, e.written, e.half);
    RowsBeforeAppend(s);
    if e.written < |sep| {
      assert torn == "" && s.file + torn == s.file;
      tail := [];
      assert Rows(s.file) + tail == Rows(s.file);
    } else {
      var n, extra := TornParts(text, sep, line, e.written, e.half);
      assert s.file + torn == start + (line[..n] + extra);
      RowsJoin(start, line[..n] + extra);
      WhatARowLeaves(e.row, n, extra);
      tail := Rows(line[..n] + extra);
    }
  }

  /** What is left of an append: some of the row, and what follows it. */
  lemma TornParts(text: string, sep: string, line: string, written: nat, half: bool) returns (n: nat, extra: string)
    requires text == sep + line + "\n" && written >= |sep|
    ensures n <= |line| && Tail(extra) && (n == |line| ==> extra != [REPLACEMENT])
    ensures Torn(text, written, half) == sep + (line[..n] + extra)
    ensures written + 1 >= |text| <==> n == |line|
  {
    if written >= |text| {
      n, extra := |line|, "\n";
      assert line[..n] == line;
    } else {
      n := written - |sep|;
      extra := if half && text[written] as int >= 0x80 then [REPLACEMENT] else "";
      assert text[..written] == sep + line[..n];
      assert n == |line| ==> text[written] == '\n';
    }
  }

  /** Whatever the row holds, and wherever its append is cut, no earlier row is lost or glued to it. */
  lemma EarlierRowsStay(s: Store, e: Event)
    requires e.Interrupted? && s.cut == CutShort(s.file)
    ensures Rows(s.file) <= Rows(s.file + Torn(Appended(s, e.row), e.written, e.half))
  {
    hide Rows, Torn, Appended;
    var tail := TornRows(s, e);
  }

  /** Memory and file agree, and what a rewrite would write again is clean. */
  predicate Sound(s: Store, keep: nat) {
    Agrees(s, keep) && CleanRows(s.rows)
  }

  /** What is opened of a file with none of the three as an escape. */
  lemma OpenedIsSound(file: string, keep: nat)
    requires NoLooseEscape(file)
    ensures Sound(Opened(file, keep), keep)
  {
    hide Rows, CleanRow, NoLooseEscape;
    RowsAreClean(file);
    NewestOfSome(Rows(file), keep);
  }

  lemma StepKeeps(s: Store, e: Event, keep: nat)
    requires Sound(s, keep) && CleanRow(e.row)
    ensures Sound(Step(s, e, keep), keep)
    ensures Step(s, e, keep).rows == Newest(s.rows + if Kept(s, e, keep) then [e.row] else [], keep)
  {
    hide Rows, Encode, CleanRow, Added, Torn, Appended;
    AddedRows(s, e.row, keep);
    NewestAgain(s, keep);
    NewestIsClean(s, e.row, keep);
    if e.Completed? || Rewrites(s, keep) {
      AddAgrees(s, e.row, keep);
    } else {
      TornKeeps(s, e, keep);
    }
  }

  lemma AddedRows(s: Store, row: Row, keep: nat)
    ensures Added(s, row, keep).rows == Newest(s.rows + [row], keep)
  {
  }

  lemma NewestAgain(s: Store, keep: nat)
    requires Agrees(s, keep)
    ensures Newest(s.rows + [], keep) == s.rows && Newest(s.rows, keep) == s.rows
  {
    hide Rows;
    NewestTwice(Rows(s.file), keep);
    assert s.rows + [] == s.rows;
  }

  lemma TornKeeps(s: Store, e: Event, keep: nat)
    requires Agrees(s, keep) && CleanRow(e.row) && e.Interrupted? && !Rewrites(s, keep)
    ensures Agrees(Step(s, e, keep), keep)
    ensures Step(s, e, keep).rows == Newest(s.rows + if Kept(s, e, keep) then [e.row] else [], keep)
  {
    hide Rows, Encode, CleanRow, Torn, Appended;
    var tail := TornRows(s, e);
    NewestOfNewest(Rows(s.file), e.row, keep);
    NewestAgain(s, keep);
    assert Rows(s.file) + [] == Rows(s.file);
  }

  lemma NewestOfParts(xs: seq<Row>, ys: seq<Row>, zs: seq<Row>, keep: nat)
    ensures Newest(Newest(xs + ys, keep) + zs, keep) == Newest(xs + (ys + zs), keep)
  {
    assert xs + ys + zs == xs + (ys + zs);
    if keep != 0 && |xs + ys| > keep {
      assert xs + ys + zs == (xs + ys)[..|xs + ys| - keep] + (Newest(xs + ys, keep) + zs);
    }
  }

  /** Over any run what is in memory, and what a further reopening reads, is the newest `keep` of the rows
      found at the start and the rows kept. */
  lemma {:induction false} RecoveredRows(s: Store, events: seq<Event>, keep: nat)
    requires Sound(s, keep) && CleanRun(events)
    ensures var end := Run(s, events, keep);
            && end.rows == Newest(s.rows + Log(s, events, keep), keep)
            && Opened(end.file, keep).rows == end.rows
            && Sound(end, keep)
    decreases |events|
  {
    hide Step, Sound, Kept, Rows;
    if events == [] {
      assert s.rows + [] == s.rows;
      SoundRows(s, keep);
    } else {
      var e := events[0];
      assert e in events && forall x | x in events[1..] :: x in events;
      StepKeeps(s, e, keep);
      var s1 := Step(s, e, keep);
      RecoveredRows(s1, events[1..], keep);
      NewestOfParts(s.rows, if Kept(s, e, keep) then [e.row] else [], Log(s1, events[1..], keep), keep);
    }
  }

  lemma SoundRows(s: Store, keep: nat)
    requires Sound(s, keep)
    ensures Newest(s.rows, keep) == s.rows == Opened(s.file, keep).rows
  {
    hide Rows;
    NewestTwice(Rows(s.file), keep);
  }

  /** At every point of a run memory is what a reopening would read. */
  predicate AgreesThroughout(s: Store, events: seq<Event>, keep: nat)
    decreases |events|
  {
    Agrees(s, keep) && (events != [] ==> AgreesThroughout(Step(s, events[0], keep), events[1..], keep))
  }

  /** It is so if and only if no completed add's row holds one of the three characters. */
  lemma {:induction false} AgreesForCleanRows(s: Store, events: seq<Event>, keep: nat)
    requires Sound(s, keep)
    ensures AgreesThroughout(s, events, keep) <==> forall e | e in events && e.Completed? :: CleanRow(e.row)
    decreases |events|
  {
    hide Rows, Encode, CleanRow, Added, Torn, Appended, Step, Agrees;
    SoundAgrees(s, keep);
    if events != [] {
      var e := events[0];
      StepStaysSound(s, e, keep);
      assert e in events && forall x | x in events :: x == e || x in events[1..];
      if e.Interrupted? || CleanRow(e.row) {
        AgreesForCleanRows(Step(s, e, keep), events[1..], keep);
      }
    }
  }

  lemma SoundAgrees(s: Store, keep: nat)
    requires Sound(s, keep)
    ensures Agrees(s, keep)
  {
  }

  /** An interrupted add keeps everything sound whatever its row holds; a completed one exactly when its
      row is clean. */
  lemma StepStaysSound(s: Store, e: Event, keep: nat)
    requires Sound(s, keep)
    ensures e.Interrupted? || CleanRow(e.row) ==> Sound(Step(s, e, keep), keep)
    ensures e.Completed? && !CleanRow(e.row) ==> !Agrees(Step(s, e, keep), keep)
  {
    hide Rows, Encode, CleanRow, Torn, Appended, Back, CutShort, Dump;
    AddedRows(s, e.row, keep);
    if e.Completed? {
      AddAgrees(s, e.row, keep);
      LastIsIn(s.rows, e.row, keep);
      if CleanRow(e.row) { NewestIsClean(s, e.row, keep); } else { NotUnnoticed(s, e.row, keep); }
    } else if Rewrites(s, keep) {
      RowsOfDump(Newest(s.rows + [e.row], keep));
      BackAllIs(Newest(s.rows + [e.row], keep));
      NewestOfSome(BackAll(Newest(s.rows + [e.row], keep)), keep);
      NewestAgain(s, keep);
    } else {
      var tail := TornRows(s, e);
      EmptyRowIsClean();
      NewestOfMore(Rows(s.file), tail, keep);
    }
  }

  lemma NotUnnoticed(s: Store, row: Row, keep: nat)
    requires CleanRows(s.rows) && !CleanRow(row)
    ensures !Unnoticed(s, row, keep)
  {
    hide CleanRow, Back;
    if s.rows != [] {
      assert s.rows[0] in s.rows;
    }
  }

  lemma LastIsIn(rows: seq<Row>, row: Row, keep: nat)
    ensures row in Newest(rows + [row], keep)
  {
    var all := Newest(rows + [row], keep);
    assert all[|all| - 1] == row;
  }

  lemma NewestOfMore(found: seq<Row>, more: seq<Row>, keep: nat)
    requires CleanRows(Newest(found, keep)) && CleanRows(more)
    ensures CleanRows(Newest(found + more, keep))
  {
    hide CleanRow;
    var all, newest := found + more, Newest(found, keep);
    forall row | row in Newest(all, keep)
      ensures row in newest || row in more
    {
      var from := |all| - |Newest(all, keep)|;
      var i :| 0 <= i < |Newest(all, keep)| && Newest(all, keep)[i] == row;
      assert all[from + i] == row;
      if from + i < |found| {
        assert newest[from + i - (|found| - |newest|)] == row;
      } else {
        assert more[from + i - |found|] == row;
      }
    }
  }

  /** Whatever the rows of a run hold, no row is made up: each one in memory or in the file was found
      there, is an event's, or is one of empty fields that the pieces of an event's row left. */
  lemma {:induction false} NothingIsInvented(s: Store, events: seq<Event>, keep: nat, row: Row)
    requires s.cut == CutShort(s.file)
    requires row in Run(s, events, keep).rows || row in Rows(Run(s, events, keep).file)
    ensures row in s.rows || row in Rows(s.file) || row == EMPTY_ROW || exists e :: e in events && e.row == row
    decreases |events|
  {
    hide Step, Rows, CutShort;
    if events != [] {
      var e := events[0];
      var next := Step(s, e, keep);
      StepInvents(s, e, keep);
      NothingIsInvented(next, events[1..], keep, row);
      assert e in events && forall x | x in events[1..] :: x in events;
    }
  }

  lemma NewestAreThere(rows: seq<Row>, keep: nat)
    ensures forall row | row in Newest(rows, keep) :: row in rows
  {
  }

  lemma StepInvents(s: Store, e: Event, keep: nat)
    requires s.cut == CutShort(s.file)
    ensures var next := Step(s, e, keep);
            && next.cut == CutShort(next.file)
            && forall row | row in next.rows || row in Rows(next.file) ::
                 row in s.rows || row in Rows(s.file) || row == EMPTY_ROW || row == e.row
  {
    hide Rows, Encode, CleanRow, Torn, Appended, Back, CutShort, Dump;
    AddedRows(s, e.row, keep);
    NewestAreThere(s.rows + [e.row], keep);
    if e.Interrupted? {
      NewestAreThere(Rows(CrashFile(s, e, keep)), keep);
    }
    if Rewrites(s, keep) {
      RowsOfDump(Newest(s.rows + [e.row], keep));
      BackAllIs(Newest(s.rows + [e.row], keep));
    } else if e.Completed? {
      AppendedRows(s, e.row);
      BackIs(e.row);
    } else {
      var tail := TornRows(s, e);
    }
  }

  /** `log` is the completed adds' rows with, in their places, some of the interrupted ones. */
  predicate AddsSomeInterrupted(events: seq<Event>, log: seq<Row>) {
    if events == [] then log == []
    else if log != [] && log[0] == events[0].row && AddsSomeInterrupted(events[1..], log[1..]) then true
    else events[0].Interrupted? && AddsSomeInterrupted(events[1..], log)
  }

  lemma CompletedIsKept(s: Store, e: Event, keep: nat)
    ensures e.Completed? ==> Kept(s, e, keep)
  {
  }

  /** No completed add is missing from the log, and nothing is in it twice or out of order. */
  lemma {:induction false} LogHasEveryCompletedAdd(s: Store, events: seq<Event>, keep: nat)
    ensures AddsSomeInterrupted(events, Log(s, events, keep))
    decreases |events|
  {
    hide Step, Kept;
    if events != [] {
      var e, log := events[0], Log(Step(s, events[0], keep), events[1..], keep);
      CompletedIsKept(s, e, keep);
      LogHasEveryCompletedAdd(Step(s, e, keep), events[1..], keep);
      if Kept(s, e, keep) {
        assert ([e.row] + log)[1..] == log;
      } else {
        assert [] + log == log;
      }
    }
  }
}
