/**
 One history row as a line of JSON: what `json.dumps(row, ensure_ascii=False)` writes, a reader of
 exactly that form, and how a text is cut into lines.

 The reader is a left-to-right parser. That makes "no strict prefix of a row reads as a row" a
 consequence of one fact, `ReadsOn`: reading a longer text only lengthens what is left over.
 */
module JsonLines {
  import opened Wrappers

  datatype Row = Row(at: string, kind: string, args: string, site: string, outcome: string, reason: string)

  // ---- writing ----

  /** The letter after the backslash, for a character with a short escape. */
  function Short(c: char): Option<char> {
    if c == '\"' || c == '\\' then Some(c)
    else if c == '\n' then Some('n') else if c == '\r' then Some('r') else if c == '\t' then Some('t')
    else if c == '\U{8}' then Some('b') else if c == '\U{c}' then Some('f')
    else None
  }

  function Escape(c: char): string {
    match Short(c)
    case Some(letter) => ['\\', letter]
    case None =>
      if c < ' ' then ['\\', 'u', '0', '0', Hex(c as int / 16), Hex(c as int % 16)] else [c]
  }

  function Hex(n: nat): char
    requires n < 16
  {
    if n < 10 then ('0' as int + n) as char else ('a' as int + n - 10) as char
  }

  function EscapeAll(s: string): string {
    if s == "" then "" else Escape(s[0]) + EscapeAll(s[1..])
  }

  function Quote(s: string): string {
    "\"" + EscapeAll(s) + "\""
  }

  type Member = (string, string)

  function Members(row: Row): seq<Member> {
    [("at", row.at), ("kind", row.kind), ("args", row.args),
     ("site", row.site), ("outcome", row.outcome), ("reason", row.reason)]
  }

  function WriteMember(m: Member): string {
    Quote(m.0) + ": " + Quote(m.1)
  }

  function WriteMembers(ms: seq<Member>): string
    requires ms != []
  {
    WriteMember(ms[0]) + if |ms| == 1 then "}" else ", " + WriteMembers(ms[1..])
  }

  function Encode(row: Row): (line: string)
    ensures line != ""
  {
    "{" + WriteMembers(Members(row))
  }

  // ---- reading ----

  /** What was read, and the text after it. */
  datatype Read<T> = Read(item: T, rest: string)

  ghost predicate Consumed(s: string, rest: string, last: char) {
    |rest| < |s| && s[|s| - |rest|..] == rest && s[|s| - |rest| - 1] == last
  }

  predicate Opens(s: string, c: char) {
    s != "" && s[0] == c
  }

  lemma ConsumedLater(before: string, s: string, rest: string, last: char)
    requires Consumed(s, rest, last)
    ensures Consumed(before + s, rest, last)
  {
    var all := before + s;
    assert all[|all| - |rest|..] == s[|s| - |rest|..];
    assert all[|all| - |rest| - 1] == s[|s| - |rest| - 1];
  }

  function Unhex(c: char): (r: Option<int>)
    ensures r.Some? ==> 0 <= r.value < 16
  {
    if '0' <= c <= '9' then Some(c as int - '0' as int)
    else if 'a' <= c <= 'f' then Some(c as int - 'a' as int + 10)
    else if 'A' <= c <= 'F' then Some(c as int - 'A' as int + 10)
    else None
  }

  /** The character behind the four digits of an escape; half of a surrogate pair is none. */
  function Unescape(digits: string): Option<char>
    requires |digits| == 4
  {
    var a :- Unhex(digits[0]);
    var b :- Unhex(digits[1]);
    var c :- Unhex(digits[2]);
    var d :- Unhex(digits[3]);
    var n := 4096 * a + 256 * b + 16 * c + d;
    if 0xd800 <= n < 0xe000 then None else Some(n as char)
  }

  function Unshort(letter: char): Option<char> {
    if letter == '\"' || letter == '\\' || letter == '/' then Some(letter)
    else if letter == 'n' then Some('\n') else if letter == 'r' then Some('\r') else if letter == 't' then Some('\t')
    else if letter == 'b' then Some('\U{8}') else if letter == 'f' then Some('\U{c}')
    else None
  }

  /** One character of a quoted string, an escape read back. */
  function ReadChar(s: string): (r: Option<Read<char>>)
    ensures r.Some? ==> |r.value.rest| < |s| && s[|s| - |r.value.rest|..] == r.value.rest
  {
    if s == "" || s[0] < ' ' || s[0] == '\"' then None
    else if s[0] != '\\' then Some(Read(s[0], s[1..]))
    else if |s| >= 2 && Unshort(s[1]).Some? then Some(Read(Unshort(s[1]).value, s[2..]))
    else if |s| >= 6 && s[1] == 'u' then
      var c :- Unescape(s[2..6]);
      Some(Read(c, s[6..]))
    else None
  }

  /** A string up to its closing quote. */
  function ReadString(s: string): (r: Option<Read<string>>)
    ensures r.Some? ==> Consumed(s, r.value.rest, '\"')
  {
    if Opens(s, '\"') then Some(Read("", s[1..]))
    else
      var c :- ReadChar(s);
      var tail :- ReadString(c.rest);
      Some(Read([c.item] + tail.item, tail.rest))
  }

  function Expect(s: string, text: string): (r: Option<string>)
    ensures r.Some? ==> s == text + r.value
  {
    if text <= s then Some(s[|text|..]) else None
  }

  function ReadMember(s: string): (r: Option<Read<Member>>)
    ensures r.Some? ==> Consumed(s, r.value.rest, '\"')
  {
    var s1 :- Expect(s, "\"");
    var key :- ReadString(s1);
    var s2 :- Expect(key.rest, ": \"");
    var value :- ReadString(s2);
    ConsumedAfterKey(s, s1, key.rest, s2, value.rest);
    Some(Read((key.item, value.item), value.rest))
  }

  lemma ConsumedAfterKey(s: string, s1: string, afterKey: string, s2: string, rest: string)
    requires s == "\"" + s1 && Consumed(s1, afterKey, '\"') && afterKey == ": \"" + s2 && Consumed(s2, rest, '\"')
    ensures Consumed(s, rest, '\"')
  {
    var before := "\"" + s1[..|s1| - |afterKey|] + ": \"";
    assert s1 == s1[..|s1| - |afterKey|] + afterKey;
    assert s == before + s2;
    ConsumedLater(before, s2, rest, '\"');
  }

  function ReadMembers(s: string): (r: Option<Read<seq<Member>>>)
    ensures r.Some? ==> Consumed(s, r.value.rest, '}')
  {
    var m :- ReadMember(s);
    if Opens(m.rest, '}') then
      ConsumedWithNext(s, m.rest);
      Some(Read([m.item], m.rest[1..]))
    else
      var s1 :- Expect(m.rest, ", ");
      Shorter(s, m.rest, s1);
      var more :- ReadMembers(s1);
      ConsumedAfterComma(s, m.rest, s1, more.rest);
      Some(Read([m.item] + more.item, more.rest))
  }

  lemma ConsumedWithNext(s: string, rest: string)
    requires Consumed(s, rest, '\"') && Opens(rest, '}')
    ensures Consumed(s, rest[1..], '}')
  {
    var before := s[..|s| - |rest|];
    assert s == before + rest && rest == ['}'] + rest[1..];
    assert s == before + ['}'] + rest[1..];
  }

  lemma Shorter(s: string, afterMember: string, s1: string)
    requires Consumed(s, afterMember, '\"') && afterMember == ", " + s1
    ensures |s1| < |s|
  {
  }

  lemma ConsumedAfterComma(s: string, afterMember: string, s1: string, rest: string)
    requires Consumed(s, afterMember, '\"') && afterMember == ", " + s1 && Consumed(s1, rest, '}')
    ensures Consumed(s, rest, '}')
  {
    var before := s[..|s| - |afterMember|] + ", ";
    assert s == s[..|s| - |afterMember|] + afterMember;
    assert s == before + s1;
    ConsumedLater(before, s1, rest, '}');
  }

  /** An object's members and the text after it. */
  function ReadObject(s: string): (r: Option<Read<seq<Member>>>)
    ensures r.Some? ==> Consumed(s, r.value.rest, '}')
  {
    var s1 :- Expect(s, "{");
    if Opens(s1, '}') then Some(Read([], s1[1..]))
    else
      var r :- ReadMembers(s1);
      ConsumedLater("{", s1, r.rest, '}');
      Some(r)
  }

  /** A member's value: the last one of that name, "" without one. */
  function Lookup(ms: seq<Member>, name: string): string {
    if ms == [] then ""
    else if ms[|ms| - 1].0 == name then ms[|ms| - 1].1
    else Lookup(ms[..|ms| - 1], name)
  }

  function FromMembers(ms: seq<Member>): Row {
    Row(Lookup(ms, "at"), Lookup(ms, "kind"), Lookup(ms, "args"),
        Lookup(ms, "site"), Lookup(ms, "outcome"), Lookup(ms, "reason"))
  }

  /** A line as a row, or None when it does not read. */
  function Decode(line: string): Option<Row> {
    var o :- ReadObject(line);
    if o.rest != "" then None else Some(FromMembers(o.item))
  }

  // ---- lines ----

  /** Where `splitlines` cuts a text that was read in text mode (which leaves no carriage return). */
  predicate IsBreak(c: char) {
    || c == '\n' || c == '\U{b}' || c == '\U{c}' || c == '\U{1c}' || c == '\U{1d}' || c == '\U{1e}'
    || LooseBreak(c)
  }

  predicate OneLine(s: string) {
    forall c | c in s :: !IsBreak(c)
  }

  function FirstBreak(s: string): (i: nat)
    ensures i <= |s| && OneLine(s[..i]) && (i < |s| ==> IsBreak(s[i]))
  {
    if s == "" || IsBreak(s[0]) then 0 else 1 + FirstBreak(s[1..])
  }

  function SplitLines(s: string): seq<string> {
    var i := FirstBreak(s);
    if s == "" then [] else if i == |s| then [s] else [s[..i]] + SplitLines(s[i + 1..])
  }

  function DecodeAll(lines: seq<string>): seq<Row> {
    if lines == [] then []
    else (match Decode(lines[0]) case Some(row) => [row] case None => []) + DecodeAll(lines[1..])
  }

  /** The rows a text reads as; a line that does not read is skipped. */
  function Rows(text: string): seq<Row> {
    DecodeAll(SplitLines(text))
  }

  // ---- the round trip ----

  lemma ReadsEscaped(c: char, rest: string)
    ensures ReadChar(Escape(c) + rest) == Some(Read(c, rest))
    ensures (Escape(c) + rest)[0] != '\"'
  {
    var e := Escape(c);
    var s := e + rest;
    assert s[|e|..] == rest;
    if Short(c).Some? {
      assert s[0] == '\\' && s[1] == Short(c).value && Unshort(s[1]) == Some(c);
    } else if c < ' ' {
      ControlReadsBack(c);
      assert s[2..6] == e[2..];
    } else {
      assert s[0] == c;
    }
  }

  lemma ControlReadsBack(c: char)
    requires c < ' ' && Short(c).None?
    ensures Unescape(Escape(c)[2..]) == Some(c) && Unshort('u') == None
  {
    HexReadsBack(c as int / 16);
    HexReadsBack(c as int % 16);
    assert Escape(c)[2..] == ['0', '0', Hex(c as int / 16), Hex(c as int % 16)];
  }

  lemma HexReadsBack(n: nat)
    requires n < 16
    ensures Unhex(Hex(n)) == Some(n)
  {
  }

  lemma {:induction false} ReadsQuoted(v: string, rest: string)
    ensures ReadString(EscapeAll(v) + ("\"" + rest)) == Some(Read(v, rest))
  {
    hide Escape, ReadChar, ReadString;
    if v == "" {
      assert EscapeAll(v) + ("\"" + rest) == "\"" + rest;
      StringEnds(rest);
    } else {
      var tail := EscapeAll(v[1..]) + ("\"" + rest);
      var s := Escape(v[0]) + tail;
      assert EscapeAll(v) + ("\"" + rest) == s;
      ReadsEscaped(v[0], tail);
      ReadsQuoted(v[1..], rest);
      StringGoesOn(s, v[0], tail);
      assert v == [v[0]] + v[1..];
    }
  }

  lemma StringEnds(rest: string)
    ensures ReadString("\"" + rest) == Some(Read("", rest))
  {
  }

  lemma StringGoesOn(s: string, c: char, tail: string)
    requires !Opens(s, '\"') && ReadChar(s) == Some(Read(c, tail)) && ReadString(tail).Some?
    ensures ReadString(s) == Some(Read([c] + ReadString(tail).value.item, ReadString(tail).value.rest))
  {
  }

  lemma ReadsMember(m: Member, after: string)
    ensures ReadMember(WriteMember(m) + after) == Some(Read(m, after))
  {
    hide ReadString, EscapeAll;
    var s2 := EscapeAll(m.1) + ("\"" + after);
    var s1 := EscapeAll(m.0) + ("\"" + (": \"" + s2));
    var s := WriteMember(m) + after;
    assert s == "\"" + s1;
    assert Expect(s, "\"") == Some(s1);
    ReadsQuoted(m.0, ": \"" + s2);
    assert Expect(": \"" + s2, ": \"") == Some(s2);
    ReadsQuoted(m.1, after);
  }

  lemma {:induction false} ReadsMembers(ms: seq<Member>)
    requires ms != []
    ensures ReadMembers(WriteMembers(ms)) == Some(Read(ms, ""))
  {
    hide ReadMembers, WriteMember;
    if |ms| == 1 {
      ReadsLastMember(ms[0]);
      assert ms == [ms[0]];
    } else {
      ReadsMembers(ms[1..]);
      ReadsMoreMembers(ms[0], WriteMembers(ms[1..]), ms[1..]);
      assert ms == [ms[0]] + ms[1..];
    }
  }

  lemma ReadsLastMember(m: Member)
    ensures ReadMembers(WriteMember(m) + "}") == Some(Read([m], ""))
  {
    hide ReadMember, WriteMember;
    ReadsMember(m, "}");
  }

  lemma ReadsMoreMembers(m: Member, more: string, ms: seq<Member>)
    requires ReadMembers(more) == Some(Read(ms, ""))
    ensures ReadMembers(WriteMember(m) + (", " + more)) == Some(Read([m] + ms, ""))
  {
    hide ReadMember, WriteMember;
    var after := ", " + more;
    ReadsMember(m, after);
    assert after[0] == ',' && after[2..] == more;
    assert Expect(after, ", ") == Some(more);
  }

  lemma RoundTrip(row: Row)
    ensures Decode(Encode(row)) == Some(row)
  {
    var ms := Members(row);
    ReadsMembers(ms);
    var s1 := WriteMembers(ms);
    assert Expect(Encode(row), "{") == Some(s1);
    assert s1[0] == '\"';
    FindsFields(row);
  }

  lemma FindsFields(row: Row)
    ensures FromMembers(Members(row)) == row
  {
    var ms := Members(row);
    assert ms[0].0[0] == 'a' && ms[1].0[0] == 'k' && ms[2].0[1] == 'r';
    assert ms[3].0[0] == 's' && ms[4].0[0] == 'o' && ms[5].0[0] == 'r';
    LookupAt(ms, 0, "at");
    LookupAt(ms, 1, "kind");
    LookupAt(ms, 2, "args");
    LookupAt(ms, 3, "site");
    LookupAt(ms, 4, "outcome");
    LookupAt(ms, 5, "reason");
  }

  lemma {:induction false} LookupAt(ms: seq<Member>, i: nat, name: string)
    requires i < |ms| && ms[i].0 == name
    requires forall j | i < j < |ms| :: ms[j].0 != name
    ensures Lookup(ms, name) == ms[i].1
    decreases |ms|
  {
    if i < |ms| - 1 {
      LookupAt(ms[..|ms| - 1], i, name);
    }
  }

  // ---- no strict prefix of a row is a row ----

  lemma CharReadsOn(s: string, t: string)
    requires ReadChar(s).Some?
    ensures ReadChar(s + t) == Some(Read(ReadChar(s).value.item, ReadChar(s).value.rest + t))
  {
    assert forall i | 0 <= i <= |s| :: (s + t)[i..] == s[i..] + t;
    assert |s| >= 2 ==> (s + t)[..2] == s[..2];
    assert |s| >= 6 ==> (s + t)[2..6] == s[2..6];
  }

  lemma {:induction false} StringReadsOn(s: string, t: string)
    requires ReadString(s).Some?
    ensures ReadString(s + t) == Some(Read(ReadString(s).value.item, ReadString(s).value.rest + t))
    decreases |s|
  {
    if Opens(s, '\"') {
      assert (s + t)[1..] == s[1..] + t;
    } else {
      CharReadsOn(s, t);
      StringReadsOn(ReadChar(s).value.rest, t);
    }
  }

  lemma ExpectOn(s: string, text: string, t: string)
    requires Expect(s, text).Some?
    ensures Expect(s + t, text) == Some(Expect(s, text).value + t)
  {
    assert (s + t)[|text|..] == s[|text|..] + t;
  }

  lemma MemberReadsOn(s: string, t: string)
    requires ReadMember(s).Some?
    ensures ReadMember(s + t) == Some(Read(ReadMember(s).value.item, ReadMember(s).value.rest + t))
  {
    hide ReadString;
    ExpectOn(s, "\"", t);
    var s1 := Expect(s, "\"").value;
    StringReadsOn(s1, t);
    var key := ReadString(s1).value;
    ExpectOn(key.rest, ": \"", t);
    StringReadsOn(Expect(key.rest, ": \"").value, t);
  }

  lemma {:induction false} MembersReadOn(s: string, t: string)
    requires ReadMembers(s).Some?
    ensures ReadMembers(s + t) == Some(Read(ReadMembers(s).value.item, ReadMembers(s).value.rest + t))
    decreases |s|
  {
    hide ReadMember;
    MemberReadsOn(s, t);
    var rest := ReadMember(s).value.rest;
    if Opens(rest, '}') {
      assert (rest + t)[1..] == rest[1..] + t;
    } else {
      ExpectOn(rest, ", ", t);
      MembersReadOn(Expect(rest, ", ").value, t);
    }
  }

  lemma ObjectReadsOn(s: string, t: string)
    requires ReadObject(s).Some?
    ensures ReadObject(s + t) == Some(Read(ReadObject(s).value.item, ReadObject(s).value.rest + t))
  {
    hide ReadMembers;
    ExpectOn(s, "{", t);
    var s1 := Expect(s, "{").value;
    if Opens(s1, '}') {
      assert (s1 + t)[1..] == s1[1..] + t;
    } else {
      MembersReadOn(s1, t);
    }
  }

  /** A row cut anywhere before its end does not read. */
  lemma PrefixDoesNotRead(row: Row, n: nat)
    requires n < |Encode(row)|
    ensures Decode(Encode(row)[..n]) == None
  {
    hide Encode, ReadObject;
    var p, q := Encode(row)[..n], Encode(row)[n..];
    assert p + q == Encode(row);
    RoundTrip(row);
    if Decode(p).Some? {
      ObjectReadsOn(p, q);
    }
  }

  /** Nor does any text that does not end an object. */
  lemma UnclosedDoesNotRead(line: string)
    requires line == "" || line[|line| - 1] != '}'
    ensures Decode(line) == None
  {
  }

  lemma EmptyObjectReads()
    ensures Decode("{}") == Some(Row("", "", "", "", "", ""))
  {
    assert Expect("{}", "{") == Some("}");
  }

  lemma NoObject(line: string)
    requires !Opens(line, '{')
    ensures Decode(line) == None
  {
  }

  /** A digit of an escape, in small letters or in capitals. */
  function HexDigit(n: nat, capital: bool): char
    requires n < 16
  {
    if n < 10 || !capital then Hex(n) else ('A' as int + n - 10) as char
  }

  /** An escape's four digits read as the character they are the number of, in letters of either size; those
      of half a pair as none. */
  lemma EscapesReadBack(a: nat, b: nat, c: nat, d: nat, capital: bool)
    requires a < 16 && b < 16 && c < 16 && d < 16
    ensures var n := 4096 * a + 256 * b + 16 * c + d;
            Unescape([HexDigit(a, capital), HexDigit(b, capital), HexDigit(c, capital), HexDigit(d, capital)])
            == if 0xd800 <= n <= 0xdfff then None else Some(n as char)
  {
    hide HexDigit, Unhex;
    DigitReads(a, capital);
    DigitReads(b, capital);
    DigitReads(c, capital);
    DigitReads(d, capital);
  }

  lemma DigitReads(n: nat, capital: bool)
    requires n < 16
    ensures Unhex(HexDigit(n, capital)) == Some(n)
  {
  }

  // ---- what a row may hold ----

  /** `json.dumps` leaves these three raw, and `splitlines` cuts a line at each of them. */
  predicate LooseBreak(c: char) {
    c == '\U{85}' || c == '\U{2028}' || c == '\U{2029}'
  }

  predicate Clean(s: string) {
    forall c | c in s :: !LooseBreak(c)
  }

  predicate CleanRow(row: Row) {
    && Clean(row.at) && Clean(row.kind) && Clean(row.args)
    && Clean(row.site) && Clean(row.outcome) && Clean(row.reason)
  }

  lemma {:induction false} EscapedIsOneLine(v: string)
    ensures OneLine(EscapeAll(v)) <==> Clean(v)
  {
    if v != "" {
      EscapedIsOneLine(v[1..]);
      assert v == [v[0]] + v[1..];
      EscapeIsOneLine(v[0]);
      OneLineParts(Escape(v[0]), EscapeAll(v[1..]));
    }
  }

  lemma EscapeIsOneLine(c: char)
    ensures OneLine(Escape(c)) <==> !LooseBreak(c)
  {
    var e := Escape(c);
    assert e[0] in e;
    if Short(c).Some? {
      assert !IsBreak(e[0]) && !IsBreak(e[1]);
    } else if c < ' ' {
      assert !IsBreak(e[4]) && !IsBreak(e[5]);
    }
  }

  lemma OneLineParts(a: string, b: string)
    ensures OneLine(a + b) <==> OneLine(a) && OneLine(b)
  {
    if OneLine(a + b) {
      assert forall c | c in a :: c in a + b;
      assert forall c | c in b :: c in a + b;
    }
  }

  lemma MemberIsOneLine(m: Member)
    requires Clean(m.0)
    ensures OneLine(WriteMember(m)) <==> Clean(m.1)
  {
    EscapedIsOneLine(m.0);
    EscapedIsOneLine(m.1);
    OneLineParts("\"", EscapeAll(m.0));
    OneLineParts("\"", EscapeAll(m.1));
    OneLineParts("\"" + EscapeAll(m.0), "\"");
    OneLineParts("\"" + EscapeAll(m.1), "\"");
    OneLineParts(Quote(m.0), ": ");
    OneLineParts(Quote(m.0) + ": ", Quote(m.1));
  }

  lemma {:induction false} MembersAreOneLine(ms: seq<Member>)
    requires ms != [] && forall m | m in ms :: Clean(m.0)
    ensures OneLine(WriteMembers(ms)) <==> forall m | m in ms :: Clean(m.1)
  {
    MemberIsOneLine(ms[0]);
    if |ms| == 1 {
      OneLineParts(WriteMember(ms[0]), "}");
    } else {
      MembersAreOneLine(ms[1..]);
      OneLineParts(", ", WriteMembers(ms[1..]));
      OneLineParts(WriteMember(ms[0]), ", " + WriteMembers(ms[1..]));
      assert forall m | m in ms :: m == ms[0] || m in ms[1..];
    }
  }

  /** A row is written on one line exactly when no field holds one of the three. */
  lemma EncodedIsOneLine(row: Row)
    ensures OneLine(Encode(row)) <==> CleanRow(row)
  {
    assert OneLine("{");
    hide CleanRow, OneLine, Members, WriteMembers;
    NamesAreClean(row);
    ValuesAreFields(row);
    MembersAreOneLine(Members(row));
    OneLineParts("{", WriteMembers(Members(row)));
  }

  lemma ValuesAreFields(row: Row)
    ensures (forall m | m in Members(row) :: Clean(m.1)) <==> CleanRow(row)
  {
    var ms := Members(row);
    if forall m | m in ms :: Clean(m.1) {
      assert ms[0] in ms && ms[1] in ms && ms[2] in ms && ms[3] in ms && ms[4] in ms && ms[5] in ms;
    }
  }

  lemma NamesAreClean(row: Row)
    ensures forall m | m in Members(row) :: Clean(m.0)
  {
    assert Clean("at") && Clean("kind") && Clean("args");
    assert Clean("site") && Clean("outcome") && Clean("reason");
  }

  /** A field that is an object between two of the three characters. */
  const OBJECT_BETWEEN: string := "\U{2028}{}\U{2028}"

  /** The line of a row with such a field, cut in three. */
  lemma ObjectBetween(row: Row) returns (before: string, after: string)
    requires CleanRow(row.(args := ""))  && row.args == OBJECT_BETWEEN
    ensures Encode(row) == before + "\U{2028}" + ("{}" + "\U{2028}" + after)
    ensures OneLine(before) && OneLine(after) && before != "" && before[|before| - 1] == '\"' && Opens(after, '\"')
  {
    hide CleanRow, OneLine, WriteMember, WriteMembers, EscapeAll;
    var ms := Members(row);
    var head, name := "{" + WriteMember(ms[0]) + ", " + WriteMember(ms[1]) + ", ", Quote("args") + ": \"";
    before, after := head + name, "\", " + WriteMembers(ms[3..]);
    PlainEscapes();
    FieldsAround(row);
    PunctuationIsOneLine();
    assert name == "\"args\": \"";
    OneLineParts("{" + WriteMember(ms[0]) + ", " + WriteMember(ms[1]), ", ");
    OneLineParts("{" + WriteMember(ms[0]) + ", ", WriteMember(ms[1]));
    OneLineParts("{" + WriteMember(ms[0]), ", ");
    OneLineParts("{", WriteMember(ms[0]));
    OneLineParts(head, name);
    OneLineParts("\", ", WriteMembers(ms[3..]));
    TailOfMembers(ms);
    assert ms[2] == ("args", OBJECT_BETWEEN);
    WriteQuoted(ms[2]);
    assert WriteMember(ms[2]) == name + (OBJECT_BETWEEN + "\"");
    assert OBJECT_BETWEEN == "\U{2028}" + ("{}" + "\U{2028}");
    assert Encode(row) == before + "\U{2028}" + ("{}" + "\U{2028}" + after);
  }

  lemma WriteQuoted(m: Member)
    ensures WriteMember(m) == Quote(m.0) + ": \"" + (EscapeAll(m.1) + "\"")
  {
  }

  lemma TailOfMembers(ms: seq<Member>)
    requires |ms| == 6
    ensures WriteMembers(ms) == WriteMember(ms[0]) + ", " + (WriteMember(ms[1]) + ", " + (WriteMember(ms[2]) + ", " + WriteMembers(ms[3..])))
  {
    hide WriteMember;
    assert ms[1..][1..] == ms[2..] && ms[2..][1..] == ms[3..];
    assert WriteMembers(ms[2..]) == WriteMember(ms[2]) + (", " + WriteMembers(ms[3..]));
    assert WriteMembers(ms[1..]) == WriteMember(ms[1]) + (", " + WriteMembers(ms[2..]));
    assert WriteMembers(ms) == WriteMember(ms[0]) + (", " + WriteMembers(ms[1..]));
  }

  lemma FieldsAround(row: Row)
    requires CleanRow(row.(args := ""))
    ensures var ms := Members(row);
            OneLine(WriteMember(ms[0])) && OneLine(WriteMember(ms[1])) && OneLine(WriteMembers(ms[3..]))
  {
    hide WriteMember, WriteMembers, OneLine, EscapeAll, Clean;
    var ms := Members(row);
    NamesAreClean(row);
    assert ms[0] in ms && ms[1] in ms;
    MemberIsOneLine(ms[0]);
    MemberIsOneLine(ms[1]);
    assert ms[3..] == [ms[3], ms[4], ms[5]];
    forall m | m in ms[3..]
      ensures m in ms && Clean(m.1)
    {
      assert m == ms[3] || m == ms[4] || m == ms[5];
    }
    MembersAreOneLine(ms[3..]);
  }

  lemma PunctuationIsOneLine()
    ensures OneLine("{") && OneLine(", ") && OneLine("\", ") && OneLine("\"args\": \"")
  {
  }

  lemma PlainEscapes()
    ensures EscapeAll("args") == "args" && EscapeAll(OBJECT_BETWEEN) == OBJECT_BETWEEN
  {
    EscapesNothing("args");
    EscapesNothing(OBJECT_BETWEEN);
  }

  lemma {:induction false} EscapesNothing(v: string)
    requires forall i | 0 <= i < |v| :: Plain(v[i])
    ensures EscapeAll(v) == v
  {
    hide Escape;
    if v != "" {
      assert v == [v[0]] + v[1..];
      EscapeLeaves(v[0]);
      EscapesNothing(v[1..]);
    }
  }

  predicate Plain(c: char) {
    c >= ' ' && c != '\"' && c != '\\'
  }

  lemma EscapeLeaves(c: char)
    requires Plain(c)
    ensures Escape(c) == [c]
  {
  }

  // ---- what a line can give ----

  /** An escape of one of the three. The program writes none: it leaves them raw. */
  predicate LooseEscape(s: string) {
    |s| >= 6 && s[0] == '\\' && s[1] == 'u' && Unescape(s[2..6]).Some? && LooseBreak(Unescape(s[2..6]).value)
  }

  predicate NoLooseEscape(s: string) {
    forall i | 0 <= i < |s| :: !LooseEscape(s[i..])
  }

  lemma NoLooseEscapeParts(a: string, b: string)
    requires NoLooseEscape(a + b)
    ensures NoLooseEscape(a) && NoLooseEscape(b)
  {
    var s := a + b;
    forall i | 0 <= i < |a|
      ensures !LooseEscape(a[i..])
    {
      assert s[i..] == a[i..] + b;
      LooseEscapeOn(a[i..], b);
    }
    forall i | 0 <= i < |b|
      ensures !LooseEscape(b[i..])
    {
      assert s[|a| + i..] == b[i..];
    }
  }

  lemma LooseEscapeOn(s: string, t: string)
    ensures LooseEscape(s) ==> LooseEscape(s + t)
  {
    if |s| >= 6 {
      assert (s + t)[2..6] == s[2..6];
    }
  }

  /** A text from which only clean strings can be read. */
  predicate Harmless(s: string) {
    OneLine(s) && NoLooseEscape(s)
  }

  lemma HarmlessAfter(before: string, s: string)
    requires Harmless(before + s)
    ensures Harmless(s)
  {
    OneLineParts(before, s);
    NoLooseEscapeParts(before, s);
  }

  lemma CharFromLine(s: string)
    requires Harmless(s) && ReadChar(s).Some?
    ensures !LooseBreak(ReadChar(s).value.item) && Harmless(ReadChar(s).value.rest)
  {
    var c := ReadChar(s).value;
    assert s[0] in s && s[0..] == s;
    assert !LooseEscape(s);
    assert s == s[..|s| - |c.rest|] + c.rest;
    HarmlessAfter(s[..|s| - |c.rest|], c.rest);
  }

  lemma {:induction false} StringFromLine(s: string)
    requires Harmless(s) && ReadString(s).Some?
    ensures Clean(ReadString(s).value.item) && Harmless(ReadString(s).value.rest)
    decreases |s|
  {
    hide Harmless, ReadChar, LooseBreak;
    if Opens(s, '\"') {
      assert s == s[..1] + s[1..];
      HarmlessAfter(s[..1], s[1..]);
    } else {
      var c := ReadChar(s).value;
      CharFromLine(s);
      StringFromLine(c.rest);
    }
  }

  lemma MemberFromLine(s: string)
    requires Harmless(s) && ReadMember(s).Some?
    ensures Clean(ReadMember(s).value.item.1) && Harmless(ReadMember(s).value.rest)
  {
    hide Harmless, ReadString, Clean;
    var s1 := Expect(s, "\"").value;
    HarmlessAfter("\"", s1);
    StringFromLine(s1);
    var rest := ReadString(s1).value.rest;
    var s2 := Expect(rest, ": \"").value;
    HarmlessAfter(": \"", s2);
    StringFromLine(s2);
  }

  lemma {:induction false} MembersFromLine(s: string)
    requires Harmless(s) && ReadMembers(s).Some?
    ensures forall m | m in ReadMembers(s).value.item :: Clean(m.1)
    decreases |s|
  {
    hide Harmless, ReadMember, Clean;
    MemberFromLine(s);
    var rest := ReadMember(s).value.rest;
    if !Opens(rest, '}') {
      var s1 := Expect(rest, ", ").value;
      HarmlessAfter(", ", s1);
      MembersFromLine(s1);
    }
  }

  lemma {:induction false} LookupClean(ms: seq<Member>, name: string)
    requires forall m | m in ms :: Clean(m.1)
    ensures Clean(Lookup(ms, name))
  {
    if ms != [] && ms[|ms| - 1].0 != name {
      LookupClean(ms[..|ms| - 1], name);
    }
  }

  /** Whatever row one line reads as, it can be written on one line again, unless the line has one of the
      three as an escape. */
  lemma DecodedIsClean(line: string)
    requires OneLine(line) && NoLooseEscape(line) && Decode(line).Some?
    ensures CleanRow(Decode(line).value)
  {
    var s1 := Expect(line, "{").value;
    HarmlessAfter("{", s1);
    var ms := ReadObject(line).value.item;
    if !Opens(s1, '}') {
      MembersFromLine(s1);
    }
    LookupClean(ms, "at");
    LookupClean(ms, "kind");
    LookupClean(ms, "args");
    LookupClean(ms, "site");
    LookupClean(ms, "outcome");
    LookupClean(ms, "reason");
  }

  /** A line that reads as a row that cannot: the escape stands for the character itself. */
  const ESCAPED: string := "{\"args\": \"" + ESCAPED_VALUE

  const ESCAPED_VALUE: string := "\\u2028\"}"

  lemma EscapedReads()
    ensures Decode(ESCAPED) == Some(Row("", "", "\U{2028}", "", "", ""))
    ensures OneLine(ESCAPED) && !CleanRow(Row("", "", "\U{2028}", "", "", ""))
  {
    hide ReadString, OneLine, Decode;
    ValueReads();
    ReadsOnlyArgs(ESCAPED_VALUE, "\U{2028}");
    EscapeIsInOneLine();
    assert "\U{2028}"[0] in "\U{2028}";
  }

  lemma EscapeIsInOneLine()
    ensures OneLine(ESCAPED)
  {
    assert OneLine("{\"args\": \"") && OneLine(ESCAPED_VALUE);
    OneLineParts("{\"args\": \"", ESCAPED_VALUE);
  }

  lemma ReadsOnlyArgs(raw: string, v: string)
    requires ReadString(raw) == Some(Read(v, "}"))
    ensures Decode("{\"args\": \"" + raw) == Some(Row("", "", v, "", "", ""))
  {
    hide ReadString, ReadMember, ReadMembers, EscapeAll;
    var rest := ": \"" + raw;
    var key := "args" + ("\"" + rest);
    PlainEscapes();
    ReadsQuoted("args", rest);
    MemberOf("args", v, "\"" + key, key, raw, "}");
    MembersOf(("args", v), "\"" + key);
    OnlyArgs(v);
    ObjectOf("\"" + key, [("args", v)]);
    LineInParts(raw);
  }

  lemma LineInParts(raw: string)
    ensures "{\"args\": \"" + raw == "{" + ("\"" + ("args" + ("\"" + (": \"" + raw))))
  {
    assert "{\"args\": \"" == "{" + "\"" + "args" + "\"" + ": \"";
  }

  lemma ObjectOf(s1: string, ms: seq<Member>)
    requires !Opens(s1, '}') && ReadMembers(s1) == Some(Read(ms, ""))
    ensures Decode("{" + s1) == Some(FromMembers(ms))
  {
    hide ReadMembers, FromMembers;
    assert Expect("{" + s1, "{") == Some(s1);
  }

  lemma ValueReads()
    ensures ReadString(ESCAPED_VALUE) == Some(Read("\U{2028}", "}"))
  {
    hide ReadString;
    EscapeReads();
    StringEnds("}");
    assert "\"" + "}" == "\"}";
    StringGoesOn(ESCAPED_VALUE, '\U{2028}', "\"}");
    assert ['\U{2028}'] + "" == "\U{2028}";
  }

  lemma EscapeReads()
    ensures ReadChar("\\u2028\"}") == Some(Read('\U{2028}', "\"}")) && !Opens("\\u2028\"}", '\"')
  {
    var s := "\\u2028\"}";
    assert s[2..6] == "2028" && s[6..] == "\"}";
    assert Unshort('u') == None;
    assert Unescape("2028") == Some('\U{2028}');
  }

  lemma MemberOf(name: string, v: string, s: string, s1: string, s2: string, rest: string)
    requires s == "\"" + s1 && ReadString(s1) == Some(Read(name, ": \"" + s2)) && ReadString(s2) == Some(Read(v, rest))
    ensures ReadMember(s) == Some(Read((name, v), rest))
  {
    hide ReadString;
    assert Expect(s, "\"") == Some(s1);
    assert Expect(": \"" + s2, ": \"") == Some(s2);
  }

  lemma MembersOf(m: Member, s: string)
    requires ReadMember(s) == Some(Read(m, "}"))
    ensures ReadMembers(s) == Some(Read([m], ""))
  {
    hide ReadMember;
  }

  lemma OnlyArgs(v: string)
    ensures FromMembers([("args", v)]) == Row("", "", v, "", "", "")
  {
    assert "kind"[0] == 'k' && "site"[0] == 's' && "args"[0] == 'a';
    OnlyMember("args", v, "args");
    OnlyMember("args", v, "at");
    OnlyMember("args", v, "kind");
    OnlyMember("args", v, "site");
    OnlyMember("args", v, "outcome");
    OnlyMember("args", v, "reason");
  }

  lemma OnlyMember(name: string, v: string, other: string)
    ensures Lookup([(name, v)], other) == if other == name then v else ""
  {
    var ms: seq<Member> := [(name, v)];
    assert ms[..0] == [];
  }

  // ---- lines, put together ----

  predicate EndsInBreak(s: string) {
    s != "" && IsBreak(s[|s| - 1])
  }

  /** A text that ends a line is cut independently of what follows it. */
  lemma {:induction false} SplitAfterBreak(a: string, b: string)
    requires a == "" || EndsInBreak(a)
    ensures SplitLines(a + b) == SplitLines(a) + SplitLines(b)
    decreases |a|
  {
    hide FirstBreak, SplitLines, IsBreak;
    if a == "" {
      assert a + b == b;
      NoLines();
    } else {
      var i := FirstBreak(a);
      HasBreak(a);
      BreakStays(a, b);
      CutFirst(a);
      CutFirst(a + b);
      assert (a + b)[..i] == a[..i] && (a + b)[i + 1..] == a[i + 1..] + b;
      SplitAfterBreak(a[i + 1..], b);
    }
  }

  lemma NoLines()
    ensures SplitLines("") == []
  {
  }

  lemma CutFirst(s: string)
    requires FirstBreak(s) < |s|
    ensures SplitLines(s) == [s[..FirstBreak(s)]] + SplitLines(s[FirstBreak(s) + 1..])
  {
    hide FirstBreak, IsBreak;
  }

  /** A text is cut at each of nine characters, which stands in neither line, and at no other. */
  lemma CutsAt(a: string, c: char, b: string)
    requires OneLine(a) && OneLine(b) && b != ""
    ensures SplitLines(a + [c] + b) ==
            if c in ['\n', '\U{b}', '\U{c}', '\U{1c}', '\U{1d}', '\U{1e}', '\U{85}', '\U{2028}', '\U{2029}'] then [a, b] else [a + [c] + b]
  {
    hide SplitLines;
    var s := a + [c] + b;
    OneLineHasNoBreak(a);
    OneLineHasNoBreak(b);
    assert s == a + ([c] + b) && ([c] + b)[1..] == b;
    BreakStays(a, [c] + b);
    if IsBreak(c) {
      CutFirst(s);
      UncutLine(b);
      assert s[..|a|] == a && s[|a| + 1..] == b;
    } else {
      assert FirstBreak([c] + b) == 1 + FirstBreak(b);
      UncutLine(s);
    }
  }

  lemma HasBreak(a: string)
    requires EndsInBreak(a)
    ensures FirstBreak(a) < |a|
  {
    assert a[|a| - 1] in a && a[..|a|] == a;
  }

  lemma {:induction false} BreakStays(a: string, b: string)
    ensures FirstBreak(a) < |a| ==> FirstBreak(a + b) == FirstBreak(a)
    ensures FirstBreak(a) == |a| ==> FirstBreak(a + b) == |a| + FirstBreak(b)
    decreases |a|
  {
    if a == "" {
      assert a + b == b;
    } else if !IsBreak(a[0]) {
      assert (a + b)[1..] == a[1..] + b;
      BreakStays(a[1..], b);
    }
  }

  lemma {:induction false} OneLineHasNoBreak(s: string)
    requires OneLine(s)
    ensures FirstBreak(s) == |s|
  {
  }

  /** Ending a line that was left open adds no line; ending one already ended adds an empty one. */
  lemma {:induction false} SplitNewline(a: string)
    ensures SplitLines(a + "\n") == if a == "" || EndsInBreak(a) then SplitLines(a) + [""] else SplitLines(a)
    decreases |a|
  {
    hide FirstBreak, SplitLines, IsBreak;
    EmptyLine();
    if a == "" || EndsInBreak(a) {
      SplitAfterBreak(a, "\n");
    } else {
      var i := FirstBreak(a);
      BreakStays(a, "\n");
      CutFirst(a + "\n");
      if i < |a| {
        CutFirst(a);
        assert (a + "\n")[..i] == a[..i] && (a + "\n")[i + 1..] == a[i + 1..] + "\n";
        SplitNewline(a[i + 1..]);
      } else {
        UncutLine(a);
        NoLines();
        assert (a + "\n")[..i] == a && (a + "\n")[i + 1..] == "";
      }
    }
  }

  lemma EmptyLine()
    ensures FirstBreak("\n") == 0 && SplitLines("\n") == [""]
  {
  }

  lemma UncutLine(s: string)
    requires s != "" && FirstBreak(s) == |s|
    ensures SplitLines(s) == [s]
  {
    hide FirstBreak, IsBreak;
  }

  lemma {:induction false} DecodeAllParts(a: seq<string>, b: seq<string>)
    ensures DecodeAll(a + b) == DecodeAll(a) + DecodeAll(b)
  {
    hide Decode;
    if a == [] {
      assert a + b == b;
    } else {
      assert (a + b)[1..] == a[1..] + b;
      DecodeAllParts(a[1..], b);
    }
  }

  lemma {:induction false} SplitHarmless(s: string)
    requires NoLooseEscape(s)
    ensures forall line | line in SplitLines(s) :: Harmless(line)
    decreases |s|
  {
    hide LooseEscape;
    var i := FirstBreak(s);
    assert s == s[..i] + s[i..];
    NoLooseEscapeParts(s[..i], s[i..]);
    if i < |s| {
      assert s == s[..i + 1] + s[i + 1..];
      NoLooseEscapeParts(s[..i + 1], s[i + 1..]);
      SplitHarmless(s[i + 1..]);
    } else {
      assert s[..i] == s;
    }
  }

  lemma {:induction false} DecodeAllClean(lines: seq<string>)
    requires forall line | line in lines :: Harmless(line)
    ensures forall row | row in DecodeAll(lines) :: CleanRow(row)
  {
    hide CleanRow, Decode;
    if lines != [] {
      DecodeAllClean(lines[1..]);
      if Decode(lines[0]).Some? {
        assert lines[0] in lines;
        DecodedIsClean(lines[0]);
      }
    }
  }

  /** A row read from a text without such escapes holds none of the three characters. */
  lemma RowsAreClean(text: string)
    requires NoLooseEscape(text)
    ensures forall row | row in Rows(text) :: CleanRow(row)
  {
    SplitHarmless(text);
    DecodeAllClean(SplitLines(text));
  }
}
