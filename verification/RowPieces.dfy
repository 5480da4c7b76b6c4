/**
 What a written row leaves when it is cut: by the breaks its own fields may hold, and by a crash at any
 character. Whole and on one line it is read back; of all its other pieces only `{}` reads, as a row of
 empty fields.
 */
module RowPieces {
  import opened Wrappers
  import opened JsonLines

  const EMPTY_ROW: Row := Row("", "", "", "", "", "")

  /** What a multi-byte character cut in half reads as. */
  const REPLACEMENT: char := '\U{fffd}'

  // ---- what follows a break inside a row ----

  /** What comes after a field's closing quote. */
  predicate Ending(after: string) {
    after == "}" || (|after| >= 4 && after[..3] == ", \"" && after[3] != ':')
  }

  predicate InnerOf(t: string, v: string, after: string) {
    t == EscapeAll(v) + ("\"" + after) && Ending(after)
  }

  /** The rest of a field's value, and what follows it. */
  ghost predicate InnerText(t: string) {
    exists v, after :: InnerOf(t, v, after)
  }

  lemma EscapedOpens(v: string, c: char)
    requires Opens(EscapeAll(v), c)
    ensures c != '\"' && v != "" && (c == '{' ==> v[0] == '{' && EscapeAll(v) == "{" + EscapeAll(v[1..]))
  {
    assert Escape(v[0]) != "" && EscapeAll(v)[0] == Escape(v[0])[0];
  }

  lemma {:induction false} NeverClosed(q: string)
    requires forall i | 0 <= i < |q| :: Plain(q[i])
    ensures ReadString(q) == None
  {
    if q != "" {
      NeverClosed(q[1..]);
    }
  }

  /** No name of a member can follow a field's end. */
  lemma NoKeyFollows(q: string, after: string)
    requires Ending(after) && q <= after
    ensures ReadString(q).Some? ==> Expect(ReadString(q).value.rest, ": \"") == None
  {
    hide ReadString;
    if after != "}" {
      assert after[0] == after[..3][0] && after[1] == after[..3][1] && after[2] == after[..3][2];
    }
    if after != "}" && |q| >= 3 {
      KeyIsComma(q);
      assert |q| > 3 ==> q[3..][0] == after[3];
      NoColon(q[3..]);
    } else {
      NeverClosed(q);
    }
  }

  lemma NoColon(rest: string)
    requires rest != "" ==> rest[0] != ':'
    ensures Expect(rest, ": \"") == None
  {
  }

  lemma KeyIsComma(q: string)
    requires |q| >= 3 && q[0] == ',' && q[1] == ' ' && q[2] == '\"'
    ensures ReadString(q).Some? && ReadString(q).value.rest == q[3..]
  {
    hide ReadString;
    var q1, q2 := q[1..], q[2..];
    assert q1[1..] == q2 && q2[1..] == q[3..];
    assert q2 == "\"" + q[3..];
    StringEnds(q[3..]);
    StringGoesOn(q1, ' ', q2);
    StringGoesOn(q, ',', q1);
  }

  /** What an object starts with: nothing in it, or a member's name. */
  lemma ObjectStarts(p: string)
    requires Decode(p).Some?
    ensures p == "{}" ||
            (|p| >= 2 && p[0] == '{' && p[1] == '\"' && ReadString(p[2..]).Some?
             && Expect(ReadString(p[2..]).value.rest, ": \"").Some?)
  {
    hide ReadString, FromMembers;
    var s1 := Expect(p, "{").value;
    if Opens(s1, '}') {
      assert p == "{" + s1 && s1 == "}" + s1[1..];
    } else {
      var s2 := Expect(s1, "\"").value;
      assert p == "{" + ("\"" + s2) && p[2..] == s2;
    }
  }

  lemma FieldEndsAtOnce(t: string, v: string, after: string)
    requires InnerOf(t, v, after) && |t| >= 2 && t[0] == '{' && t[1] == '\"'
    ensures t[2..] == after
  {
    hide EscapeAll;
    EmptyEscapes();
    assert v != "";
    NotEmpty(v);
    EscapedOpens(v, '{');
    assert t[1..] == EscapeAll(v[1..]) + ("\"" + after);
    if v[1..] != "" {
      NotEmpty(v[1..]);
      EscapedOpens(v[1..], '\"');
    } else {
      assert t[1..] == "\"" + after && t[2..] == t[1..][1..];
    }
  }

  /** Of what follows a break, no piece reads as a row but `{}`. */
  lemma OnlyEmptyReads(p: string, t: string)
    requires InnerText(t) && p <= t && Decode(p).Some?
    ensures p == "{}"
  {
    hide ReadString, EscapeAll, Decode, InnerOf;
    ObjectStarts(p);
    if p != "{}" {
      var v, after :| InnerOf(t, v, after);
      FieldEndsAtOnce(t, v, after);
      EndingOf(t, v, after);
      assert p[2..] <= t[2..];
      NoKeyFollows(p[2..], after);
    }
  }

  lemma EndingOf(t: string, v: string, after: string)
    requires InnerOf(t, v, after)
    ensures Ending(after)
  {
  }

  lemma EmptyEscapes()
    ensures EscapeAll("") == ""
  {
  }

  lemma NotEmpty(v: string)
    requires v != ""
    ensures EscapeAll(v) != ""
  {
    assert Escape(v[0]) != "";
  }

  // ---- every break in a row is inside a field ----

  /** A name that needs no escape and breaks no line. */
  predicate GoodName(name: string) {
    name != "" && name[0] != ':' && EscapeAll(name) == name && OneLine(name)
  }

  predicate Letters(name: string) {
    name != "" && forall i | 0 <= i < |name| :: 'a' <= name[i] <= 'z'
  }

  lemma LettersAreGood(name: string)
    requires Letters(name)
    ensures GoodName(name)
  {
    EscapesNothing(name);
  }

  lemma NamesAreGood(row: Row)
    ensures forall m | m in Members(row) :: GoodName(m.0)
  {
    assert Letters("at") && Letters("kind") && Letters("args");
    assert Letters("site") && Letters("outcome") && Letters("reason");
    hide GoodName, Letters;
    forall m | m in Members(row)
      ensures GoodName(m.0)
    {
      LettersAreGood(m.0);
    }
  }

  lemma {:induction false} BreakInValue(v: string, p: nat) returns (rest: string)
    requires p < |EscapeAll(v)| && IsBreak(EscapeAll(v)[p])
    ensures EscapeAll(v)[p + 1..] == EscapeAll(rest)
  {
    hide IsBreak, Escape;
    var e := Escape(v[0]);
    EscapeIsOneLine(v[0]);
    if p < |e| {
      assert e[p] in e;
      LooseIsRaw(v[0]);
      rest := v[1..];
    } else {
      assert EscapeAll(v)[p] == EscapeAll(v[1..])[p - |e|];
      rest := BreakInValue(v[1..], p - |e|);
      assert EscapeAll(v)[p + 1..] == EscapeAll(v[1..])[p - |e| + 1..];
    }
  }

  lemma LooseIsRaw(c: char)
    requires LooseBreak(c)
    ensures Escape(c) == [c]
  {
  }

  lemma {:induction false} BreakInMembers(ms: seq<Member>, p: nat)
    requires ms != [] && (forall m | m in ms :: GoodName(m.0))
    requires p < |WriteMembers(ms)| && IsBreak(WriteMembers(ms)[p])
    ensures InnerText(WriteMembers(ms)[p + 1..])
    decreases |ms|
  {
    hide IsBreak, EscapeAll, InnerText, WriteMembers, OneLine, Ending;
    var m, w := ms[0], WriteMembers(ms);
    var head, value := "\"" + m.0 + "\": \"", EscapeAll(m.1);
    var after := if |ms| == 1 then "}" else ", " + WriteMembers(ms[1..]);
    assert m in ms;
    MembersInParts(ms);
    HeadIsOneLine(m.0);
    assert w == head + (value + ("\"" + after));
    if p < |head| {
      OneLineAt(head, p);
    } else if p < |head| + |value| {
      var i := p - |head|;
      assert w[p] == value[i];
      var rest := BreakInValue(m.1, i);
      assert w[p + 1..] == value[i + 1..] + ("\"" + after);
      IsInner(w[p + 1..], rest, after);
    } else {
      var i := p - |head| - |value|;
      assert w[p] == ("\"" + after)[i];
      QuoteAndCommaAreNoBreaks();
      assert i > 0;
      assert w[p] == after[i - 1];
      assert |ms| > 1;
      assert after[i - 1] == if i == 1 then ',' else if i == 2 then ' ' else WriteMembers(ms[1..])[i - 3];
      BreakInMembers(ms[1..], i - 3);
      assert w[p + 1..] == WriteMembers(ms[1..])[i - 3 + 1..];
    }
  }

  lemma OneLineAt(s: string, i: nat)
    requires OneLine(s) && i < |s|
    ensures !IsBreak(s[i])
  {
    assert s[i] in s;
  }

  lemma QuoteAndCommaAreNoBreaks()
    ensures !IsBreak('\"') && !IsBreak(',') && !IsBreak(' ') && !IsBreak('}')
  {
  }

  lemma HeadIsOneLine(name: string)
    requires OneLine(name)
    ensures OneLine("\"" + name + "\": \"")
  {
    assert OneLine("\"") && OneLine("\": \"");
    OneLineParts("\"", name);
    OneLineParts("\"" + name, "\": \"");
  }

  lemma IsInner(t: string, v: string, after: string)
    requires InnerOf(t, v, after)
    ensures InnerText(t)
  {
  }

  lemma MembersInParts(ms: seq<Member>)
    requires ms != [] && (forall m | m in ms :: GoodName(m.0))
    ensures var m := ms[0];
            var after := if |ms| == 1 then "}" else ", " + WriteMembers(ms[1..]);
            && WriteMembers(ms) == "\"" + m.0 + "\": \"" + (EscapeAll(m.1) + ("\"" + after))
            && Ending(after)
  {
    hide EscapeAll, WriteMember, OneLine, Quote;
    var m := ms[0];
    var after := if |ms| == 1 then "}" else ", " + WriteMembers(ms[1..]);
    assert m in ms;
    WriteQuoted(m);
    QuotedName(m.0);
    Regroup("\"" + m.0 + "\": \"", EscapeAll(m.1), after);
    if |ms| > 1 {
      assert ms[1] in ms;
      NameComesFirst(ms[1..]);
    }
  }

  lemma QuotedName(name: string)
    requires GoodName(name)
    ensures Quote(name) + ": \"" == "\"" + name + "\": \""
  {
    hide EscapeAll, OneLine;
  }

  lemma Regroup(head: string, value: string, after: string)
    ensures head + (value + "\"") + after == head + (value + ("\"" + after))
  {
  }

  lemma NameComesFirst(ms: seq<Member>)
    requires ms != [] && GoodName(ms[0].0)
    ensures Ending(", " + WriteMembers(ms))
  {
    hide EscapeAll, OneLine;
    var w, m := WriteMembers(ms), WriteMember(ms[0]);
    WriteQuoted(ms[0]);
    assert m[0] == '\"' && m[1] == ms[0].0[0];
    assert w[0] == m[0] && w[1] == m[1];
    var after := ", " + w;
    assert after[0] == ',' && after[1] == ' ' && after[2] == w[0] && after[3] == w[1];
  }

  lemma BreaksAreInside(row: Row, p: nat)
    requires p < |Encode(row)| && IsBreak(Encode(row)[p])
    ensures InnerText(Encode(row)[p + 1..])
  {
    hide IsBreak, WriteMembers, InnerText, GoodName, EscapeAll;
    var w := WriteMembers(Members(row));
    NamesAreGood(row);
    BraceIsNoBreak();
    assert Encode(row) == "{" + w;
    assert p > 0 && Encode(row)[p] == w[p - 1];
    BreakInMembers(Members(row), p - 1);
    assert Encode(row)[p + 1..] == w[p - 1 + 1..];
  }

  lemma BraceIsNoBreak()
    ensures !IsBreak('{')
  {
  }

  // ---- what a row leaves ----

  /** What may follow the part of a row that was written: nothing, its line end, or half a character. */
  predicate Tail(extra: string) {
    extra == "" || extra == "\n" || extra == [REPLACEMENT]
  }

  predicate OnlyEmpty(rows: seq<Row>) {
    forall row | row in rows :: row == EMPTY_ROW
  }

  lemma RowsOfFirst(x: string)
    requires x != ""
    ensures var i := FirstBreak(x);
            Rows(x) == DecodeAll([x[..i]]) + if i < |x| then Rows(x[i + 1..]) else []
  {
    hide Decode, FirstBreak, SplitLines, DecodeAll;
    var i := FirstBreak(x);
    if i < |x| {
      CutFirst(x);
      DecodeAllParts([x[..i]], SplitLines(x[i + 1..]));
    } else {
      UncutLine(x);
      assert x[..i] == x;
    }
  }

  lemma PieceReads(line: string)
    requires Decode(line).Some? ==> line == "{}"
    ensures OnlyEmpty(DecodeAll([line]))
  {
    hide Decode;
    EmptyObjectReads();
    assert [line][1..] == [];
  }

  lemma ReplacementNeverReads(piece: string)
    ensures Decode(piece + [REPLACEMENT]) == None
  {
    UnclosedDoesNotRead(piece + [REPLACEMENT]);
  }

  lemma {:induction false} InnerRows(row: Row, p: nat, n: nat, extra: string)
    requires 1 <= p <= n <= |Encode(row)| && IsBreak(Encode(row)[p - 1]) && Tail(extra)
    ensures OnlyEmpty(Rows(Encode(row)[p..n] + extra))
    decreases n - p
  {
    hide Encode, Decode, IsBreak, Rows, InnerText, DecodeAll, FirstBreak;
    var e := Encode(row);
    var x := e[p..n] + extra;
    if x == "" {
      NoRows();
    } else {
      var i := FirstBreak(x);
      BreaksAreInside(row, p - 1);
      RowsOfFirst(x);
      if i <= n - p {
        assert x[..i] == e[p..][..i];
        if Decode(x[..i]).Some? { OnlyEmptyReads(x[..i], e[p..]); }
        PieceReads(x[..i]);
        if i < n - p {
          assert x[i] == e[p + i] && x[i + 1..] == e[p + i + 1..n] + extra;
          InnerRows(row, p + i + 1, n, extra);
        } else if i < |x| {
          assert x[i] == extra[0] && x[i + 1..] == extra[1..] == "";
          NoRows();
        }
      } else {
        NewlineComesFirst(e[p..n], extra);
        assert i == |x| && x[..i] == x;
        ReplacementNeverReads(e[p..n]);
        PieceReads(x[..i]);
      }
    }
  }

  lemma NewlineComesFirst(text: string, extra: string)
    requires Tail(extra) && FirstBreak(text + extra) > |text|
    ensures extra == [REPLACEMENT]
  {
    var x := text + extra;
    if extra == "\n" {
      assert x[..FirstBreak(x)][|text|] == '\n';
      OneLineAt(x[..FirstBreak(x)], |text|);
    }
  }

  lemma NoRows()
    ensures Rows("") == []
  {
  }

  /** Of a row written up to any character, with whatever then follows, the row itself is read back if it
      is whole and on one line, and nothing but rows of empty fields otherwise; none of a row on one line. */
  lemma WhatARowLeaves(row: Row, n: nat, extra: string)
    requires n <= |Encode(row)| && Tail(extra) && (n == |Encode(row)| ==> extra != [REPLACEMENT])
    ensures var rows := Rows(Encode(row)[..n] + extra);
            if CleanRow(row) then rows == if n == |Encode(row)| then [row] else []
            else OnlyEmpty(rows)
  {
    hide Encode, Decode, IsBreak, Rows, InnerText, DecodeAll, FirstBreak, CleanRow;
    var e := Encode(row);
    var x := e[..n] + extra;
    if x == "" {
      NoRows();
    } else {
      var i := FirstBreak(x);
      RowsOfFirst(x);
      EncodedIsOneLine(row);
      FirstLineOfRow(row, n, extra);
      if i < n {
        assert x[i] == e[i] && e[i] in e;
        assert !OneLine(e) by { BreakParts(e, i); }
        assert x[i + 1..] == e[i + 1..n] + extra;
        InnerRows(row, i + 1, n, extra);
      } else if i < |x| {
        assert x[i + 1..] == "";
        NoRows();
      }
    }
  }

  lemma BreakParts(e: string, i: nat)
    requires i < |e| && IsBreak(e[i])
    ensures !OneLine(e)
  {
    assert e[i] in e;
  }

  /** The first line of what was written. */
  lemma FirstLineOfRow(row: Row, n: nat, extra: string)
    requires n <= |Encode(row)| && Tail(extra) && (n == |Encode(row)| ==> extra != [REPLACEMENT])
    requires Encode(row)[..n] + extra != ""
    ensures var x := Encode(row)[..n] + extra;
            var i := FirstBreak(x);
            && (i <= n || (i == |x| && extra == [REPLACEMENT]))
            && DecodeAll([x[..i]]) == (if i == n == |Encode(row)| then [row] else [])
            && (i == n == |Encode(row)| ==> OneLine(Encode(row)))
            && (i == n && n < |x| ==> extra == "\n")
  {
    hide Encode, Decode, IsBreak, FirstBreak;
    var e := Encode(row);
    var x := e[..n] + extra;
    var i := FirstBreak(x);
    NewlineBreaks();
    DecodeOneLine(x[..i]);
    if i > n {
      NewlineComesFirst(e[..n], extra);
      assert i == |x| && x[..i] == x;
      ReplacementNeverReads(e[..n]);
    } else {
      assert x[..i] == e[..i];
      if i < |e| {
        PrefixDoesNotRead(row, i);
      } else {
        assert e[..i] == e;
        RoundTrip(row);
      }
    }
  }

  lemma NewlineBreaks()
    ensures IsBreak('\n') && !IsBreak(REPLACEMENT)
  {
  }

  lemma DecodeOneLine(line: string)
    ensures DecodeAll([line]) == if Decode(line).Some? then [Decode(line).value] else []
  {
    hide Decode;
    assert [line][1..] == [];
  }
}
