/**
 What stands in place of a tool output's folded body: the tool's name, and how long the body was.

 Everything it says can be read back (`MarkerReads`), so it says nothing else.
 */
module FoldMarker {
  import opened Wrappers

  function Digits(n: nat): string {
    if n < 10 then [('0' as int + n) as char] else Digits(n / 10) + [('0' as int + n % 10) as char]
  }

  /** `n` with a comma between each three digits. */
  function Grouped(n: nat): string {
    if n < 1000 then Digits(n) else Grouped(n / 1000) + "," + Digits(1000 + n % 1000)[1..]
  }

  function Marker(name: string, size: nat): string {
    "[" + name + " 的輸出(" + Grouped(size) + " 字元)已摺疊,如需重看請重新執行]"
  }

  predicate Digit(c: char) {
    '0' <= c <= '9'
  }

  /** The number a text of digits and commas gives. */
  function Value(t: string): nat {
    if t == "" then 0
    else
      var before, c := Value(t[..|t| - 1]), t[|t| - 1];
      if Digit(c) then 10 * before + (c as int - '0' as int) else before
  }

  lemma {:induction false} DigitsRead(n: nat)
    ensures Value(Digits(n)) == n && Digits(n) != ""
    ensures forall c | c in Digits(n) :: Digit(c)
  {
    if n >= 10 {
      DigitsRead(n / 10);
      assert Digits(n)[..|Digits(n)| - 1] == Digits(n / 10);
    } else {
      assert Digits(n)[..0] == "";
    }
  }

  lemma ThreeDigits(r: nat)
    requires r < 1000
    ensures Digits(1000 + r) == ['1', D(r / 100), D(r / 10 % 10), D(r % 10)]
  {
    assert Digits(1) == ['1'];
    assert Digits(10 + r / 100) == ['1', D(r / 100)];
    assert (100 + r / 10) / 10 == 10 + r / 100 && (100 + r / 10) % 10 == r / 10 % 10;
    assert Digits(100 + r / 10) == ['1', D(r / 100), D(r / 10 % 10)];
    assert (1000 + r) / 10 == 100 + r / 10 && (1000 + r) % 10 == r % 10;
  }

  function D(d: nat): (c: char)
    requires d < 10
    ensures Digit(c)
  {
    ('0' as int + d) as char
  }

  lemma ValueOfMore(t: string, c: char)
    ensures Value(t + [c]) == if Digit(c) then 10 * Value(t) + (c as int - '0' as int) else Value(t)
  {
    assert (t + [c])[..|t|] == t;
  }

  lemma GroupsOf(n: nat)
    requires n >= 1000
    ensures var r := n % 1000;
            Grouped(n) == Grouped(n / 1000) + "," + [D(r / 100), D(r / 10 % 10), D(r % 10)]
  {
    hide Digits;
    ThreeDigits(n % 1000);
  }

  lemma ValueOfGroup(g: string, r: nat)
    requires r < 1000
    ensures Value(g + "," + [D(r / 100), D(r / 10 % 10), D(r % 10)]) == 1000 * Value(g) + r
  {
    hide Value;
    var a, b, c := D(r / 100), D(r / 10 % 10), D(r % 10);
    ValueOfMore(g, ',');
    ValueOfMore(g + ",", a);
    ValueOfMore(g + "," + [a], b);
    ValueOfMore(g + "," + [a] + [b], c);
    assert g + "," + [a] + [b] + [c] == g + "," + [a, b, c];
    assert r == 100 * (r / 100) + 10 * (r / 10 % 10) + r % 10;
  }

  /** Digits, with a comma before each three of them counted from the end, and nowhere else. */
  predicate InGroups(t: string) {
    && t != "" && Digit(t[0])
    && forall i | 0 <= i < |t| :: if i % 4 == 3 then t[|t| - 1 - i] == ',' else Digit(t[|t| - 1 - i])
  }

  lemma OneMoreGroup(g: string, a: char, b: char, c: char)
    requires InGroups(g) && Digit(a) && Digit(b) && Digit(c)
    ensures InGroups(g + "," + [a, b, c])
  {
    var t := g + "," + [a, b, c];
    forall i | 0 <= i < |t|
      ensures if i % 4 == 3 then t[|t| - 1 - i] == ',' else Digit(t[|t| - 1 - i])
    {
      if i >= 4 {
        assert t[|t| - 1 - i] == g[|g| - 1 - (i - 4)] && (i - 4) % 4 == i % 4;
      }
    }
  }

  /** A number written in groups reads as that number. */
  lemma {:induction false} GroupedReads(n: nat)
    ensures Value(Grouped(n)) == n && InGroups(Grouped(n))
    ensures |Grouped(n)| <= 3 + 4 * (n / 1000)
  {
    hide Value, InGroups, Digits;
    if n < 1000 {
      FewDigits(n);
    } else {
      GroupedReads(n / 1000);
      GroupsOf(n);
      ValueOfGroup(Grouped(n / 1000), n % 1000);
      var r := n % 1000;
      OneMoreGroup(Grouped(n / 1000), D(r / 100), D(r / 10 % 10), D(r % 10));
    }
  }

  lemma FewDigits(n: nat)
    requires n < 1000
    ensures Value(Digits(n)) == n && InGroups(Digits(n)) && |Digits(n)| <= 3
  {
    DigitsRead(n);
    if n < 10 {
      assert Digits(n) == [D(n)];
    } else if n < 100 {
      assert Digits(n / 10) == [D(n / 10)];
      assert Digits(n) == [D(n / 10), D(n % 10)];
    } else {
      assert Digits(n / 100) == [D(n / 100)];
      assert n / 10 / 10 == n / 100;
      assert Digits(n / 10) == [D(n / 100), D(n / 10 % 10)];
      assert Digits(n) == [D(n / 100), D(n / 10 % 10), D(n % 10)];
    }
  }

  /** The digits and commas a text ends with. */
  function Number(t: string): string {
    if t == "" || !(Digit(t[|t| - 1]) || t[|t| - 1] == ',') then "" else Number(t[..|t| - 1]) + [t[|t| - 1]]
  }

  lemma {:induction false} NumberAt(before: string, number: string)
    requires before == "" || !(Digit(before[|before| - 1]) || before[|before| - 1] == ',')
    requires forall c | c in number :: Digit(c) || c == ','
    ensures Number(before + number) == number
  {
    hide Number, Digit;
    if number == "" {
      assert before + number == before;
      NoNumber(before);
    } else {
      var n := |number| - 1;
      var init, last := number[..n], number[n];
      assert number == init + [last] && last in number;
      assert forall c | c in init :: c in number;
      NumberAt(before, init);
      NumberGrows(before + init, last);
      assert before + number == before + init + [last];
    }
  }

  lemma NoNumber(t: string)
    requires t == "" || !(Digit(t[|t| - 1]) || t[|t| - 1] == ',')
    ensures Number(t) == ""
  {
  }

  lemma NumberGrows(t: string, c: char)
    requires Digit(c) || c == ','
    ensures Number(t + [c]) == Number(t) + [c]
  {
    assert (t + [c])[..|t|] == t;
  }

  const AFTER_NAME: string := " 的輸出("
  const AFTER_SIZE: string := " 字元)已摺疊,如需重看請重新執行]"

  /** The tool's name and the size, read back from what stands in place of a folded body. */
  function ReadMarker(marker: string): Option<(string, nat)> {
    if |marker| < |AFTER_SIZE| then None
    else
      var t := marker[..|marker| - |AFTER_SIZE|];
      var size := Number(t);
      var n := |t| - |size| - |AFTER_NAME|;
      if n < 1 then None else Some((t[1..n], Value(size)))
  }

  lemma MarkerReads(name: string, size: nat)
    ensures ReadMarker(Marker(name, size)) == Some((name, size))
    ensures |Marker(name, size)| == |name| + |Grouped(size)| + 1 + |AFTER_NAME| + |AFTER_SIZE|
  {
    hide Value, InGroups, Digits, Grouped;
    var g := Grouped(size);
    GroupedReads(size);
    GroupsAreNumbers(g);
    var before := "[" + name + AFTER_NAME;
    var marker := Marker(name, size);
    assert marker == before + g + AFTER_SIZE;
    assert marker[..|marker| - |AFTER_SIZE|] == before + g;
    assert before[|before| - 1] == AFTER_NAME[|AFTER_NAME| - 1] == '(';
    NumberAt(before, g);
    assert (before + g)[1..1 + |name|] == name;
  }

  lemma GroupsAreNumbers(t: string)
    requires InGroups(t)
    ensures forall c | c in t :: Digit(c) || c == ','
  {
    forall k | 0 <= k < |t|
      ensures Digit(t[k]) || t[k] == ','
    {
      var i := |t| - 1 - k;
      assert if i % 4 == 3 then t[|t| - 1 - i] == ',' else Digit(t[|t| - 1 - i]);
    }
  }
}
