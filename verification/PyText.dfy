/** The string operations of the original language that the parsers rely on. */
module PyText {
  import opened Wrappers
  import Decimal

  // Characters that stripping removes.
  predicate IsSpace(c: char) {
    var n := c as int;
    9 <= n <= 13 || 28 <= n <= 32 || n == 0x85 || n == 0xA0 || n == 0x1680 || 0x2000 <= n <= 0x200A ||
    n == 0x2028 || n == 0x2029 || n == 0x202F || n == 0x205F || n == 0x3000
  }

  function StripLeft(s: string): (r: string)
    ensures r == "" || !IsSpace(r[0])
    ensures |r| <= |s|
  {
    if s != "" && IsSpace(s[0]) then StripLeft(s[1..]) else s
  }

  function StripRight(s: string): (r: string)
    ensures r == "" || !IsSpace(r[|r| - 1])
    ensures r <= s
  {
    if s != "" && IsSpace(s[|s| - 1]) then StripRight(s[..|s| - 1]) else s
  }

  function Strip(s: string): (r: string)
    ensures r == "" || (!IsSpace(r[0]) && !IsSpace(r[|r| - 1]))
  {
    StripRight(StripLeft(s))
  }

  predicate Trimmed(s: string) {
    s == "" || (!IsSpace(s[0]) && !IsSpace(s[|s| - 1]))
  }

  lemma TrimmedIsKept(s: string)
    requires Trimmed(s)
    ensures Strip(s) == s
  {
  }

  // The number a text of digits stands for, surrounding white space aside.
  function DigitsToInt(s: string): Option<int> {
    var t := Strip(s);
    if t != "" && Decimal.AllDigits(t) then Some(Decimal.Value(t)) else None
  }

  lemma PrintedIsRead(n: nat)
    ensures DigitsToInt(Decimal.Print(n)) == Some(n)
  {
    var s := Decimal.Print(n);
    assert Decimal.IsDigit(s[0]) && Decimal.IsDigit(s[|s| - 1]);
    TrimmedIsKept(s);
    Decimal.ReadsBack(n);
  }

  // Digits, possibly grouped by single underscores.
  predicate IsNumeral(s: string) {
    && s != "" && Decimal.IsDigit(s[0]) && Decimal.IsDigit(s[|s| - 1])
    && forall i :: 0 <= i < |s| ==> Decimal.IsDigit(s[i]) || (s[i] == '_' && s[i + 1] != '_')
  }

  function OnlyDigits(s: string): (r: string)
    ensures Decimal.AllDigits(r)
  {
    if s == "" then ""
    else if Decimal.IsDigit(s[0]) then [s[0]] + OnlyDigits(s[1..])
    else OnlyDigits(s[1..])
  }

  function Numeral(s: string): Option<int> {
    if IsNumeral(s) then Some(Decimal.Value(OnlyDigits(s))) else None
  }

  function Signed(t: string): Option<int> {
    if t == "" then None
    else if t[0] == '+' then Numeral(t[1..])
    else if t[0] == '-' then match Numeral(t[1..]) case Some(n) => Some(-n) case None => None
    else Numeral(t)
  }

  // What converting a text to an integer gives, or `None` where that fails.
  function ParseInt(s: string): Option<int> {
    Signed(Strip(s))
  }

  lemma {:induction false} DigitsAreKept(s: string)
    requires Decimal.AllDigits(s)
    ensures OnlyDigits(s) == s
  {
    if s != "" {
      DigitsAreKept(s[1..]);
    }
  }

  lemma PrintedIsNumeral(n: nat)
    ensures Numeral(Decimal.Print(n)) == Some(n)
  {
    var s := Decimal.Print(n);
    assert Decimal.IsDigit(s[0]) && Decimal.IsDigit(s[|s| - 1]);
    DigitsAreKept(s);
    Decimal.ReadsBack(n);
  }

  lemma PrintedIntIsTrimmed(i: int)
    ensures Decimal.PrintInt(i) != "" && Trimmed(Decimal.PrintInt(i))
  {
  }

  // Reading an integer back from its printed form.
  lemma PrintedIntIsParsed(i: int)
    ensures ParseInt(Decimal.PrintInt(i)) == Some(i)
  {
    PrintedIntIsTrimmed(i);
    TrimmedIsKept(Decimal.PrintInt(i));
    if i >= 0 {
      PrintedIsNumeral(i);
      assert Decimal.IsDigit(Decimal.Print(i)[0]);
    } else {
      PrintedIsNumeral(-i);
      assert Decimal.PrintInt(i)[1..] == Decimal.Print(-i);
    }
  }

  function LowerChar(c: char): char {
    if 'A' <= c <= 'Z' then (c as int + 32) as char else c
  }

  function UpperChar(c: char): char {
    if 'a' <= c <= 'z' then (c as int - 32) as char else c
  }

  function Lower(s: string): (r: string)
    ensures |r| == |s| && forall i :: 0 <= i < |s| ==> r[i] == LowerChar(s[i])
  {
    seq(|s|, i requires 0 <= i < |s| => LowerChar(s[i]))
  }

  function Upper(s: string): (r: string)
    ensures |r| == |s| && forall i :: 0 <= i < |s| ==> r[i] == UpperChar(s[i])
  {
    seq(|s|, i requires 0 <= i < |s| => UpperChar(s[i]))
  }

  predicate EndsWith(s: string, suffix: string) {
    |suffix| <= |s| && s[|s| - |suffix|..] == suffix
  }

  predicate Contains(s: string, part: string) {
    part <= s || (s != "" && Contains(s[1..], part))
  }

  // The text split at a separator, in order; never empty.
  function Split(s: string, sep: char): (parts: seq<string>)
    ensures |parts| >= 1
    ensures forall i :: 0 <= i < |parts| ==> sep !in parts[i]
  {
    if s == "" then [""]
    else
      var rest := Split(s[1..], sep);
      if s[0] == sep then [""] + rest else [[s[0]] + rest[0]] + rest[1..]
  }

  function Join(parts: seq<string>, sep: char): string {
    if parts == [] then "" else if |parts| == 1 then parts[0] else parts[0] + [sep] + Join(parts[1..], sep)
  }

  lemma {:induction false} SplitPart(s: string, sep: char, rest: string)
    requires sep !in s
    ensures Split(s + [sep] + rest, sep) == [s] + Split(rest, sep)
  {
    var t := s + [sep] + rest;
    if s == "" {
      assert t[1..] == rest;
    } else {
      assert t[1..] == s[1..] + [sep] + rest && t[0] == s[0];
      SplitPart(s[1..], sep, rest);
      assert [s[0]] + s[1..] == s;
    }
  }

  lemma {:induction false} SplitWhole(s: string, sep: char)
    requires sep !in s
    ensures Split(s, sep) == [s]
  {
    if s != "" {
      SplitWhole(s[1..], sep);
      assert [s[0]] + s[1..] == s;
    }
  }

  lemma {:induction false} SplitBoth(s: string, sep: char, rest: string)
    ensures Split(s + [sep] + rest, sep) == Split(s, sep) + Split(rest, sep)
  {
    var t := s + [sep] + rest;
    if s == "" {
      assert t[1..] == rest;
    } else {
      assert t[1..] == s[1..] + [sep] + rest && t[0] == s[0];
      SplitBoth(s[1..], sep, rest);
    }
  }

  // Splitting undoes joining.
  lemma {:induction false} SplitJoin(parts: seq<string>, sep: char)
    requires parts != [] && forall i :: 0 <= i < |parts| ==> sep !in parts[i]
    ensures Split(Join(parts, sep), sep) == parts
  {
    if |parts| == 1 {
      SplitWhole(parts[0], sep);
    } else {
      SplitJoin(parts[1..], sep);
      SplitPart(parts[0], sep, Join(parts[1..], sep));
    }
  }
}
