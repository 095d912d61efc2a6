/** The hand-written number printers: two-decimal amounts, whole seconds, and grouped thousands. */
module Printers {
  import opened Base
  import opened Money

  predicate IsDigit(c: char) {
    '0' <= c <= '9'
  }

  function Digit(n: int): (c: char)
    requires 0 <= n < 10
    ensures IsDigit(c) && c as int - '0' as int == n
  {
    ('0' as int + n) as char
  }

  /** Decimal notation, most significant digit first. */
  function Decimal(n: nat): string {
    if n < 10 then [Digit(n)] else Decimal(n / 10) + [Digit(n % 10)]
  }

  ghost predicate AllDigits(s: string) {
    forall i :: 0 <= i < |s| ==> IsDigit(s[i])
  }

  /** Reads a run of digits. */
  function ParseNat(s: string): nat
    requires AllDigits(s)
  {
    if s == [] then 0 else ParseNat(s[..|s| - 1]) * 10 + (s[|s| - 1] as int - '0' as int)
  }

  /** Decimal notation reads back, has no leading zero, and is the only such notation of its number. */
  lemma {:induction false} DecimalRoundTrip(n: nat)
    ensures Decimal(n) != [] && AllDigits(Decimal(n)) && ParseNat(Decimal(n)) == n
    ensures Decimal(n)[0] == '0' <==> n == 0
  {
    if n >= 10 {
      DecimalRoundTrip(n / 10);
    } else {
      assert Decimal(n)[..0] == [];
    }
  }

  function Pow10(k: nat): int {
    if k == 0 then 1 else 10 * Pow10(k - 1)
  }

  lemma {:induction false} DecimalLength(n: nat, k: nat)
    requires n < Pow10(k) && k > 0
    ensures 0 < |Decimal(n)| <= k
  {
    assert Pow10(1) == 10;
    if n >= 10 {
      assert n / 10 < Pow10(k - 1);
      DecimalLength(n / 10, k - 1);
    }
  }

  /** The bound of a 64-bit signed integer. */
  const INT64_MAX := 9_223_372_036_854_775_807

  lemma Int64Digits(n: nat)
    requires n <= INT64_MAX
    ensures |Decimal(n)| <= 19
  {
    assert Pow10(10) == 10_000_000_000 by {
      assert Pow10(5) == 100_000 by { assert Pow10(3) == 1000; }
      assert Pow10(8) == 100_000_000;
    }
    assert Pow10(14) == 10_000 * Pow10(10) by { assert Pow10(12) == 100 * Pow10(10); }
    assert Pow10(19) == 100_000 * Pow10(14) by {
      assert Pow10(16) == 100 * Pow10(14);
      assert Pow10(18) == 100 * Pow10(16);
    }
    DecimalLength(n, 19);
  }

  function Reversed(s: string): string {
    if s == [] then [] else [s[|s| - 1]] + Reversed(s[..|s| - 1])
  }

  lemma ReversedPush(s: string, c: char)
    ensures Reversed(s + [c]) == [c] + Reversed(s)
  {
    assert (s + [c])[..|s|] == s;
  }

  // ------------------------------------------------------------------
  // Two-decimal amounts
  // ------------------------------------------------------------------

  function FormatCents(cents: int): string {
    var size := if cents < 0 then -cents else cents;
    (if cents < 0 then "-" else "") + Decimal(size / 100) + "." + [Digit(size % 100 / 10)] + [Digit(size % 10)]
  }

  /** Peels digits off into a buffer of twenty and copies them out backwards. */
  method AppendWhole(buf0: string, amount: nat) returns (buf: string)
    requires amount <= INT64_MAX
    ensures buf == buf0 + Decimal(amount)
  {
    hide Decimal, Reversed;
    buf := buf0;
    if amount == 0 {
      DecimalStep(0);
      return buf + ['0'];
    }
    var digits := new char[20];
    var n, whole := 0, amount;
    Int64Digits(amount);
    NoDigits(digits);
    while whole > 0
      invariant 0 <= n <= 19 && 0 <= whole
      invariant n + (if whole > 0 then |Decimal(whole)| else 0) <= 19
      invariant Decimal(amount) == (if whole > 0 then Decimal(whole) else []) + Reversed(digits[..n])
    {
      DecimalStep(whole);
      ghost var peeled := digits[..n];
      digits[n] := Digit(whole % 10);
      assert digits[..n + 1] == peeled + [Digit(whole % 10)];
      ReversedPush(peeled, Digit(whole % 10));
      whole := whole / 10;
      n := n + 1;
    }
    var i := n - 1;
    while i >= 0
      invariant -1 <= i < n
      invariant buf0 + Decimal(amount) == buf + Reversed(digits[..i + 1])
    {
      assert digits[..i + 1] == digits[..i] + [digits[i]];
      ReversedPush(digits[..i], digits[i]);
      buf := buf + [digits[i]];
      i := i - 1;
    }
    NoDigits(digits);
  }

  /** Prints an amount to cents. */
  method FormatFloat2(f: real) returns (buf: string)
    requires -INT64_MAX <= Cents(f) <= INT64_MAX
    ensures buf == FormatCents(Cents(f))
  {
    hide FormatCents;
    var cents := Truncate(f * 100.0 + 0.5);
    if f < 0.0 {
      cents := Truncate(f * 100.0 - 0.5);
    }
    assert cents == Cents(f);
    buf := PrintCents(cents);
  }

  method PrintCents(signed: int) returns (buf: string)
    requires -INT64_MAX <= signed <= INT64_MAX
    ensures buf == FormatCents(signed)
  {
    hide Decimal;
    var cents, neg := signed, signed < 0;
    if neg {
      cents := -cents;
    }
    var whole, frac := cents / 100, cents % 100;
    TwoDigits(cents);
    buf := [];
    if neg {
      buf := buf + ['-'];
    }
    buf := AppendWhole(buf, whole);
    buf := buf + ['.'];
    buf := buf + [Digit(frac / 10)];
    buf := buf + [Digit(frac % 10)];
  }

  lemma TwoDigits(cents: nat)
    ensures cents % 100 % 10 == cents % 10
  {
  }

  lemma DecimalStep(n: nat)
    ensures n < 10 ==> Decimal(n) == [Digit(n)]
    ensures n >= 10 ==> Decimal(n) == Decimal(n / 10) + [Digit(n % 10)]
  {
  }

  lemma NoDigits(digits: array<char>)
    ensures digits[..0] == [] && Reversed([]) == []
  {
  }

  /** Reads a printed amount: an optional sign, digits without a leading zero, a dot, two digits. */
  function ParseCents(s: string): Option<int> {
    if s != [] && s[0] == '-' then
      var size := ParseSize(s[1..]);
      if size.None? || size.value == 0 then None else Some(-size.value)
    else ParseSize(s)
  }

  function ParseSize(s: string): Option<int> {
    var n := |s| - 3;
    if n < 1 || s[n] != '.' || !IsDigit(s[n + 1]) || !IsDigit(s[n + 2]) then None
    else if (exists i :: 0 <= i < n && !IsDigit(s[i])) || (n > 1 && s[0] == '0') then None
    else Some(ParseNat(s[..n]) * 100 + (s[n + 1] as int - '0' as int) * 10 + (s[n + 2] as int - '0' as int))
  }

  /** An unsigned amount, from its whole part and its two digits. */
  lemma SizeRoundTrip(whole: nat, tens: int, units: int)
    requires 0 <= tens < 10 && 0 <= units < 10
    ensures
      var text := Decimal(whole) + "." + [Digit(tens)] + [Digit(units)];
      text != [] && text[0] != '-' && ParseSize(text) == Some(whole * 100 + tens * 10 + units)
  {
    DecimalRoundTrip(whole);
    DecimalStep(whole);
    hide Decimal, ParseNat;
    var digits, text := Decimal(whole), Decimal(whole) + "." + [Digit(tens)] + [Digit(units)];
    var n := |digits|;
    assert |text| == n + 3 && text[n] == '.' && text[n + 1] == Digit(tens) && text[n + 2] == Digit(units);
    assert text[..n] == digits;
    assert forall i :: 0 <= i < n ==> text[i] == digits[i];
  }

  lemma CentsDigits(size: nat)
    ensures size == size / 100 * 100 + size % 100 / 10 * 10 + size % 10
  {
    TwoDigits(size);
    TenFold(size % 100);
  }

  lemma TenFold(n: nat)
    ensures n == n / 10 * 10 + n % 10
  {
  }

  /** A printed amount reads back as exactly the signed cents it was rounded to; no amount prints as minus zero. */
  lemma FormatRoundTrip(f: real)
    ensures ParseCents(FormatCents(Cents(f))) == Some(Cents(f))
  {
    hide Cents, ParseSize, Decimal;
    var cents := Cents(f);
    var size := if cents < 0 then -cents else cents;
    var text := Decimal(size / 100) + "." + [Digit(size % 100 / 10)] + [Digit(size % 10)];
    SizeRoundTrip(size / 100, size % 100 / 10, size % 10);
    CentsDigits(size);
    if cents < 0 {
      assert FormatCents(cents) == "-" + text;
    } else {
      assert FormatCents(cents) == text;
    }
  }

  /** Distinct rounded amounts print differently. */
  lemma FormatInjective(f: real, g: real)
    requires FormatCents(Cents(f)) == FormatCents(Cents(g))
    ensures Cents(f) == Cents(g)
  {
    hide Cents, FormatCents;
    FormatRoundTrip(f);
    FormatRoundTrip(g);
  }

  // ------------------------------------------------------------------
  // Whole seconds
  // ------------------------------------------------------------------

  /** Prints a duration as whole seconds, at least one, filling a buffer from its end. */
  method ISecs(d: int) returns (s: string)
    requires d <= INT64_MAX
    ensures s == Decimal(Max(1, Trunc(d, SECOND)))
    ensures AllDigits(s) && ParseNat(s) == Max(1, Trunc(d, SECOND))
  {
    hide Decimal, ParseNat, AllDigits;
    var n := Trunc(d, SECOND);
    if n < 1 {
      n := 1;
    }
    DecimalRoundTrip(n);
    Int64Digits(n);
    ghost var seconds := n;
    assert seconds == Max(1, Trunc(d, SECOND));
    hide Max, Trunc;
    var buf := new char[20];
    var i := buf.Length;
    assert buf[i..] == [];
    while n > 0
      invariant 0 < i <= 20 && 0 <= n
      invariant (if n > 0 then |Decimal(n)| else 0) <= i - 1
      invariant Decimal(seconds) == (if n > 0 then Decimal(n) else []) + buf[i..]
    {
      DecimalStep(n);
      ghost var tail := buf[i..];
      i := i - 1;
      buf[i] := Digit(n % 10);
      assert buf[i..] == [Digit(n % 10)] + tail;
      n := n / 10;
    }
    return buf[i..];
  }

  // ------------------------------------------------------------------
  // Grouped thousands
  // ------------------------------------------------------------------

  /** Groups of three from the right. */
  function Group(s: string): string {
    if |s| <= 3 then s else Group(s[..|s| - 3]) + "." + s[|s| - 3..]
  }

  function Commaized(s: string): string {
    if s != [] && s[0] == '-' then "-" + Group(s[1..]) else Group(s)
  }

  /** The first i characters, each preceded by a dot where the rest is a multiple of three long. */
  function Dotted(s: string, i: nat): string
    requires i <= |s|
  {
    if i == 0 then []
    else Dotted(s, i - 1) + (if i > 1 && (|s| - (i - 1)) % 3 == 0 then "." else "") + [s[i - 1]]
  }

  lemma {:induction false} DottedPrefix(s: string, i: nat)
    requires i <= |s| - 3
    ensures Dotted(s, i) == Dotted(s[..|s| - 3], i)
  {
    if i > 0 {
      DottedPrefix(s, i - 1);
      assert (|s| - (i - 1)) % 3 == (|s| - 3 - (i - 1)) % 3;
    }
  }

  /** Placing dots from the left, by what is left over, is grouping from the right. */
  lemma DottedLastThree(s: string, i: nat)
    requires 1 < |s| - 2 <= i <= |s|
    ensures Dotted(s, i) == (if i == |s| - 2 then Dotted(s, i - 1) + "." else Dotted(s, i - 1)) + [s[i - 1]]
  {
    if i > |s| - 2 {
      assert Dotted(s, i - 1) + "" == Dotted(s, i - 1);
    }
  }

  lemma AppendThree(a: string, t: string)
    requires |t| == 3
    ensures a + [t[0]] + [t[1]] + [t[2]] == a + t
  {
  }

  lemma DottedLastGroup(s: string)
    requires |s| > 3
    ensures Dotted(s, |s|) == Dotted(s, |s| - 3) + "." + s[|s| - 3..]
  {
    hide Dotted;
    var n := |s|;
    DottedLastThree(s, n - 2);
    DottedLastThree(s, n - 1);
    DottedLastThree(s, n);
    AppendThree(Dotted(s, n - 3) + ".", s[n - 3..]);
  }

  lemma {:induction false} DottedIsGroup(s: string)
    ensures Dotted(s, |s|) == Group(s)
    decreases |s|
  {
    var n := |s|;
    if n <= 3 {
      DottedShort(s, n);
    } else {
      hide Dotted;
      DottedPrefix(s, n - 3);
      DottedIsGroup(s[..n - 3]);
      DottedLastGroup(s);
    }
  }

  lemma {:induction false} DottedShort(s: string, i: nat)
    requires i <= |s| <= 3
    ensures Dotted(s, i) == s[..i]
  {
    if i > 0 {
      DottedShort(s, i - 1);
    }
  }

  method Commaize(s0: string) returns (out: string)
    ensures out == Commaized(s0)
  {
    var s := s0;
    var neg := s != [] && s[0] == '-';
    if neg {
      s := s[1..];
    }
    if |s| <= 3 {
      return if neg then "-" + s else s;
    }
    var b := [];
    for i := 0 to |s|
      invariant b == Dotted(s, i)
    {
      if i > 0 && (|s| - i) % 3 == 0 {
        b := b + ['.'];
      }
      b := b + [s[i]];
    }
    DottedIsGroup(s);
    return if neg then "-" + b else b;
  }

  /** Deletes the dots. */
  function Undot(s: string): string {
    if s == [] then [] else Undot(s[..|s| - 1]) + if s[|s| - 1] == '.' then "" else [s[|s| - 1]]
  }

  lemma {:induction false} UndotConcat(a: string, b: string)
    ensures Undot(a + b) == Undot(a) + Undot(b)
  {
    if b == [] {
      assert a + b == a;
    } else {
      UndotConcat(a, b[..|b| - 1]);
      assert (a + b)[..|a + b| - 1] == a + b[..|b| - 1];
    }
  }

  lemma {:induction false} UndotPlain(s: string)
    requires '.' !in s
    ensures Undot(s) == s
  {
    if s != [] {
      UndotPlain(s[..|s| - 1]);
    }
  }

  lemma {:induction false} GroupUndots(s: string)
    requires '.' !in s
    ensures Undot(Group(s)) == s
    decreases |s|
  {
    hide Undot;
    var n := |s|;
    if n <= 3 {
      UndotPlain(s);
    } else {
      GroupUndots(s[..n - 3]);
      UndotPlain(s[n - 3..]);
      UndotConcat(Group(s[..n - 3]) + ".", s[n - 3..]);
      UndotConcat(Group(s[..n - 3]), ".");
      UndotDot();
    }
  }

  lemma UndotDot()
    ensures Undot(".") == ""
  {
    assert "."[..0] == "";
  }

  lemma {:induction false} GroupDots(s: string)
    requires '.' !in s
    ensures forall k :: 0 <= k < |Group(s)| ==> (Group(s)[k] == '.' <==> (|Group(s)| - k) % 4 == 0)
    ensures s != [] ==> Group(s) != [] && Group(s)[0] != '.'
    decreases |s|
  {
    var n := |s|;
    if n > 3 {
      GroupDots(s[..n - 3]);
      var front, back := Group(s[..n - 3]), s[n - 3..];
      assert Group(s) == front + "." + back;
      forall k | 0 <= k < |front| + 4
        ensures (front + "." + back)[k] == '.' <==> (|front| + 4 - k) % 4 == 0
      {
        if k < |front| {
          assert (|front| + 4 - k) % 4 == (|front| - k) % 4;
        } else if k > |front| {
          assert (front + "." + back)[k] == back[k - |front| - 1] == s[n - 3 + k - |front| - 1];
        }
      }
    }
  }

  lemma NoGroups()
    ensures Group("") == ""
  {
  }

  /**
   Deleting the dots gives back the text; and a dot stands before every third digit from the right
   and nowhere else, so the first group has one to three digits and all others exactly three.
   */
  lemma CommaizeRoundTrip(s: string)
    requires '.' !in s
    ensures Undot(Commaized(s)) == s
    ensures
      var digits := if s != [] && s[0] == '-' then Commaized(s)[1..] else Commaized(s);
      (digits != [] ==> digits[0] != '.') &&
      forall k :: 0 <= k < |digits| ==> (digits[k] == '.' <==> (|digits| - k) % 4 == 0)
  {
    hide Undot, Group;
    if s != [] && s[0] == '-' {
      GroupUndots(s[1..]);
      GroupDots(s[1..]);
      NoGroups();
      UndotConcat("-", Group(s[1..]));
      UndotPlain("-");
      assert Commaized(s)[1..] == Group(s[1..]);
      assert s == "-" + s[1..];
    } else {
      GroupUndots(s);
      GroupDots(s);
      NoGroups();
    }
  }
}
