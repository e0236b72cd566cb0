/**
 Printing an amount of cents the Brazilian way (1.234.567,89), and reading it
 back.
 */
module BrlPrinter {
  import opened Int64
  import opened Wrappers

  // ---------- decimal digits ----------

  predicate IsDigit(c: char) {
    '0' <= c <= '9'
  }

  predicate AllDigits(s: string) {
    forall c | c in s :: IsDigit(c)
  }

  function DigitChar(n: nat): (c: char)
    requires n < 10
    ensures IsDigit(c) && c as int - '0' as int == n
  {
    (n + '0' as int) as char
  }

  function Digits(n: nat): (s: string)
    ensures |s| >= 1 && AllDigits(s)
  {
    if n < 10 then [DigitChar(n)] else Digits(n / 10) + [DigitChar(n % 10)]
  }

  function ValueOf(s: string): nat
    requires AllDigits(s)
  {
    if s == [] then 0
    else
      assert s[|s| - 1] in s && forall c | c in s[..|s| - 1] :: c in s;
      ValueOf(s[..|s| - 1]) * 10 + (s[|s| - 1] as int - '0' as int)
  }

  lemma {:induction false} ValueOfDigits(n: nat)
    ensures ValueOf(Digits(n)) == n
  {
    var s := Digits(n);
    if n >= 10 {
      ValueOfDigits(n / 10);
      assert s[..|s| - 1] == Digits(n / 10);
    }
  }

  /** strconv.FormatInt in base ten. */
  function FormatInt(x: int): string {
    if x < 0 then "-" + Digits(-x) else Digits(x)
  }

  /** The %02d verb. */
  function Pad2(x: int): string {
    if 0 <= x < 10 then "0" + Digits(x) else FormatInt(x)
  }

  // ---------- grouping by thousands ----------

  /** Groups of three counted from the right, which is what the printed form means. */
  function Grouped(s: string): string {
    if |s| <= 3 then s else Grouped(s[..|s| - 3]) + "." + s[|s| - 3..]
  }

  /** What has been written when i characters are done: the groups so far, and a dot if more are to come. */
  function Written(s: string, i: nat): string
    requires i <= |s|
  {
    if i == 0 then "" else if i < |s| then Grouped(s[..i]) + "." else Grouped(s)
  }

  lemma WrittenStep(s: string, i: nat)
    requires i + 3 <= |s|
    ensures Written(s, i + 3) == Written(s, i) + s[i..i + 3] + (if i + 3 < |s| then "." else "")
  {
    if i > 0 {
      assert s[..i + 3][..i] == s[..i];
      assert s[..i + 3][i..] == s[i..i + 3];
      assert Grouped(s[..i + 3]) == Grouped(s[..i]) + "." + s[i..i + 3];
    } else {
      assert Grouped(s[..3]) == s[..3];
    }
    if i + 3 == |s| {
      assert s[..i + 3] == s;
    }
  }

  /** groupThousands works from the left: the short group first, then three at a time. */
  method GroupThousands(s: string) returns (out: string)
    ensures out == Grouped(s)
  {
    if |s| <= 3 {
      return s;
    }
    var rem := |s| % 3;
    out := "";
    if rem > 0 {
      out := out + s[..rem] + ".";
    }
    var i := rem;
    ghost var groups := |s| / 3;
    while i < |s|
      invariant 0 <= i <= |s| && |s| - i == 3 * groups
      invariant out == Written(s, i)
      decreases |s| - i
    {
      WrittenStep(s, i);
      out := out + s[i..i + 3];
      if i + 3 < |s| {
        out := out + ".";
      }
      i := i + 3;
      groups := groups - 1;
    }
  }

  function StripDots(s: string): string {
    if s == [] then []
    else
      var init, last := s[..|s| - 1], s[|s| - 1];
      if last == '.' then StripDots(init) else StripDots(init) + [last]
  }

  lemma {:induction false} StripDotsOfPlain(a: string, b: string)
    requires '.' !in b
    ensures StripDots(a + b) == StripDots(a) + b
  {
    if b == [] {
      assert a + b == a;
    } else {
      var init := b[..|b| - 1];
      StripDotsOfPlain(a, init);
      assert (a + b)[..|a + b| - 1] == a + init;
      assert b == init + [b[|b| - 1]];
    }
  }

  /** Deleting the dots gives the digits back. */
  lemma {:induction false} GroupingIsInvertible(s: string)
    requires '.' !in s
    ensures StripDots(Grouped(s)) == s
  {
    if |s| <= 3 {
      StripDotsOfPlain([], s);
      assert [] + s == s;
    } else {
      var head, tail := s[..|s| - 3], s[|s| - 3..];
      GroupingIsInvertible(head);
      StripDotsOfPlain(Grouped(head) + ".", tail);
      assert (Grouped(head) + ".")[..|Grouped(head)|] == Grouped(head);
      assert s == head + tail;
    }
  }

  /** There is a dot exactly where a multiple of three digits is still to come. */
  lemma {:induction false} DotsCountThree(s: string, i: nat)
    requires '.' !in s && i < |Grouped(s)|
    ensures Grouped(s)[i] == '.' <==> (|Grouped(s)| - i) % 4 == 0
  {
    if |s| > 3 {
      var head := s[..|s| - 3];
      var g := Grouped(head);
      if i < |g| {
        DotsCountThree(head, i);
        assert (|Grouped(s)| - i) == (|g| - i) + 4;
      } else if i > |g| {
        assert Grouped(s)[i] == s[|s| - 3 + (i - |g| - 1)];
      }
    } else {
      assert Grouped(s)[i] in s;
    }
  }

  // ---------- amounts ----------

  /** Money.Amount, with int64 negation. */
  function Amount(cents: int): string {
    var m := if cents < 0 then Wrap(-cents) else cents;
    Grouped(FormatInt(GoDiv(m, 100))) + "," + Pad2(GoRem(m, 100))
  }

  /** Reads digits and thousands dots, a comma, and two digits of cents. */
  function ParseAmount(s: string): Option<nat> {
    if |s| < 4 || s[|s| - 3] != ',' then None
    else
      var whole, cents := StripDots(s[..|s| - 3]), s[|s| - 2..];
      if whole != [] && AllDigits(whole) && AllDigits(cents)
      then Some(ValueOf(whole) * 100 + ValueOf(cents))
      else None
  }

  lemma Pad2IsTwoDigits(n: nat)
    requires n < 100
    ensures |Pad2(n)| == 2 && AllDigits(Pad2(n)) && ValueOf(Pad2(n)) == n
  {
    var s := Pad2(n);
    if n < 10 {
      assert s == ['0', DigitChar(n)];
    } else {
      assert Digits(n / 10) == [DigitChar(n / 10)];
      assert s == [DigitChar(n / 10), DigitChar(n % 10)];
    }
    assert s[..1] == [s[0]] && s[..1][..0] == [];
    assert ValueOf(s[..1]) == s[0] as int - '0' as int;
  }

  lemma ParsePrinted(whole: string, cents: string)
    requires whole != [] && AllDigits(whole) && |cents| == 2 && AllDigits(cents)
    ensures ParseAmount(Grouped(whole) + "," + cents) == Some(ValueOf(whole) * 100 + ValueOf(cents))
  {
    assert '.' !in whole;
    GroupingIsInvertible(whole);
    GroupedIsLonger(whole);
    ParseParts(Grouped(whole), whole, cents);
  }

  lemma ParseParts(printed: string, whole: string, cents: string)
    requires printed != [] && StripDots(printed) == whole && whole != [] && AllDigits(whole)
    requires |cents| == 2 && AllDigits(cents)
    ensures ParseAmount(printed + "," + cents) == Some(ValueOf(whole) * 100 + ValueOf(cents))
  {
    PartsOf(printed, cents);
  }

  lemma PartsOf(whole: string, cents: string)
    requires whole != [] && |cents| == 2
    ensures var a := whole + "," + cents;
      |a| >= 4 && a[|a| - 3] == ',' && a[..|a| - 3] == whole && a[|a| - 2..] == cents
  {
  }

  lemma {:induction false} GroupedIsLonger(s: string)
    ensures |s| <= |Grouped(s)|
  {
    if |s| > 3 {
      GroupedIsLonger(s[..|s| - 3]);
    }
  }

  lemma MinusIsUnreadable(whole: string, cents: string)
    requires |cents| == 2 && cents[0] == '-'
    ensures ParseAmount(whole + "," + cents) == None
  {
    var a := whole + "," + cents;
    assert a[|a| - 2..] == cents && cents[0] in cents;
  }

  /**
   Reading an amount back gives its absolute value, for every int64 but the
   smallest, whose sign survives negation.
   */
  lemma AmountRoundTrips(cents: int)
    requires Fits(cents)
    ensures ParseAmount(Amount(cents)) == Some(Abs(cents)) <==> MIN < cents
    ensures cents == MIN ==> ParseAmount(Amount(cents)) == None
  {
    if cents == MIN {
      MinAmountIsUnreadable(cents);
    } else {
      OrdinaryAmount(cents);
    }
  }

  lemma MinAmountIsUnreadable(cents: int)
    requires cents == MIN
    ensures ParseAmount(Amount(cents)) == None
  {
    assert Wrap(-cents) == cents && GoRem(cents, 100) == -8;
    NegativeIsUnreadable(cents, cents);
  }

  lemma OrdinaryAmount(cents: int)
    requires MIN < cents <= MAX
    ensures ParseAmount(Amount(cents)) == Some(Abs(cents))
  {
    var m := Abs(cents);
    AmountOf(cents);
    Pad2IsTwoDigits(m % 100);
    ParsePrinted(Digits(m / 100), Pad2(m % 100));
    ValueOfDigits(m / 100);
  }

  lemma AmountOf(cents: int)
    requires MIN < cents <= MAX
    ensures Amount(cents) == Grouped(Digits(Abs(cents) / 100)) + "," + Pad2(Abs(cents) % 100)
  {
  }

  /** A negative remainder of one digit prints as a sign and a digit, which is no cents part. */
  lemma NegativeIsUnreadable(cents: int, m: int)
    requires m == (if cents < 0 then Wrap(-cents) else cents) && -10 < GoRem(m, 100) < 0
    ensures ParseAmount(Amount(cents)) == None
  {
    var n := -GoRem(m, 100);
    assert |Digits(n)| == 1;
    MinusIsUnreadable(Grouped(FormatInt(GoDiv(m, 100))), "-" + Digits(n));
  }

  /** Digits with a dot wherever a multiple of three digits is still to come, and no leading zero. */
  predicate IsGrouped(g: string) {
    && g != [] && (|g| > 1 ==> g[0] != '0')
    && forall i | 0 <= i < |g| :: if (|g| - i) % 4 == 0 then i > 0 && g[i] == '.' else IsDigit(g[i])
  }

  /** An amount is grouped whole units, a comma and two digits of cents, and names no sign. */
  lemma AmountShape(cents: int) returns (whole: string, rest: string)
    requires MIN < cents <= MAX
    ensures Amount(cents) == whole + "," + rest && IsGrouped(whole)
    ensures |rest| == 2 && AllDigits(rest) && AllDigits(StripDots(whole))
    ensures ValueOf(StripDots(whole)) * 100 + ValueOf(rest) == Abs(cents)
  {
    var m := Abs(cents);
    AmountOf(cents);
    var digits := Digits(m / 100);
    whole, rest := Grouped(digits), Pad2(m % 100);
    Pad2IsTwoDigits(m % 100);
    GroupingIsInvertible(digits);
    ValueOfDigits(m / 100);
    NoLeadingZero(m / 100);
    GroupedDigits(digits);
  }

  lemma {:induction false} NoLeadingZero(n: nat)
    ensures Digits(n)[0] == '0' ==> n == 0 && |Digits(n)| == 1
  {
    if n >= 10 {
      NoLeadingZero(n / 10);
    }
  }

  lemma {:induction false} GroupedDigits(s: string)
    requires s != [] && AllDigits(s) && (|s| > 1 ==> s[0] != '0')
    ensures IsGrouped(Grouped(s))
  {
    assert forall i | 0 <= i < |s| :: s[i] in s;
    if |s| > 3 {
      var head, tail := s[..|s| - 3], s[|s| - 3..];
      GroupedDigits(head);
      assert head[0] == s[0];
      FirstDigitStays(head);
      OneMoreGroup(Grouped(head), tail);
    }
  }

  lemma {:induction false} FirstDigitStays(s: string)
    requires s != []
    ensures Grouped(s) != [] && Grouped(s)[0] == s[0]
  {
    if |s| > 3 {
      FirstDigitStays(s[..|s| - 3]);
    }
  }

  lemma OneMoreGroup(g: string, tail: string)
    requires IsGrouped(g) && g[0] != '0' && |tail| == 3 && AllDigits(tail)
    ensures IsGrouped(g + "." + tail)
  {
    var s := g + "." + tail;
    forall i | 0 <= i < |s|
      ensures if (|s| - i) % 4 == 0 then i > 0 && s[i] == '.' else IsDigit(s[i])
    {
      if i < |g| {
        assert s[i] == g[i] && (|s| - i) % 4 == (|g| - i) % 4;
      } else if i > |g| {
        assert s[i] == tail[i - |g| - 1] && tail[i - |g| - 1] in tail;
      }
    }
  }
}
