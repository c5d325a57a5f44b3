/**
 * Number-to-text conversions used by the dashboard and the export:
 * `{:,.2f}` and `{:,}` for the KPI strings, and the plain `str` of a
 * two-place decimal and of an integer for the CSV cells. Each comes with the
 * parser that inverts it.
 */
module Formatting {
  import opened Wrappers

  predicate IsDigit(c: char)
  {
    '0' <= c <= '9'
  }

  predicate AllDigits(s: string)
  {
    forall i :: 0 <= i < |s| ==> IsDigit(s[i])
  }

  predicate NoCommas(s: string)
  {
    forall i :: 0 <= i < |s| ==> s[i] != ','
  }

  function DigitChar(d: int): (c: char)
    requires 0 <= d < 10
    ensures IsDigit(c)
  {
    (48 + d) as char
  }

  function DigitValue(c: char): (d: nat)
    requires IsDigit(c)
    ensures d < 10
  {
    (c as int) - 48
  }

  /** The decimal numeral of `n`, without leading zeros. */
  function Digits(n: nat): (s: string)
    ensures |s| >= 1 && AllDigits(s)
    ensures s[0] == '0' ==> n == 0
  {
    if n < 10 then [DigitChar(n)] else Digits(n / 10) + [DigitChar(n % 10)]
  }

  /** The number a string of digits denotes. */
  function ValueOf(s: string): nat
    requires AllDigits(s)
  {
    if s == [] then 0 else ValueOf(s[..|s| - 1]) * 10 + DigitValue(s[|s| - 1])
  }

  lemma {:induction false} DigitsRoundTrip(n: nat)
    ensures ValueOf(Digits(n)) == n
  {
    if n >= 10 {
      var s := Digits(n);
      assert s[..|s| - 1] == Digits(n / 10);
      DigitsRoundTrip(n / 10);
    }
  }

  /** Thousands separators: a comma before every group of three digits counted from the right. */
  function Group(s: string): string
  {
    if |s| <= 3 then s else Group(s[..|s| - 3]) + "," + s[|s| - 3..]
  }

  function RemoveCommas(s: string): (r: string)
    ensures NoCommas(r)
  {
    if s == [] then []
    else RemoveCommas(s[..|s| - 1]) + (if s[|s| - 1] == ',' then [] else [s[|s| - 1]])
  }

  lemma {:induction false} RemoveCommasAppend(a: string, b: string)
    ensures RemoveCommas(a + b) == RemoveCommas(a) + RemoveCommas(b)
    decreases |b|
  {
    if b != [] {
      var b' := b[..|b| - 1];
      assert (a + b)[..|a + b| - 1] == a + b';
      RemoveCommasAppend(a, b');
    } else {
      assert a + b == a;
    }
  }

  lemma {:induction false} RemoveCommasIdentity(s: string)
    requires NoCommas(s)
    ensures RemoveCommas(s) == s
  {
    if s != [] {
      RemoveCommasIdentity(s[..|s| - 1]);
    }
  }

  /** Taking the separators out of a grouped numeral gives the numeral back. */
  lemma {:induction false} UngroupGroup(s: string)
    requires NoCommas(s)
    ensures RemoveCommas(Group(s)) == s
    decreases |s|
  {
    if |s| <= 3 {
      RemoveCommasIdentity(s);
    } else {
      var head, tail := s[..|s| - 3], s[|s| - 3..];
      assert NoCommas(head) by {
        forall i | 0 <= i < |head| ensures head[i] != ',' { assert head[i] == s[i]; }
      }
      assert NoCommas(tail) by {
        forall i | 0 <= i < |tail| ensures tail[i] != ',' { assert tail[i] == s[|s| - 3 + i]; }
      }
      var g := Group(head);
      assert Group(s) == g + "," + tail;
      UngroupGroup(head);
      RemoveCommasAppend(g + ",", tail);
      RemoveCommasAppend(g, ",");
      RemoveCommasIdentity(tail);
      assert RemoveCommas(",") == [] by {
        assert ","[..0] == [];
      }
      assert RemoveCommas(g + ",") == head;
      assert head + tail == s;
    }
  }

  /**
   * The shape `{:,}` gives an integer part: digits, with a comma exactly at
   * the positions that leave a multiple of four characters from there to the
   * end, so every group after the first has three digits and the first has
   * one to three.
   */
  predicate WellGrouped(t: string)
  {
    |t| >= 1 && |t| % 4 != 0 &&
    (forall i :: 0 <= i < |t| ==> (t[i] == ',' <==> (|t| - i) % 4 == 0)) &&
    (forall i :: 0 <= i < |t| && t[i] != ',' ==> IsDigit(t[i]))
  }

  /** Appending a comma and a group of three digits keeps a numeral well grouped. */
  lemma WellGroupedExtend(g: string, tail: string)
    requires WellGrouped(g) && |tail| == 3 && AllDigits(tail)
    ensures WellGrouped(g + "," + tail)
  {
  }

  lemma {:induction false} GroupIsWellGrouped(s: string)
    requires |s| >= 1 && AllDigits(s)
    ensures WellGrouped(Group(s))
    decreases |s|
  {
    if |s| > 3 {
      var head, tail := s[..|s| - 3], s[|s| - 3..];
      GroupIsWellGrouped(head);
      assert Group(s) == Group(head) + "," + tail;
      WellGroupedExtend(Group(head), tail);
    } else {
      assert |s| % 4 == |s|;
    }
  }

  function Sign(negative: bool): string
  {
    if negative then "-" else ""
  }

  function Abs(n: int): nat
  {
    if n < 0 then -n else n
  }

  /** The two digits after the decimal point. */
  function TwoDigits(n: nat): (s: string)
    requires n < 100
    ensures |s| == 2 && AllDigits(s) && ValueOf(s) == n
  {
    var s := [DigitChar(n / 10), DigitChar(n % 10)];
    assert s[..1] == [DigitChar(n / 10)] && s[..1][..0] == [];
    assert ValueOf(s[..1]) == n / 10;
    s
  }

  function IntegerPart(n: nat, grouped: bool): (s: string)
  {
    if grouped then Group(Digits(n)) else Digits(n)
  }

  /**
   * A two-place decimal held as cents: `{:,.2f}` when `grouped`, the plain
   * `str` of the decimal otherwise.
   */
  function MoneyText(cents: int, grouped: bool): string
  {
    Sign(cents < 0) + IntegerPart(Abs(cents) / 100, grouped) + "." + TwoDigits(Abs(cents) % 100)
  }

  /** An integer: `{:,}` when `grouped`, the plain `str` otherwise. */
  function CountText(n: int, grouped: bool): string
  {
    Sign(n < 0) + IntegerPart(Abs(n), grouped)
  }

  /** Applies an optional leading minus sign to what `magnitude` reads from the rest. */
  function Signed(s: string, magnitude: string -> Option<nat>): Option<int>
  {
    if |s| > 0 && s[0] == '-' then
      match magnitude(s[1..])
      case Some(m) => Some(0 - m)
      case None => None
    else
      match magnitude(s)
      case Some(m) => Some(m)
      case None => None
  }

  /** At least one digit and nothing else. */
  function ParseNumeral(s: string): Option<nat>
  {
    if |s| == 0 || !AllDigits(s) then None else Some(ValueOf(s))
  }

  /** At least one digit, a point and exactly two digits, read as cents. */
  function ParseCents(s: string): Option<nat>
  {
    if |s| < 4 || s[|s| - 3] != '.' then None
    else
      var whole, fraction := s[..|s| - 3], s[|s| - 2..];
      if !AllDigits(whole) || !AllDigits(fraction) then None
      else Some(ValueOf(whole) * 100 + ValueOf(fraction))
  }

  /** Reads an optional minus sign followed by at least one digit. */
  function ParseCount(s: string): Option<int>
  {
    Signed(s, ParseNumeral)
  }

  /** Reads an optional minus sign, at least one digit, a point and exactly two digits. */
  function ParseMoney(s: string): Option<int>
  {
    Signed(s, ParseCents)
  }

  /** A sign in front of a text that does not itself start with one is read back. */
  lemma SignedParts(negative: bool, body: string, magnitude: string -> Option<nat>, m: nat)
    requires |body| > 0 && body[0] != '-' && magnitude(body) == Some(m)
    ensures Signed(Sign(negative) + body, magnitude) == Some(if negative then 0 - m else m)
  {
    var t := Sign(negative) + body;
    if negative {
      assert t[0] == '-' && t[1..] == body;
    } else {
      assert t == body;
    }
  }

  lemma ParseCentsParts(whole: string, fraction: string)
    requires |whole| >= 1 && AllDigits(whole) && |fraction| == 2 && AllDigits(fraction)
    ensures ParseCents(whole + "." + fraction) == Some(ValueOf(whole) * 100 + ValueOf(fraction))
  {
    var body := whole + "." + fraction;
    assert body[|body| - 3] == '.';
    assert AllDigits(body[..|body| - 3]) && ValueOf(body[..|body| - 3]) == ValueOf(whole) by {
      assert body[..|body| - 3] == whole;
    }
    assert AllDigits(body[|body| - 2..]) && ValueOf(body[|body| - 2..]) == ValueOf(fraction) by {
      assert body[|body| - 2..] == fraction;
    }
  }

  lemma {:induction false} CountRoundTrip(n: int)
    ensures ParseCount(CountText(n, false)) == Some(n)
  {
    var body := Digits(Abs(n));
    DigitsRoundTrip(Abs(n));
    assert ParseNumeral(body) == Some(Abs(n));
    SignedParts(n < 0, body, ParseNumeral, Abs(n));
  }

  lemma {:induction false} MoneyRoundTrip(cents: int)
    ensures ParseMoney(MoneyText(cents, false)) == Some(cents)
  {
    var q, r := Abs(cents) / 100, Abs(cents) % 100;
    var body := Digits(q) + "." + TwoDigits(r);
    DigitsRoundTrip(q);
    ParseCentsParts(Digits(q), TwoDigits(r));
    assert q * 100 + r == Abs(cents);
    SignedParts(cents < 0, body, ParseCents, Abs(cents));
    assert MoneyText(cents, false) == Sign(cents < 0) + body;
  }

  /** Separators only ever sit inside the grouped digits, so removing them leaves the rest as is. */
  lemma UngroupBetween(sign: string, digits: string, tail: string)
    requires NoCommas(sign) && NoCommas(digits) && NoCommas(tail)
    ensures RemoveCommas(sign + Group(digits) + tail) == sign + digits + tail
  {
    UngroupGroup(digits);
    RemoveCommasIdentity(sign);
    RemoveCommasIdentity(tail);
    RemoveCommasAppend(sign, Group(digits));
    RemoveCommasAppend(sign + Group(digits), tail);
  }

  /** Taking the separators out of `{:,.2f}` gives the plain decimal text. */
  lemma {:induction false} UngroupMoney(cents: int)
    ensures RemoveCommas(MoneyText(cents, true)) == MoneyText(cents, false)
  {
    var digits := Digits(Abs(cents) / 100);
    var tail := "." + TwoDigits(Abs(cents) % 100);
    var sign := Sign(cents < 0);
    assert MoneyText(cents, true) == sign + Group(digits) + tail;
    assert MoneyText(cents, false) == sign + digits + tail;
    assert NoCommas(digits);
    assert NoCommas(tail) by {
      assert tail[0] == '.' && AllDigits(tail[1..]);
      forall i | 0 <= i < |tail| ensures tail[i] != ',' {
        if i > 0 { assert tail[i] == tail[1..][i - 1]; }
      }
    }
    UngroupBetween(sign, digits, tail);
  }

  /** Taking the separators out of `{:,}` gives the plain integer text. */
  lemma {:induction false} UngroupCount(n: int)
    ensures RemoveCommas(CountText(n, true)) == CountText(n, false)
  {
    var digits := Digits(Abs(n));
    UngroupGroup(digits);
    RemoveCommasIdentity(Sign(n < 0));
    RemoveCommasAppend(Sign(n < 0), Group(digits));
  }

  /**
   * `{:,.2f}` of an amount: an optional minus sign, a well-grouped integer
   * part, a point and exactly two digits; with the commas removed it reads
   * back as the same amount.
   */
  lemma {:induction false} FormatMoneyContract(cents: int)
    ensures var t := MoneyText(cents, true);
      exists whole: string ::
        t == Sign(cents < 0) + whole + "." + t[|t| - 2..] &&
        WellGrouped(whole) && AllDigits(t[|t| - 2..]) && |t[|t| - 2..]| == 2
    ensures ParseMoney(RemoveCommas(MoneyText(cents, true))) == Some(cents)
  {
    var t := MoneyText(cents, true);
    var whole := Group(Digits(Abs(cents) / 100));
    var fraction := TwoDigits(Abs(cents) % 100);
    GroupIsWellGrouped(Digits(Abs(cents) / 100));
    assert t == Sign(cents < 0) + whole + "." + fraction;
    assert t[|t| - 2..] == fraction;
    UngroupMoney(cents);
    MoneyRoundTrip(cents);
  }

  /** `{:,}` of an integer: an optional minus sign and a well-grouped numeral that reads back as the integer. */
  lemma {:induction false} FormatCountContract(n: int)
    ensures exists whole: string :: CountText(n, true) == Sign(n < 0) + whole && WellGrouped(whole)
    ensures ParseCount(RemoveCommas(CountText(n, true))) == Some(n)
  {
    GroupIsWellGrouped(Digits(Abs(n)));
    assert CountText(n, true) == Sign(n < 0) + Group(Digits(Abs(n)));
    UngroupCount(n);
    CountRoundTrip(n);
  }
}
