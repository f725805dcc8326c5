/** Decimal rendering of counts, as fmt's %d prints a non-negative int,
    and the "tracking/total" progress text built from two of them. */
module Decimal {

  predicate IsDigit(c: char) {
    '0' <= c <= '9'
  }

  predicate AllDigits(s: string) {
    forall i :: 0 <= i < |s| ==> IsDigit(s[i])
  }

  function DigitChar(d: nat): (c: char)
    requires d < 10
    ensures IsDigit(c) && (c as int) - ('0' as int) == d
  {
    (('0' as int) + d) as char
  }

  /** %d of a non-negative number: its decimal digits, most significant
      first, with no leading zero. */
  function Itoa(n: nat): (s: string)
    ensures |s| > 0 && AllDigits(s)
    ensures |s| > 1 ==> s[0] != '0'
    decreases n
  {
    if n < 10 then [DigitChar(n)]
    else
      var high := Itoa(n / 10);
      high + [DigitChar(n % 10)]
  }

  /** The number a digit string denotes. */
  function DigitsValue(s: string): nat
    requires AllDigits(s)
    decreases |s|
  {
    if |s| == 0 then 0
    else DigitsValue(s[..|s| - 1]) * 10 + ((s[|s| - 1] as int) - ('0' as int))
  }

  /** Reading the digits back gives the number. */
  lemma {:induction false} ItoaRoundTrip(n: nat)
    ensures DigitsValue(Itoa(n)) == n
    decreases n
  {
    if n >= 10 {
      ItoaRoundTrip(n / 10);
      var s := Itoa(n);
      assert s[..|s| - 1] == Itoa(n / 10);
    }
  }

  /** Distinct numbers print differently. */
  lemma ItoaInjective(m: nat, n: nat)
    requires Itoa(m) == Itoa(n)
    ensures m == n
  {
    ItoaRoundTrip(m);
    ItoaRoundTrip(n);
  }

  /** fmt.Sprintf("%d/%d", tracking, total). */
  function Progress(tracking: nat, total: nat): (s: string)
    ensures |s| >= 3
    ensures exists i :: 0 < i < |s| - 1 && s[i] == '/' && AllDigits(s[..i]) && AllDigits(s[i + 1..])
  {
    var before := Itoa(tracking);
    var s := before + "/" + Itoa(total);
    assert s[..|before|] == before && s[|before| + 1..] == Itoa(total);
    s
  }

  /** The text before and after the first '/'. */
  function SplitAtSlash(s: string): SlashSplit
    decreases |s|
  {
    if |s| == 0 then NoSlash
    else if s[0] == '/' then Split("", s[1..])
    else
      match SplitAtSlash(s[1..])
      case NoSlash => NoSlash
      case Split(before, after) => Split([s[0]] + before, after)
  }

  datatype SlashSplit = NoSlash | Split(before: string, after: string)

  /** Reads a progress text back into its two counts. */
  function ParseProgress(s: string): (r: ProgressParse)
    ensures r.Parsed? ==> Progress(r.tracking, r.total) == s
  {
    match SplitAtSlash(s)
    case NoSlash => Unparsable
    case Split(before, after) =>
      if |before| > 0 && |after| > 0 && AllDigits(before) && AllDigits(after) &&
         (|before| > 1 ==> before[0] != '0') && (|after| > 1 ==> after[0] != '0')
      then
        ItoaOfDigits(before);
        ItoaOfDigits(after);
        SplitAtSlashRecovers(s);
        Parsed(DigitsValue(before), DigitsValue(after))
      else Unparsable
  }

  datatype ProgressParse = Unparsable | Parsed(tracking: nat, total: nat)

  /** The progress text of two counts reads back as those counts. */
  lemma ProgressRoundTrip(tracking: nat, total: nat)
    ensures ParseProgress(Progress(tracking, total)) == Parsed(tracking, total)
  {
    SplitDigits(Itoa(tracking), Itoa(total));
    assert Itoa(tracking) + "/" + Itoa(total) == Itoa(tracking) + ("/" + Itoa(total));
    ItoaRoundTrip(tracking);
    ItoaRoundTrip(total);
  }

  /** Splitting at a '/' preceded only by digits. */
  lemma {:induction false} SplitDigits(x: string, y: string)
    requires AllDigits(x)
    ensures SplitAtSlash(x + ("/" + y)) == Split(x, y)
    decreases |x|
  {
    if |x| > 0 {
      SplitDigits(x[1..], y);
      assert (x + ("/" + y))[1..] == x[1..] + ("/" + y);
      assert x == [x[0]] + x[1..];
    } else {
      assert x + ("/" + y) == "/" + y;
    }
  }

  /** A split puts the pieces back together around the '/'. */
  lemma {:induction false} SplitAtSlashRecovers(s: string)
    requires SplitAtSlash(s).Split?
    ensures SplitAtSlash(s).before + "/" + SplitAtSlash(s).after == s
    decreases |s|
  {
    if s[0] != '/' {
      SplitAtSlashRecovers(s[1..]);
      assert s == [s[0]] + s[1..];
    }
  }

  /** A canonical digit string is what Itoa prints for its value. */
  lemma {:induction false} ItoaOfDigits(s: string)
    requires |s| > 0 && AllDigits(s) && (|s| > 1 ==> s[0] != '0')
    ensures Itoa(DigitsValue(s)) == s
    decreases |s|
  {
    var last := (s[|s| - 1] as int) - ('0' as int);
    if |s| == 1 {
      assert DigitsValue(s) == last;
      assert s == [DigitChar(last)];
    } else {
      var high := s[..|s| - 1];
      assert high[0] == s[0];
      ItoaOfDigits(high);
      LeadingDigitPositive(high);
      var n := DigitsValue(s);
      assert n == DigitsValue(high) * 10 + last;
      assert n / 10 == DigitsValue(high) && n % 10 == last;
      assert s == high + [DigitChar(last)];
    }
  }

  /** A multi-digit canonical string denotes at least 1, so appending a
      digit gives at least 10. */
  lemma {:induction false} LeadingDigitPositive(s: string)
    requires |s| > 0 && AllDigits(s) && (|s| > 1 ==> s[0] != '0')
    requires s != "0"
    ensures DigitsValue(s) >= 1
    decreases |s|
  {
    if |s| > 1 {
      var high := s[..|s| - 1];
      assert high[0] == s[0];
      if high != "0" {
        LeadingDigitPositive(high);
      }
    } else {
      assert s[0] != '0';
    }
  }
}
