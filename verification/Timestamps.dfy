/** Stored timestamps: RFC3339Nano text in UTC, and the byte order of that text. */
module Timestamps {
  import opened Calendar

  const SECOND := 1_000_000_000
  const SECONDS_PER_DAY := 86_400

  // ----- byte order of strings -----

  predicate Less(a: string, b: string) {
    if b == "" then false
    else if a == "" then true
    else a[0] < b[0] || (a[0] == b[0] && Less(a[1..], b[1..]))
  }

  /** Equal-length heads decide first; the tails decide when the heads are equal. */
  lemma {:induction false} LessConcat(a: string, x: string, b: string, y: string)
    requires |a| == |b|
    ensures Less(a + x, b + y) <==> Less(a, b) || (a == b && Less(x, y))
  {
    if a == "" {
      assert a + x == x && b + y == y;
    } else {
      assert (a + x)[1..] == a[1..] + x && (b + y)[1..] == b[1..] + y;
      LessConcat(a[1..], x, b[1..], y);
      assert a == [a[0]] + a[1..] && b == [b[0]] + b[1..];
    }
  }

  /** The first position where two strings differ decides. */
  lemma {:induction false} LessAt(a: string, b: string, k: nat)
    requires DiffersAt(a, b, k)
    ensures Less(a, b) && !Less(b, a)
  {
    if k > 0 {
      assert a[0] == a[..k][0] && b[0] == b[..k][0];
      assert a[1..][..k - 1] == a[..k][1..] && b[1..][..k - 1] == b[..k][1..];
      LessAt(a[1..], b[1..], k - 1);
    }
  }

  lemma {:induction false} LessIrreflexive(a: string)
    ensures !Less(a, a)
  {
    if a != "" {
      LessIrreflexive(a[1..]);
    }
  }

  lemma {:induction false} LessAsymmetric(a: string, b: string)
    requires Less(a, b)
    ensures !Less(b, a)
  {
    if a != "" && a[0] == b[0] {
      LessAsymmetric(a[1..], b[1..]);
    }
  }

  /** Whatever lies above a lies above everything not above a. */
  lemma {:induction false} AboveEqual(a: string, b: string, c: string)
    requires !Less(a, b) && Less(a, c)
    ensures Less(b, c)
  {
    if a != "" && b != "" && a[0] == b[0] == c[0] {
      AboveEqual(a[1..], b[1..], c[1..]);
    }
  }

  // ----- fixed-width decimal fields -----

  function DigitChar(d: int): char
    requires 0 <= d <= 9
  {
    '0' + d as char
  }

  function Pow10(w: nat): nat {
    if w == 0 then 1 else 10 * Pow10(w - 1)
  }

  function Digits(n: nat, w: nat): (s: string)
    ensures |s| == w
    ensures forall i :: 0 <= i < w ==> '0' <= s[i] <= '9'
    decreases w
  {
    if w == 0 then "" else Digits(n / 10, w - 1) + [DigitChar(n % 10)]
  }

  lemma {:induction false} DigitsOrder(n1: nat, n2: nat, w: nat)
    requires n1 < Pow10(w) && n2 < Pow10(w)
    ensures Less(Digits(n1, w), Digits(n2, w)) <==> n1 < n2
    ensures Digits(n1, w) == Digits(n2, w) <==> n1 == n2
    decreases w
  {
    if w > 0 {
      var a, b := Digits(n1 / 10, w - 1), Digits(n2 / 10, w - 1);
      var c, d := DigitChar(n1 % 10), DigitChar(n2 % 10);
      DigitsOrder(n1 / 10, n2 / 10, w - 1);
      LessConcat(a, [c], b, [d]);
      assert (a + [c])[..w - 1] == a && (b + [d])[..w - 1] == b;
      assert (a + [c])[w - 1] == c && (b + [d])[w - 1] == d;
    }
  }

  /** A number printed in a fixed width, followed by a separator. */
  datatype Field = Field(value: nat, width: nat, sep: string)

  function Text(fields: seq<Field>): string {
    if fields == [] then "" else Digits(fields[0].value, fields[0].width) + fields[0].sep + Text(fields[1..])
  }

  ghost predicate SameShape(f: seq<Field>, g: seq<Field>) {
    && |f| == |g|
    && forall i :: 0 <= i < |f| ==>
                     && f[i].width == g[i].width && f[i].sep == g[i].sep
                     && f[i].value < Pow10(f[i].width) && g[i].value < Pow10(g[i].width)
  }

  /** Field lists compared value by value, the first difference deciding. */
  ghost predicate ValuesLess(f: seq<Field>, g: seq<Field>)
    requires |f| == |g|
  {
    f != [] && (f[0].value < g[0].value || (f[0].value == g[0].value && ValuesLess(f[1..], g[1..])))
  }

  lemma Regroup(a: string, s: string, t: string, x: string)
    ensures a + s + t + x == a + (s + (t + x))
  {
  }

  /** The first field decides, and passes the decision on when it is equal. */
  lemma FieldOrder(m: nat, n: nat, width: nat, sep: string, p: string, q: string)
    requires m < Pow10(width) && n < Pow10(width)
    ensures Less(Digits(m, width) + (sep + p), Digits(n, width) + (sep + q)) <==> m < n || (m == n && Less(p, q))
  {
    hide Less, Digits;
    DigitsOrder(m, n, width);
    LessConcat(Digits(m, width), sep + p, Digits(n, width), sep + q);
    LessConcat(sep, p, sep, q);
    LessIrreflexive(sep);
  }

  lemma {:induction false} TextOrder(f: seq<Field>, x: string, g: seq<Field>, y: string)
    requires SameShape(f, g)
    ensures Less(Text(f) + x, Text(g) + y) <==> ValuesLess(f, g) || (f == g && Less(x, y))
    decreases |f|
  {
    hide Less, Digits;
    if f == [] {
      assert Text(f) + x == x && Text(g) + y == y;
    } else {
      var a, b := Digits(f[0].value, f[0].width), Digits(g[0].value, g[0].width);
      var p, q := Text(f[1..]) + x, Text(g[1..]) + y;
      Regroup(a, f[0].sep, Text(f[1..]), x);
      Regroup(b, f[0].sep, Text(g[1..]), y);
      FieldOrder(f[0].value, g[0].value, f[0].width, f[0].sep, p, q);
      TextOrder(f[1..], x, g[1..], y);
      assert f == g <==> f[0].value == g[0].value && f[1..] == g[1..] by {
        assert f == [f[0]] + f[1..] && g == [g[0]] + g[1..];
      }
    }
  }

  // ----- the timestamp -----

  /** UTC instants of the years 0 to 9999, in nanoseconds from the start of year 1. */
  predicate FourDigitYear(t: int) {
    FourDigitSecond(WholeSecond(t))
  }

  /** Year 0 has 366 days; the years 1 to 9999 have 3652059. */
  predicate FourDigitSecond(sec: int) {
    -366 * SECONDS_PER_DAY <= sec < 3_652_059 * SECONDS_PER_DAY
  }

  lemma YearInRange(sec: int)
    ensures FourDigitSecond(sec) <==> 0 <= Civil(sec / SECONDS_PER_DAY).year <= 9999
  {
    hide Civil, DayNumber;
    var date := Civil(sec / SECONDS_PER_DAY);
    assert DayNumber(0, 1, 1) == -366 && DayNumber(10000, 1, 1) == 3_652_059 by {
      RangeEnds();
    }
    var start, end := Date(0, 1, 1), Date(10000, 1, 1);
    if Earlier(date, start) {
      DayNumberOrders(date, start);
    } else if Earlier(start, date) {
      DayNumberOrders(start, date);
    }
    if Earlier(date, end) {
      DayNumberOrders(date, end);
    } else if Earlier(end, date) {
      DayNumberOrders(end, date);
    }
  }

  lemma RangeEnds()
    ensures DayNumber(0, 1, 1) == -366 && DayNumber(10000, 1, 1) == 3_652_059
  {
  }

  function WholeSecond(t: int): int {
    t / SECOND
  }

  function Nanos(t: int): nat {
    t % SECOND
  }

  function DateTimeFields(sec: int): seq<Field>
    requires FourDigitSecond(sec)
  {
    YearInRange(sec);
    var date, s := Civil(sec / SECONDS_PER_DAY), sec % SECONDS_PER_DAY;
    [Field(date.year, 4, "-"), Field(date.month, 2, "-"), Field(date.day, 2, "T"),
     Field(s / 3600, 2, ":"), Field(s / 60 % 60, 2, ":"), Field(s % 60, 2, "")]
  }

  /** The fraction's digits without trailing zeros; empty for a whole second. */
  function Fraction(nanos: nat): string {
    TrimZeros(Digits(nanos, 9))
  }

  function TrimZeros(s: string): (r: string)
    ensures |r| <= |s| && r == s[..|r|]
    ensures forall i :: |r| <= i < |s| ==> s[i] == '0'
    ensures r != "" ==> r[|r| - 1] != '0'
  {
    if s != "" && s[|s| - 1] == '0' then TrimZeros(s[..|s| - 1]) else s
  }

  function Suffix(nanos: nat): string {
    (if nanos == 0 then "" else "." + Fraction(nanos)) + "Z"
  }

  function FormatTime(t: int): string
    requires FourDigitYear(t)
  {
    Text(DateTimeFields(WholeSecond(t))) + Suffix(Nanos(t))
  }

  // ----- order -----

  lemma SecondsOrder(s1: int, s2: int)
    requires FourDigitSecond(s1) && FourDigitSecond(s2)
    requires s1 < s2
    ensures SameShape(DateTimeFields(s1), DateTimeFields(s2))
    ensures ValuesLess(DateTimeFields(s1), DateTimeFields(s2)) && !ValuesLess(DateTimeFields(s2), DateTimeFields(s1))
    ensures DateTimeFields(s1) != DateTimeFields(s2)
  {
    Shapes(s1, s2);
    if s1 / SECONDS_PER_DAY < s2 / SECONDS_PER_DAY {
      DayDecides(s1, s2);
    } else {
      ClockDecides(s1, s2);
    }
    hide DateTimeFields, Civil;
    Same(DateTimeFields(s1));
  }

  lemma DayDecides(s1: int, s2: int)
    requires FourDigitSecond(s1) && FourDigitSecond(s2)
    requires s1 / SECONDS_PER_DAY < s2 / SECONDS_PER_DAY
    ensures ValuesLess(DateTimeFields(s1), DateTimeFields(s2)) && !ValuesLess(DateTimeFields(s2), DateTimeFields(s1))
  {
    CivilAscends(s1 / SECONDS_PER_DAY, s2 / SECONDS_PER_DAY);
    hide Civil, ValuesLess;
    Unfold3(DateTimeFields(s1), DateTimeFields(s2));
    Unfold3(DateTimeFields(s2), DateTimeFields(s1));
  }

  lemma ClockDecides(s1: int, s2: int)
    requires FourDigitSecond(s1) && FourDigitSecond(s2)
    requires s1 < s2 && s2 / SECONDS_PER_DAY <= s1 / SECONDS_PER_DAY
    ensures ValuesLess(DateTimeFields(s1), DateTimeFields(s2)) && !ValuesLess(DateTimeFields(s2), DateTimeFields(s1))
  {
    hide Civil, ValuesLess;
    assert s1 / SECONDS_PER_DAY == s2 / SECONDS_PER_DAY;
    ClockOrder(s1 % SECONDS_PER_DAY, s2 % SECONDS_PER_DAY);
    Unfold6(DateTimeFields(s1), DateTimeFields(s2));
    Unfold6(DateTimeFields(s2), DateTimeFields(s1));
  }

  lemma Shapes(s1: int, s2: int)
    requires FourDigitSecond(s1) && FourDigitSecond(s2)
    ensures SameShape(DateTimeFields(s1), DateTimeFields(s2))
  {
    hide Civil;
    YearInRange(s1);
    YearInRange(s2);
    assert Pow10(4) == 10000 by {
      assert Pow10(2) == 100;
    }
    assert Pow10(2) == 100;
  }

  /** Hours, minutes and seconds of the day order as the second of the day. */
  lemma ClockOrder(a: int, b: int)
    requires 0 <= a < b < SECONDS_PER_DAY
    ensures a / 3600 < b / 3600
            || (a / 3600 == b / 3600 && a / 60 % 60 < b / 60 % 60)
            || (a / 3600 == b / 3600 && a / 60 % 60 == b / 60 % 60 && a % 60 < b % 60)
  {
    assert a == 3600 * (a / 3600) + 60 * (a / 60 % 60) + a % 60;
    assert b == 3600 * (b / 3600) + 60 * (b / 60 % 60) + b % 60;
  }

  lemma Unfold3(f: seq<Field>, g: seq<Field>)
    requires |f| == |g| && 3 <= |f|
    ensures ValuesLess(f, g) <==>
            || f[0].value < g[0].value
            || (f[0].value == g[0].value && f[1].value < g[1].value)
            || (f[0].value == g[0].value && f[1].value == g[1].value && f[2].value < g[2].value)
            || (f[0].value == g[0].value && f[1].value == g[1].value && f[2].value == g[2].value
                && ValuesLess(f[3..], g[3..]))
  {
    assert f[1..][1..] == f[2..] && g[1..][1..] == g[2..];
    assert f[2..][1..] == f[3..] && g[2..][1..] == g[3..];
    assert ValuesLess(f[2..], g[2..]) <==>
           f[2].value < g[2].value || (f[2].value == g[2].value && ValuesLess(f[3..], g[3..]));
    assert ValuesLess(f[1..], g[1..]) <==>
           f[1].value < g[1].value || (f[1].value == g[1].value && ValuesLess(f[2..], g[2..]));
  }

  lemma Unfold6(f: seq<Field>, g: seq<Field>)
    requires |f| == |g| == 6 && forall i :: 0 <= i < 3 ==> f[i].value == g[i].value
    ensures ValuesLess(f, g) <==>
            || f[3].value < g[3].value
            || (f[3].value == g[3].value && f[4].value < g[4].value)
            || (f[3].value == g[3].value && f[4].value == g[4].value && f[5].value < g[5].value)
  {
    Unfold3(f, g);
    Unfold3(f[3..], g[3..]);
  }

  ghost predicate ProperPrefix(a: string, b: string) {
    |a| < |b| && a == b[..|a|]
  }

  /** a and b agree before position k, where a is smaller. */
  ghost predicate DiffersAt(a: string, b: string, k: nat) {
    k < |a| && k < |b| && a[..k] == b[..k] && a[k] < b[k]
  }

  /** Where two digit strings of different numbers first differ. */
  lemma {:induction false} DigitsDiffer(n1: nat, n2: nat, w: nat) returns (k: nat)
    requires n1 < n2 < Pow10(w)
    ensures DiffersAt(Digits(n1, w), Digits(n2, w), k)
    decreases w
  {
    var a, b := Digits(n1 / 10, w - 1), Digits(n2 / 10, w - 1);
    if n1 / 10 == n2 / 10 {
      k := w - 1;
      assert Digits(n1, w)[..k] == a && Digits(n2, w)[..k] == b;
    } else {
      k := DigitsDiffer(n1 / 10, n2 / 10, w - 1);
      assert Digits(n1, w)[..k] == a[..k] && Digits(n2, w)[..k] == b[..k];
    }
  }

  /** Within a second, the smaller fraction is a proper prefix of the larger or loses at some digit. */
  lemma FractionsDiffer(n1: nat, n2: nat)
    requires n1 < n2 < SECOND
    ensures !ProperPrefix(Fraction(n2), Fraction(n1)) && Fraction(n2) != ""
    ensures ProperPrefix(Fraction(n1), Fraction(n2)) || exists k :: DiffersAt(Fraction(n1), Fraction(n2), k)
  {
    assert Pow10(9) == SECOND by {
      assert Pow10(3) == 1000;
      assert Pow10(6) == 1000 * Pow10(3);
    }
    var k := DigitsDiffer(n1, n2, 9);
    TrimmedDiffer(Digits(n1, 9), Digits(n2, 9), k);
  }

  lemma TrimmedDiffer(d1: string, d2: string, k: nat)
    requires |d1| == |d2| && k < |d1| && d1[..k] == d2[..k] && d1[k] < d2[k]
    requires forall i :: 0 <= i < |d1| ==> '0' <= d1[i]
    ensures !ProperPrefix(TrimZeros(d2), TrimZeros(d1)) && TrimZeros(d2) != ""
    ensures ProperPrefix(TrimZeros(d1), TrimZeros(d2)) || DiffersAt(TrimZeros(d1), TrimZeros(d2), k)
  {
    hide TrimZeros;
    var f1, f2 := TrimZeros(d1), TrimZeros(d2);
    assert k < |f2|;
    if k < |f1| {
      assert f1[..k] == d1[..k] && f2[..k] == d2[..k];
    } else {
      assert f1 == d1[..k][..|f1|];
      assert f2[..|f1|] == d2[..k][..|f1|];
    }
  }

  /** Whole seconds print no fraction at all. */
  lemma ZeroFraction(n: nat)
    requires n < SECOND
    ensures Fraction(n) == "" <==> n == 0
  {
    if n == 0 {
      AllZeros(9);
      AllTrimmed(Digits(0, 9));
    } else {
      FractionsDiffer(0, n);
    }
  }

  lemma {:induction false} AllZeros(w: nat)
    ensures forall i :: 0 <= i < w ==> Digits(0, w)[i] == '0'
  {
    if w > 0 {
      AllZeros(w - 1);
    }
  }

  lemma AllTrimmed(s: string)
    requires forall i :: 0 <= i < |s| ==> s[i] == '0'
    ensures TrimZeros(s) == ""
  {
  }

  function SuffixText(f: string): string {
    (if f == "" then "" else "." + f) + "Z"
  }

  ghost predicate AllDigits(f: string) {
    forall i :: 0 <= i < |f| ==> '0' <= f[i] <= '9'
  }

  /** The letter Z sorts after every digit and after the dot, so a proper prefix sorts later. */
  lemma PrefixSortsLater(f1: string, f2: string)
    requires ProperPrefix(f1, f2) && AllDigits(f2)
    ensures Less(SuffixText(f2), SuffixText(f1)) && !Less(SuffixText(f1), SuffixText(f2))
  {
    hide Less;
    var s1, s2 := SuffixText(f1), SuffixText(f2);
    if f1 == "" {
      LessAt(s2, s1, 0);
    } else {
      assert s1[..1 + |f1|] == "." + f1;
      assert s2[..1 + |f1|] == "." + f2[..|f1|];
      LessAt(s2, s1, 1 + |f1|);
    }
  }

  lemma DigitSortsFirst(f1: string, f2: string, k: nat)
    requires DiffersAt(f1, f2, k)
    ensures Less(SuffixText(f1), SuffixText(f2)) && !Less(SuffixText(f2), SuffixText(f1))
    ensures !ProperPrefix(f1, f2)
  {
    hide Less;
    var s1, s2 := SuffixText(f1), SuffixText(f2);
    assert s1[..1 + k] == "." + f1[..k];
    assert s2[..1 + k] == "." + f2[..k];
    LessAt(s1, s2, 1 + k);
  }

  lemma SuffixOrder(n1: nat, n2: nat)
    requires n1 < n2 < SECOND
    ensures if ProperPrefix(Fraction(n1), Fraction(n2))
            then Less(Suffix(n2), Suffix(n1)) && !Less(Suffix(n1), Suffix(n2))
            else Less(Suffix(n1), Suffix(n2)) && !Less(Suffix(n2), Suffix(n1))
  {
    FractionsDiffer(n1, n2);
    ZeroFraction(n1);
    ZeroFraction(n2);
    hide Less, SuffixText;
    var f1, f2 := Fraction(n1), Fraction(n2);
    assert Suffix(n1) == SuffixText(f1) && Suffix(n2) == SuffixText(f2) by {
      SuffixIsText(n1);
      SuffixIsText(n2);
    }
    if ProperPrefix(f1, f2) {
      PrefixSortsLater(f1, f2);
    } else {
      var k :| DiffersAt(f1, f2, k);
      DigitSortsFirst(f1, f2, k);
    }
  }

  lemma SuffixIsText(n: nat)
    requires n < SECOND
    ensures Suffix(n) == SuffixText(Fraction(n))
  {
    ZeroFraction(n);
  }

  /**
   * The byte order of stored timestamps: the time order whenever the whole seconds differ; within
   * one second, reversed exactly when one trimmed fraction is a proper prefix of the other.
   */
  lemma KeyOrder(t1: int, t2: int)
    requires FourDigitYear(t1) && FourDigitYear(t2) && t1 < t2
    ensures WholeSecond(t1) < WholeSecond(t2) ==>
            Less(FormatTime(t1), FormatTime(t2)) && !Less(FormatTime(t2), FormatTime(t1))
    ensures WholeSecond(t1) == WholeSecond(t2) ==>
              if ProperPrefix(Fraction(Nanos(t1)), Fraction(Nanos(t2)))
              then Less(FormatTime(t2), FormatTime(t1)) && !Less(FormatTime(t1), FormatTime(t2))
              else Less(FormatTime(t1), FormatTime(t2)) && !Less(FormatTime(t2), FormatTime(t1))
    ensures WholeSecond(t1) <= WholeSecond(t2)
    ensures WholeSecond(t1) == WholeSecond(t2) ==> !ProperPrefix(Fraction(Nanos(t2)), Fraction(Nanos(t1)))
  {
    if WholeSecond(t1) < WholeSecond(t2) {
      SecondsDecide(t1, t2);
    } else {
      FractionDecides(t1, t2);
    }
  }

  /** u is later than t and yet sorts before it: same second, and t's trimmed fraction is a proper prefix of u's. */
  ghost predicate SortsBackwards(t: int, u: int) {
    t < u && WholeSecond(t) == WholeSecond(u) && ProperPrefix(Fraction(Nanos(t)), Fraction(Nanos(u)))
  }

  /** The stored text of a later instant is the smaller one exactly when the pair sorts backwards. */
  lemma BackwardsIff(t: int, u: int)
    requires FourDigitYear(t) && FourDigitYear(u) && t < u
    ensures Less(FormatTime(u), FormatTime(t)) <==> SortsBackwards(t, u)
    ensures Less(FormatTime(t), FormatTime(u)) <==> !SortsBackwards(t, u)
  {
    hide FormatTime, Less, Fraction, FourDigitYear;
    KeyOrder(t, u);
  }

  lemma SecondsDecide(t1: int, t2: int)
    requires FourDigitYear(t1) && FourDigitYear(t2) && WholeSecond(t1) < WholeSecond(t2)
    ensures Less(FormatTime(t1), FormatTime(t2)) && !Less(FormatTime(t2), FormatTime(t1))
  {
    hide Civil, Suffix, ValuesLess, Less, Text, DateTimeFields;
    SecondsOrder(WholeSecond(t1), WholeSecond(t2));
    var f, g := DateTimeFields(WholeSecond(t1)), DateTimeFields(WholeSecond(t2));
    TextOrder(f, Suffix(Nanos(t1)), g, Suffix(Nanos(t2)));
    TextOrder(g, Suffix(Nanos(t2)), f, Suffix(Nanos(t1)));
  }

  lemma FractionDecides(t1: int, t2: int)
    requires FourDigitYear(t1) && FourDigitYear(t2) && t1 < t2 && WholeSecond(t2) <= WholeSecond(t1)
    ensures WholeSecond(t1) == WholeSecond(t2) && Nanos(t1) < Nanos(t2)
    ensures !ProperPrefix(Fraction(Nanos(t2)), Fraction(Nanos(t1)))
    ensures if ProperPrefix(Fraction(Nanos(t1)), Fraction(Nanos(t2)))
            then Less(FormatTime(t2), FormatTime(t1)) && !Less(FormatTime(t1), FormatTime(t2))
            else Less(FormatTime(t1), FormatTime(t2)) && !Less(FormatTime(t2), FormatTime(t1))
  {
    hide Civil, Suffix, ValuesLess, Less, Text, DateTimeFields, Fraction;
    SuffixOrder(Nanos(t1), Nanos(t2));
    FractionsDiffer(Nanos(t1), Nanos(t2));
    Shapes(WholeSecond(t1), WholeSecond(t2));
    var f := DateTimeFields(WholeSecond(t1));
    Same(f);
    TextOrder(f, Suffix(Nanos(t1)), f, Suffix(Nanos(t2)));
    TextOrder(f, Suffix(Nanos(t2)), f, Suffix(Nanos(t1)));
  }

  lemma {:induction false} Same(f: seq<Field>)
    ensures !ValuesLess(f, f)
  {
    if f != [] {
      Same(f[1..]);
    }
  }

  /** The anomaly is real: half past a second is listed before the second itself. */
  lemma HalfSecondSortsFirst(t: int)
    requires FourDigitYear(t) && Nanos(t) == 0
    ensures FourDigitYear(t + 500_000_000)
    ensures Less(FormatTime(t + 500_000_000), FormatTime(t))
  {
    var u := t + 500_000_000;
    assert WholeSecond(u) == WholeSecond(t) && Nanos(u) == 500_000_000;
    ZeroFraction(0);
    ZeroFraction(500_000_000);
    KeyOrder(t, u);
  }
}
