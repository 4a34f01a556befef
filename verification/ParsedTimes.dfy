/** Reading stored timestamps back: RFC 3339 text in UTC with an optional fraction. */
module ParsedTimes {
  import opened Domain
  import opened Calendar
  import opened Timestamps
  import opened ListColumns

  datatype Clock = Clock(year: nat, month: nat, day: nat, hour: nat, minute: nat, second: nat)

  predicate ValidClock(c: Clock) {
    ValidDate(c.year, c.month, c.day) && c.hour < 24 && c.minute < 60 && c.second < 60
  }

  /** The instant, in nanoseconds from the start of year 1. */
  function Instant(c: Clock, nanos: nat): int
    requires 1 <= c.month <= 12
  {
    (DayNumber(c.year, c.month, c.day) * 86_400 + c.hour * 3_600 + c.minute * 60 + c.second) * 1_000_000_000 + nanos
  }

  predicate Separated(s: string)
    requires |s| >= 20
  {
    s[4] == '-' && s[7] == '-' && s[10] == 'T' && s[13] == ':' && s[16] == ':'
  }

  function ParseClock(s: string): Option<Clock>
    requires |s| >= 20
  {
    match (ParseDigits(s[0..4]), ParseDigits(s[5..7]), ParseDigits(s[8..10]),
           ParseDigits(s[11..13]), ParseDigits(s[14..16]), ParseDigits(s[17..19]))
    case (Some(y), Some(m), Some(d), Some(h), Some(n), Some(c)) => Some(Clock(y, m, d, h, n, c))
    case _ => None
  }

  function Zeros(n: nat): string {
    seq(n, _ => '0')
  }

  /** Nothing, or a point and up to nine digits, and then the zone letter of UTC. */
  function ParseFraction(s: string): Option<nat> {
    if s == "Z" then Some(0)
    else if 3 <= |s| <= 11 && s[0] == '.' && s[|s| - 1] == 'Z' then
      ParseDigits(s[1..|s| - 1] + Zeros(11 - |s|))
    else None
  }

  /** time.Parse with the stored layout; None stands for its error. */
  function ParseTime(s: string): Option<int> {
    if |s| < 20 || !Separated(s) then None
    else
      match (ParseClock(s), ParseFraction(s[19..]))
      case (Some(c), Some(nanos)) => if ValidClock(c) then Some(Instant(c, nanos)) else None
      case _ => None
  }

  lemma {:induction false} DigitsParse(n: nat, w: nat)
    requires n < Pow10(w)
    ensures ParseDigits(Digits(n, w)) == Some(n)
    decreases w
  {
    if w > 0 {
      DigitsParse(n / 10, w - 1);
      assert Digits(n, w)[..w - 1] == Digits(n / 10, w - 1);
    }
  }

  /** Where the six fields and the rest stand in the text. */
  lemma Layout(a: string, b: string, c: string, d: string, e: string, f: string, rest: string, s: string)
    requires |a| == 4 && |b| == |c| == |d| == |e| == |f| == 2 && |rest| >= 1
    requires s == a + "-" + (b + "-" + (c + "T" + (d + ":" + (e + ":" + (f + "" + ""))))) + rest
    ensures |s| >= 20 && Separated(s) && s[19..] == rest
    ensures s[0..4] == a && s[5..7] == b && s[8..10] == c && s[11..13] == d && s[14..16] == e && s[17..19] == f
  {
    var t5 := f + "" + "" + rest;
    var t4, r4 := e + ":" + t5, e + ":" + (f + "" + "");
    var t3, r3 := d + ":" + t4, d + ":" + r4;
    var t2, r2 := c + "T" + t3, c + "T" + r3;
    var t1, r1 := b + "-" + t2, b + "-" + r2;
    assert r4 + rest == t4;
    assert r3 + rest == t3;
    assert r2 + rest == t2;
    assert r1 + rest == t1;
    assert s == a + "-" + t1;
    Peel(a, "-", t1, s);
    Peel(b, "-", t2, t1);
    Peel(c, "T", t3, t2);
    Peel(d, ":", t4, t3);
    Peel(e, ":", t5, t4);
    assert t5 == f + rest;
    assert s[5..] == t1 && s[8..] == t2 && s[11..] == t3 && s[14..] == t4 && s[17..] == t5;
    assert s[5..7] == t1[..2] && s[8..10] == t2[..2] && s[11..13] == t3[..2] && s[14..16] == t4[..2];
    assert s[17..19] == t5[..2] && s[19..] == t5[2..];
  }

  lemma Peel(x: string, sep: string, rest: string, s: string)
    requires s == x + sep + rest && |sep| == 1
    ensures s[..|x|] == x && s[|x|] == sep[0] && s[|x| + 1..] == rest
  {
  }

  lemma TextIsNested(f: seq<Field>)
    requires |f| == 6
    ensures Text(f) == D(f[0]) + f[0].sep + (D(f[1]) + f[1].sep + (D(f[2]) + f[2].sep
                       + (D(f[3]) + f[3].sep + (D(f[4]) + f[4].sep + (D(f[5]) + f[5].sep + "")))))
  {
    TextOnce(f);
    TextOnce(f[1..]);
    TextOnce(f[1..][1..]);
    TextOnce(f[1..][1..][1..]);
    TextOnce(f[1..][1..][1..][1..]);
    TextOnce(f[1..][1..][1..][1..][1..]);
    hide Text, Digits;
  }

  function D(f: Field): string {
    Digits(f.value, f.width)
  }

  lemma TextOnce(f: seq<Field>)
    requires f != []
    ensures Text(f) == D(f[0]) + f[0].sep + Text(f[1..])
    ensures |f| == 1 ==> Text(f[1..]) == ""
  {
  }

  lemma ClockParses(sec: int, rest: string)
    requires FourDigitSecond(sec) && |rest| >= 1
    ensures var s, date, n := Text(DateTimeFields(sec)) + rest, Civil(sec / SECONDS_PER_DAY), sec % SECONDS_PER_DAY;
            && |s| >= 20 && Separated(s) && s[19..] == rest && date.year >= 0
            && ParseClock(s) == Some(Clock(date.year, date.month, date.day, n / 3600, n / 60 % 60, n % 60))
  {
    YearInRange(sec);
    hide Civil, Digits, Text, ParseDigits;
    var f := DateTimeFields(sec);
    TextIsNested(f);
    Layout(D(f[0]), D(f[1]), D(f[2]), D(f[3]), D(f[4]), D(f[5]), rest, Text(f) + rest);
    Powers();
    DigitsParse(f[0].value, 4);
    DigitsParse(f[1].value, 2);
    DigitsParse(f[2].value, 2);
    DigitsParse(f[3].value, 2);
    DigitsParse(f[4].value, 2);
    DigitsParse(f[5].value, 2);
  }

  lemma Powers()
    ensures Pow10(2) == 100 && Pow10(4) == 10000 && Pow10(9) == SECOND
  {
    assert Pow10(4) == 100 * Pow10(2);
    assert Pow10(6) == 100 * Pow10(4);
    assert Pow10(9) == 1000 * Pow10(6);
  }

  /** Padding the trimmed fraction with zeros gives its nine digits back. */
  lemma FractionParses(nanos: nat)
    requires nanos < SECOND
    ensures ParseFraction(Suffix(nanos)) == Some(nanos) && |Suffix(nanos)| >= 1
  {
    hide Digits, ParseDigits, Fraction;
    if nanos == 0 {
      assert Suffix(nanos) == "Z";
    } else {
      ZeroFraction(nanos);
      Powers();
      DigitsParse(nanos, 9);
      Padded(nanos);
      FractionReads(Fraction(nanos));
    }
  }

  lemma FractionReads(f: string)
    requires 1 <= |f| <= 9
    ensures ParseFraction("." + f + "Z") == ParseDigits(f + Zeros(9 - |f|))
  {
    hide ParseDigits, Zeros;
    var s := "." + f + "Z";
    assert s[1..|s| - 1] == f;
    assert |s| >= 3 && "Z" != s;
  }

  lemma Padded(nanos: nat)
    ensures |Fraction(nanos)| <= 9 && Fraction(nanos) + Zeros(9 - |Fraction(nanos)|) == Digits(nanos, 9)
  {
    hide Digits, TrimZeros;
  }

  /** Every stored timestamp reads back as the instant it was made from. */
  lemma StoredTimeRoundTrip(t: int)
    requires FourDigitYear(t)
    ensures ParseTime(FormatTime(t)) == Some(t)
  {
    hide Civil, Text, DateTimeFields, Suffix, ParseFraction, ParseClock, DayNumber;
    var sec, nanos := WholeSecond(t), Nanos(t);
    FractionParses(nanos);
    ClockParses(sec, Suffix(nanos));
    var date, n := Civil(sec / SECONDS_PER_DAY), sec % SECONDS_PER_DAY;
    assert n == n / 3600 * 3600 + n / 60 % 60 * 60 + n % 60;
  }

  /** So two instants with the same text are the same. */
  lemma StoredTextIsUnique(t: int, u: int)
    requires FourDigitYear(t) && FourDigitYear(u) && FormatTime(t) == FormatTime(u)
    ensures t == u
  {
    StoredTimeRoundTrip(t);
    StoredTimeRoundTrip(u);
  }
}
