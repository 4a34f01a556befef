/** Lists stored in one text column: strings by newline, integers by comma. */
module ListColumns {
  import opened Domain
  import opened Strings

  function JoinStrings(values: seq<string>): string {
    Join(values, "\n")
  }

  /** nil and the empty list are one. */
  function SplitStrings(s: string): seq<string> {
    if s == "" then [] else Split(s, '\n')
  }

  /** A string list survives storage exactly when no element has a newline and it is not the one empty string. */
  lemma StringListRoundTrip(values: seq<string>)
    ensures SplitStrings(JoinStrings(values)) == values <==>
            values != [""] && forall i :: 0 <= i < |values| ==> '\n' !in values[i]
  {
    var text := JoinStrings(values);
    if values != [] && text != "" {
      if forall i :: 0 <= i < |values| ==> '\n' !in values[i] {
        SplitInvertsJoin(values, '\n');
      } else {
        PiecesAreClean(text, '\n');
      }
    }
  }

  // ----- integers -----

  const MIN_INT := -0x8000_0000_0000_0000
  const MAX_INT := 0x7fff_ffff_ffff_ffff

  predicate IsInt(n: int) {
    MIN_INT <= n <= MAX_INT
  }

  function Decimal(n: nat): (s: string)
    ensures s != ""
  {
    if n < 10 then [Digit(n)] else Decimal(n / 10) + [Digit(n % 10)]
  }

  function Digit(d: nat): char
    requires d < 10
  {
    '0' + d as char
  }

  /** strconv.Itoa. */
  function Itoa(n: int): string {
    if n < 0 then "-" + Decimal(-n) else Decimal(n)
  }

  function ParseDigits(s: string): Option<nat> {
    if s == "" then Some(0)
    else
      var n, c := |s| - 1, s[|s| - 1];
      match ParseDigits(s[..n])
      case None => None
      case Some(v) => if '0' <= c <= '9' then Some(10 * v + (c - '0') as nat) else None
  }

  /** strconv.Atoi: an optional sign, at least one digit, and a value in range. */
  function Atoi(s: string): Option<int> {
    var digits := if s != "" && (s[0] == '-' || s[0] == '+') then s[1..] else s;
    if digits == "" then None
    else
      match ParseDigits(digits)
      case None => None
      case Some(v) =>
        var n := if s[0] == '-' then 0 - v else v;
        if IsInt(n) then Some(n) else None
  }

  function JoinInts(values: seq<int>): string {
    Join(Printed(values), ",")
  }

  function Printed(values: seq<int>): (parts: seq<string>)
    ensures |parts| == |values|
  {
    seq(|values|, i requires 0 <= i < |values| => Itoa(values[i]))
  }

  function ParseAll(parts: seq<string>): Option<seq<int>> {
    if parts == [] then Some([])
    else
      match ParseAll(parts[..|parts| - 1])
      case None => None
      case Some(values) =>
        match Atoi(parts[|parts| - 1])
        case None => None
        case Some(v) => Some(values + [v])
  }

  /** None stands for the parse error. */
  function SplitInts(s: string): Option<seq<int>> {
    if s == "" then Some([]) else ParseAll(Split(s, ','))
  }

  lemma {:induction false} DecimalParses(n: nat)
    ensures ParseDigits(Decimal(n)) == Some(n)
    ensures forall i :: 0 <= i < |Decimal(n)| ==> '0' <= Decimal(n)[i] <= '9'
  {
    if n < 10 {
      assert Decimal(n)[..0] == "";
      assert ParseDigits("") == Some(0);
    } else {
      DecimalParses(n / 10);
      assert Decimal(n)[..|Decimal(n)| - 1] == Decimal(n / 10);
    }
  }

  /** Printed text reads back as the number within 64 bits and is refused beyond. */
  lemma ItoaParses(n: int)
    ensures Atoi(Itoa(n)) == if IsInt(n) then Some(n) else None
  {
    hide Decimal, ParseDigits, IsInt;
    if n < 0 {
      DecimalParses(-n);
      assert Itoa(n)[1..] == Decimal(-n);
    } else {
      DecimalParses(n);
      assert '0' <= Decimal(n)[0] <= '9';
    }
  }

  lemma ItoaHasNoComma(n: int)
    ensures Itoa(n) != "" && ',' !in Itoa(n)
  {
    DecimalParses(if n < 0 then -n else n);
    hide Decimal, ParseDigits;
  }

  lemma {:induction false} PrintedParses(values: seq<int>)
    requires forall i :: 0 <= i < |values| ==> IsInt(values[i])
    ensures ParseAll(Printed(values)) == Some(values)
  {
    hide Itoa, Atoi, IsInt;
    if values != [] {
      var n := |values| - 1;
      PrintedParses(values[..n]);
      assert Printed(values)[..n] == Printed(values[..n]);
      ItoaParses(values[n]);
      assert values == values[..n] + [values[n]];
    }
  }

  /** Every list of 64-bit integers survives storage. */
  lemma IntListRoundTrip(values: seq<int>)
    requires forall i :: 0 <= i < |values| ==> IsInt(values[i])
    ensures SplitInts(JoinInts(values)) == Some(values)
  {
    hide Itoa, Atoi, IsInt;
    if values != [] {
      forall i | 0 <= i < |values|
        ensures Itoa(values[i]) != "" && ',' !in Itoa(values[i])
      {
        ItoaHasNoComma(values[i]);
      }
      SplitInvertsJoin(Printed(values), ',');
      PrintedParses(values);
      assert JoinInts(values) == "" ==> Split(JoinInts(values), ',') == [""];
      assert Printed(values)[0] != "";
    }
  }
}
