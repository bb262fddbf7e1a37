/** The per-batch download address
    `{base}{taxi}_tripdata_{year}-{month:02}.parquet`, and a parser that
    recovers the tag, year and month from it. */
module TripUrls {

  datatype Option<T> = None | Some(value: T)

  const Base: string := "https://d37ci6vzurychx.cloudfront.net/trip-data/"
  const Infix: string := "_tripdata_"
  const Suffix: string := ".parquet"

  predicate IsDigit(c: char)
  {
    '0' <= c <= '9'
  }

  predicate AllDigits(s: string)
  {
    forall i :: 0 <= i < |s| ==> IsDigit(s[i])
  }

  function DigitChar(d: nat): (c: char)
    requires d < 10
    ensures IsDigit(c) && c as int - '0' as int == d
  {
    ('0' as int + d) as char
  }

  /** `str(n)`: the decimal digits of `n`, most significant first, with no
      leading zero. */
  function Decimal(n: nat): (s: string)
    ensures |s| >= 1 && AllDigits(s)
    ensures |s| > 1 ==> s[0] != '0'
    decreases n
  {
    if n < 10 then [DigitChar(n)] else Decimal(n / 10) + [DigitChar(n % 10)]
  }

  /** The number a string of decimal digits denotes (leading zeros allowed). */
  function DecimalValue(s: string): nat
    requires AllDigits(s)
  {
    if s == [] then 0
    else DecimalValue(s[..|s| - 1]) * 10 + (s[|s| - 1] as int - '0' as int)
  }

  lemma {:induction false} DecimalRoundTrip(n: nat)
    ensures DecimalValue(Decimal(n)) == n
    decreases n
  {
    if n >= 10 {
      var s := Decimal(n);
      assert s[..|s| - 1] == Decimal(n / 10);
      DecimalRoundTrip(n / 10);
    }
  }

  /** Years 1000 to 9999 are written with exactly four digits. */
  lemma FourDigitYear(year: nat)
    requires 1000 <= year <= 9999
    ensures |Decimal(year)| == 4
  {
    var hundreds := year / 10;
    var tens := hundreds / 10;
    var thousands := tens / 10;
    assert 1 <= thousands < 10 && 10 <= tens && 100 <= hundreds && 1000 <= year;
    assert |Decimal(thousands)| == 1;
    assert |Decimal(tens)| == 2;
    assert |Decimal(hundreds)| == 3;
  }

  /** `f"{m:02}"` for a month: two digits, a leading zero below 10. */
  function TwoDigits(m: nat): (s: string)
    requires m < 100
    ensures |s| == 2 && AllDigits(s) && DecimalValue(s) == m
    ensures s[0] == '0' <==> m < 10
  {
    var s := [DigitChar(m / 10), DigitChar(m % 10)];
    assert s[..1][..0] == [];
    assert DecimalValue(s[..1]) == m / 10;
    s
  }

  /** The address fetched for one taxi tag and one month. */
  function TripUrl(taxi: string, year: nat, month: nat): string
    requires 1 <= month <= 12
  {
    Base + taxi + Infix + Decimal(year) + "-" + TwoDigits(month) + Suffix
  }

  datatype UrlParts = UrlParts(taxi: string, year: nat, month: nat)

  /** Length of the longest run of digits that ends `s`. */
  function TrailingDigits(s: string): (k: nat)
    ensures k <= |s| && AllDigits(s[|s| - k..])
  {
    if s == [] || !IsDigit(s[|s| - 1]) then 0 else 1 + TrailingDigits(s[..|s| - 1])
  }

  /** Reads an address back into its tag, year and month, or `None` when it
      does not have the shape `TripUrl` produces. */
  function ParseTripUrl(u: string): Option<UrlParts>
  {
    if |u| < |Base| + |Suffix| + 3 || u[..|Base|] != Base || u[|u| - |Suffix|..] != Suffix then None
    else ParseBody(u[|Base|..|u| - |Suffix|])
  }

  /** The part between the base and the suffix: `{head}-{mm}`. */
  function ParseBody(body: string): Option<UrlParts>
    requires |body| >= 3
  {
    var mm := body[|body| - 2..];
    if body[|body| - 3] != '-' || !AllDigits(mm) then None
    else
      var month := DecimalValue(mm);
      if !(1 <= month <= 12) then None
      else ParseHead(body[..|body| - 3], month)
  }

  /** The part before the month: `{taxi}_tripdata_{year}`. */
  function ParseHead(head: string, month: nat): Option<UrlParts>
  {
    var k := TrailingDigits(head);
    var rest := head[..|head| - k];
    if k == 0 || |rest| < |Infix| || rest[|rest| - |Infix|..] != Infix then None
    else Some(UrlParts(rest[..|rest| - |Infix|], DecimalValue(head[|head| - k..]), month))
  }

  lemma {:induction false} TrailingDigitsOfNumber(p: string, d: string)
    requires |p| > 0 && !IsDigit(p[|p| - 1]) && AllDigits(d)
    ensures TrailingDigits(p + d) == |d|
    decreases |d|
  {
    if d == [] {
      assert p + d == p;
    } else {
      assert (p + d)[..|p + d| - 1] == p + d[..|d| - 1];
      TrailingDigitsOfNumber(p, d[..|d| - 1]);
    }
  }

  lemma ParseHeadRoundTrip(taxi: string, year: nat, month: nat)
    ensures ParseHead(taxi + Infix + Decimal(year), month) == Some(UrlParts(taxi, year, month))
  {
    var digits := Decimal(year);
    var rest := taxi + Infix;
    var head := rest + digits;
    assert rest[|rest| - 1] == '_';
    TrailingDigitsOfNumber(rest, digits);
    assert head[..|head| - |digits|] == rest;
    assert head[|head| - |digits|..] == digits;
    assert rest[|rest| - |Infix|..] == Infix;
    assert rest[..|rest| - |Infix|] == taxi;
    DecimalRoundTrip(year);
  }

  /** The body parser strips `-{mm}` and hands the rest to `ParseHead`. */
  lemma ParseBodySplits(head: string, month: nat)
    requires 1 <= month <= 12
    ensures var body := head + "-" + TwoDigits(month);
      |body| >= 3 && ParseBody(body) == ParseHead(head, month)
  {
    var mm := TwoDigits(month);
    var body := head + "-" + mm;
    assert body[|body| - 2..] == mm;
    assert body[..|body| - 3] == head;
    assert body[|body| - 3] == '-';
  }

  /** Parsing an address recovers the tag, the year and the month it was
      built from, whatever characters the tag holds. */
  lemma ParseTripUrlRoundTrip(taxi: string, year: nat, month: nat)
    requires 1 <= month <= 12
    ensures ParseTripUrl(TripUrl(taxi, year, month)) == Some(UrlParts(taxi, year, month))
  {
    var u := TripUrl(taxi, year, month);
    var head := taxi + Infix + Decimal(year);
    var body := head + "-" + TwoDigits(month);
    assert u == Base + body + Suffix;
    assert u[..|Base|] == Base;
    assert u[|u| - |Suffix|..] == Suffix;
    assert u[|Base|..|u| - |Suffix|] == body;
    ParseBodySplits(head, month);
    ParseHeadRoundTrip(taxi, year, month);
  }

  /** Distinct (tag, year, month) triples give distinct addresses, so no two
      batches of one run download the same file. */
  lemma TripUrlInjective(t1: string, y1: nat, m1: nat, t2: string, y2: nat, m2: nat)
    requires 1 <= m1 <= 12 && 1 <= m2 <= 12
    ensures TripUrl(t1, y1, m1) == TripUrl(t2, y2, m2) <==> t1 == t2 && y1 == y2 && m1 == m2
  {
    ParseTripUrlRoundTrip(t1, y1, m1);
    ParseTripUrlRoundTrip(t2, y2, m2);
  }

  lemma Decimal2025()
    ensures Decimal(2025) == "2025"
  {
    assert DigitChar(0) == '0' && DigitChar(2) == '2' && DigitChar(5) == '5';
    assert Decimal(2) == "2";
    assert Decimal(20) == "20";
    assert Decimal(202) == "202";
  }

  /** The January 2025 yellow file: four-digit year, zero-padded month. */
  lemma YellowJanuary2025()
    ensures TripUrl("yellow", 2025, 1)
         == "https://d37ci6vzurychx.cloudfront.net/trip-data/yellow_tripdata_2025-01.parquet"
  {
    Decimal2025();
    assert TwoDigits(1) == "01" by {
      assert DigitChar(0) == '0' && DigitChar(1) == '1';
    }
  }
}
