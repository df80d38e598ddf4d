/**
 * Invoice numbers: a series, the year and a zero-padded counter, the next one
 * found by taking the greatest string of the year and adding one.
 */
module InvoiceNumbers {
  import opened Options

  // ---------------------------------------------------------------------
  // Printing and parsing
  // ---------------------------------------------------------------------

  predicate IsDigit(c: char) { '0' <= c <= '9' }

  function DigitOf(c: char): nat
    requires IsDigit(c)
  {
    c as int - '0' as int
  }

  function Dec(n: nat): string {
    var d := [('0' as int + n % 10) as char];
    if n < 10 then d else Dec(n / 10) + d
  }

  function Zeros(n: nat): string { if n == 0 then "" else "0" + Zeros(n - 1) }

  function PadStart4(s: string): string { if |s| < 4 then Zeros(4 - |s|) + s else s }

  function Print(n: nat): string { PadStart4(Dec(n)) }

  predicate AllDigits(s: string) { forall k :: 0 <= k < |s| ==> IsDigit(s[k]) }

  function Pow10(n: nat): nat { if n == 0 then 1 else 10 * Pow10(n - 1) }

  function Value(s: string): nat
    requires AllDigits(s)
  {
    if s == "" then 0 else 10 * Value(s[..|s| - 1]) + DigitOf(s[|s| - 1])
  }

  function DigitRun(s: string): (n: nat)
    ensures n <= |s| && AllDigits(s[..n])
  {
    if s == "" || !IsDigit(s[0]) then 0 else 1 + DigitRun(s[1..])
  }

  /** The integer a string starts with, if it starts with a digit. */
  function ParseInt(s: string): Option<nat> {
    if DigitRun(s) == 0 then None else Some(Value(s[..DigitRun(s)]))
  }

  lemma {:induction false} DecMeans(n: nat)
    ensures |Dec(n)| > 0 && AllDigits(Dec(n)) && Value(Dec(n)) == n
  {
    if n >= 10 {
      DecMeans(n / 10);
      assert Dec(n)[..|Dec(n)| - 1] == Dec(n / 10);
    } else {
      assert Dec(n)[..0] == "";
    }
  }

  lemma {:induction false} DecLength(n: nat, digits: nat)
    requires n < Pow10(digits) && digits > 0
    ensures |Dec(n)| <= digits
  {
    if digits == 1 {
      assert Pow10(1) == 10 * Pow10(0);
    } else if n >= 10 {
      DecLength(n / 10, digits - 1);
    }
  }

  lemma {:induction false} ZerosAreNothing(n: nat, s: string)
    requires AllDigits(s)
    ensures |Zeros(n) + s| == n + |s| && AllDigits(Zeros(n) + s) && Value(Zeros(n) + s) == Value(s)
  {
    if n == 0 {
      assert Zeros(0) + s == s;
    } else {
      ZerosAreNothing(n - 1, s);
      assert Zeros(n) + s == "0" + (Zeros(n - 1) + s);
      ValueFromFirst("0" + (Zeros(n - 1) + s));
    }
  }

  lemma {:induction false} ValueBound(s: string)
    requires AllDigits(s)
    ensures Value(s) < Pow10(|s|)
  {
    if s != "" { ValueBound(s[..|s| - 1]); }
  }

  lemma TimesTen(d: nat, p: nat, v: nat)
    ensures 10 * (d * p + v) == d * (10 * p) + 10 * v
  {
  }

  /** The value of a numeral by its first digit. */
  lemma {:induction false} ValueFromFirst(s: string)
    requires s != "" && AllDigits(s)
    ensures Value(s) == DigitOf(s[0]) * Pow10(|s| - 1) + Value(s[1..])
  {
    var n := |s| - 1;
    if n > 0 {
      var init, tail := s[..n], s[1..];
      ValueFromFirst(init);
      assert init[1..] == tail[..n - 1];
      assert tail[n - 1] == s[n];
      var d, p, v := DigitOf(s[0]), Pow10(n - 1), Value(tail[..n - 1]);
      assert Value(init) == d * p + v;
      TimesTen(d, p, v);
    }
  }

  lemma {:induction false} DigitRunOfAll(s: string)
    requires AllDigits(s)
    ensures DigitRun(s) == |s|
  {
    if s != "" { DigitRunOfAll(s[1..]); }
  }

  lemma PrintMeans(n: nat)
    ensures AllDigits(Print(n)) && Value(Print(n)) == n && |Print(n)| >= 4
  {
    DecMeans(n);
    if |Dec(n)| < 4 { ZerosAreNothing(4 - |Dec(n)|, Dec(n)); }
  }

  /** Every printed number parses back to itself. */
  lemma ParseInvertsPrint(n: nat)
    ensures ParseInt(Print(n)) == Some(n)
  {
    PrintMeans(n);
    DigitRunOfAll(Print(n));
    assert Print(n)[..|Print(n)|] == Print(n);
  }

  // ---------------------------------------------------------------------
  // String order
  // ---------------------------------------------------------------------

  predicate Before(a: string, b: string) {
    b != "" && (a == "" || a[0] < b[0] || (a[0] == b[0] && Before(a[1..], b[1..])))
  }

  lemma {:induction false} PrefixDoesNotMatter(p: string, a: string, b: string)
    ensures Before(p + a, p + b) <==> Before(a, b)
  {
    if p == "" {
      assert p + a == a && p + b == b;
    } else {
      PrefixDoesNotMatter(p[1..], a, b);
      assert (p + a)[1..] == p[1..] + a && (p + b)[1..] == p[1..] + b;
    }
  }

  lemma {:induction false} EqualLengthOrder(a: string, b: string)
    requires |a| == |b| && AllDigits(a) && AllDigits(b)
    ensures Before(a, b) <==> Value(a) < Value(b)
  {
    if a != "" {
      ValueFromFirst(a);
      ValueFromFirst(b);
      ValueBound(a[1..]);
      ValueBound(b[1..]);
      EqualLengthOrder(a[1..], b[1..]);
      var p := Pow10(|a| - 1);
      Carry(DigitOf(a[0]), DigitOf(b[0]), p, Value(a[1..]), Value(b[1..]));
    }
  }

  lemma {:induction false} Carry(x: nat, y: nat, p: nat, u: nat, v: nat)
    requires u < p && v < p
    ensures x * p + u < y * p + v <==> x < y || (x == y && u < v)
  {
    if x < y { assert (x + 1) * p <= y * p; }
    if y < x { assert (y + 1) * p <= x * p; }
  }

  /** Up to 9999 the strings sort as the numbers do. */
  lemma PaddedOrder(m: nat, n: nat)
    requires m < 10000 && n < 10000
    ensures Before(Print(m), Print(n)) <==> m < n
  {
    FourDigits(m);
    FourDigits(n);
    PrintMeans(m);
    PrintMeans(n);
    EqualLengthOrder(Print(m), Print(n));
  }

  lemma FourDigits(n: nat)
    requires n < 10000
    ensures |Print(n)| == 4
  {
    assert Pow10(4) == 10000 by { assert Pow10(1) == 10 && Pow10(2) == 100 && Pow10(3) == 1000; }
    DecLength(n, 4);
    DecMeans(n);
    if |Dec(n)| < 4 { ZerosAreNothing(4 - |Dec(n)|, Dec(n)); }
  }

  /** The fifth digit breaks the order. */
  lemma TenThousandSortsLow()
    ensures Print(10000) == "10000" && Print(9999) == "9999" && Before(Print(10000), Print(9999))
  {
    assert Dec(10000) == "10000" by {
      assert Dec(1) == "1" && Dec(10) == "10" && Dec(100) == "100" && Dec(1000) == "1000";
    }
    assert Dec(9999) == "9999" by { assert Dec(9) == "9" && Dec(99) == "99" && Dec(999) == "999"; }
  }

  // ---------------------------------------------------------------------
  // The next number
  // ---------------------------------------------------------------------

  function Prefix(series: string, year: nat): string { series + Dec(year) + "-" }

  function Matching(numbers: seq<string>, prefix: string): seq<string> {
    if numbers == [] then []
    else
      var n := |numbers| - 1;
      Matching(numbers[..n], prefix) + if prefix <= numbers[n] then [numbers[n]] else []
  }

  /** The last of the strings in string order. */
  function Greatest(xs: seq<string>): Option<string> {
    if xs == [] then None
    else
      var n := |xs| - 1;
      var before := Greatest(xs[..n]);
      if before.Some? && Before(xs[n], before.value) then before else Some(xs[n])
  }

  function Slice(s: string, from: nat): string { if from <= |s| then s[from..] else "" }

  function Generate(numbers: seq<string>, prefix: string): string {
    var last := Greatest(Matching(numbers, prefix));
    var parsed := if last.Some? then ParseInt(Slice(last.value, |prefix|)) else None;
    prefix + Print(if parsed.Some? then parsed.value + 1 else 1)
  }

  /** One creation; the unique index refuses a number already there. */
  function Issue(numbers: seq<string>, prefix: string): Option<string> {
    var number := Generate(numbers, prefix);
    if number in numbers then None else Some(number)
  }

  function Run(series: string, years: seq<nat>): seq<string> {
    if years == [] then []
    else
      var numbers := Run(series, years[..|years| - 1]);
      var number := Issue(numbers, Prefix(series, years[|years| - 1]));
      if number.Some? then numbers + [number.value] else numbers
  }

  function CallsIn(years: seq<nat>, year: nat): nat {
    if years == [] then 0
    else CallsIn(years[..|years| - 1], year) + if years[|years| - 1] == year then 1 else 0
  }

  /** The first `n` numbers of a year. */
  function Numbers(prefix: string, n: nat): seq<string> {
    if n == 0 then [] else Numbers(prefix, n - 1) + [prefix + Print(n)]
  }

  function Min(a: nat, b: nat): nat { if a < b then a else b }

  lemma {:induction false} GreatestOf(prefix: string, n: nat)
    requires 1 <= n <= 9999
    ensures Greatest(Numbers(prefix, n)) == Some(prefix + Print(n))
  {
    var xs := Numbers(prefix, n);
    assert xs[..|xs| - 1] == Numbers(prefix, n - 1);
    if n > 1 {
      GreatestOf(prefix, n - 1);
      PrefixDoesNotMatter(prefix, Print(n), Print(n - 1));
      PaddedOrder(n, n - 1);
    }
  }

  /** With all ten thousand issued, the greatest string is still the one of 9999. */
  lemma GreatestStays(prefix: string)
    ensures Greatest(Numbers(prefix, 10000)) == Some(prefix + Print(9999))
  {
    GreatestOf(prefix, 9999);
    TenThousandSortsLow();
    PrefixDoesNotMatter(prefix, Print(10000), Print(9999));
    var xs := Numbers(prefix, 10000);
    assert xs[..|xs| - 1] == Numbers(prefix, 9999);
  }

  lemma NextAfter(prefix: string, numbers: seq<string>, n: nat)
    requires Matching(numbers, prefix) == Numbers(prefix, n) && n <= 10000
    ensures Generate(numbers, prefix) == prefix + Print(Min(n + 1, 10000))
  {
    if n > 0 {
      var top := Min(n, 9999);
      if n == 10000 { GreatestStays(prefix); } else { GreatestOf(prefix, n); }
      assert Slice(prefix + Print(top), |prefix|) == Print(top);
      ParseInvertsPrint(top);
    }
  }

  lemma {:induction false} NumbersHold(prefix: string, n: nat, k: nat)
    requires 1 <= k
    ensures prefix + Print(k) in Numbers(prefix, n) <==> k <= n
  {
    if n > 0 {
      NumbersHold(prefix, n - 1, k);
      if prefix + Print(k) == prefix + Print(n) {
        assert (prefix + Print(k))[|prefix|..] == Print(k) && (prefix + Print(n))[|prefix|..] == Print(n);
        PrintMeans(k);
        PrintMeans(n);
      }
    }
  }

  lemma {:induction false} MatchingMeans(numbers: seq<string>, prefix: string, s: string)
    ensures s in Matching(numbers, prefix) <==> s in numbers && prefix <= s
  {
    if numbers != [] {
      var n := |numbers| - 1;
      assert numbers == numbers[..n] + [numbers[n]];
      MatchingMeans(numbers[..n], prefix, s);
    }
  }

  function FirstDash(s: string): nat { if s == "" || s[0] == '-' then 0 else 1 + FirstDash(s[1..]) }

  lemma {:induction false} DashAfter(d: string, rest: string)
    requires '-' !in d
    ensures FirstDash(d + "-" + rest) == |d|
  {
    if d != "" {
      DashAfter(d[1..], rest);
      assert (d + "-" + rest)[1..] == d[1..] + "-" + rest;
    }
  }

  lemma SameUpToDash(a: string, b: string, x: string, y: string)
    requires '-' !in a && '-' !in b && a + "-" + x == b + "-" + y
    ensures a == b
  {
    DashAfter(a, x);
    DashAfter(b, y);
    assert (a + "-" + x)[..|a|] == a && (b + "-" + y)[..|b|] == b;
  }

  lemma WithoutSeries(series: string, d: string, rest: string)
    ensures (series + d + "-" + rest)[|series|..] == d + "-" + rest
  {
  }

  /** Numbers of one year never look like another year's. */
  lemma YearsApart(series: string, y: nat, z: nat, rest: string)
    requires Prefix(series, y) <= Prefix(series, z) + rest
    ensures y == z
  {
    DecMeans(y);
    DecMeans(z);
    var p := Prefix(series, y);
    var full := Prefix(series, z) + rest;
    var more := full[|p|..];
    assert full == p + more;
    WithoutSeries(series, Dec(y), more);
    WithoutSeries(series, Dec(z), rest);
    SameUpToDash(Dec(y), Dec(z), more, rest);
  }

  /** After any run of creations, in whatever years, each year holds its first numbers, at most ten thousand. */
  lemma {:induction false} NumbersOverRuns(series: string, years: seq<nat>, year: nat)
    ensures Matching(Run(series, years), Prefix(series, year))
      == Numbers(Prefix(series, year), Min(CallsIn(years, year), 10000))
    decreases |years|, 0
  {
    if years != [] {
      var earlier, y := years[..|years| - 1], years[|years| - 1];
      var numbers := Run(series, earlier);
      NumbersOverRuns(series, earlier, year);
      if y == year {
        IssuedIff(series, earlier, year);
        var number := Issue(numbers, Prefix(series, year));
        if number.Some? { MatchingGrows(numbers, Prefix(series, year), number.value); }
      } else {
        var number := Issue(numbers, Prefix(series, y));
        if number.Some? {
          forall rest ensures !(Prefix(series, year) <= Prefix(series, y) + rest) {
            if Prefix(series, year) <= Prefix(series, y) + rest { YearsApart(series, year, y, rest); }
          }
          MatchingGrows(numbers, Prefix(series, year), number.value);
        }
      }
    }
  }

  lemma MatchingGrows(numbers: seq<string>, prefix: string, s: string)
    ensures Matching(numbers + [s], prefix) == Matching(numbers, prefix) + if prefix <= s then [s] else []
  {
    assert (numbers + [s])[..|numbers|] == numbers;
  }

  /**
   * A creation succeeds exactly if fewer than ten thousand were tried before in
   * its year, and then it gets the next number; afterwards every one is refused.
   */
  lemma {:induction false} IssuedIff(series: string, years: seq<nat>, year: nat)
    ensures var n := CallsIn(years, year);
      Issue(Run(series, years), Prefix(series, year))
      == if n < 10000 then Some(Prefix(series, year) + Print(n + 1)) else None
    decreases |years|, 1
  {
    var prefix := Prefix(series, year);
    var numbers := Run(series, years);
    var n := Min(CallsIn(years, year), 10000);
    NumbersOverRuns(series, years, year);
    NextAfter(prefix, numbers, n);
    var number := Generate(numbers, prefix);
    MatchingMeans(numbers, prefix, number);
    NumbersHold(prefix, n, Min(n + 1, 10000));
  }

  class InvoiceTable {
    const series: string
    var numbers: seq<string>

    constructor (series: string)
      ensures this.series == series && numbers == []
    {
      this.series, numbers := series, [];
    }

    /** The number part of creating an invoice in `year`. */
    method CreateNumber(year: nat) returns (number: Option<string>)
      modifies this
      ensures number == Issue(old(numbers), Prefix(series, year))
      ensures numbers == if number.Some? then old(numbers) + [number.value] else old(numbers)
    {
      var prefix := Prefix(series, year);
      var next := 1;
      var last := Greatest(Matching(numbers, prefix));
      if last.Some? {
        var parsed := ParseInt(Slice(last.value, |prefix|));
        if parsed.Some? { next := parsed.value + 1; }
      }
      var generated := prefix + Print(next);
      if generated in numbers { return None; }
      numbers := numbers + [generated];
      number := Some(generated);
    }
  }
}
