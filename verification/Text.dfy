/** Substring search and decimal numbers, as the string library defines them. */
module Text {
  import opened Options

  predicate OccursAt(s: string, pat: string, i: int) {
    0 <= i && i + |pat| <= |s| && s[i..i + |pat|] == pat
  }

  ghost predicate Contains(s: string, pat: string) {
    exists i :: OccursAt(s, pat, i)
  }

  predicate EndsWith(s: string, suffix: string) {
    |suffix| <= |s| && s[|s| - |suffix|..] == suffix
  }

  /** The first occurrence at or behind position from. */
  function FindFrom(s: string, pat: string, from: nat): (r: Option<nat>)
    ensures r.Some? ==>
      from <= r.value && OccursAt(s, pat, r.value)
      && forall j :: from <= j < r.value ==> !OccursAt(s, pat, j)
    ensures r.None? ==> forall j :: from <= j ==> !OccursAt(s, pat, j)
    decreases |s| - from
  {
    if from + |pat| > |s| then None
    else if s[from..from + |pat|] == pat then Some(from)
    else FindFrom(s, pat, from + 1)
  }

  function Find(s: string, pat: string): (r: Option<nat>)
    ensures r.Some? ==> OccursAt(s, pat, r.value) && forall j :: j < r.value ==> !OccursAt(s, pat, j)
    ensures r.None? ==> !Contains(s, pat)
  {
    FindFrom(s, pat, 0)
  }

  lemma FindFirst(s: string, pat: string, i: nat)
    requires OccursAt(s, pat, i) && forall j :: 0 <= j < i ==> !OccursAt(s, pat, j)
    ensures Find(s, pat) == Some(i)
  {}

  lemma FindNoLaterThan(s: string, pat: string, i: nat)
    requires OccursAt(s, pat, i)
    ensures Find(s, pat).Some? && Find(s, pat).value <= i
  {}

  lemma OccursBehind(a: string, b: string, pat: string, i: int)
    requires OccursAt(b, pat, i)
    ensures OccursAt(a + b, pat, |a| + i)
  {
    assert (a + b)[|a| + i..|a| + i + |pat|] == b[i..i + |pat|];
  }

  lemma OccursInFront(a: string, b: string, pat: string, i: int)
    requires OccursAt(a, pat, i)
    ensures OccursAt(a + b, pat, i)
  {
    assert (a + b)[i..i + |pat|] == a[i..i + |pat|];
  }

  // ----- decimal numbers -----

  predicate IsDigit(c: char) { '0' <= c <= '9' }

  predicate AllDigits(s: string) { forall i :: 0 <= i < |s| ==> IsDigit(s[i]) }

  function DigitsOf(n: nat): (s: string)
    ensures s != "" && AllDigits(s)
  {
    var last := ('0' as int + n % 10) as char;
    if n < 10 then [last] else DigitsOf(n / 10) + [last]
  }

  function ValueOf(s: string): nat
    requires AllDigits(s)
  {
    if s == "" then 0 else 10 * ValueOf(s[..|s| - 1]) + (s[|s| - 1] as int - '0' as int)
  }

  lemma {:induction false} DigitsRoundTrip(n: nat)
    ensures ValueOf(DigitsOf(n)) == n
  {
    var s := DigitsOf(n);
    if n >= 10 {
      DigitsRoundTrip(n / 10);
      assert s[..|s| - 1] == DigitsOf(n / 10);
    } else {
      assert s[..|s| - 1] == "";
    }
  }

  const I64_LIMIT: int := 0x8000_0000_0000_0000

  predicate IsI64(n: int) { -I64_LIMIT <= n < I64_LIMIT }

  function ShowInt(n: int): string {
    if n < 0 then "-" + DigitsOf(-n) else DigitsOf(n)
  }

  /** An optional sign, at least one digit, nothing else, and in range. */
  function ParseI64(s: string): Option<int> {
    if s == "" then None
    else
      var signed := s[0] == '-' || s[0] == '+';
      var digits := if signed then s[1..] else s;
      if digits == "" || !AllDigits(digits) then None
      else
        var value: int := ValueOf(digits);
        var n := if s[0] == '-' then -value else value;
        if IsI64(n) then Some(n) else None
  }

  /** An optional sign and then digits, at least one. */
  predicate IsDecimal(s: string) {
    s != "" &&
    var digits := if s[0] == '-' || s[0] == '+' then s[1..] else s;
    digits != "" && AllDigits(digits)
  }

  lemma {:induction false} LeadingZeros(zeros: nat, s: string)
    requires AllDigits(s)
    ensures AllDigits(seq(zeros, _ => '0') + s) && ValueOf(seq(zeros, _ => '0') + s) == ValueOf(s)
    decreases |s| + zeros
  {
    var t := seq(zeros, _ => '0') + s;
    if s != "" {
      LeadingZeros(zeros, s[..|s| - 1]);
      assert t[..|t| - 1] == seq(zeros, _ => '0') + s[..|s| - 1];
    } else if zeros > 0 {
      LeadingZeros(zeros - 1, s);
      assert t[..|t| - 1] == seq(zeros - 1, _ => '0') + s;
    }
  }

  /** Exactly the decimals in range are numbers, with or without a plus sign, a minus sign or leading zeros. */
  lemma ParseExactly(s: string, zeros: nat, n: int)
    requires n >= 0
    ensures ParseI64(s).Some? ==> IsDecimal(s) && IsI64(ParseI64(s).value)
    ensures var digits := seq(zeros, _ => '0') + DigitsOf(n);
      && ParseI64(digits) == ParseI64("+" + digits) == (if n < I64_LIMIT then Some(n) else None)
      && ParseI64("-" + digits) == (if n <= I64_LIMIT then Some(-n) else None)
  {
    var digits := seq(zeros, _ => '0') + DigitsOf(n);
    LeadingZeros(zeros, DigitsOf(n));
    DigitsRoundTrip(n);
    assert IsDigit(digits[0]) && !IsDigit('-') && !IsDigit('+');
    assert ("-" + digits)[1..] == digits && ("+" + digits)[1..] == digits;
  }

  lemma ParseShown(n: int)
    requires IsI64(n)
    ensures ParseI64(ShowInt(n)) == Some(n)
    ensures forall i :: 0 <= i < |ShowInt(n)| ==> ShowInt(n)[i] == '-' || IsDigit(ShowInt(n)[i])
  {
    if n < 0 {
      DigitsRoundTrip(-n);
      assert ShowInt(n)[1..] == DigitsOf(-n);
    } else {
      DigitsRoundTrip(n);
      assert IsDigit(ShowInt(n)[0]);
    }
  }
}
