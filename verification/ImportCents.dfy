/** Amounts in an imported file: 1 to 7 digits, then optionally a point or a
    comma and one or two digits. */
module ImportCents {
  import opened Decimals
  import opened Wrappers

  const LIMIT: int := 100000000
  const MAX_DIGITS: nat := 7

  predicate Separator(c: char) { c == '.' || c == ',' }

  function LeadingDigits(s: string): (n: nat)
    ensures n <= |s|
  {
    if s == "" || !Digit(s[0]) then 0 else 1 + LeadingDigits(s[1..])
  }

  function Limited(cents: int): Option<int> {
    if cents > LIMIT then None else Some(cents)
  }

  function Cents(value: string): Option<int> {
    var n := LeadingDigits(value);
    if n == 0 || n > MAX_DIGITS then None
    else
      var whole, rest := Number(value[..n]) * 100, value[n..];
      if rest == "" then Limited(whole)
      else if !Separator(rest[0]) || !AllDigits(rest[1..]) then None
      else if |rest| == 2 then Limited(whole + Number(rest[1..]) * 10)
      else if |rest| == 3 then Limited(whole + Number(rest[1..]))
      else None
  }

  function Padded(n: nat): string
    requires n < 100
  {
    [(n / 10 + 48) as char, (n % 10 + 48) as char]
  }

  lemma {:induction false} DecimalRoundTrip(n: nat)
    ensures Number(Decimal(n)) == n
    ensures n < 10000000 ==> |Decimal(n)| <= MAX_DIGITS
  {
    if n < 10 {
      assert Decimal(n)[..0] == "";
    } else {
      DecimalRoundTrip(n / 10);
      assert Decimal(n)[..|Decimal(n)| - 1] == Decimal(n / 10);
      if n < 10000000 {
        DigitsGrow(n);
      }
    }
  }

  lemma DigitsGrow(n: nat)
    requires 10 <= n < 10000000
    ensures |Decimal(n)| <= MAX_DIGITS
  {
    assert |Decimal(n)| == |Decimal(n / 10)| + 1;
    DigitsAtMost(n / 10, 6);
  }

  function Tens(k: nat): nat { if k == 0 then 1 else 10 * Tens(k - 1) }

  lemma {:induction false} DigitsAtMost(n: nat, k: nat)
    requires k >= 1 && n < Tens(k)
    ensures |Decimal(n)| <= k
  {
    if n >= 10 {
      DigitsAtMost(n / 10, k - 1);
    }
  }

  lemma {:induction false} LeadingDigitsOf(digits: string, rest: string)
    requires AllDigits(digits) && (rest == "" || !Digit(rest[0]))
    ensures LeadingDigits(digits + rest) == |digits|
  {
    if digits == "" {
      assert digits + rest == rest;
    } else {
      assert (digits + rest)[1..] == digits[1..] + rest;
      LeadingDigitsOf(digits[1..], rest);
    }
  }

  // Any amount up to the limit can be written with either separator and is read
  // back as itself, and whatever is read is within the limit.
  lemma AmountRoundTrip(cents: nat, separator: char)
    requires cents <= LIMIT && Separator(separator)
    ensures Cents(Decimal(cents / 100) + [separator] + Padded(cents % 100)) == Some(cents)
  {
    var digits, rest := Decimal(cents / 100), [separator] + Padded(cents % 100);
    DecimalRoundTrip(cents / 100);
    LeadingDigitsOf(digits, rest);
    assert digits + [separator] + Padded(cents % 100) == digits + rest;
    assert (digits + rest)[..|digits|] == digits && (digits + rest)[|digits|..] == rest;
    PaddedNumber(cents % 100);
    assert rest[1..] == Padded(cents % 100);
  }

  lemma PaddedNumber(n: nat)
    requires n < 100
    ensures Number(Padded(n)) == n && AllDigits(Padded(n))
  {
    var s := Padded(n);
    var tens := s[..1];
    assert tens[..0] == "" && tens[0] as int - 48 == n / 10;
    assert Number(tens) == n / 10;
    assert s[..|s| - 1] == tens;
  }

  lemma {:induction false} LeadingAreDigits(s: string)
    ensures AllDigits(s[..LeadingDigits(s)])
  {
    if s != "" && Digit(s[0]) {
      LeadingAreDigits(s[1..]);
      forall k | 0 <= k < LeadingDigits(s) ensures Digit(s[k]) {
        if k > 0 {
          assert s[k] == s[1..][..LeadingDigits(s[1..])][k - 1];
        }
      }
    }
  }

  lemma AmountsAreLimited(value: string)
    ensures Cents(value).Some? ==> 0 <= Cents(value).value <= LIMIT
  {
    var n := LeadingDigits(value);
    LeadingAreDigits(value);
    NumberOfDigits(value[..n]);
    if n < |value| && AllDigits(value[n..][1..]) {
      NumberOfDigits(value[n..][1..]);
    }
  }

  // One to seven digits, and perhaps a point or a comma and one or two more.
  predicate Written(value: string, whole: string, fraction: string) {
    && 1 <= |whole| <= 7 && |fraction| <= 2 && AllDigits(whole) && AllDigits(fraction)
    && value in (if fraction == "" then {whole} else {whole + "." + fraction, whole + "," + fraction})
  }

  function Worth(whole: string, fraction: string): int {
    Number(whole) * 100 + if |fraction| == 1 then Number(fraction) * 10 else Number(fraction)
  }

  lemma WrittenIsRead(value: string, whole: string, fraction: string)
    requires Written(value, whole, fraction)
    ensures Cents(value) == if Worth(whole, fraction) <= 100000000 then Some(Worth(whole, fraction)) else None
  {
    var rest := value[|whole|..];
    assert value == whole + rest && value[..|whole|] == whole;
    if fraction != "" {
      assert rest[1..] == fraction && (rest[0] == '.' || rest[0] == ',');
    }
    LeadingDigitsOf(whole, rest);
  }

  // An amount is read exactly from what is written so and worth no more than the limit.
  lemma ReadExactlyWhenWritten(value: string, cents: int)
    ensures Cents(value) == Some(cents) <==>
              exists whole, fraction :: Written(value, whole, fraction) && Worth(whole, fraction) == cents <= 100000000
  {
    if Cents(value) == Some(cents) {
      var n := LeadingDigits(value);
      var whole, fraction := value[..n], if n < |value| then value[n + 1..] else "";
      LeadingAreDigits(value);
      if n < |value| {
        assert value[n..][1..] == fraction && |fraction| >= 1;
        assert [value[n]] == "." || [value[n]] == ",";
        assert value == whole + [value[n]] + fraction;
      } else {
        assert value == whole;
      }
      assert Written(value, whole, fraction);
      WrittenIsRead(value, whole, fraction);
    }
    if whole, fraction :| Written(value, whole, fraction) && Worth(whole, fraction) == cents <= 100000000 {
      WrittenIsRead(value, whole, fraction);
    }
  }
}
