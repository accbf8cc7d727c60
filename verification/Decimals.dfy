/** Numbers written in decimal digits. */
module Decimals {
  predicate Digit(c: char) { '0' <= c <= '9' }

  predicate AllDigits(s: string) { forall k | 0 <= k < |s| :: Digit(s[k]) }

  function Number(s: string): int {
    if s == "" then 0 else Number(s[..|s| - 1]) * 10 + (s[|s| - 1] as int - 48)
  }

  // A number written with at least one digit.
  function Decimal(n: nat): (s: string)
    ensures |s| >= 1 && AllDigits(s)
  {
    if n < 10 then [(n + 48) as char] else Decimal(n / 10) + [(n % 10 + 48) as char]
  }

  lemma {:induction false} NumberOfDigits(s: string)
    requires AllDigits(s)
    ensures Number(s) >= 0
  {
    if s != "" {
      NumberOfDigits(s[..|s| - 1]);
    }
  }

  // Written without a needless leading zero.
  predicate Plain(s: string) {
    s != "" && AllDigits(s) && (s[0] == '0' ==> |s| == 1)
  }

  // Such a number has one way of being written.
  lemma {:induction false} OneSpelling(s: string, t: string)
    requires Plain(s) && Plain(t) && Number(s) == Number(t)
    ensures s == t
  {
    var m, n := |s| - 1, |t| - 1;
    NumberOfDigits(s[..m]);
    NumberOfDigits(t[..n]);
    assert s == s[..m] + [s[m]] && t == t[..n] + [t[n]];
    assert Number(s[..m]) == Number(t[..n]) && s[m] == t[n];
    if m > 0 {
      PositiveUnlessZero(s[..m]);
    }
    if n > 0 {
      PositiveUnlessZero(t[..n]);
    }
    if m > 0 && n > 0 {
      OneSpelling(s[..m], t[..n]);
    } else {
      assert Number("") == 0;
    }
  }

  lemma {:induction false} PositiveUnlessZero(s: string)
    requires s != "" && AllDigits(s) && s[0] != '0'
    ensures Number(s) > 0
  {
    var n := |s| - 1;
    NumberOfDigits(s[..n]);
    if n > 0 {
      PositiveUnlessZero(s[..n]);
    }
  }
}
