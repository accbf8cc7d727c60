/** Check digits of Brazilian tax ids: CPF, and CNPJ with letters or without. */
module TaxId {
  import opened Decimals

  datatype Kind = CPF | CNPJ

  const PUNCTUATION := {'.', '-', '/'}
  const WHITESPACE := {' ', '\t', '\n', '\r', '\U{000B}', '\U{000C}', '\U{00A0}', '\U{FEFF}', '\U{1680}', '\U{2028}',
                       '\U{2029}', '\U{202F}', '\U{205F}', '\U{3000}', '\U{2000}', '\U{2001}', '\U{2002}', '\U{2003}',
                       '\U{2004}', '\U{2005}', '\U{2006}', '\U{2007}', '\U{2008}', '\U{2009}', '\U{200A}'}

  predicate Alphanumeric(c: char) { Digit(c) || 'A' <= c <= 'Z' }

  // Characters other than a to z whose upper case is in A to Z; some become several.
  const OTHER_LETTERS := map[
    '\U{0131}' := "I", '\U{017F}' := "S", '\U{00DF}' := "SS", '\U{FB00}' := "FF", '\U{FB01}' := "FI",
    '\U{FB02}' := "FL", '\U{FB03}' := "FFI", '\U{FB04}' := "FFL", '\U{FB05}' := "ST", '\U{FB06}' := "ST"]

  function Upper(c: char): string {
    if 'a' <= c <= 'z' then [(c as int - 32) as char]
    else if c in OTHER_LETTERS then OTHER_LETTERS[c] else [c]
  }

  predicate Separator(c: char) { c in PUNCTUATION || c in WHITESPACE }

  function Normalized(value: string): string {
    if value == "" then ""
    else
      var last := value[|value| - 1];
      Normalized(value[..|value| - 1]) + if Separator(last) then "" else Upper(last)
  }

  predicate Repeated(id: string) {
    |id| >= 2 && forall k | 0 <= k < |id| :: id[k] == id[0]
  }

  /// Weighted sums

  function Value(c: char): int { c as int - 48 }

  function Base(kind: Kind): nat { if kind == CPF then 9 else 12 }

  function Weight(kind: Kind, size: nat, p: nat): int {
    if kind == CPF then size + 1 - p else 2 + (size - 1 - p) % 8
  }

  function Weighted(kind: Kind, size: nat, id: string, n: nat): int
    requires n <= |id|
  {
    if n == 0 then 0 else Weighted(kind, size, id, n - 1) + Value(id[n - 1]) * Weight(kind, size, n - 1)
  }

  function CheckDigit(kind: Kind, sum: int): int {
    if kind == CPF then (if sum * 10 % 11 == 10 then 0 else sum * 10 % 11)
    else (if sum % 11 < 2 then 0 else 11 - sum % 11)
  }

  predicate CheckedAt(kind: Kind, size: nat, id: string)
    requires size < |id|
  {
    Value(id[size]) == CheckDigit(kind, Weighted(kind, size, id, size))
  }

  predicate Checks(kind: Kind, id: string)
    requires |id| == Base(kind) + 2
  {
    CheckedAt(kind, Base(kind), id) && CheckedAt(kind, Base(kind) + 1, id)
  }

  predicate Shaped(kind: Kind, id: string) {
    && |id| == Base(kind) + 2
    && (forall k | 0 <= k < Base(kind) :: if kind == CPF then Digit(id[k]) else Alphanumeric(id[k]))
    && Digit(id[Base(kind)]) && Digit(id[Base(kind) + 1])
  }

  predicate Valid(value: string) {
    var id := Normalized(value);
    !Repeated(id) && exists kind | Shaped(kind, id) :: Checks(kind, id)
  }

  /// Spelling

  lemma {:induction false} NormalizedIsClean(value: string)
    ensures forall k | 0 <= k < |Normalized(value)| :: Clean(Normalized(value)[k])
  {
    if value != "" {
      NormalizedIsClean(value[..|value| - 1]);
      if !Separator(value[|value| - 1]) {
        UpperIsClean(value[|value| - 1]);
      }
    }
  }

  predicate Clean(c: char) { !Separator(c) && Upper(c) == [c] }

  lemma UpperIsClean(c: char)
    requires !Separator(c)
    ensures forall k | 0 <= k < |Upper(c)| :: Clean(Upper(c)[k])
  {}

  lemma {:induction false} CleanIsNormalized(id: string)
    requires forall k | 0 <= k < |id| :: Clean(id[k])
    ensures Normalized(id) == id
  {
    if id != "" {
      CleanIsNormalized(id[..|id| - 1]);
      assert id == id[..|id| - 1] + [id[|id| - 1]];
    }
  }

  // What is stored, the normalised form, is valid exactly when what was typed is.
  lemma StoredFormIsValid(value: string)
    ensures Normalized(Normalized(value)) == Normalized(value)
    ensures Valid(Normalized(value)) <==> Valid(value)
  {
    NormalizedIsClean(value);
    CleanIsNormalized(Normalized(value));
  }

  lemma {:induction false} NormalizedAppend(a: string, b: string)
    ensures Normalized(a + b) == Normalized(a) + Normalized(b)
  {
    if b == "" {
      assert a + b == a;
    } else {
      var n := |b| - 1;
      assert (a + b)[..|a + b| - 1] == a + b[..n];
      NormalizedAppend(a, b[..n]);
    }
  }

  lemma NormalizedOne(c: char)
    ensures Normalized([c]) == if Separator(c) then "" else Upper(c)
  {
    assert [c][..0] == "";
  }

  // White space by code point: controls 9 to 13, the spaces, the line and paragraph
  // separators and the byte order mark.
  predicate WhiteSpace(c: char) {
    var n := c as int;
    || 9 <= n <= 13 || n in {0x20, 0xA0, 0x1680, 0x2028, 0x2029, 0x202F, 0x205F, 0x3000, 0xFEFF}
    || 0x2000 <= n <= 0x200A
  }

  lemma SeparatorsByCodePoint(c: char)
    ensures Separator(c) <==> c in {'.', '-', '/'} || WhiteSpace(c)
  {}

  // Dots, dashes, slashes and white space may stand anywhere: they change neither
  // what is stored nor whether it is valid.
  lemma SeparatorsDoNotMatter(a: string, separator: char, b: string)
    requires separator in {'.', '-', '/'} || WhiteSpace(separator)
    ensures Normalized(a + [separator] + b) == Normalized(a + b)
    ensures Valid(a + [separator] + b) <==> Valid(a + b)
  {
    NormalizedAppend(a + [separator], b);
    NormalizedAppend(a, [separator]);
    NormalizedAppend(a, b);
    SeparatorsByCodePoint(separator);
    NormalizedOne(separator);
  }

  lemma CapitalOf(letter: char)
    requires 'a' <= letter <= 'z'
    ensures var capital := (letter as int - 32) as char;
            && !Separator(letter) && !Separator(capital) && Upper(letter) == [capital] && Upper(capital) == [capital]
  {}

  // Nor does the case of a letter.
  lemma CaseDoesNotMatter(a: string, letter: char, b: string)
    requires 'a' <= letter <= 'z'
    ensures Normalized(a + [letter] + b) == Normalized(a + [(letter as int - 32) as char] + b)
  {
    var capital := (letter as int - 32) as char;
    CapitalOf(letter);
    NormalizedAppend(a + [letter], b);
    NormalizedAppend(a, [letter]);
    NormalizedAppend(a + [capital], b);
    NormalizedAppend(a, [capital]);
    NormalizedOne(letter);
    NormalizedOne(capital);
  }

  /// Substitutions

  // The two formulas are one: both give minus the sum modulo 11, with 10 as 0.
  lemma OneFormula(sum: int)
    ensures CheckDigit(CPF, sum) == CheckDigit(CNPJ, sum)
  {
    var q, r := sum / 11, sum % 11;
    if r == 0 {
      RemainderIs(sum * 10, 10 * q, 0);
    } else {
      RemainderIs(sum * 10, 10 * q + r - 1, 11 - r);
    }
  }

  lemma RemainderIs(a: int, q: int, r: int)
    requires a == 11 * q + r && 0 <= r < 11
    ensures a % 11 == r
  {}

  // Only the remainders 0 and 1 share a check digit.
  lemma Collision(kind: Kind, a: int, b: int)
    requires CheckDigit(kind, a) == CheckDigit(kind, b)
    ensures a % 11 == b % 11 || (CheckDigit(kind, a) == 0 && a % 11 < 2 && b % 11 < 2)
  {
    OneFormula(a);
    OneFormula(b);
  }

  lemma Distributes(x: int, y: int, w: int)
    ensures x * w == y * w + (x - y) * w
  {}

  lemma {:induction false} SubstitutionShiftsSum(kind: Kind, size: nat, id: string, n: nat, k: nat, c: char)
    requires n <= |id| && k < |id|
    ensures Weighted(kind, size, id[k := c], n)
         == Weighted(kind, size, id, n) + if k < n then (Value(c) - Value(id[k])) * Weight(kind, size, k) else 0
  {
    if n > 0 {
      SubstitutionShiftsSum(kind, size, id, n - 1, k, c);
      Distributes(Value(c), Value(id[n - 1]), Weight(kind, size, n - 1));
    }
  }

  // A shift that goes unnoticed is a multiple of 11, or plus or minus one.
  lemma UnnoticedShift(kind: Kind, sum: int, shift: int)
    requires CheckDigit(kind, sum) == CheckDigit(kind, sum + shift)
    ensures shift % 11 in {0, 1, 10}
    ensures shift % 11 != 0 ==> CheckDigit(kind, sum) == 0
  {
    Collision(kind, sum, sum + shift);
    RemainderOfDifference(sum + shift, sum);
  }

  lemma RemainderOfDifference(a: int, b: int)
    ensures (a - b) % 11 == (a % 11 - b % 11) % 11
  {
    var q := a / 11 - b / 11;
    assert a - b == 11 * q + (a % 11 - b % 11);
  }

  lemma Expand(q: int, r: int, w: int)
    ensures (11 * q + r) * w == r * w + 11 * (q * w)
  {}

  lemma Congruent(a: int, b: int, t: int)
    requires a == b + 11 * t
    ensures a % 11 == b % 11
  {}

  lemma RemainderOfProduct(delta: int, w: int)
    ensures delta * w % 11 == (delta % 11) * w % 11
  {
    var q, r := delta / 11, delta % 11;
    Expand(q, r, w);
    Congruent(delta * w, r * w, q * w);
  }

  function Inverse(w: int): int {
    if w == 2 then 6 else if w == 3 then 4 else if w == 4 then 3 else if w == 5 then 9
    else if w == 6 then 2 else if w == 7 then 8 else if w == 8 then 7 else if w == 9 then 5 else w
  }

  // A shift by plus or minus one leaves two possible changes for each weight.
  lemma UnnoticedChange(delta: int, w: nat)
    requires 1 <= w <= 10 && delta % 11 != 0 && delta * w % 11 in {0, 1, 10}
    ensures delta % 11 == Inverse(w) || delta % 11 == 11 - Inverse(w)
    ensures delta * w % 11 != 0
  {
    RemainderOfProduct(delta, w);
    UnitProducts(delta % 11, w);
  }

  lemma UnitProducts(r: int, w: int)
    requires 1 <= r <= 10 && 1 <= w <= 10 && r * w % 11 in {0, 1, 10}
    ensures r == Inverse(w) || r == 11 - Inverse(w)
    ensures r * w % 11 != 0
  {
    match w
    case 1 => assert r * w == r;
    case 2 => assert r * w == r * 2;
    case 3 => assert r * w == r * 3;
    case 4 => assert r * w == r * 4;
    case 5 => assert r * w == r * 5;
    case 6 => assert r * w == r * 6;
    case 7 => assert r * w == r * 7;
    case 8 => assert r * w == r * 8;
    case 9 => assert r * w == r * 9;
    case _ => assert r * w == r * 10;
  }

  // Both check digits of a CPF miss a changed digit only in the first and sixth places.
  lemma CpfDigitChange(k: nat, delta: int)
    requires k < 9 && -9 <= delta <= 9 && delta != 0
    requires delta * (10 - k) % 11 in {0, 1, 10} && delta * (11 - k) % 11 in {0, 1, 10}
    ensures (k == 0 && delta in {1, -1}) || (k == 5 && delta in {2, -2, 9, -9} && delta * 6 % 11 != 0)
    ensures delta * (10 - k) % 11 != 0
  {
    UnnoticedChange(delta, 10 - k);
    if k > 0 {
      UnnoticedChange(delta, 11 - k);
    }
  }

  // In a CPF with good check digits, changing one digit is caught, unless it is
  // the first, by one, or the sixth, by two or nine, and the check digits missing it are 0.
  lemma CpfSubstitution(id: string, k: nat, c: char)
    requires Shaped(CPF, id) && Checks(CPF, id) && k < 11 && Digit(c) && c != id[k]
    requires Checks(CPF, id[k := c])
    ensures var delta := Value(c) - Value(id[k]);
            && id[9] == '0'
            && ((k == 0 && delta in {1, -1}) || (k == 5 && delta in {2, -2, 9, -9} && id[10] == '0'))
  {
    SubstitutionShiftsSum(CPF, 9, id, 9, k, c);
    SubstitutionShiftsSum(CPF, 10, id, 10, k, c);
    if k < 9 {
      var delta := Value(c) - Value(id[k]);
      UnnoticedShift(CPF, Weighted(CPF, 9, id, 9), delta * (10 - k));
      UnnoticedShift(CPF, Weighted(CPF, 10, id, 10), delta * (11 - k));
      CpfDigitChange(k, delta);
    }
  }

  lemma {:induction false} LeadingZeros(kind: Kind, size: nat, id: string, n: nat)
    requires n <= |id| && forall k | 0 <= k < n :: id[k] == '0'
    ensures Weighted(kind, size, id, n) == 0
  {
    if n > 0 {
      LeadingZeros(kind, size, id, n - 1);
    }
  }

  lemma WeightedTail(kind: Kind, size: nat, id: string, n: nat)
    requires n + 3 <= |id|
    ensures Weighted(kind, size, id, n + 2)
         == Weighted(kind, size, id, n) + Value(id[n]) * Weight(kind, size, n)
             + Value(id[n + 1]) * Weight(kind, size, n + 1)
    ensures Weighted(kind, size, id, n + 3) == Weighted(kind, size, id, n + 2)
        + Value(id[n + 2]) * Weight(kind, size, n + 2)
  {}

  // A CPF of zeros but for two or three digits.
  lemma NearlyZeroCpf(first: bool) returns (id: string)
    ensures Shaped(CPF, id) && Checks(CPF, id) && id[0] == id[5] == '0' && id[8] != '0' && id[9] == '0'
    ensures if first then Weighted(CPF, 9, id, 9) == 12 && Weighted(CPF, 10, id, 10) == 18 && id[10] == '4'
            else Weighted(CPF, 9, id, 9) == 23 && Weighted(CPF, 10, id, 10) == 33 && id[10] == '0'
  {
    id := if first then seq(11, k => if k == 8 then '6' else if k == 10 then '4' else '0')
    else seq(11, k => if k == 7 then '3' else if k == 8 then '7' else '0');
    LeadingZeros(CPF, 9, id, 7);
    LeadingZeros(CPF, 10, id, 7);
    WeightedTail(CPF, 9, id, 7);
    WeightedTail(CPF, 10, id, 7);
  }

  lemma CpfWitness(k: nat) returns (id: string, c: char)
    requires k == 0 || k == 5
    ensures Undetected(CPF, id, k, c) && Digit(c)
  {
    id := NearlyZeroCpf(k == 0);
    c := if k == 0 then '1' else '2';
    var other := id[k := c];
    SubstitutionShiftsSum(CPF, 9, id, 9, k, c);
    SubstitutionShiftsSum(CPF, 10, id, 10, k, c);
    assert other[8] != '0' && other[9] == '0';
    ValidDigits(CPF, id);
    ValidDigits(CPF, other);
  }

  // And the two exceptions are real, so these are exactly the unprotected places.
  lemma CpfUnprotectedPlaces(k: nat)
    requires k < 11
    ensures (exists id, c :: Undetected(CPF, id, k, c) && Digit(c)) <==> k == 0 || k == 5
  {
    if k == 0 || k == 5 {
      var id, c := CpfWitness(k);
    } else if exists id, c :: Undetected(CPF, id, k, c) && Digit(c) {
      var id, c :| Undetected(CPF, id, k, c) && Digit(c);
      ValidDigits(CPF, id);
      ValidDigits(CPF, id[k := c]);
      CpfSubstitution(id, k, c);
    }
  }

  // A valid id that stays valid when one character is changed.
  ghost predicate Undetected(kind: Kind, id: string, k: nat, c: char) {
    && Shaped(kind, id) && k < |id| && c != id[k] && Shaped(kind, id[k := c])
    && Valid(id) && Valid(id[k := c])
  }

  lemma ValidDigits(kind: Kind, id: string)
    requires Shaped(kind, id)
    ensures Valid(id) <==> !Repeated(id) && Checks(kind, id)
  {
    CleanIsNormalized(id);
  }

  lemma CnpjDigitChange(k: nat, delta: int)
    requires k < 12 && delta % 11 != 0
    requires delta * Weight(CNPJ, 12, k) % 11 in {0, 1, 10} && delta * Weight(CNPJ, 13, k) % 11 in {0, 1, 10}
    ensures (k in {0, 8} && delta % 11 in {2, 9}) || (k == 4 && delta % 11 in {5, 6})
    ensures delta * Weight(CNPJ, 12, k) % 11 != 0 && delta * Weight(CNPJ, 13, k) % 11 != 0
  {
    UnnoticedChange(delta, Weight(CNPJ, 12, k));
    UnnoticedChange(delta, Weight(CNPJ, 13, k));
  }

  // In a CNPJ with good check digits, changing one character is caught unless the
  // values differ by a multiple of 11 (a letter is involved), or the check digits
  // are 00 and the place is the first, fifth or ninth.
  lemma CnpjSubstitution(id: string, k: nat, c: char)
    requires Shaped(CNPJ, id) && Checks(CNPJ, id) && k < 14 && c != id[k]
    requires Shaped(CNPJ, id[k := c]) && Checks(CNPJ, id[k := c])
    ensures var delta := Value(c) - Value(id[k]);
            && k < 12
            && (delta % 11 == 0
                || (id[12] == id[13] == '0'
                    && ((k in {0, 8} && delta % 11 in {2, 9}) || (k == 4 && delta % 11 in {5, 6}))))
  {
    SubstitutionShiftsSum(CNPJ, 12, id, 12, k, c);
    SubstitutionShiftsSum(CNPJ, 13, id, 13, k, c);
    if k < 12 {
      var delta := Value(c) - Value(id[k]);
      UnnoticedShift(CNPJ, Weighted(CNPJ, 12, id, 12), delta * Weight(CNPJ, 12, k));
      UnnoticedShift(CNPJ, Weighted(CNPJ, 13, id, 13), delta * Weight(CNPJ, 13, k));
      if delta % 11 != 0 {
        CnpjDigitChange(k, delta);
      }
    }
  }

  // A character and another 11 (or 22, 33) values away are never told apart.
  lemma ElevenApartIsNeverCaught(id: string, k: nat, c: char)
    requires Shaped(CNPJ, id) && Checks(CNPJ, id) && k < 12 && (Value(c) - Value(id[k])) % 11 == 0
    ensures Checks(CNPJ, id[k := c])
  {
    var delta := Value(c) - Value(id[k]);
    SubstitutionShiftsSum(CNPJ, 12, id, 12, k, c);
    SubstitutionShiftsSum(CNPJ, 13, id, 13, k, c);
    RemainderOfProduct(delta, Weight(CNPJ, 12, k));
    RemainderOfProduct(delta, Weight(CNPJ, 13, k));
    MultipleOfElevenIsInvisible(Weighted(CNPJ, 12, id, 12), delta * Weight(CNPJ, 12, k));
    MultipleOfElevenIsInvisible(Weighted(CNPJ, 13, id, 13), delta * Weight(CNPJ, 13, k));
  }

  lemma MultipleOfElevenIsInvisible(sum: int, shift: int)
    requires shift % 11 == 0
    ensures (sum + shift) % 11 == sum % 11
  {
    RemainderOfDifference(sum + shift, sum);
  }

  lemma CnpjWithZeroCheckDigits() returns (id: string)
    ensures Shaped(CNPJ, id) && AllDigits(id) && Checks(CNPJ, id)
    ensures id[0] == id[4] == id[8] == '0' && id[10] == '3' && id[11] == '7' && id[12] == '0'
    ensures Weighted(CNPJ, 12, id, 12) == 23 && Weighted(CNPJ, 13, id, 13) == 33
  {
    id := seq(14, k => if k == 10 then '3' else if k == 11 then '7' else '0');
    LeadingZeros(CNPJ, 12, id, 10);
    LeadingZeros(CNPJ, 13, id, 10);
    WeightedTail(CNPJ, 12, id, 10);
    WeightedTail(CNPJ, 13, id, 10);
  }

  lemma CnpjWitness(k: nat) returns (id: string, c: char)
    requires k == 0 || k == 4 || k == 8
    ensures AllDigits(id) && Undetected(CNPJ, id, k, c) && Digit(c)
  {
    id := CnpjWithZeroCheckDigits();
    c := if k == 4 then '6' else '2';
    var other := id[k := c];
    SubstitutionShiftsSum(CNPJ, 12, id, 12, k, c);
    SubstitutionShiftsSum(CNPJ, 13, id, 13, k, c);
    assert other[10] == '3' && other[11] == '7';
    ValidDigits(CNPJ, id);
    ValidDigits(CNPJ, other);
  }

  lemma CnpjUnprotectedPlaces(k: nat)
    requires k < 14
    ensures (exists id, c :: AllDigits(id) && Digit(c) && Undetected(CNPJ, id, k, c)) <==> k in {0, 4, 8}
  {
    if k in {0, 4, 8} {
      var id, c := CnpjWitness(k);
    } else if exists id, c :: AllDigits(id) && Digit(c) && Undetected(CNPJ, id, k, c) {
      var id, c :| AllDigits(id) && Digit(c) && Undetected(CNPJ, id, k, c);
      CnpjUndetectedPlace(id, k, c);
    }
  }

  lemma CnpjUndetectedPlace(id: string, k: nat, c: char)
    requires AllDigits(id) && Digit(c) && Undetected(CNPJ, id, k, c)
    ensures k in {0, 4, 8}
  {
    ValidDigits(CNPJ, id);
    ValidDigits(CNPJ, id[k := c]);
    CnpjSubstitution(id, k, c);
    assert Digit(id[k]);
  }

  /// Check digits are a function of the base

  lemma {:induction false} WeightedPrefix(kind: Kind, size: nat, a: string, b: string, n: nat)
    requires n <= |a| && n <= |b| && a[..n] == b[..n]
    ensures Weighted(kind, size, a, n) == Weighted(kind, size, b, n)
  {
    if n > 0 {
      assert a[n - 1] == a[..n][n - 1] == b[..n][n - 1] == b[n - 1];
      assert a[..n - 1] == a[..n][..n - 1] == b[..n][..n - 1] == b[..n - 1];
      WeightedPrefix(kind, size, a, b, n - 1);
    }
  }

  function Completed(kind: Kind, base: string): (id: string)
    requires |base| == Base(kind)
    ensures |id| == Base(kind) + 2 && id[..Base(kind)] == base
  {
    var once := base + [Numeral(CheckDigit(kind, Weighted(kind, Base(kind), base, Base(kind))))];
    once + [Numeral(CheckDigit(kind, Weighted(kind, Base(kind) + 1, once, Base(kind) + 1)))]
  }

  function Numeral(n: int): char {
    if 0 <= n <= 9 then (n + 48) as char else '0'
  }

  // Every base has exactly one pair of check digits.
  lemma ExactlyOnePair(kind: Kind, id: string)
    requires |id| == Base(kind) + 2 && Digit(id[Base(kind)]) && Digit(id[Base(kind) + 1])
    ensures Checks(kind, id) <==> id == Completed(kind, id[..Base(kind)])
  {
    var n := Base(kind);
    var base := id[..n];
    var once := base + [Numeral(CheckDigit(kind, Weighted(kind, n, base, n)))];
    WeightedPrefix(kind, n, id, base, n);
    if id[..n + 1] == once {
      WeightedPrefix(kind, n + 1, id, once, n + 1);
    }
    assert id == base + [id[n]] + [id[n + 1]] && id[..n + 1] == base + [id[n]];
  }

  // Letters and digits that are not all the same.
  predicate Varied(id: string) { exists j, k :: 0 <= j < k < |id| && id[j] != id[k] }

  // What is typed is valid exactly when, without separators and in capitals, it is
  // eleven digits or fourteen characters, not all the same, whose last two are the
  // check digits of the others.
  lemma ValidExactlyWhenCompleted(value: string)
    ensures var id := Normalized(value);
            Valid(value) <==>
              && Varied(id)
              && (|| (|id| == 11 && (forall k | 0 <= k < 9 :: '0' <= id[k] <= '9') && id == Completed(CPF, id[..9]))
                  || (|id| == 14 && (forall k | 0 <= k < 12 :: '0' <= id[k] <= '9' || 'A' <= id[k] <= 'Z')
                      && id == Completed(CNPJ, id[..12])))
  {
    var id := Normalized(value);
    if |id| >= 2 {
      RepeatedExactlyWhenNotVaried(id);
    }
    if |id| == 11 {
      CompletedExactlyWhenChecked(CPF, id);
    }
    if |id| == 14 {
      CompletedExactlyWhenChecked(CNPJ, id);
    }
  }

  lemma RepeatedExactlyWhenNotVaried(id: string)
    requires |id| >= 2
    ensures Repeated(id) <==> !Varied(id)
  {
    if !Repeated(id) {
      var k :| 0 <= k < |id| && id[k] != id[0];
      assert 0 < k;
    }
  }

  lemma CompletedExactlyWhenChecked(kind: Kind, id: string)
    requires |id| == Base(kind) + 2
    ensures id == Completed(kind, id[..Base(kind)]) <==>
              Digit(id[Base(kind)]) && Digit(id[Base(kind) + 1]) && Checks(kind, id)
  {
    var completed := Completed(kind, id[..Base(kind)]);
    assert Digit(completed[Base(kind)]) && Digit(completed[Base(kind) + 1]);
    if Digit(id[Base(kind)]) && Digit(id[Base(kind) + 1]) {
      ExactlyOnePair(kind, id);
    }
  }

  /// The validation as it runs

  method CpfSum(id: string, size: nat) returns (total: int)
    requires size <= |id|
    ensures total == Weighted(CPF, size, id, size)
  {
    total := 0;
    for index := 0 to size
      invariant total == Weighted(CPF, size, id, index)
    {
      total := total + Value(id[index]) * (size + 1 - index);
    }
  }

  // The characters are taken from the last to the first.
  method CnpjSum(id: string, size: nat) returns (total: int)
    requires size <= |id|
    ensures total == Weighted(CNPJ, size, id, size)
  {
    total := 0;
    for index := 0 to size
      invariant total == Weighted(CNPJ, size, id, size) - Weighted(CNPJ, size, id, size - index)
    {
      total := total + (id[size - 1 - index] as int - 48) * (2 + index % 8);
    }
  }

  method ValidTaxId(value: string) returns (valid: bool)
    ensures valid <==> Valid(value)
  {
    var id := Normalized(value);
    if Repeated(id) { return false; }
    if |id| == 11 && forall k | 0 <= k < 11 :: Digit(id[k]) {
      for size := 9 to 11
        invariant forall n | 9 <= n < size :: CheckedAt(CPF, n, id)
      {
        var sum := CpfSum(id, size);
        var digit := sum * 10 % 11;
        if Value(id[size]) != (if digit == 10 then 0 else digit) { return false; }
      }
      assert Shaped(CPF, id) && Checks(CPF, id);
      return true;
    }
    if !Shaped(CNPJ, id) { return false; }
    for size := 12 to 14
      invariant forall n | 12 <= n < size :: CheckedAt(CNPJ, n, id)
    {
      var sum := CnpjSum(id, size);
      var remainder := sum % 11;
      if Value(id[size]) != (if remainder < 2 then 0 else 11 - remainder) { return false; }
    }
    return true;
  }
}
