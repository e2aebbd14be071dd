/**
 * The check digits that separate identifiers from look-alikes: Luhn for payment cards
 * and national identifiers, MOD 97-10 for IBANs.
 */
module Checksum {
  import opened Decimal

  ghost predicate AllDigits(s: string) {
    forall i :: 0 <= i < |s| ==> IsDigit(s[i])
  }

  // ---- Luhn ----

  const MIN_LUHN_LENGTH := 12

  function DigitValue(c: char): (d: nat)
    requires IsDigit(c)
    ensures d < 10
  {
    c as int - '0' as int
  }

  /** A digit as it is counted: as it is, or doubled with the digits of the product added. */
  function Counted(d: nat, double: bool): (n: nat)
    requires d < 10
    ensures n < 10
  {
    if !double then d else if 2 * d > 9 then 2 * d - 9 else 2 * d
  }

  /** Every second digit from the right is doubled, starting with the second. */
  function Doubled(s: string, i: nat): bool {
    (|s| - 1 - i) % 2 == 1
  }

  function Weight(s: string, i: nat): nat
    requires AllDigits(s) && i < |s|
  {
    Counted(DigitValue(s[i]), Doubled(s, i))
  }

  /** The weights from position `i` on. */
  function Total(s: string, i: nat): nat
    requires AllDigits(s) && i <= |s|
    decreases |s| - i
  {
    if i == |s| then 0 else Weight(s, i) + Total(s, i + 1)
  }

  predicate LuhnValid(s: string)
    requires AllDigits(s)
  {
    |s| >= MIN_LUHN_LENGTH && Total(s, 0) % 10 == 0
  }

  method Luhn(digits: string) returns (ok: bool)
    requires AllDigits(digits)
    ensures ok <==> LuhnValid(digits)
  {
    if |digits| < MIN_LUHN_LENGTH {
      return false;
    }
    var sum, double := 0, false;
    var i := |digits|;
    while i > 0
      invariant 0 <= i <= |digits|
      invariant sum == Total(digits, i)
      invariant double <==> (|digits| - i) % 2 == 1
    {
      i := i - 1;
      var n := digits[i] as int - '0' as int;
      if double {
        n := n * 2;
        if n > 9 {
          n := n - 9;
        }
      }
      sum := sum + n;
      double := !double;
    }
    return sum % 10 == 0;
  }

  /** Replacing the digit at `i` changes the total by the change of its own weight. */
  lemma {:induction false} TotalUpdate(s: string, i: nat, c: char, j: nat)
    requires AllDigits(s) && IsDigit(c) && i < |s| && j <= |s|
    ensures Total(s[i := c], j)
         == Total(s, j) + if j <= i then Weight(s[i := c], i) - Weight(s, i) else 0
    decreases |s| - j
  {
    if j < |s| {
      TotalUpdate(s, i, c, j + 1);
    }
  }

  lemma CountedIsInjective(d: nat, e: nat, double: bool)
    requires d < 10 && e < 10 && Counted(d, double) == Counted(e, double)
    ensures d == e
  {
  }

  /** One wrong digit never goes unnoticed. */
  lemma WrongDigitIsCaught(s: string, i: nat, c: char)
    requires AllDigits(s) && LuhnValid(s) && i < |s| && IsDigit(c) && c != s[i]
    ensures !LuhnValid(s[i := c])
  {
    hide Total, Counted;
    var t := s[i := c];
    TotalUpdate(s, i, c, 0);
    assert Doubled(t, i) == Doubled(s, i);
    if Weight(t, i) == Weight(s, i) {
      CountedIsInjective(DigitValue(c), DigitValue(s[i]), Doubled(s, i));
    }
  }

  function Swapped(s: string, i: nat): string
    requires i + 1 < |s|
  {
    s[i := s[i + 1]][i + 1 := s[i]]
  }

  /** Two neighbours count the same either way round exactly when they are equal, or 0 and 9. */
  lemma PairCount(a: nat, b: nat)
    requires a < 10 && b < 10
    ensures (Counted(a, true) + Counted(b, false) - Counted(b, true) - Counted(a, false)) % 10 == 0
       <==> a == b || (a == 0 && b == 9) || (a == 9 && b == 0)
  {
  }

  /** Swapping two neighbours is caught exactly when they differ and are not 0 and 9. */
  lemma SwapIsCaughtUnlessZeroNine(s: string, i: nat)
    requires AllDigits(s) && LuhnValid(s) && i + 1 < |s|
    ensures LuhnValid(Swapped(s, i)) <==>
            s[i] == s[i + 1] || (s[i] == '0' && s[i + 1] == '9') || (s[i] == '9' && s[i + 1] == '0')
  {
    hide Total, Counted;
    var mid := s[i := s[i + 1]];
    var t := mid[i + 1 := s[i]];
    var a, b := DigitValue(s[i]), DigitValue(s[i + 1]);
    TotalUpdate(s, i, s[i + 1], 0);
    TotalUpdate(mid, i + 1, s[i], 0);
    assert Doubled(s, i) == !Doubled(s, i + 1);
    assert Doubled(t, i + 1) == Doubled(mid, i + 1) == Doubled(s, i + 1) && Doubled(mid, i) == Doubled(s, i);
    PairCount(a, b);
    PairCount(b, a);
    Shifted(Total(s, 0), Counted(a, true) + Counted(b, false), Counted(b, true) + Counted(a, false));
  }

  lemma Shifted(n: int, x: int, y: int)
    requires n % 10 == 0
    ensures (n + (y - x)) % 10 == 0 <==> (x - y) % 10 == 0
    ensures (n + (x - y)) % 10 == 0 <==> (x - y) % 10 == 0
  {
  }

  // ---- IBAN ----

  predicate IsIbanChar(c: char) {
    '0' <= c <= '9' || 'A' <= c <= 'Z'
  }

  ghost predicate AllIban(s: string) {
    forall i :: 0 <= i < |s| ==> IsIbanChar(s[i])
  }

  /** Digits stand for themselves, A to Z for 10 to 35. */
  function IbanValue(c: char): (v: nat)
    requires IsIbanChar(c)
    ensures v <= 35
    ensures v < 10 <==> IsDigit(c)
  {
    if IsDigit(c) then c as int - '0' as int else c as int - 'A' as int + 10
  }

  /** The decimal number an alphanumeric string is checked as, written out. */
  function Expanded(s: string): (r: string)
    requires AllIban(s)
    ensures AllDigits(r)
  {
    if s == [] then [] else Expanded(s[..|s| - 1]) + Digits(IbanValue(s[|s| - 1]))
  }

  function Number(s: string): nat
    requires AllIban(s)
  {
    Value(Expanded(s))
  }

  function Rearranged(s: string): string
    requires |s| >= 4
  {
    s[4..] + s[..4]
  }

  ghost predicate IbanValid(s: string) {
    15 <= |s| <= 34 && AllIban(s) && AllIban(Rearranged(s)) && Number(Rearranged(s)) % 97 == 1
  }

  function Shift(c: char): nat
    requires IsIbanChar(c)
  {
    if IbanValue(c) > 9 then 100 else 10
  }

  lemma ValueOfPair(s: string, v: nat)
    requires AllDigits(s) && v < 100
    ensures AllDigits(s + Digits(v))
    ensures Value(s + Digits(v)) == Value(s) * (if v > 9 then 100 else 10) + v
  {
    var t := s + Digits(v);
    if v < 10 {
      assert t[..|t| - 1] == s;
    } else {
      assert Digits(v) == [DigitChar(v / 10), DigitChar(v % 10)];
      assert t[..|t| - 1] == s + [DigitChar(v / 10)];
      assert (s + [DigitChar(v / 10)])[..|s|] == s;
    }
  }

  lemma NumberGrows(s: string, c: char)
    requires AllIban(s) && IsIbanChar(c)
    ensures AllIban(s + [c])
    ensures Number(s + [c]) == Number(s) * Shift(c) + IbanValue(c)
  {
    hide Value, Digits;
    assert (s + [c])[..|s|] == s;
    ValueOfPair(Expanded(s), IbanValue(c));
  }

  lemma RemainderStep(n: nat, k: nat, v: nat)
    ensures ((n % 97) * k + v) % 97 == (n * k + v) % 97
  {
    var q, r := n / 97, n % 97;
    assert n == 97 * q + r;
    assert n * k == 97 * (q * k) + r * k;
    MultiplesVanish(q * k, r * k + v);
  }

  lemma MultiplesVanish(q: int, x: int)
    ensures (97 * q + x) % 97 == x % 97
  {
  }

  /** The loop keeps only a running remainder; it decides by the whole number. */
  method ValidIban(s: string) returns (ok: bool)
    ensures ok <==> IbanValid(s)
  {
    hide Expanded, Number, Shift;
    if |s| < 15 || |s| > 34 {
      return false;
    }
    var t := Rearranged(s);
    SameChars(s);
    var remainder := 0;
    EmptyNumber();
    for i := 0 to |t|
      invariant AllIban(t[..i])
      invariant remainder == Number(t[..i]) % 97
    {
      var c := t[i];
      var value;
      if '0' <= c <= '9' {
        value := c as int - '0' as int;
      } else if 'A' <= c <= 'Z' {
        value := c as int - 'A' as int + 10;
      } else {
        assert !AllIban(t);
        return false;
      }
      assert t[..i + 1] == t[..i] + [c];
      NumberGrows(t[..i], c);
      ShiftIs(c);
      if value > 9 {
        RemainderStep(Number(t[..i]), 100, value);
        remainder := (remainder * 100 + value) % 97;
      } else {
        RemainderStep(Number(t[..i]), 10, value);
        remainder := (remainder * 10 + value) % 97;
      }
    }
    assert t[..|t|] == t;
    return remainder == 1;
  }

  lemma EmptyNumber()
    ensures Number([]) == 0
  {
  }

  lemma ShiftIs(c: char)
    requires IsIbanChar(c)
    ensures Shift(c) == if IbanValue(c) > 9 then 100 else 10
  {
  }

  lemma SameChars(s: string)
    requires |s| >= 4
    ensures AllIban(s) <==> AllIban(Rearranged(s))
  {
    var t := Rearranged(s);
    assert forall i :: 0 <= i < |s| ==> s[i] == t[if i < 4 then |s| - 4 + i else i - 4];
  }

  /** 10 is invertible modulo 97. */
  lemma TenCancels(x: int)
    requires (10 * x) % 97 == 0
    ensures x % 97 == 0
  {
    var q := 10 * x / 97;
    assert 10 * x == 97 * q;
    assert x == 97 * (68 * q - 7 * x);
  }

  lemma SameKindSameShift(c: char, d: char)
    requires IsIbanChar(c) && IsIbanChar(d) && (IsDigit(c) <==> IsDigit(d))
    ensures Shift(c) == Shift(d)
  {
  }

  lemma ShiftCancels(c: char, x: int)
    requires IsIbanChar(c) && (x * Shift(c)) % 97 == 0
    ensures x % 97 == 0
  {
    if Shift(c) == 10 {
      TenCancels(x);
    } else {
      assert x * 100 == 10 * (10 * x);
      TenCancels(10 * x);
      TenCancels(x);
    }
  }

  /** Replacing one character by another of its kind changes the number by more than a multiple of 97. */
  lemma {:induction false} NumberNotices(s: string, i: nat, c: char)
    requires AllIban(s) && i < |s| && IsIbanChar(c) && c != s[i] && (IsDigit(c) <==> IsDigit(s[i]))
    ensures AllIban(s[i := c]) && (Number(s[i := c]) - Number(s)) % 97 != 0
    decreases |s|
  {
    hide Number, Shift, IbanValue;
    var n := |s| - 1;
    var t := s[i := c];
    assert AllIban(t) && AllIban(s[..n]) && AllIban(t[..n]);
    assert s == s[..n] + [s[n]] && t == t[..n] + [t[n]];
    NumberGrows(s[..n], s[n]);
    NumberGrows(t[..n], t[n]);
    if i == n {
      assert t[..n] == s[..n];
      SameKindSameShift(c, s[n]);
      ValuesAreClose(c, s[n]);
    } else {
      assert t[..n] == s[..n][i := c];
      NumberNotices(s[..n], i, c);
      var diff := Number(t[..n]) - Number(s[..n]);
      Distribute(Number(t[..n]), Number(s[..n]), Shift(s[n]), IbanValue(s[n]));
      if (diff * Shift(s[n])) % 97 == 0 {
        ShiftCancels(s[n], diff);
      }
    }
  }

  lemma Distribute(a: int, b: int, k: int, v: int)
    ensures (a * k + v) - (b * k + v) == (a - b) * k
  {
  }

  lemma ValuesAreClose(c: char, d: char)
    requires IsIbanChar(c) && IsIbanChar(d) && c != d && (IsDigit(c) <==> IsDigit(d))
    ensures (IbanValue(c) - IbanValue(d)) % 97 != 0
  {
  }

  /** One wrong character of the right kind never goes unnoticed in an IBAN. */
  lemma WrongCharacterIsCaught(s: string, i: nat, c: char)
    requires IbanValid(s) && i < |s| && IsIbanChar(c) && c != s[i] && (IsDigit(c) <==> IsDigit(s[i]))
    ensures !IbanValid(s[i := c])
  {
    hide Number;
    var t := Rearranged(s);
    var j := if i < 4 then |s| - 4 + i else i - 4;
    assert Rearranged(s[i := c]) == t[j := c];
    NumberNotices(t, j, c);
    Apart(Number(t[j := c]), Number(t));
  }

  lemma Apart(a: int, b: int)
    requires (a - b) % 97 != 0
    ensures a % 97 != b % 97
  {
  }

  // ---- the check digits the standards compute ----

  /** Annex B of ISO/IEC 7812-1, from the right of the number without its check digit: double, leave, double. */
  function PayloadSum(p: string, double: bool): nat
    requires AllDigits(p)
  {
    if p == [] then 0 else Counted(DigitValue(p[|p| - 1]), double) + PayloadSum(p[..|p| - 1], !double)
  }

  /** The totals by position and from the right agree. */
  lemma {:induction false} TotalFromTheRight(s: string, n: nat)
    requires AllDigits(s) && n <= |s|
    ensures AllDigits(s[..n]) && Total(s, 0) - Total(s, n) == PayloadSum(s[..n], (|s| - n) % 2 == 1)
  {
    if n > 0 {
      TotalFromTheRight(s, n - 1);
      assert s[..n][..n - 1] == s[..n - 1];
    } else {
      assert s[..0] == [];
    }
  }

  /** A number is valid exactly when its last digit is the check digit of the rest. */
  lemma CheckDigitIsUnique(p: string, c: char)
    requires AllDigits(p) && IsDigit(c) && |p| + 1 >= MIN_LUHN_LENGTH
    ensures AllDigits(p + [c])
    ensures LuhnValid(p + [c]) <==> DigitValue(c) == (10 - PayloadSum(p, true) % 10) % 10
  {
    hide PayloadSum, Total, DigitValue;
    TotalSplits(p, c);
    TensComplement(PayloadSum(p, true), DigitValue(c));
  }

  lemma TotalSplits(p: string, c: char)
    requires AllDigits(p) && IsDigit(c)
    ensures AllDigits(p + [c]) && Total(p + [c], 0) == PayloadSum(p, true) + DigitValue(c)
  {
    hide PayloadSum, Total, DigitValue;
    var s := p + [c];
    TotalFromTheRight(s, |p|);
    assert s[..|p|] == p && s[|p|] == c;
    LastTotal(s);
  }

  lemma LastTotal(s: string)
    requires AllDigits(s) && s != []
    ensures Total(s, |s| - 1) == DigitValue(s[|s| - 1])
  {
    assert Total(s, |s|) == 0;
  }

  lemma TensComplement(n: nat, d: nat)
    requires d < 10
    ensures (n + d) % 10 == 0 <==> d == (10 - n % 10) % 10
  {
  }

  /**
   * ISO 13616-1: behind the country code stand two check digits for the rest.  A number whose digits
   * are 98 less the remainder of the rest, the country code and two zeros is valid.
   */
  lemma IbanCheckDigits(country: string, bban: string)
    requires |country| == 2 && AllIban(country) && AllIban(bban) && 15 <= |bban| + 4 <= 34
    ensures AllIban(bban + country) && AllIban(bban + country + "00")
    ensures var check := 98 - Number(bban + country + "00") % 97;
            var digits := if check < 10 then "0" + Digits(check) else Digits(check);
            IbanValid(country + digits + bban)
  {
    hide Number, Digits, IbanValid, IbanValue, AllIban;
    var body := bban + country;
    Joined(bban, country);
    NumberGrows(body, '0');
    NumberGrows(body + "0", '0');
    assert body + "0" + "0" == body + "00";
    ZeroIsZero();
    var check := 98 - Number(body + "00") % 97;
    TwoDigits(check);
    var digits := if check < 10 then "0" + Digits(check) else Digits(check);
    assert digits == [digits[0], digits[1]];
    ChecksOut(country, bban, digits[0], digits[1]);
  }

  lemma ZeroIsZero()
    ensures IsIbanChar('0') && IbanValue('0') == 0 && Shift('0') == 10
  {
  }

  lemma Joined(s: string, t: string)
    requires AllIban(s) && AllIban(t)
    ensures AllIban(s + t)
  {
  }

  lemma ChecksOut(country: string, bban: string, a: char, b: char)
    requires |country| == 2 && AllIban(country) && AllIban(bban) && 15 <= |bban| + 4 <= 34
    requires IsDigit(a) && IsDigit(b) && AllIban(bban + country)
    requires IbanValue(a) * 10 + IbanValue(b) == 98 - (Number(bban + country) * 100) % 97
    ensures IbanValid(country + [a, b] + bban)
  {
    hide Number, IbanValue;
    var body, s := bban + country, country + [a, b] + bban;
    NumberGrows(body, a);
    NumberGrows(body + [a], b);
    assert body + [a] + [b] == body + [a, b];
    assert s[4..] == bban && s[..4] == country + [a, b];
    assert Rearranged(s) == bban + (country + [a, b]) == body + [a, b];
    SameChars(s);
    Completes(Number(body), 98 - (Number(body) * 100) % 97);
  }

  /** Any two digits in that place count as their number. */
  lemma TwoDigits(n: nat)
    requires 2 <= n <= 98
    ensures var d := if n < 10 then "0" + Digits(n) else Digits(n);
            |d| == 2 && IsDigit(d[0]) && IsDigit(d[1]) && IbanValue(d[0]) * 10 + IbanValue(d[1]) == n
  {
    if n >= 10 {
      assert Digits(n) == [DigitChar(n / 10), DigitChar(n % 10)];
    }
  }

  lemma Completes(n: nat, check: nat)
    requires check == 98 - (n * 100) % 97
    ensures (n * 100 + check) % 97 == 1
  {
    var q, r := n * 100 / 97, (n * 100) % 97;
    assert n * 100 == 97 * q + r;
    assert n * 100 + check == 97 * (q + 1) + 1;
    MultiplesVanish(q + 1, 1);
  }

  /** The letters go on where the digits end. */
  lemma LettersFollowDigits(c: char)
    requires IsIbanChar(c) && c != '9' && c != 'Z'
    ensures IsIbanChar((c as int + 1) as char) && IbanValue((c as int + 1) as char) == IbanValue(c) + 1
    ensures IbanValue('0') == 0 && IbanValue('A') == IbanValue('9') + 1
  {
  }
}
