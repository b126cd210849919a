/** Decimal printing (%d and its zero-padded forms) and the reader it is inverse to (strconv.Atoi). */
module Decimal {

  predicate IsDigit(c: char) {
    '0' <= c <= '9'
  }

  predicate AllDigits(s: string) {
    forall i :: 0 <= i < |s| ==> IsDigit(s[i])
  }

  function Digits(n: nat): string {
    if n < 10 then [('0' as int + n) as char] else Digits(n / 10) + [('0' as int + n % 10) as char]
  }

  /** %d */
  function Print(n: int): string {
    if n < 0 then "-" + Digits(-n) else Digits(n)
  }

  function Zeros(n: nat): string {
    seq(n, _ => '0')
  }

  /** %0wd of a non-negative number */
  function Padded(n: nat, w: nat): string {
    var ds := Digits(n);
    if |ds| < w then Zeros(w - |ds|) + ds else ds
  }

  /** The number a string of digits denotes. */
  function Value(s: string): nat
    requires AllDigits(s)
  {
    if s == "" then 0 else Value(s[..|s| - 1]) * 10 + (s[|s| - 1] as int - '0' as int)
  }

  /** strconv.Atoi with its error discarded: 0 unless the string is a sign and digits. */
  function AtoiOrZero(s: string): int {
    if s != "" && AllDigits(s) then Value(s)
    else if |s| > 1 && s[0] == '-' && AllDigits(s[1..]) then 0 - Value(s[1..]) as int
    else if |s| > 1 && s[0] == '+' && AllDigits(s[1..]) then Value(s[1..])
    else 0
  }

  lemma {:induction false} DigitsRead(n: nat)
    ensures AllDigits(Digits(n)) && Digits(n) != "" && Value(Digits(n)) == n
  {
    if n < 10 {
      assert Digits(n)[..0] == "";
    } else {
      DigitsRead(n / 10);
      assert Digits(n)[..|Digits(n)| - 1] == Digits(n / 10);
    }
  }

  lemma PrintRead(n: int)
    ensures AtoiOrZero(Print(n)) == n
  {
    if n < 0 {
      DigitsRead(-n);
      assert Print(n)[1..] == Digits(-n);
    } else {
      DigitsRead(n);
    }
  }

  /** A plus sign is read too; a sign alone, nothing, and any other character anywhere read as zero. */
  lemma AtoiOtherwise(s: string, n: nat)
    ensures AtoiOrZero("+" + Digits(n)) == n
    ensures s == "" || s == "-" || s == "+" ==> AtoiOrZero(s) == 0
    ensures (exists i :: 0 <= i < |s| && !IsDigit(s[i]) && !(i == 0 && (s[0] == '-' || s[0] == '+'))) ==> AtoiOrZero(s) == 0
  {
    DigitsRead(n);
    var plus := "+" + Digits(n);
    assert plus[0] == '+' && plus[1..] == Digits(n);
    assert !AllDigits(plus);
    if i :| 0 <= i < |s| && !IsDigit(s[i]) && !(i == 0 && (s[0] == '-' || s[0] == '+')) {
      assert i > 0 ==> s[1..][i - 1] == s[i];
    }
  }

  lemma {:induction false} LeadingZeros(k: nat, s: string)
    requires AllDigits(s)
    ensures AllDigits(Zeros(k) + s) && Value(Zeros(k) + s) == Value(s)
  {
    if s == "" {
      if k > 0 {
        LeadingZeros(k - 1, s);
        assert (Zeros(k) + s)[..k - 1] == Zeros(k - 1) + s;
      }
    } else {
      LeadingZeros(k, s[..|s| - 1]);
      assert (Zeros(k) + s)[..k + |s| - 1] == Zeros(k) + s[..|s| - 1];
    }
  }

  lemma PaddedRead(n: nat, w: nat)
    ensures AllDigits(Padded(n, w)) && |Padded(n, w)| >= w && Value(Padded(n, w)) == n
  {
    DigitsRead(n);
    if |Digits(n)| < w {
      LeadingZeros(w - |Digits(n)|, Digits(n));
    }
  }

  /** Padding is injective, past its width too. */
  lemma PaddedInjective(n: nat, n': nat, w: nat)
    ensures Padded(n, w) == Padded(n', w) <==> n == n'
  {
    PaddedRead(n, w);
    PaddedRead(n', w);
  }

  /** A number below 10^w is printed with exactly w characters; used for months. */
  lemma TwoDigits(n: nat)
    requires n < 100
    ensures |Padded(n, 2)| == 2
  {
    if n >= 10 {
      assert |Digits(n / 10)| == 1;
    }
  }

  function Digit(d: nat): char
    requires d < 10
  {
    "0123456789"[d]
  }

  lemma DigitsSnoc(n: nat)
    ensures Digits(n) == if n < 10 then [Digit(n)] else Digits(n / 10) + [Digit(n % 10)]
  {
  }

  lemma ZerosSnoc(k: nat)
    ensures Zeros(k + 1) == Zeros(k) + "0"
  {
  }

  /** One more place on the left is the same number padded, one digit on the right. */
  lemma PaddedSnoc(n: nat, w: nat)
    requires w >= 1
    ensures Padded(n, w + 1) == Padded(n / 10, w) + [Digit(n % 10)]
  {
    DigitsSnoc(n);
    DigitsSnoc(n / 10);
    ZerosSnoc(w - 1);
    var ds, d := Digits(n / 10), [Digit(n % 10)];
    hide Digits, Zeros, Digit;
    if n < 10 {
      assert ds == "0" by { FirstDigit(); }
      assert Padded(n / 10, w) == if w > 1 then Zeros(w - 1) + "0" else "0";
      assert Padded(n, w + 1) == Zeros(w) + d;
      assert Zeros(0) == "" by { NoZeros(); }
    } else {
      assert Digits(n) == ds + d;
      if |ds| < w {
        assert Zeros(w - |ds|) + (ds + d) == (Zeros(w - |ds|) + ds) + d;
      }
    }
  }

  lemma FirstDigit()
    ensures Digits(0) == "0"
  {
  }

  lemma NoZeros()
    ensures Zeros(0) == ""
  {
  }

  lemma OnePlace(n: nat)
    requires n < 10
    ensures Padded(n, 1) == [Digit(n)]
  {
  }

  lemma TwoPlaces(n: nat)
    requires n < 100
    ensures Padded(n, 2) == [Digit(n / 10), Digit(n % 10)]
  {
    PaddedSnoc(n, 1);
    OnePlace(n / 10);
  }

  lemma FourPlaces(n: nat)
    requires n < 10000
    ensures Padded(n, 4) == [Digit(n / 1000), Digit(n / 100 % 10), Digit(n / 10 % 10), Digit(n % 10)]
  {
    hide Padded, Digit;
    assert n / 10 / 10 == n / 100 && n / 10 / 10 / 10 == n / 1000;
    PaddedSnoc(n, 3);
    PaddedSnoc(n / 10, 2);
    TwoPlaces(n / 100);
  }
}
