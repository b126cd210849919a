/** Invoice numbers INV-YYYYMM-NNNN: the month prefix, the count behind it, and why numbers never repeat. */
module InvoiceNumber {
  import opened Decimal

  datatype Month = Month(year: nat, month: nat)

  predicate ValidMonth(m: Month) {
    1 <= m.month <= 12
  }

  function Stamp(m: Month): string {
    Print(m.year) + Padded(m.month, 2)
  }

  /** fmt.Sprintf("INV-%d%02d-", year, month) */
  function Prefix(m: Month): string {
    "INV-" + Stamp(m) + "-"
  }

  /** fmt.Sprintf("%s%04d", prefix, seq) */
  function Number(m: Month, k: nat): string {
    Prefix(m) + Padded(k, 4)
  }

  /** SQL's s LIKE pattern: % is any text, _ any character, a backslash takes the next one literally. */
  predicate Like(s: string, pattern: string)
    decreases |pattern|, |s|
  {
    if pattern == "" then s == ""
    else if pattern[0] == '%' then Like(s, pattern[1..]) || (s != "" && Like(s[1..], pattern))
    else if pattern[0] == '\\' && |pattern| > 1 then s != "" && s[0] == pattern[1] && Like(s[1..], pattern[2..])
    else s != "" && (pattern[0] == '_' || s[0] == pattern[0]) && Like(s[1..], pattern[1..])
  }

  /** invoice_number LIKE prefix || '%' */
  predicate HasPrefix(number: string, m: Month) {
    Like(number, Prefix(m) + "%")
  }

  predicate Literal(c: char) {
    c != '%' && c != '_' && c != '\\'
  }

  lemma {:induction false} LikeAnything(s: string)
    ensures Like(s, "%")
    decreases |s|
  {
    if s == "" {
      assert Like("", "");
    } else {
      LikeAnything(s[1..]);
    }
  }

  /** Without wildcards in it, a prefix followed by % matches exactly what starts with it. */
  lemma {:induction false} LikePrefix(s: string, prefix: string)
    requires forall i :: 0 <= i < |prefix| ==> Literal(prefix[i])
    ensures Like(s, prefix + "%") <==> prefix <= s
    decreases |prefix|
  {
    if prefix == "" {
      LikeAnything(s);
      assert prefix + "%" == "%";
    } else {
      assert (prefix + "%")[1..] == prefix[1..] + "%";
      if s != "" {
        LikePrefix(s[1..], prefix[1..]);
        assert prefix <= s <==> prefix[0] == s[0] && prefix[1..] <= s[1..];
      }
    }
  }

  lemma PrefixHasNoWildcard(m: Month)
    ensures forall i :: 0 <= i < |Prefix(m)| ==> Literal(Prefix(m)[i])
  {
    StampIsDigits(m);
    hide Stamp;
    forall i | 0 <= i < |Prefix(m)| ensures Literal(Prefix(m)[i]) {
      assert Prefix(m)[i] == if i < 4 then "INV-"[i] else if i < 4 + |Stamp(m)| then Stamp(m)[i - 4] else '-';
    }
  }

  lemma HasPrefixMeans(number: string, m: Month)
    ensures HasPrefix(number, m) <==> Prefix(m) <= number
  {
    PrefixHasNoWildcard(m);
    hide Prefix;
    LikePrefix(number, Prefix(m));
  }

  lemma StampIsDigits(m: Month)
    ensures AllDigits(Stamp(m))
  {
    DigitsRead(m.year);
    PaddedRead(m.month, 2);
  }

  lemma StampInjective(a: Month, b: Month)
    requires ValidMonth(a) && ValidMonth(b) && Stamp(a) == Stamp(b)
    ensures a == b
  {
    TwoDigits(a.month);
    TwoDigits(b.month);
    var n := |Stamp(a)| - 2;
    assert Stamp(a)[..n] == Print(a.year) && Stamp(b)[..n] == Print(b.year);
    assert Stamp(a)[n..] == Padded(a.month, 2) && Stamp(b)[n..] == Padded(b.month, 2);
    DigitsRead(a.year);
    DigitsRead(b.year);
    PaddedInjective(a.month, b.month, 2);
  }

  /** The only dash after INV- ends the stamp. */
  lemma DashEndsStamp(a: Month, k: nat, i: nat)
    requires 4 <= i < |Number(a, k)|
    ensures Number(a, k)[i] == '-' ==> i == 4 + |Stamp(a)|
  {
    StampIsDigits(a);
    PaddedRead(k, 4);
    hide Stamp, Padded;
    var dash := 4 + |Stamp(a)|;
    if i != dash {
      assert Number(a, k)[i] == if i < dash then Stamp(a)[i - 4] else Padded(k, 4)[i - dash - 1];
    }
  }

  /** A number matches the prefix of exactly one month, whatever the widths of year and count. */
  lemma PrefixMatchesItsMonth(a: Month, b: Month, k: nat)
    requires ValidMonth(a) && ValidMonth(b)
    ensures HasPrefix(Number(a, k), b) <==> a == b
  {
    var number := Number(a, k);
    HasPrefixMeans(number, b);
    hide Stamp, Padded, HasPrefix;
    if HasPrefix(number, b) {
      var dash := 4 + |Stamp(b)|;
      assert Prefix(b)[dash] == '-' == number[dash];
      DashEndsStamp(a, k, dash);
      assert Stamp(b) == Prefix(b)[4..dash] == number[4..dash] == Stamp(a);
      StampInjective(a, b);
    }
  }

  lemma NumberInjective(a: Month, j: nat, b: Month, k: nat)
    requires ValidMonth(a) && ValidMonth(b)
    ensures Number(a, j) == Number(b, k) <==> a == b && j == k
  {
    hide HasPrefix;
    PrefixMatchesItsMonth(a, b, j);
    if Number(a, j) == Number(b, k) {
      PrefixMatchesItsMonth(b, b, k);
      assert Number(a, j)[|Prefix(a)|..] == Padded(j, 4) && Number(b, k)[|Prefix(b)|..] == Padded(k, 4);
      PaddedInjective(j, k, 4);
    }
  }

  /** The month and the count of one to four digits, place by place. */
  lemma NumberForm(m: Month, k: nat)
    requires ValidMonth(m) && k < 10000
    ensures Number(m, k) ==
      "INV-" + Print(m.year) + [Digit(m.month / 10), Digit(m.month % 10), '-', Digit(k / 1000), Digit(k / 100 % 10), Digit(k / 10 % 10), Digit(k % 10)]
  {
    TwoPlaces(m.month);
    FourPlaces(k);
    assert Stamp(m) == Print(m.year) + [Digit(m.month / 10), Digit(m.month % 10)];
    hide Padded, Print, Stamp, Digit;
  }
}
