/**
 * Exporting a network profile's speeds as a MikroTik rate-limit string and importing such a
 * string back, with the truncating division and the ignored parse errors of the source.
 */
module RateLimit {
  import opened Decimal
  import opened Text

  datatype Speeds = Speeds(download: int, upload: int)

  const DEFAULT_DOWNLOAD := 10000
  const DEFAULT_UPLOAD := 5000

  /** Go's integer division truncates toward zero. */
  function TruncDiv(a: int, b: int): int
    requires b > 0
  {
    if a < 0 then -(-a / b) else a / b
  }

  /** The quotient that leaves a remainder smaller than the divisor, of the dividend's sign. */
  lemma TruncDivMeans(a: int, b: int)
    requires b > 0
    ensures var r := a - TruncDiv(a, b) * b; -b < r < b && (a >= 0 ==> r >= 0) && (a <= 0 ==> r <= 0)
  {
    assert a >= 0 ==> a == a / b * b + a % b;
    assert a < 0 ==> -a == -a / b * b + -a % b;
  }

  // ---------- the printer: convertToMikrotikProfile ----------

  function Export(p: Speeds): string {
    var downloadBps, uploadBps := p.download * 1000, p.upload * 1000;
    if downloadBps >= 1_000_000 then
      Print(TruncDiv(downloadBps, 1_000_000)) + "M/" + Print(TruncDiv(uploadBps, 1_000_000)) + "M"
    else
      Print(downloadBps) + "/" + Print(uploadBps)
  }

  // ---------- the parser: parseMikrotikRate and convertFromMikrotikProfile ----------

  function ParseRate(rate: string): int {
    ParseUpper(ToUpper(TrimSpace(rate)))
  }

  function ParseUpper(s: string): int {
    if s == "" then 0
    else
      var last, body := s[|s| - 1], s[..|s| - 1];
      if last == 'G' then AtoiOrZero(body) * 1_000_000_000
      else if last == 'M' then AtoiOrZero(body) * 1_000_000
      else if last == 'K' then AtoiOrZero(body) * 1000
      else AtoiOrZero(s)
  }

  function OrDefault(speed: int, default: int): int {
    if speed == 0 then default else speed
  }

  function Import(rateLimit: string): Speeds {
    var parts := Split(rateLimit, '/');
    var parsed :=
      if rateLimit != "" && |parts| == 2 then
        Speeds(TruncDiv(ParseRate(parts[0]), 1000), TruncDiv(ParseRate(parts[1]), 1000))
      else
        Speeds(0, 0);
    Speeds(OrDefault(parsed.download, DEFAULT_DOWNLOAD), OrDefault(parsed.upload, DEFAULT_UPLOAD))
  }

  // ---------- reading back what was printed ----------

  /** Characters a printed number is made of: no separator, no space, no letter. */
  predicate Plain(c: char) {
    IsDigit(c) || c == '-'
  }

  predicate AllPlain(s: string) {
    forall i :: 0 <= i < |s| ==> Plain(s[i])
  }

  lemma PrintIsPlain(n: int)
    ensures Print(n) != "" && AllPlain(Print(n)) && IsDigit(Print(n)[|Print(n)| - 1])
  {
    DigitsRead(if n < 0 then -n else n);
  }

  lemma {:induction false} SplitFree(s: string, sep: char)
    requires sep !in s
    ensures Split(s, sep) == [s]
  {
    if s != "" {
      SplitFree(s[1..], sep);
      assert [s[0]] + s[1..] == s;
    }
  }

  lemma {:induction false} SplitTwo(a: string, b: string, sep: char)
    requires sep !in a && sep !in b
    ensures Split(a + [sep] + b, sep) == [a, b]
    decreases |a|
  {
    var s := a + [sep] + b;
    if a == "" {
      assert s[1..] == b;
      SplitFree(b, sep);
    } else {
      assert s[1..] == a[1..] + [sep] + b;
      SplitTwo(a[1..], b, sep);
      assert [a[0]] + a[1..] == a;
    }
  }

  lemma ParsePrinted(n: int)
    ensures ParseRate(Print(n)) == n
  {
    PrintIsPlain(n);
    PrintRead(n);
    assert TrimSpace(Print(n)) == Print(n);
    assert ToUpper(Print(n)) == Print(n);
  }

  lemma ParsePrintedMega(n: int)
    ensures ParseRate(Print(n) + "M") == n * 1_000_000
  {
    PrintIsPlain(n);
    PrintRead(n);
    var s := Print(n) + "M";
    assert TrimSpace(s) == s;
    assert ToUpper(s) == s;
    assert s[..|s| - 1] == Print(n);
  }

  lemma UpperUnit(n: int, unit: string)
    requires unit == "" || (|unit| == 1 && !IsSpace(unit[0]))
    ensures ToUpper(Print(n) + unit) == Print(n) + ToUpper(unit)
    ensures NoOuterSpace(Print(n) + unit)
  {
    PrintIsPlain(n);
    hide Print;
  }

  lemma ParseSuffix(body: string)
    ensures ParseUpper(body + "G") == AtoiOrZero(body) * 1_000_000_000
    ensures ParseUpper(body + "M") == AtoiOrZero(body) * 1_000_000
    ensures ParseUpper(body + "K") == AtoiOrZero(body) * 1000
  {
    hide AtoiOrZero;
    assert (body + "G")[..|body|] == body && (body + "M")[..|body|] == body && (body + "K")[..|body|] == body;
  }

  lemma UpperUnits()
    ensures ToUpper("") == "" && ToUpper("k") == "K" && ToUpper("K") == "K"
    ensures ToUpper("m") == "M" && ToUpper("M") == "M" && ToUpper("g") == "G" && ToUpper("G") == "G"
  {
  }

  lemma ParsePlain(n: int)
    ensures ParseUpper(Print(n)) == n && Print(n) + "" == Print(n)
  {
    PrintIsPlain(n);
    PrintRead(n);
    hide Print, AtoiOrZero;
  }

  /** Any whole number of G, M or K bits a second, in either case, or of bits, with space around it. */
  lemma ParseUnits(before: string, n: int, unit: string, after: string)
    requires AllSpaces(before) && AllSpaces(after)
    requires unit == "" || unit == "k" || unit == "K" || unit == "m" || unit == "M" || unit == "g" || unit == "G"
    ensures ParseRate(before + (Print(n) + unit) + after) ==
      n * (if unit == "" then 1 else if unit == "k" || unit == "K" then 1000 else if unit == "m" || unit == "M" then 1_000_000 else 1_000_000_000)
  {
    PrintRead(n);
    UpperUnit(n, unit);
    TrimAdded(before, Print(n) + unit, after);
    ParseSuffix(Print(n));
    ParsePlain(n);
    UpperUnits();
    hide TrimSpace, ToUpper, Print, AtoiOrZero, ParseUpper, NoOuterSpace, AllSpaces;
  }

  lemma {:induction false} SplitCount(s: string, sep: char)
    ensures |Split(s, sep)| == 1 + multiset(s)[sep]
  {
    if s != "" {
      assert s == [s[0]] + s[1..];
      SplitCount(s[1..], sep);
    }
  }

  /** Anything but one slash imports as the defaults; one slash imports the two rates in Kbps, a zero as its default. */
  lemma ImportMeans(s: string, a: string, b: string)
    requires '/' !in a && '/' !in b
    ensures multiset(s)['/'] != 1 ==> Import(s) == Speeds(10000, 5000)
    ensures var d, u := TruncDiv(ParseRate(a), 1000), TruncDiv(ParseRate(b), 1000);
      Import(a + "/" + b) == Speeds(if d == 0 then 10000 else d, if u == 0 then 5000 else u)
  {
    SplitCount(s, '/');
    assert a + "/" + b == a + ['/'] + b;
    SplitTwo(a, b, '/');
  }

  lemma ImportExportRaw(p: Speeds)
    requires p.download < 1000
    ensures Import(Export(p)) == Speeds(OrDefault(p.download, DEFAULT_DOWNLOAD), OrDefault(p.upload, DEFAULT_UPLOAD))
  {
    var a, b := Print(p.download * 1000), Print(p.upload * 1000);
    PrintIsPlain(p.download * 1000);
    PrintIsPlain(p.upload * 1000);
    assert a + "/" + b == a + ['/'] + b;
    SplitTwo(a, b, '/');
    ParsePrinted(p.download * 1000);
    ParsePrinted(p.upload * 1000);
  }

  lemma ImportExportMega(p: Speeds)
    requires p.download >= 1000
    ensures Import(Export(p)) == Speeds(p.download / 1000 * 1000, OrDefault(TruncDiv(p.upload, 1000) * 1000, DEFAULT_UPLOAD))
  {
    var d, u := TruncDiv(p.download * 1000, 1_000_000), TruncDiv(p.upload * 1000, 1_000_000);
    assert d == p.download / 1000 && u == TruncDiv(p.upload, 1000);
    PrintIsPlain(d);
    PrintIsPlain(u);
    var a, b := Print(d) + "M", Print(u) + "M";
    assert Export(p) == a + ['/'] + b;
    SplitTwo(a, b, '/');
    ParsePrintedMega(d);
    ParsePrintedMega(u);
  }

  /** What is printed: two numbers of bits per second below 1000 Kbps download, else two of whole megabits, each with its M. */
  lemma ExportForm(p: Speeds) returns (a: string, b: string)
    ensures AllPlain(a) && AllPlain(b)
    ensures p.download < 1000 ==>
      Export(p) == a + "/" + b && AtoiOrZero(a) == p.download * 1000 && AtoiOrZero(b) == p.upload * 1000
    ensures p.download >= 1000 ==>
      Export(p) == a + "M/" + b + "M" && AtoiOrZero(a) == p.download / 1000 && AtoiOrZero(b) == TruncDiv(p.upload, 1000)
  {
    var d, u := p.download * 1000, p.upload * 1000;
    if p.download >= 1000 {
      d, u := TruncDiv(d, 1_000_000), TruncDiv(u, 1_000_000);
      assert d == p.download / 1000 && u == TruncDiv(p.upload, 1000);
    }
    a, b := Print(d), Print(u);
    PrintIsPlain(d);
    PrintIsPlain(u);
    PrintRead(d);
    PrintRead(u);
    hide Print, AtoiOrZero;
  }

  /** What one round trip does to any pair of speeds. */
  lemma RoundTrip(p: Speeds)
    ensures Import(Export(p)) ==
      if p.download < 1000 then
        Speeds(if p.download == 0 then 10000 else p.download, if p.upload == 0 then 5000 else p.upload)
      else
        var upload := TruncDiv(p.upload, 1000) * 1000;
        Speeds(p.download / 1000 * 1000, if upload == 0 then 5000 else upload)
  {
    hide Import, Export, TruncDiv;
    if p.download < 1000 {
      ImportExportRaw(p);
    } else {
      ImportExportMega(p);
    }
  }

  /** Exactly the speeds that survive a round trip. */
  lemma RoundTripLossless(p: Speeds)
    ensures Import(Export(p)) == p <==>
      p.upload != 0 && p.download != 0 && (p.download < 1000 || (p.download % 1000 == 0 && p.upload % 1000 == 0))
  {
    hide Import, Export;
    RoundTrip(p);
  }

  /** A second round trip changes nothing, unless a zero download sent an odd upload through the raw form first. */
  lemma SecondRoundTrip(p: Speeds)
    ensures Import(Export(Import(Export(p)))) == Import(Export(p)) <==> p.download != 0 || p.upload % 1000 == 0
  {
    hide Import, Export;
    RoundTrip(p);
    RoundTripLossless(Import(Export(p)));
    assert forall k: int {:trigger k * 1000} :: k * 1000 % 1000 == 0;
  }
}
