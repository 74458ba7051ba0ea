/** Sizes as text: how a node prints a byte count, and how the configuration reads one. */
module SizeText {
  import opened Slots

  const SIZE_MAX: nat := 0xFFFF_FFFF_FFFF_FFFF
  const KB: nat := 1024
  const MB: nat := 1024 * 1024
  const GB: nat := 1024 * 1024 * 1024
  const MAX_DIGITS: nat := 63
  const MAX_LETTERS: nat := 7

  // ---------------------------------------------------------------- character classes

  predicate IsDigit(c: char) {
    '0' <= c <= '9'
  }

  predicate IsSpace(c: char) {
    c == ' ' || '\t' <= c <= '\r'
  }

  predicate IsAlpha(c: char) {
    'a' <= c <= 'z' || 'A' <= c <= 'Z'
  }

  function ToLower(c: char): char {
    if 'A' <= c <= 'Z' then (c as int + 32) as char else c
  }

  datatype Class = Digit | Space | Alpha

  predicate In(cls: Class, c: char) {
    match cls
    case Digit => IsDigit(c)
    case Space => IsSpace(c)
    case Alpha => IsAlpha(c)
  }

  predicate All(cls: Class, s: string) {
    forall i :: 0 <= i < |s| ==> In(cls, s[i])
  }

  function Lower(s: string): (r: string)
    ensures |r| == |s|
  {
    seq(|s|, i requires 0 <= i < |s| => ToLower(s[i]))
  }

  // ------------------------------------------------------------------------ numbers

  /** The number a string of digits denotes. */
  function DecValue(s: string): nat
    requires All(Digit, s)
  {
    if s == [] then 0 else 10 * DecValue(s[..|s| - 1]) + (s[|s| - 1] as int - '0' as int)
  }

  function Decimal(n: nat): (s: string)
    ensures |s| >= 1 && All(Digit, s)
  {
    var last := [(n % 10 + '0' as int) as char];
    if n < 10 then last else Decimal(n / 10) + last
  }

  lemma {:induction false} DecimalValue(n: nat)
    ensures DecValue(Decimal(n)) == n
  {
    var s := Decimal(n);
    if n >= 10 {
      DecimalValue(n / 10);
      assert s[..|s| - 1] == Decimal(n / 10);
    } else {
      assert s[..|s| - 1] == [];
    }
  }

  function Pow(base: nat, n: nat): (p: nat)
    requires base > 0
    ensures p >= 1
  {
    if n == 0 then 1 else base * Pow(base, n - 1)
  }

  lemma Tenfold(v: int, p: int, w: int)
    ensures 10 * (v * p + w) == v * (10 * p) + 10 * w
  {
  }

  lemma DecValueNext(s: string, c: char)
    requires All(Digit, s) && IsDigit(c)
    ensures All(Digit, s + [c]) && DecValue(s + [c]) == 10 * DecValue(s) + (c as int - '0' as int)
  {
    assert (s + [c])[..|s|] == s;
  }

  lemma {:induction false} ValueOfFirst(c: char, s: string)
    requires IsDigit(c) && All(Digit, s)
    ensures All(Digit, [c] + s)
    ensures DecValue([c] + s) == (c as int - '0' as int) * Pow(10, |s|) + DecValue(s)
  {
    if s == [] {
      DecValueNext([], c);
      assert [] + [c] == [c] + s;
    } else {
      var front, last := s[..|s| - 1], s[|s| - 1];
      ValueOfFirst(c, front);
      DecValueNext([c] + front, last);
      assert [c] + s == [c] + front + [last];
      Tenfold(c as int - '0' as int, Pow(10, |front|), DecValue(front));
    }
  }

  /** Read from the left: the first digit counts the power of ten of its place. */
  lemma LeadingDigit(s: string)
    requires s != [] && All(Digit, s)
    ensures DecValue(s) == (s[0] as int - '0' as int) * Pow(10, |s| - 1) + DecValue(s[1..])
  {
    ValueOfFirst(s[0], s[1..]);
    assert [s[0]] + s[1..] == s;
  }

  lemma DecimalNext(v: nat, c: char)
    requires v >= 1 && IsDigit(c)
    ensures Decimal(10 * v + (c as int - '0' as int)) == Decimal(v) + [c]
  {
    var n := 10 * v + (c as int - '0' as int);
    assert n / 10 == v && n % 10 == c as int - '0' as int;
  }

  /** Digits without leading zeros are those printed for their number. */
  lemma {:induction false} DecimalOfValue(s: string)
    requires s != [] && All(Digit, s) && (s[0] == '0' ==> |s| == 1)
    ensures Decimal(DecValue(s)) == s
    ensures |s| > 1 || s[0] != '0' ==> DecValue(s) >= 1
  {
    var n := |s| - 1;
    if n > 0 {
      DecimalOfValue(s[..n]);
      DecimalNext(DecValue(s[..n]), s[n]);
      assert s == s[..n] + [s[n]];
    } else {
      assert s[..0] == [];
    }
  }

  lemma {:induction false} DecimalLength(n: nat, digits: nat)
    requires digits >= 1 && n < Pow(10, digits)
    ensures |Decimal(n)| <= digits
  {
    if n >= 10 {
      assert digits > 1 by {
        assert Pow(10, 1) == 10 * Pow(10, 0);
      }
      DecimalLength(n / 10, digits - 1);
    }
  }

  lemma WordDigits(n: nat)
    requires n <= SIZE_MAX
    ensures |Decimal(n)| <= 20
  {
    assert Pow(10, 5) == 100000 by {
      assert Pow(10, 2) == 100;
    }
    assert Pow(10, 10) == 10000000000 by {
      assert Pow(10, 8) == 1000 * Pow(10, 5);
    }
    assert Pow(10, 15) == 100000 * Pow(10, 10) by {
      assert Pow(10, 13) == 1000 * Pow(10, 10);
    }
    assert Pow(10, 20) == 100000 * Pow(10, 15) by {
      assert Pow(10, 18) == 1000 * Pow(10, 15);
    }
    DecimalLength(n, 20);
  }

  // ----------------------------------------------------------------------- printing

  /** td_format_bytes. */
  function FormatBytes(n: nat): string {
    if n % GB == 0 then Decimal(n / GB) + "GB"
    else if n % MB == 0 then Decimal(n / MB) + "MB"
    else if n % KB == 0 then Decimal(n / KB) + "KB"
    else Decimal(n) + "B"
  }

  // ------------------------------------------------------------------------ reading

  function Multiplier(unit: string): Option<nat> {
    if unit == "b" then Some(1)
    else if unit == "kb" then Some(KB)
    else if unit == "mb" then Some(MB)
    else if unit == "gb" then Some(GB)
    else None
  }

  /** The units, each 1024 of the one before. */
  const UNITS: seq<string> := ["b", "kb", "mb", "gb"]
  const PRINTED_UNITS: seq<string> := ["B", "KB", "MB", "GB"]

  lemma PowersOf1024()
    ensures Pow(1024, 0) == 1 && Pow(1024, 1) == KB && Pow(1024, 2) == MB && Pow(1024, 3) == GB
  {
    assert Pow(1024, 1) == 1024 * Pow(1024, 0);
    assert Pow(1024, 2) == 1024 * Pow(1024, 1);
    assert Pow(1024, 3) == 1024 * Pow(1024, 2);
  }

  lemma MultiplierIs(unit: string)
    ensures Multiplier(unit).Some? <==> unit in UNITS
    ensures forall k: nat :: k < 4 && unit == UNITS[k] ==> Multiplier(unit) == Some(Pow(1024, k))
  {
    PowersOf1024();
  }

  /** A count is printed in the largest unit that divides it. */
  lemma PrintedUnit(n: nat) returns (k: nat)
    ensures k < 4 && n % Pow(1024, k) == 0 && (forall j: nat :: k < j < 4 ==> n % Pow(1024, j) != 0)
    ensures FormatBytes(n) == Decimal(n / Pow(1024, k)) + PRINTED_UNITS[k]
    ensures Lower(PRINTED_UNITS[k]) == UNITS[k]
  {
    PowersOf1024();
    k := if n % GB == 0 then 3 else if n % MB == 0 then 2 else if n % KB == 0 then 1 else 0;
  }

  /** text is digits, perhaps space, a unit in any case, perhaps space; and n is their magnitude times their unit. */
  ghost predicate Denotes(text: string, n: nat) {
    exists d, s, u, e, k: nat :: text == d + s + u + e && DenotesParts(d, s, u, e, k, n)
  }

  ghost predicate DenotesParts(d: string, s: string, u: string, e: string, k: nat, n: nat) {
    && All(Digit, d) && All(Space, s) && All(Alpha, u) && All(Space, e) && 1 <= |d| <= MAX_DIGITS
    && k < 4 && Lower(u) == UNITS[k] && n == DecValue(d) * Pow(1024, k) <= SIZE_MAX
  }

  /** The end of the longest stretch of cls characters from pos on. */
  function Span(cls: Class, text: string, pos: nat): (end: nat)
    requires pos <= |text|
    ensures pos <= end <= |text|
    ensures All(cls, text[pos..end])
    ensures end < |text| ==> !In(cls, text[end])
    decreases |text| - pos
  {
    if pos == |text| || !In(cls, text[pos]) then pos
    else
      var end := Span(cls, text, pos + 1);
      assert text[pos..end] == [text[pos]] + text[pos + 1..end];
      end
  }

  /** What the configuration makes of a size text. */
  function ParseSize(text: string): Option<nat> {
    var a := Span(Digit, text, 0);
    var b := Span(Space, text, a);
    var c := Span(Alpha, text, b);
    var e := Span(Space, text, c);
    var unit := Multiplier(Lower(text[b..c]));
    if a == 0 || a > MAX_DIGITS || c == b || c - b > MAX_LETTERS || e != |text| || unit.None? then None
    else if DecValue(text[0..a]) * unit.value > SIZE_MAX then None
    else Some(DecValue(text[0..a]) * unit.value)
  }

  lemma {:induction false} SpanIs(cls: Class, text: string, pos: nat, end: nat)
    requires pos <= end <= |text| && All(cls, text[pos..end]) && (end < |text| ==> !In(cls, text[end]))
    ensures Span(cls, text, pos) == end
    decreases |text| - pos
  {
    if pos < end {
      assert In(cls, text[pos..end][0]);
      assert text[pos + 1..end] == text[pos..end][1..];
      SpanIs(cls, text, pos + 1, end);
    }
  }

  /** A text can be taken apart in one way only, the one the reader finds. */
  lemma PartsFound(text: string, d: string, s: string, u: string, e: string, k: nat, n: nat)
    requires text == d + s + u + e && DenotesParts(d, s, u, e, k, n)
    ensures ParseSize(text) == Some(n)
  {
    var a, b, c := |d|, |d| + |s|, |d| + |s| + |u|;
    assert text[0..a] == d && text[a..b] == s && text[b..c] == u && text[c..] == e;
    assert 1 <= |u| <= 2 by {
      assert |Lower(u)| == |u|;
    }
    assert a < b ==> text[a] == s[0];
    assert text[b] == u[0];
    assert c < |text| ==> text[c] == e[0];
    MultiplierIs(Lower(u));
    SpanIs(Digit, text, 0, a);
    SpanIs(Space, text, a, b);
    SpanIs(Alpha, text, b, c);
    SpanIs(Space, text, c, |text|);
  }

  lemma FoundParts(text: string, n: nat) returns (d: string, s: string, u: string, e: string, k: nat)
    requires ParseSize(text) == Some(n)
    ensures text == d + s + u + e && DenotesParts(d, s, u, e, k, n)
  {
    var a := Span(Digit, text, 0);
    var b := Span(Space, text, a);
    var c := Span(Alpha, text, b);
    d, s, u, e := text[0..a], text[a..b], text[b..c], text[c..];
    assert text[c..|text|] == e;
    MultiplierIs(Lower(u));
    k :| k < 4 && Lower(u) == UNITS[k];
  }

  /** A text is accepted just when it denotes a size, and then as the size it denotes; nothing overflows. */
  lemma ParseSizeIff(text: string, n: nat)
    ensures ParseSize(text) == Some(n) <==> Denotes(text, n)
  {
    if Denotes(text, n) {
      var d, s, u, e, k: nat :| text == d + s + u + e && DenotesParts(d, s, u, e, k, n);
      PartsFound(text, d, s, u, e, k, n);
    }
    if ParseSize(text) == Some(n) {
      var d, s, u, e, k := FoundParts(text, n);
    }
  }

  lemma DivExact(n: nat, m: nat)
    requires m >= 1 && n % m == 0
    ensures (n / m) * m == n && n / m <= n
  {
  }

  /** Reading back what was printed gives the same count, for every count a node can have. */
  lemma PrintedReadsBack(n: nat)
    requires n <= SIZE_MAX
    ensures ParseSize(FormatBytes(n)) == Some(n)
  {
    var k := PrintedUnit(n);
    var d, u := Decimal(n / Pow(1024, k)), PRINTED_UNITS[k];
    DecimalValue(n / Pow(1024, k));
    DivExact(n, Pow(1024, k));
    WordDigits(n / Pow(1024, k));
    assert d + u == d + "" + u + "";
    PartsFound(d + u, d, "", u, "", k, n);
  }

  // -------------------------------------------------------------- the reader as it runs

  /** The digits at the start, or nothing when they overrun their buffer. */
  method TakeDigits(text: string) returns (number: Option<string>)
    ensures var a := Span(Digit, text, 0);
            number == if a <= MAX_DIGITS then Some(text[0..a]) else None
  {
    var pos, digits := 0, "";
    while pos < |text| && IsDigit(text[pos])
      invariant pos <= |text| && digits == text[0..pos] && |digits| <= MAX_DIGITS
      invariant Span(Digit, text, 0) == Span(Digit, text, pos)
    {
      if |digits| + 1 > MAX_DIGITS {
        return None;
      }
      digits := digits + [text[pos]];
      pos := pos + 1;
    }
    number := Some(digits);
  }

  method SkipSpace(text: string, start: nat) returns (pos: nat)
    requires start <= |text|
    ensures pos == Span(Space, text, start)
  {
    pos := start;
    while pos < |text| && IsSpace(text[pos])
      invariant start <= pos <= |text| && Span(Space, text, start) == Span(Space, text, pos)
    {
      pos := pos + 1;
    }
  }

  /** The letters from start on in lower case, or nothing when they overrun their buffer. */
  method TakeUnit(text: string, start: nat) returns (unit: Option<string>)
    requires start <= |text|
    ensures var c := Span(Alpha, text, start);
            unit == if c - start <= MAX_LETTERS then Some(Lower(text[start..c])) else None
  {
    var pos, letters := start, "";
    while pos < |text| && IsAlpha(text[pos])
      invariant start <= pos <= |text| && letters == Lower(text[start..pos]) && |letters| <= MAX_LETTERS
      invariant Span(Alpha, text, start) == Span(Alpha, text, pos)
    {
      if |letters| + 1 > MAX_LETTERS {
        return None;
      }
      letters := letters + [ToLower(text[pos])];
      pos := pos + 1;
      assert letters == Lower(text[start..pos]);
    }
    unit := Some(letters);
  }

  /** td_parse_size_bytes: pos runs through the text while the two buffers fill. */
  method ParseSizeBytes(text: string) returns (r: Option<nat>)
    ensures r == ParseSize(text)
  {
    if |text| == 0 {
      return None;
    }
    var number := TakeDigits(text);
    if number.None? {
      return None;
    }
    var pos := SkipSpace(text, |number.value|);
    var unit := TakeUnit(text, pos);
    if unit.None? {
      return None;
    }
    pos := SkipSpace(text, pos + |unit.value|);
    if |number.value| == 0 || |unit.value| == 0 || pos != |text| {
      return None;
    }
    r := Scale(number.value, unit.value);
  }

  /** The end of the reading: the number times its unit, unless that is more than a word holds. */
  method Scale(number: string, unit: string) returns (r: Option<nat>)
    requires All(Digit, number)
    ensures r == if Multiplier(unit).Some? && DecValue(number) * Multiplier(unit).value <= SIZE_MAX
                 then Some(DecValue(number) * Multiplier(unit).value) else None
  {
    var magnitude := DecValue(number);
    if magnitude > SIZE_MAX {
      TooLarge(magnitude, unit);
      return None;
    }
    var multiplier := Multiplier(unit);
    if multiplier.None? {
      return None;
    }
    LimitOf(magnitude, multiplier.value);
    if magnitude > SIZE_MAX / multiplier.value {
      return None;
    }
    r := Some(magnitude * multiplier.value);
  }

  lemma TooLarge(magnitude: nat, unit: string)
    requires magnitude > SIZE_MAX
    ensures Multiplier(unit).Some? ==> magnitude * Multiplier(unit).value > SIZE_MAX
  {
  }

  lemma LimitOf(magnitude: nat, m: nat)
    requires m in {1, KB, MB, GB}
    ensures magnitude > SIZE_MAX / m <==> magnitude * m > SIZE_MAX
  {
  }
}
