/** Text helpers mirroring the Kotlin standard-library calls the exporter relies on:
    decimal rendering of integers, `String.toInt`/`toIntOrNull`, `trim { … }`,
    `startsWith`, `removeSuffix` and `joinToString`. */
module Strings {
  import opened Wrappers

  predicate IsDigit(c: char) {
    '0' <= c <= '9'
  }

  predicate AllDigits(s: string) {
    forall i :: 0 <= i < |s| ==> IsDigit(s[i])
  }

  function DigitValue(c: char): (d: nat)
    requires IsDigit(c)
    ensures d < 10
  {
    c as int - '0' as int
  }

  function DigitChar(d: nat): (c: char)
    requires d < 10
    ensures IsDigit(c) && DigitValue(c) == d
  {
    "0123456789"[d]
  }

  /** Decimal rendering of a natural number, without leading zeros. */
  function NatToString(n: nat): (s: string)
    ensures |s| >= 1 && AllDigits(s)
    ensures s[0] == '0' <==> n == 0
    decreases n
  {
    if n < 10 then [DigitChar(n)] else NatToString(n / 10) + [DigitChar(n % 10)]
  }

  /** Value of a string of decimal digits (most significant first). */
  function DigitsValue(s: string): nat
    requires AllDigits(s)
  {
    if s == [] then 0 else DigitsValue(s[..|s| - 1]) * 10 + DigitValue(s[|s| - 1])
  }

  lemma {:induction false} DigitsValueOfNatToString(n: nat)
    ensures DigitsValue(NatToString(n)) == n
    decreases n
  {
    if n >= 10 {
      var s := NatToString(n);
      assert s[..|s| - 1] == NatToString(n / 10);
      DigitsValueOfNatToString(n / 10);
    }
  }

  /** Kotlin's string template rendering of an `Int`/`Long`. */
  function IntToString(n: int): string {
    if n < 0 then "-" + NatToString(-n) else NatToString(n)
  }

  const Int32Min: int := -0x8000_0000
  const Int32Max: int := 0x7FFF_FFFF

  predicate InInt32(v: int) {
    Int32Min <= v <= Int32Max
  }

  predicate IsSign(c: char) {
    c == '-' || c == '+'
  }

  /** The shape `String.toInt` accepts: an optional leading sign, then at least one digit. */
  predicate IsNumeral(s: string) {
    && |s| >= 1
    && (if IsSign(s[0]) then |s| >= 2 && AllDigits(s[1..]) else AllDigits(s))
  }

  function NumeralValue(s: string): int
    requires IsNumeral(s)
  {
    if s[0] == '-' then 0 - DigitsValue(s[1..]) as int
    else if s[0] == '+' then DigitsValue(s[1..])
    else DigitsValue(s)
  }

  /** `String.toIntOrNull()` (and `toInt()`, whose `NumberFormatException` is `None` here):
      a signed decimal numeral whose value fits in a 32-bit `Int`. */
  function ParseInt32(s: string): (r: Option<int>)
    ensures r.Some? ==> InInt32(r.value) && |s| >= 1
  {
    if IsNumeral(s) && InInt32(NumeralValue(s)) then Some(NumeralValue(s)) else None
  }

  const Int64Min: int := -0x8000_0000_0000_0000
  const Int64Max: int := 0x7FFF_FFFF_FFFF_FFFF

  /** `String.toLongOrNull()`: the same shape, with a 64-bit range. */
  function ParseInt64(s: string): (r: Option<int>)
    ensures r.Some? ==> Int64Min <= r.value <= Int64Max && |s| >= 1
    ensures ParseInt32(s).Some? ==> r == ParseInt32(s)
  {
    if IsNumeral(s) && Int64Min <= NumeralValue(s) <= Int64Max then Some(NumeralValue(s)) else None
  }

  /** Parsing undoes rendering for every 32-bit value. */
  lemma {:induction false} ParseInt32OfIntToString(v: int)
    requires InInt32(v)
    ensures ParseInt32(IntToString(v)) == Some(v)
  {
    var s := IntToString(v);
    if v < 0 {
      var n := NatToString(-v);
      assert s == "-" + n && s[0] == '-' && s[1..] == n;
      DigitsValueOfNatToString(-v);
      assert IsNumeral(s);
      assert NumeralValue(s) == v;
    } else {
      var n := NatToString(v);
      assert s == n && IsDigit(s[0]) && !IsSign(s[0]);
      DigitsValueOfNatToString(v);
      assert IsNumeral(s);
      assert NumeralValue(s) == v;
    }
  }

  /** A character that is neither a digit nor a leading sign makes the parse fail. */
  lemma ParseInt32RejectsStrayCharacter(s: string, i: nat)
    requires i < |s| && !IsDigit(s[i]) && !(i == 0 && IsSign(s[i]))
    ensures ParseInt32(s) == None
  {
    if IsSign(s[0]) && i > 0 {
      assert s[1..][i - 1] == s[i];
    }
  }

  /** Values outside the 32-bit range are rejected even though they are well formed. */
  lemma ParseInt32RejectsOutOfRange(n: nat)
    requires n > Int32Max
    ensures ParseInt32(NatToString(n)) == None
  {
    DigitsValueOfNatToString(n);
  }

  /** Kotlin `trimStart(predicate)`. */
  function TrimStart(s: string, drop: char -> bool): (r: string)
    ensures |r| <= |s|
  {
    if s != [] && drop(s[0]) then TrimStart(s[1..], drop) else s
  }

  /** `trimStart` removes the longest prefix of dropped characters. */
  lemma {:induction false} TrimStartDrops(s: string, drop: char -> bool)
    ensures var r := TrimStart(s, drop);
            && r == s[|s| - |r|..]
            && (forall i :: 0 <= i < |s| - |r| ==> drop(s[i]))
            && (r != [] ==> !drop(r[0]))
  {
    if s != [] && drop(s[0]) {
      TrimStartDrops(s[1..], drop);
      var r := TrimStart(s, drop);
      forall i | 1 <= i < |s| - |r| ensures drop(s[i]) {
        assert s[i] == s[1..][i - 1];
      }
    }
  }

  /** Kotlin `trimEnd(predicate)`. */
  function TrimEnd(s: string, drop: char -> bool): (r: string)
    ensures |r| <= |s|
  {
    if s != [] && drop(s[|s| - 1]) then TrimEnd(s[..|s| - 1], drop) else s
  }

  /** `trimEnd` removes the longest suffix of dropped characters. */
  lemma {:induction false} TrimEndDrops(s: string, drop: char -> bool)
    ensures var r := TrimEnd(s, drop);
            && r == s[..|r|]
            && (forall i :: |r| <= i < |s| ==> drop(s[i]))
            && (r != [] ==> !drop(r[|r| - 1]))
  {
    if s != [] && drop(s[|s| - 1]) {
      TrimEndDrops(s[..|s| - 1], drop);
    }
  }

  /** Kotlin `trim(predicate)`. */
  function Trim(s: string, drop: char -> bool): (r: string)
    ensures |r| <= |s|
  {
    TrimEnd(TrimStart(s, drop), drop)
  }

  /** Number of characters `trim` removes at the front. */
  function Leading(s: string, drop: char -> bool): nat {
    |s| - |TrimStart(s, drop)|
  }

  /** What `trim` keeps is the infix after the dropped prefix. */
  lemma TrimKeepsInfix(s: string, drop: char -> bool)
    ensures var r := Trim(s, drop);
            var k := Leading(s, drop);
            k + |r| <= |s| && r == s[k..k + |r|]
  {
    var t := TrimStart(s, drop);
    var r := TrimEnd(t, drop);
    TrimStartIsSuffix(s, drop);
    TrimEndIsPrefix(t, drop);
    var k := |s| - |t|;
    forall j | 0 <= j < |r| ensures r[j] == s[k + j] {
      assert r[j] == t[j];
    }
  }

  /** `trimStart` keeps a suffix. */
  lemma {:induction false} TrimStartIsSuffix(s: string, drop: char -> bool)
    ensures TrimStart(s, drop) == s[|s| - |TrimStart(s, drop)|..]
  {
    if s != [] && drop(s[0]) {
      TrimStartIsSuffix(s[1..], drop);
    }
  }

  /** `trimEnd` keeps a prefix. */
  lemma {:induction false} TrimEndIsPrefix(s: string, drop: char -> bool)
    ensures TrimEnd(s, drop) == s[..|TrimEnd(s, drop)|]
  {
    if s != [] && drop(s[|s| - 1]) {
      TrimEndIsPrefix(s[..|s| - 1], drop);
    }
  }

  /** What `trim` removes in front is dropped, and what it keeps starts and ends with a kept
      character. */
  lemma TrimEnds(s: string, drop: char -> bool)
    ensures var r := Trim(s, drop);
            && (forall i :: 0 <= i < Leading(s, drop) ==> drop(s[i]))
            && (r != [] ==> !drop(r[0]) && !drop(r[|r| - 1]))
  {
    var t := TrimStart(s, drop);
    var r := TrimEnd(t, drop);
    TrimStartDrops(s, drop);
    TrimEndDrops(t, drop);
    if r != [] {
      assert r == t[..|r|];
      assert r[0] == t[0];
    }
  }

  /** Everything `trim` removes after what it keeps is dropped. */
  lemma TrimDropsSuffix(s: string, drop: char -> bool)
    ensures var r := Trim(s, drop);
            forall i :: Leading(s, drop) + |r| <= i < |s| ==> drop(s[i])
  {
    var t := TrimStart(s, drop);
    var r := TrimEnd(t, drop);
    TrimStartDrops(s, drop);
    TrimEndDrops(t, drop);
    var k := |s| - |t|;
    forall i | k + |r| <= i < |s| ensures drop(s[i]) {
      assert s[i] == t[i - k];
    }
  }

  /** `trim` keeps the infix left after dropping matching characters at both ends: what it
      removes all matches, and what it keeps starts and ends with a character it keeps. */
  lemma TrimDrops(s: string, drop: char -> bool)
    ensures var r := Trim(s, drop);
            var k := Leading(s, drop);
            && k + |r| <= |s|
            && r == s[k..k + |r|]
            && (forall i :: 0 <= i < k ==> drop(s[i]))
            && (forall i :: k + |r| <= i < |s| ==> drop(s[i]))
            && (r != [] ==> !drop(r[0]) && !drop(r[|r| - 1]))
  {
    TrimKeepsInfix(s, drop);
    TrimEnds(s, drop);
    TrimDropsSuffix(s, drop);
  }

  /** Trimming twice is trimming once. */
  lemma TrimIdempotent(s: string, drop: char -> bool)
    ensures Trim(Trim(s, drop), drop) == Trim(s, drop)
  {
    var r := Trim(s, drop);
    TrimDrops(s, drop);
    if r != [] {
      assert TrimStart(r, drop) == r;
      TrimEndDrops(r, drop);
      assert TrimEnd(r, drop) == r;
    }
  }

  /** Kotlin's `toString()` of a `String?`: a missing value prints as "null". */
  function Rendered(v: Option<string>): string {
    match v
    case Some(s) => s
    case None => "null"
  }

  /** Kotlin `startsWith(prefix)`. */
  predicate StartsWith(s: string, prefix: string) {
    |prefix| <= |s| && s[..|prefix|] == prefix
  }

  predicate EndsWith(s: string, suffix: string) {
    |suffix| <= |s| && s[|s| - |suffix|..] == suffix
  }

  /** Kotlin `removeSuffix(suffix)`: drops one trailing `suffix` if present. */
  function RemoveSuffix(s: string, suffix: string): (r: string)
    ensures EndsWith(s, suffix) ==> r + suffix == s
    ensures !EndsWith(s, suffix) ==> r == s
  {
    if EndsWith(s, suffix) then s[..|s| - |suffix|] else s
  }

  /** `removeSuffix` takes off a suffix that was just added. */
  lemma RemoveAddedSuffix(x: string, suffix: string)
    ensures RemoveSuffix(x + suffix, suffix) == x
  {
    var s := x + suffix;
    assert s[|s| - |suffix|..] == suffix;
    assert s[..|s| - |suffix|] == x;
  }

  /** Kotlin `joinToString(separator)`: the parts with `sep` between neighbours. */
  function Join(xs: seq<string>, sep: string): (r: string)
    ensures xs == [] ==> r == ""
    ensures |xs| == 1 ==> r == xs[0]
  {
    if xs == [] then "" else if |xs| == 1 then xs[0] else Join(xs[..|xs| - 1], sep) + sep + xs[|xs| - 1]
  }

  /** What `trim { it == '"' || it.isWhitespace() }` removes from IDs. */
  predicate QuoteOrWhitespace(c: char) {
    c == '"' || IsWhitespace(c)
  }

  /** Kotlin `Char.isWhitespace()`: the Unicode space separators, the line and paragraph
      separators, the ASCII controls tab to carriage return, and the four information separators. */
  predicate IsWhitespace(c: char) {
    || ('\U{9}' <= c <= '\U{D}')
    || ('\U{1C}' <= c <= '\U{20}')
    || c == '\U{A0}' || c == '\U{1680}'
    || ('\U{2000}' <= c <= '\U{200A}')
    || c == '\U{2028}' || c == '\U{2029}' || c == '\U{202F}' || c == '\U{205F}' || c == '\U{3000}'
  }
}
