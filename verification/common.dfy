/**
 * Values and string operations shared by the modules of the notifier model:
 * an Option/Result pair for the source's `undefined`/error returns, and the
 * handful of JavaScript string built-ins the core relies on (`trim`,
 * `split`, `join`, `includes`, `endsWith`, `padStart`, `parseInt` and
 * `Number.prototype.toString` on small non-negative integers).
 */
module Common {

  datatype Option<+T> = None | Some(value: T)

  datatype Result<+T, +E> = Ok(value: T) | Err(error: E)

  /** `o ?? default`: the value if there is one, else the default. */
  function OrElse<X>(o: Option<X>, default: X): X {
    if o.Some? then o.value else default
  }

  // ---------------------------------------------------------------------
  // Whitespace and `String.prototype.trim`
  // ---------------------------------------------------------------------

  /** ECMAScript WhiteSpace and LineTerminator code points, which `trim` removes. */
  predicate IsWhitespace(c: char) {
    || c == '\t' || c == '\n' || c == '\U{000B}' || c == '\U{000C}' || c == '\r'
    || c == ' ' || c == '\U{00A0}' || c == '\U{1680}'
    || ('\U{2000}' <= c <= '\U{200A}')
    || c == '\U{2028}' || c == '\U{2029}' || c == '\U{202F}' || c == '\U{205F}'
    || c == '\U{3000}' || c == '\U{FEFF}'
  }

  /** Drops leading whitespace: the result is the suffix that starts at the first non-whitespace. */
  function TrimStart(s: string): (r: string)
    ensures |r| <= |s| && r == s[|s| - |r|..]
    ensures forall i :: 0 <= i < |s| - |r| ==> IsWhitespace(s[i])
    ensures r != [] ==> !IsWhitespace(r[0])
  {
    if s != [] && IsWhitespace(s[0]) then
      var r := TrimStart(s[1..]);
      TrimStartStep(s, r);
      r
    else s
  }

  /** Dropping one leading whitespace character before the rest is trimmed keeps the suffix facts. */
  lemma TrimStartStep(s: string, r: string)
    requires s != [] && IsWhitespace(s[0])
    requires |r| <= |s| - 1 && r == s[1..][|s| - 1 - |r|..]
    requires forall i :: 0 <= i < |s| - 1 - |r| ==> IsWhitespace(s[1..][i])
    ensures r == s[|s| - |r|..]
    ensures forall i :: 0 <= i < |s| - |r| ==> IsWhitespace(s[i])
  {
    forall i | 0 <= i < |s| - |r| ensures IsWhitespace(s[i]) {
      if i > 0 {
        assert s[i] == s[1..][i - 1];
      }
    }
  }

  /** Drops trailing whitespace: the result is the prefix that ends at the last non-whitespace. */
  function TrimEnd(s: string): (r: string)
    ensures |r| <= |s| && r == s[..|r|]
    ensures forall i :: |r| <= i < |s| ==> IsWhitespace(s[i])
    ensures r != [] ==> !IsWhitespace(r[|r| - 1])
  {
    if s != [] && IsWhitespace(s[|s| - 1]) then
      var r := TrimEnd(s[..|s| - 1]);
      TrimEndStep(s, s[..|s| - 1], r);
      r
    else s
  }

  /** Dropping one trailing whitespace character before the rest is trimmed keeps the prefix facts. */
  lemma TrimEndStep(s: string, init: string, r: string)
    requires s != [] && IsWhitespace(s[|s| - 1]) && init == s[..|s| - 1]
    requires |r| <= |init| && r == init[..|r|]
    requires forall i :: |r| <= i < |init| ==> IsWhitespace(init[i])
    ensures r == s[..|r|]
    ensures forall i :: |r| <= i < |s| ==> IsWhitespace(s[i])
  {
    forall i | |r| <= i < |s| ensures IsWhitespace(s[i]) {
      if i < |init| {
        assert s[i] == init[i];
      }
    }
  }

  predicate AllWhitespace(s: string) {
    forall i :: 0 <= i < |s| ==> IsWhitespace(s[i])
  }

  /** `s` is `k` whitespace characters, then `r`, then only whitespace. */
  predicate TrimmedFrom(s: string, r: string, k: nat) {
    && k + |r| <= |s|
    && s == s[..k] + r + s[k + |r|..]
    && AllWhitespace(s[..k])
    && AllWhitespace(s[k + |r|..])
  }

  /**
   * `String.prototype.trim`: the input is some whitespace, the result and
   * some more whitespace, and the result neither starts nor ends with whitespace.
   */
  function Trim(s: string): (r: string)
    ensures r != [] ==> !IsWhitespace(r[0]) && !IsWhitespace(r[|r| - 1])
    ensures |r| <= |s|
    ensures exists k :: TrimmedFrom(s, r, k)
  {
    var t := TrimStart(s);
    var r := TrimEnd(t);
    TrimPieces(s, t, r);
    r
  }

  /**
   * The pieces `TrimStart` and then `TrimEnd` cut off are whitespace, and the
   * kept part is between them: `t` is what `TrimStart` leaves of `s`, `r` what
   * `TrimEnd` leaves of `t`.
   */
  lemma TrimPieces(s: string, t: string, r: string)
    requires |t| <= |s| && t == s[|s| - |t|..]
    requires forall i :: 0 <= i < |s| - |t| ==> IsWhitespace(s[i])
    requires |r| <= |t| && r == t[..|r|]
    requires forall i :: |r| <= i < |t| ==> IsWhitespace(t[i])
    requires t != [] ==> !IsWhitespace(t[0])
    requires r != [] ==> !IsWhitespace(r[|r| - 1])
    ensures TrimmedFrom(s, r, |s| - |t|)
    ensures r != [] ==> !IsWhitespace(r[0]) && !IsWhitespace(r[|r| - 1])
  {
    assert r != [] ==> r[0] == t[0];
    var k := |s| - |t|;
    forall i | k + |r| <= i < |s| ensures IsWhitespace(s[i]) {
      assert s[i] == t[i - k];
    }
    assert s[k..k + |r|] == r;
    WhitespaceAround(s, k, k + |r|);
  }

  /** A string is its whitespace-only head, its middle and its whitespace-only tail. */
  lemma WhitespaceAround(s: string, k: nat, m: nat)
    requires k <= m <= |s|
    requires forall i :: 0 <= i < k ==> IsWhitespace(s[i])
    requires forall i :: m <= i < |s| ==> IsWhitespace(s[i])
    ensures TrimmedFrom(s, s[k..m], k)
  {
    assert forall i :: 0 <= i < k ==> s[..k][i] == s[i];
    assert forall i :: 0 <= i < |s| - m ==> s[m..][i] == s[m + i];
    assert s == s[..k] + s[k..m] + s[m..];
  }

  /** A string that neither starts nor ends with whitespace is its own trim. */
  lemma TrimOfTrimmed(s: string)
    requires s != [] ==> !IsWhitespace(s[0]) && !IsWhitespace(s[|s| - 1])
    ensures Trim(s) == s
  {
  }

  lemma TrimIdempotent(s: string)
    ensures Trim(Trim(s)) == Trim(s)
  {
    TrimOfTrimmed(Trim(s));
  }

  // ---------------------------------------------------------------------
  // Prefixes, suffixes and substrings
  // ---------------------------------------------------------------------

  predicate StartsWith(s: string, prefix: string) {
    |prefix| <= |s| && s[..|prefix|] == prefix
  }

  predicate EndsWith(s: string, suffix: string) {
    |suffix| <= |s| && s[|s| - |suffix|..] == suffix
  }

  /** `sub` occurs in `s` starting at position `i`. */
  predicate OccursAt(s: string, sub: string, i: nat) {
    i + |sub| <= |s| && s[i..i + |sub|] == sub
  }

  /** `String.prototype.includes`, as a left-to-right search. */
  function Contains(s: string, sub: string): (r: bool)
    ensures r <==> exists i: nat :: OccursAt(s, sub, i)
  {
    if StartsWith(s, sub) then
      assert OccursAt(s, sub, 0);
      true
    else if s == [] then
      assert forall i: nat :: !OccursAt(s, sub, i);
      false
    else
      var r := Contains(s[1..], sub);
      assert forall i: nat :: OccursAt(s[1..], sub, i) <==> OccursAt(s, sub, i + 1);
      assert forall i: nat :: OccursAt(s, sub, i) ==> i == 0 || OccursAt(s[1..], sub, i - 1);
      r
  }

  /** A string placed between two others is found in the concatenation. */
  lemma ContainsMiddle(a: string, b: string, c: string)
    ensures Contains(a + b + c, b)
  {
    assert (a + b + c)[|a|..|a| + |b|] == b;
    assert OccursAt(a + b + c, b, |a|);
  }

  /** A string lacking one of `sub`'s characters does not contain `sub`. */
  lemma AbsentCharNotContained(s: string, sub: string, j: nat)
    requires j < |sub| && sub[j] !in s
    ensures !Contains(s, sub)
  {
    forall i: nat
      ensures !OccursAt(s, sub, i)
    {
      if i + |sub| <= |s| {
        assert s[i..i + |sub|][j] == s[i + j];
        assert s[i..i + |sub|][j] != sub[j];
      }
    }
  }

  // ---------------------------------------------------------------------
  // `split` on one separator character and `join`
  // ---------------------------------------------------------------------

  /** Position of the first occurrence of `c`, if any. */
  function IndexOf(s: string, c: char): (r: Option<nat>)
    ensures r.Some? ==> r.value < |s| && s[r.value] == c && c !in s[..r.value]
    ensures r.None? <==> c !in s
  {
    if s == [] then None
    else if s[0] == c then Some(0)
    else
      match IndexOf(s[1..], c)
      case None => None
      case Some(i) =>
        assert s[..i + 1] == [s[0]] + s[1..][..i];
        Some(i + 1)
  }

  /** `s.split(sep)` for a one-character separator: the pieces between separators, empty ones included. */
  function Split(s: string, sep: char): (parts: seq<string>)
    ensures |parts| >= 1
    ensures forall i :: 0 <= i < |parts| ==> sep !in parts[i]
    ensures Join(parts, [sep]) == s
    decreases |s|
  {
    match IndexOf(s, sep)
    case None => [s]
    case Some(i) =>
      var rest := Split(s[i + 1..], sep);
      var parts := [s[..i]] + rest;
      assert parts[1..] == rest;
      assert s == s[..i] + [sep] + s[i + 1..];
      parts
  }

  /** `parts.join(sep)`; joining no parts gives the empty string. */
  function Join(parts: seq<string>, sep: string): string {
    if |parts| == 0 then ""
    else if |parts| == 1 then parts[0]
    else parts[0] + sep + Join(parts[1..], sep)
  }

  /** `parts.join("")`. */
  function Concat(parts: seq<string>): string {
    if parts == [] then "" else parts[0] + Concat(parts[1..])
  }

  /** A character absent from every part and from the separator is absent from their join. */
  lemma {:induction false} JoinAvoids(parts: seq<string>, sep: string, c: char)
    requires c !in sep
    requires forall i :: 0 <= i < |parts| ==> c !in parts[i]
    ensures c !in Join(parts, sep)
    decreases |parts|
  {
    if |parts| > 1 {
      JoinAvoids(parts[1..], sep, c);
      assert parts[0] == parts[0];
    }
  }

  /** Splitting at a separator that does not occur in the first piece peels that piece off. */
  lemma SplitCons(a: string, sep: char, b: string)
    requires sep !in a
    ensures Split(a + [sep] + b, sep) == [a] + Split(b, sep)
  {
    var s := a + [sep] + b;
    assert s[|a|] == sep;
    assert s[..|a|] == a;
    assert s[|a| + 1..] == b;
  }

  /** `split` undoes `join` when no part contains the separator. */
  lemma {:induction false} SplitJoin(parts: seq<string>, sep: char)
    requires |parts| >= 1
    requires forall i :: 0 <= i < |parts| ==> sep !in parts[i]
    ensures Split(Join(parts, [sep]), sep) == parts
    decreases |parts|
  {
    if |parts| == 1 {
      assert IndexOf(parts[0], sep).None?;
    } else {
      SplitJoin(parts[1..], sep);
      assert Join(parts, [sep]) == parts[0] + [sep] + Join(parts[1..], [sep]);
      SplitCons(parts[0], sep, Join(parts[1..], [sep]));
    }
  }

  // ---------------------------------------------------------------------
  // Decimal digits: `parseInt(s, 10)`, `n.toString()` and `padStart(2, "0")`
  // ---------------------------------------------------------------------

  predicate IsDigit(c: char) {
    '0' <= c <= '9'
  }

  predicate AllDigits(s: string) {
    forall i :: 0 <= i < |s| ==> IsDigit(s[i])
  }

  function DigitValue(c: char): (d: nat)
    requires IsDigit(c)
    ensures d < 10
  {
    (c as int - '0' as int) as nat
  }

  function DigitChar(d: nat): (c: char)
    requires d < 10
    ensures IsDigit(c) && DigitValue(c) == d
  {
    ('0' as int + d) as char
  }

  lemma DigitRoundTrip(c: char)
    requires IsDigit(c)
    ensures DigitChar(DigitValue(c)) == c
  {
  }

  /** `parseInt(s, 10)` for a string of decimal digits. */
  function DigitsValue(s: string): nat
    requires AllDigits(s)
  {
    if s == [] then 0 else DigitsValue(s[..|s| - 1]) * 10 + DigitValue(s[|s| - 1])
  }

  /** `n.toString()` for a non-negative integer: decimal, no leading zeros. */
  function NatToString(n: nat): (r: string)
    ensures 1 <= |r| && AllDigits(r)
    ensures DigitsValue(r) == n
    ensures n < 10 <==> |r| == 1
    ensures 10 <= n < 100 ==> |r| == 2
    ensures |r| > 1 ==> r[0] != '0'
  {
    if n < 10 then [DigitChar(n)]
    else
      var prefix := NatToString(n / 10);
      var r := prefix + [DigitChar(n % 10)];
      assert r[..|r| - 1] == prefix;
      r
  }

  /** The number of UTF-16 code units that encode `c`: two above the Basic Multilingual Plane. */
  function CodeUnits(c: char): nat {
    if c as int > 0xFFFF then 2 else 1
  }

  /** A JavaScript string's `length`, which counts UTF-16 code units rather than code points. */
  function Utf16Length(s: string): (n: nat)
    ensures n >= |s|
  {
    if s == [] then 0 else CodeUnits(s[0]) + Utf16Length(s[1..])
  }

  /** Decimal digits are one code unit each. */
  lemma {:induction false} DigitsUtf16Length(s: string)
    requires AllDigits(s)
    ensures Utf16Length(s) == |s|
  {
    if s != [] {
      DigitsUtf16Length(s[1..]);
    }
  }

  /**
   * `s.padStart(2, "0")`: zeros are put in front until the string is two
   * UTF-16 code units long; a longer string is left alone.
   */
  function PadStart2(s: string): (r: string)
    ensures Utf16Length(r) == if Utf16Length(s) >= 2 then Utf16Length(s) else 2
    ensures EndsWith(r, s)
    ensures forall i :: 0 <= i < |r| - |s| ==> r[i] == '0'
  {
    var n := Utf16Length(s);
    if n >= 2 then s
    else
      assert ("0" + s)[1..] == s;
      if n == 1 then "0" + s
      else
        assert "0"[1..] == [];
        "00"
  }

  /** On decimal digits, where code units and characters agree, padding puts zeros in front of a shorter string. */
  lemma PadDigits(s: string)
    requires AllDigits(s)
    ensures PadStart2(s) == if |s| >= 2 then s else if |s| == 1 then "0" + s else "00"
  {
    DigitsUtf16Length(s);
  }

  /** A character outside the Basic Multilingual Plane already has `length` 2, so it is not padded. */
  lemma AstralCharNotPadded()
    ensures PadStart2("\U{1F600}") == "\U{1F600}"
  {
    assert "\U{1F600}"[1..] == [];
  }

  lemma DigitsHaveNoSeparators(s: string)
    requires AllDigits(s)
    ensures ' ' !in s && ',' !in s && ':' !in s
  {
  }
}
