/**
  `decode_unicode` of api/utils.py (lines 94-107): every match of
  `ESCAPE_SEQUENCE_RE` is replaced by the one character the
  `unicode-escape` codec makes of it, and everything else is copied.

  A Python `str` is a sequence of code points, lone surrogates included, so
  text is a `seq` of integers below 0x110000.  The name lookup of `\N{...}`
  needs the Unicode character database, which is not part of this model: it
  is the parameter `names`.
*/
module Unescape {
  import opened Wrappers

  type CodePoint = c: int | 0 <= c < 0x11_0000

  type Str = seq<CodePoint>

  const Backslash: CodePoint := 0x5C
  const Newline: CodePoint := 0x0A
  const UpperU: CodePoint := 0x55
  const LowerU: CodePoint := 0x75
  const LowerX: CodePoint := 0x78
  const UpperN: CodePoint := 0x4E
  const OpenBrace: CodePoint := 0x7B
  const CloseBrace: CodePoint := 0x7D

  /** The lookup of a character name; `None` for a name the database does not know. */
  type Names = Str -> Option<CodePoint>

  function Power(b: nat, n: nat): nat {
    if n == 0 then 1 else b * Power(b, n - 1)
  }

  // ---------------------------------------------------------------------------
  // Digits

  predicate IsHex(c: CodePoint) {
    0x30 <= c <= 0x39 || 0x41 <= c <= 0x46 || 0x61 <= c <= 0x66
  }

  predicate IsOctal(c: CodePoint) {
    0x30 <= c <= 0x37
  }

  predicate AllHex(d: Str) {
    forall i :: 0 <= i < |d| ==> IsHex(d[i])
  }

  predicate AllOctal(d: Str) {
    forall i :: 0 <= i < |d| ==> IsOctal(d[i])
  }

  function HexDigit(c: CodePoint): (v: nat)
    requires IsHex(c)
    ensures v < 16
  {
    if c <= 0x39 then c - 0x30 else if c <= 0x46 then c - 0x41 + 10 else c - 0x61 + 10
  }

  /** The number a run of hex digits spells, most significant first. */
  function HexNumber(d: Str): (v: nat)
    requires AllHex(d)
    ensures v < Power(16, |d|)
    decreases |d|
  {
    if d == [] then 0
    else
      var high := HexNumber(d[..|d| - 1]);
      assert high <= Power(16, |d| - 1) - 1;
      high * 16 + HexDigit(d[|d| - 1])
  }

  /** The number a run of octal digits spells, most significant first. */
  function OctalNumber(d: Str): (v: nat)
    requires AllOctal(d)
    ensures v < Power(8, |d|)
    decreases |d|
  {
    if d == [] then 0
    else
      var high := OctalNumber(d[..|d| - 1]);
      assert high <= Power(8, |d| - 1) - 1;
      high * 8 + (d[|d| - 1] - 0x30)
  }

  // ---------------------------------------------------------------------------
  // ESCAPE_SEQUENCE_RE

  predicate NoNewline(d: Str) {
    forall i :: 0 <= i < |d| ==> d[i] != Newline
  }

  /** The number of octal digits `[0-7]{1,3}` takes greedily from the front of `s`, at most `limit`. */
  function OctalRun(s: Str, limit: nat): (k: nat)
    ensures k <= limit && k <= |s|
    ensures forall i :: 0 <= i < k ==> IsOctal(s[i])
    ensures k < limit && k < |s| ==> !IsOctal(s[k])
    decreases limit
  {
    if limit == 0 || s == [] || !IsOctal(s[0]) then 0 else 1 + OctalRun(s[1..], limit - 1)
  }

  /** The index of the first `}` at or after `i`. */
  function FindClose(s: Str, i: nat): (k: Option<nat>)
    ensures k.Some? ==> i <= k.value < |s| && s[k.value] == CloseBrace
    ensures k.Some? ==> forall j :: i <= j < k.value ==> s[j] != CloseBrace
    ensures k.None? ==> forall j :: i <= j < |s| ==> s[j] != CloseBrace
    decreases |s| - i
  {
    if i >= |s| then None else if s[i] == CloseBrace then Some(i) else FindClose(s, i + 1)
  }

  /**
    The length of the match of `ESCAPE_SEQUENCE_RE` at the front of `s`, 0
    when there is none.  The alternatives are tried in order: `\U` and eight
    characters, `\u` and four, `\x` and two (none of them a newline, as `.`
    requires), a backslash and one to three octal digits, taken greedily, and
    `\N{`, at least one character other than `}`, and `}`.
  */
  function MatchLength(s: Str): (n: nat)
    ensures n == 0 || (2 <= n <= |s| && s[0] == Backslash)
  {
    if |s| < 2 || s[0] != Backslash then 0
    else if s[1] == UpperU then (if |s| >= 10 && NoNewline(s[2..10]) then 10 else 0)
    else if s[1] == LowerU then (if |s| >= 6 && NoNewline(s[2..6]) then 6 else 0)
    else if s[1] == LowerX then (if |s| >= 4 && NoNewline(s[2..4]) then 4 else 0)
    else if IsOctal(s[1]) then 1 + OctalRun(s[1..], 3)
    else if s[1] == UpperN && |s| >= 3 && s[2] == OpenBrace then
      match FindClose(s, 3)
      case Some(k) => if k > 3 then k + 1 else 0
      case None => 0
    else 0
  }

  // ---------------------------------------------------------------------------
  // decode_match and decode_unicode

  /**
    `codecs.decode(match, 'unicode-escape')` on one match: the hex escapes
    need hex digits only, and `\U` a value below 0x110000; a name must be
    known.  The exception is modelled as `Err` holding the match.
  */
  function DecodeEscape(names: Names, m: Str): (r: Result<CodePoint, Str>)
    requires |m| >= 2
    ensures r.Err? ==> r.error == m
  {
    var body := m[2..];
    if m[1] == UpperU || m[1] == LowerU || m[1] == LowerX then
      if AllHex(body) && HexNumber(body) < 0x11_0000 then Ok(HexNumber(body) as CodePoint) else Err(m)
    else if m[1] == UpperN then
      if |m| >= 4 then
        match names(m[3..|m| - 1])
        case Some(c) => Ok(c)
        case None => Err(m)
      else Err(m)
    else if |m| <= 4 && AllOctal(m[1..]) then
      assert Power(8, |m[1..]|) <= 512 by {
        assert Power(8, 3) == 512;
        assert Power(8, 2) == 64 && Power(8, 1) == 8 && Power(8, 0) == 1;
      }
      Ok(OctalNumber(m[1..]) as CodePoint)
    else Err(m)
  }

  /**
    `decode_unicode(s)`: scanning left to right, a match is replaced by its
    character and the scan goes on after it; where nothing matches one
    character is copied and the scan goes on from the next one.  The first
    match the codec rejects raises.
  */
  function Decode(names: Names, s: Str): (r: Result<Str, Str>)
    ensures r.Ok? ==> |r.value| <= |s|
    ensures r.Err? ==> |r.error| >= 2 && r.error[0] == Backslash
    decreases |s|
  {
    if s == [] then Ok([])
    else
      var n := MatchLength(s);
      if n == 0 then
        match Decode(names, s[1..])
        case Ok(t) => Ok([s[0]] + t)
        case Err(e) => Err(e)
      else
        match DecodeEscape(names, s[..n])
        case Err(e) => Err(e)
        case Ok(c) =>
          match Decode(names, s[n..])
          case Ok(t) => Ok([c] + t)
          case Err(e) => Err(e)
  }

  /** `prefix` in front of a decoded text; an error passes through. */
  function Prefixed(prefix: Str, r: Result<Str, Str>): Result<Str, Str> {
    match r
    case Ok(t) => Ok(prefix + t)
    case Err(e) => Err(e)
  }

  // ---------------------------------------------------------------------------
  // Properties

  /** A text without a backslash comes back unchanged. */
  lemma {:induction false} DecodePlain(names: Names, s: Str)
    requires Backslash !in s
    ensures Decode(names, s) == Ok(s)
    decreases |s|
  {
    if s != [] {
      assert Backslash !in s[1..];
      DecodePlain(names, s[1..]);
      assert [s[0]] + s[1..] == s;
    }
  }

  /**
    A backslash followed by anything but `U`, `u`, `x`, `N`, an octal digit
    or another backslash, as in `\n` or `\"`, is copied as it is.
  */
  lemma OtherEscapesKept(names: Names, c: CodePoint, t: Str)
    requires c != UpperU && c != LowerU && c != LowerX && c != UpperN && !IsOctal(c) && c != Backslash
    ensures Decode(names, [Backslash, c] + t) == Prefixed([Backslash, c], Decode(names, t))
  {
    var s := [Backslash, c] + t;
    assert s[1..] == [c] + t;
    assert ([c] + t)[1..] == t;
    match Decode(names, t)
    case Ok(u) => assert [Backslash] + ([c] + u) == [Backslash, c] + u;
    case Err(_) =>
  }

  /**
    A backslash does not escape the backslash after it: in `\\u0041` the
    first backslash is copied and the scan resumes at the second, which
    starts a match.
  */
  lemma BackslashNotPaired(names: Names, t: Str)
    ensures Decode(names, [Backslash, Backslash] + t) == Prefixed([Backslash], Decode(names, [Backslash] + t))
  {
    var s := [Backslash, Backslash] + t;
    assert s[1..] == [Backslash] + t;
  }

  /** `\u` and four hex digits become the one code point they spell. */
  lemma DecodeUnicode4(names: Names, d: Str, t: Str)
    requires |d| == 4 && AllHex(d)
    ensures HexNumber(d) < 0x1_0000
    ensures Decode(names, [Backslash, LowerU] + d + t) == Prefixed([HexNumber(d) as CodePoint], Decode(names, t))
  {
    assert Power(16, 4) == 0x1_0000 by {
      assert Power(16, 0) == 1 && Power(16, 1) == 16 && Power(16, 2) == 256 && Power(16, 3) == 4096;
    }
    HexEscapeMatch(names, LowerU, d, t);
  }

  /** `\x` and two hex digits become the one code point they spell. */
  lemma DecodeHex2(names: Names, d: Str, t: Str)
    requires |d| == 2 && AllHex(d)
    ensures HexNumber(d) < 0x100
    ensures Decode(names, [Backslash, LowerX] + d + t) == Prefixed([HexNumber(d) as CodePoint], Decode(names, t))
  {
    assert Power(16, 2) == 0x100 by {
      assert Power(16, 0) == 1 && Power(16, 1) == 16;
    }
    HexEscapeMatch(names, LowerX, d, t);
  }

  /** `\U` and eight hex digits become the code point they spell, when there is one. */
  lemma DecodeUnicode8(names: Names, d: Str, t: Str)
    requires |d| == 8 && AllHex(d) && HexNumber(d) < 0x11_0000
    ensures Decode(names, [Backslash, UpperU] + d + t) == Prefixed([HexNumber(d) as CodePoint], Decode(names, t))
  {
    HexEscapeMatch(names, UpperU, d, t);
  }

  /** `\U` and eight hex digits spelling a number beyond the code space raise. */
  lemma DecodeUnicode8Beyond(names: Names, d: Str, t: Str)
    requires |d| == 8 && AllHex(d) && HexNumber(d) >= 0x11_0000
    ensures Decode(names, [Backslash, UpperU] + d + t) == Err([Backslash, UpperU] + d)
  {
    var s := [Backslash, UpperU] + d + t;
    assert s[2..10] == d && s[..10] == [Backslash, UpperU] + d;
    assert [Backslash, UpperU] + d == [Backslash, UpperU] + d;
    assert ([Backslash, UpperU] + d)[2..] == d;
  }

  /** A `\u` match whose four characters are not all hex digits raises. */
  lemma DecodeUnicode4Malformed(names: Names, d: Str, t: Str)
    requires |d| == 4 && NoNewline(d) && !AllHex(d)
    ensures Decode(names, [Backslash, LowerU] + d + t) == Err([Backslash, LowerU] + d)
  {
    var s := [Backslash, LowerU] + d + t;
    assert s[2..6] == d && s[..6] == [Backslash, LowerU] + d;
    assert ([Backslash, LowerU] + d)[2..] == d;
  }

  lemma HexEscapeMatch(names: Names, letter: CodePoint, d: Str, t: Str)
    requires (letter == UpperU && |d| == 8) || (letter == LowerU && |d| == 4) || (letter == LowerX && |d| == 2)
    requires AllHex(d) && HexNumber(d) < 0x11_0000
    ensures Decode(names, [Backslash, letter] + d + t) == Prefixed([HexNumber(d) as CodePoint], Decode(names, t))
  {
    var s := [Backslash, letter] + d + t;
    var n := |d| + 2;
    assert s[2..n] == d;
    assert NoNewline(d) by {
      forall i | 0 <= i < |d|
        ensures d[i] != Newline
      {
        assert IsHex(d[i]);
      }
    }
    assert MatchLength(s) == n;
    assert s[..n] == [Backslash, letter] + d;
    assert s[..n][2..] == d;
    assert s[n..] == t;
  }

  /**
    A backslash and octal digits become one code point: the match takes
    three digits, or fewer when the next character is not an octal digit.
  */
  lemma DecodeOctal(names: Names, d: Str, t: Str)
    requires 1 <= |d| <= 3 && AllOctal(d)
    requires |d| < 3 ==> t == [] || !IsOctal(t[0])
    ensures OctalNumber(d) < 512
    ensures Decode(names, [Backslash] + d + t) == Prefixed([OctalNumber(d) as CodePoint], Decode(names, t))
  {
    assert Power(8, |d|) <= 512 by {
      assert Power(8, 0) == 1 && Power(8, 1) == 8 && Power(8, 2) == 64 && Power(8, 3) == 512;
    }
    var s := [Backslash] + d + t;
    var n := |d| + 1;
    assert s[1..] == d + t;
    OctalRunOf(d, t);
    assert MatchLength(s) == n;
    assert s[..n] == [Backslash] + d;
    assert s[..n][1..] == d;
    assert s[n..] == t;
  }

  lemma OctalRunOf(d: Str, t: Str)
    requires 1 <= |d| <= 3 && AllOctal(d)
    requires |d| < 3 ==> t == [] || !IsOctal(t[0])
    ensures OctalRun(d + t, 3) == |d|
  {
  }

  /**
    Each match is decoded on its own: the two `\u` escapes of a surrogate
    pair give two code points, not the one character the pair encodes.
  */
  lemma SurrogatesStaySplit(names: Names, high: Str, low: Str)
    requires |high| == 4 && AllHex(high) && 0xD800 <= HexNumber(high) < 0xDC00
    requires |low| == 4 && AllHex(low) && 0xDC00 <= HexNumber(low) < 0xE000
    ensures Decode(names, [Backslash, LowerU] + high + [Backslash, LowerU] + low)
            == Ok([HexNumber(high) as CodePoint, HexNumber(low) as CodePoint])
  {
    var h := HexNumber(high) as CodePoint;
    var l := HexNumber(low) as CodePoint;
    var second := [Backslash, LowerU] + low;
    DecodeUnicode4(names, low, []);
    assert second + [] == second;
    assert Decode(names, []) == Ok([]);
    assert [l] + [] == [l];
    assert Decode(names, second) == Ok([l]);
    DecodeUnicode4(names, high, second);
    assert [Backslash, LowerU] + high + second == [Backslash, LowerU] + high + [Backslash, LowerU] + low;
    assert [h] + [l] == [h, l];
  }

  // ---------------------------------------------------------------------------
  // The inverse: escaping every code point as `\U` and eight hex digits

  function HexChar(v: nat): (c: CodePoint)
    requires v < 16
    ensures IsHex(c) && HexDigit(c) == v
  {
    if v < 10 then 0x30 + v else 0x61 + v - 10
  }

  /** `v` written with `n` hex digits, most significant first. */
  function HexDigits(v: nat, n: nat): (d: Str)
    requires v < Power(16, n)
    ensures |d| == n && AllHex(d) && HexNumber(d) == v
    decreases n
  {
    if n == 0 then []
    else
      var high := HexDigits(v / 16, n - 1);
      var d := high + [HexChar(v % 16)];
      assert d[..|d| - 1] == high;
      d
  }

  /** Eight hex digits hold every code point. */
  lemma CodeSpaceFits()
    ensures 0x11_0000 <= Power(16, 8)
  {
    assert Power(16, 0) == 1 && Power(16, 1) == 16 && Power(16, 2) == 0x100 && Power(16, 3) == 0x1000;
    assert Power(16, 4) == 0x1_0000 && Power(16, 5) == 0x10_0000;
  }

  /** Every code point written as an `\U` escape. */
  function Escaped(t: Str): (s: Str)
    ensures |s| == 10 * |t|
    decreases |t|
  {
    if t == [] then []
    else
      CodeSpaceFits();
      [Backslash, UpperU] + HexDigits(t[0], 8) + Escaped(t[1..])
  }

  /** Decoding undoes escaping: any text, written as `\U` escapes, decodes back to itself. */
  lemma {:induction false} DecodeEscaped(names: Names, t: Str)
    ensures Decode(names, Escaped(t)) == Ok(t)
    decreases |t|
  {
    if t != [] {
      CodeSpaceFits();
      var d := HexDigits(t[0], 8);
      var rest := Escaped(t[1..]);
      assert Escaped(t) == [Backslash, UpperU] + d + rest;
      DecodeEscaped(names, t[1..]);
      DecodeUnicode8(names, d, rest);
      assert [t[0]] + t[1..] == t;
    }
  }
}
