/**
  The text `cache_directory_soft` hands to `decode_unicode`: JSON string
  text as `json.dumps` writes it.  With `ensure_ascii` (the default) every
  character outside printable ASCII is escaped, a character beyond U+FFFF as
  a surrogate pair of `\u` escapes; without it only the quote, the
  backslash and the control characters are.  Decoding the first form should
  give the second, which is then written to a UTF-8 file.

  The as-written `Unescape.Decode` misses that in three ways, shown below,
  and `DecodeJson` is the corrected decoder, proved to give the second form.
  Only one string is modelled: the objects, arrays and separators around it
  hold no backslash and are left as they are by both decoders.
*/
module JsonText {
  import opened Wrappers
  import opened Unescape

  const Quote: CodePoint := 0x22

  predicate IsSurrogate(c: CodePoint) {
    0xD800 <= c < 0xE000
  }

  /** Text that UTF-8 can encode: no lone surrogate. */
  predicate SurrogateFree(t: Str) {
    forall i :: 0 <= i < |t| ==> !IsSurrogate(t[i])
  }

  /** Text that may stand inside a JSON string: no raw control character (section 7 of RFC 8259). */
  predicate NoControl(t: Str) {
    forall i :: 0 <= i < |t| ==> t[i] >= 0x20
  }

  /** The letter of the two-character escape `json.dumps` uses for `c`, if any. */
  function ShortEscape(c: CodePoint): (r: Option<CodePoint>)
    ensures r.Some? ==> r.value >= 0x20 && r.value != LowerU
    ensures r.Some? <==> c == Quote || c == Backslash || c == 0x08 || c == 0x09 || c == 0x0A || c == 0x0C || c == 0x0D
  {
    if c == Quote then Some(Quote)
    else if c == Backslash then Some(Backslash)
    else if c == 0x08 then Some(0x62)
    else if c == 0x0C then Some(0x66)
    else if c == 0x0A then Some(0x6E)
    else if c == 0x0D then Some(0x72)
    else if c == 0x09 then Some(0x74)
    else None
  }

  /** Four hex digits hold every value below 0x1_0000. */
  lemma FourDigits()
    ensures Power(16, 4) == 0x1_0000
  {
    assert Power(16, 0) == 1 && Power(16, 1) == 16 && Power(16, 2) == 256 && Power(16, 3) == 4096;
  }

  /** `\u` and four lowercase hex digits. */
  function UEscape(v: nat): (s: Str)
    requires v < 0x1_0000
    ensures |s| == 6 && s[0] == Backslash && s[1] == LowerU
    ensures forall i :: 2 <= i < 6 ==> IsHex(s[i])
  {
    [Backslash, LowerU, HexChar(v / 16 / 16 / 16), HexChar(v / 16 / 16 % 16), HexChar(v / 16 % 16), HexChar(v % 16)]
  }

  /** Four hex digits spell the value whose digits they are. */
  lemma FourHexDigits(d: Str, v: nat)
    requires v < 0x1_0000 && |d| == 4 && AllHex(d)
    requires HexDigit(d[0]) == v / 16 / 16 / 16 && HexDigit(d[1]) == v / 16 / 16 % 16
    requires HexDigit(d[2]) == v / 16 % 16 && HexDigit(d[3]) == v % 16
    ensures HexNumber(d) == v
  {
    var d1, d2, d3 := d[..1], d[..2], d[..3];
    assert HexNumber(d1) == v / 16 / 16 / 16 by {
      assert d1[..0] == [] && d1[0] == d[0];
    }
    assert HexNumber(d2) == v / 16 / 16 by {
      assert d2[..1] == d1 && d2[1] == d[1];
    }
    assert HexNumber(d3) == v / 16 by {
      assert d3[..2] == d2 && d3[2] == d[2];
    }
    assert d[..3] == d3;
  }

  /** Hex digits are printable and neither the quote nor the backslash. */
  lemma HexIsPlain(d: Str)
    requires AllHex(d)
    ensures Plain(d) && NoControl(d)
  {
    forall i | 0 <= i < |d|
      ensures 0x20 <= d[i] <= 0x7E && d[i] != Quote && d[i] != Backslash
    {
      assert IsHex(d[i]);
    }
  }

  /** Printable ASCII. */
  predicate Printable(t: Str) {
    forall i :: 0 <= i < |t| ==> 0x20 <= t[i] <= 0x7E
  }

  lemma UEscapePrintable(v: nat)
    requires v < 0x1_0000
    ensures Printable(UEscape(v))
  {
    var s := UEscape(v);
    UEscapeQuad(v);
    HexIsPlain(s[2..6]);
    forall i | 2 <= i < 6
      ensures 0x20 <= s[i] <= 0x7E
    {
      assert s[i] == s[2..6][i - 2];
    }
  }

  /** The high and low surrogates of a character beyond U+FFFF. */
  function High(c: CodePoint): nat
    requires c >= 0x1_0000
  {
    0xD800 + (c - 0x1_0000) / 0x400
  }

  function Low(c: CodePoint): nat
    requires c >= 0x1_0000
  {
    0xDC00 + (c - 0x1_0000) % 0x400
  }

  /**
    `json.dumps` with `ensure_ascii=True`, for one character: printable
    ASCII, the character itself when it is plain, an escape otherwise.
  */
  function AsciiChar(c: CodePoint): (r: Str)
    ensures Printable(r) && 1 <= |r| <= 12
    ensures 0x20 <= c <= 0x7E && c != Quote && c != Backslash ==> r == [c]
    ensures !(0x20 <= c <= 0x7E && c != Quote && c != Backslash) ==> 2 <= |r| && r[0] == Backslash
  {
    if ShortEscape(c).Some? then [Backslash, ShortEscape(c).value]
    else if 0x20 <= c <= 0x7E then [c]
    else if c < 0x1_0000 then UEscape(c)
    else UEscape(High(c)) + UEscape(Low(c))
  }

  /**
    `json.dumps` with `ensure_ascii=False`, for one character: every
    character from U+0020 up, other than the quote and the backslash, is
    kept as it is, however far beyond ASCII; the rest is escaped.
  */
  function ReadableChar(c: CodePoint): (r: Str)
    ensures 1 <= |r| <= 6
    ensures 0x20 <= c && c != Quote && c != Backslash ==> r == [c]
    ensures !(0x20 <= c && c != Quote && c != Backslash) ==> 2 <= |r| && r[0] == Backslash
  {
    if ShortEscape(c).Some? then [Backslash, ShortEscape(c).value]
    else if c < 0x20 then UEscape(c)
    else [c]
  }

  /** `json.dumps` with `ensure_ascii=True`: only printable ASCII, at most twelve characters per character. */
  function Ascii(t: Str): (r: Str)
    ensures Printable(r) && |t| <= |r| <= 12 * |t|
    decreases |t|
  {
    if t == [] then [] else AsciiChar(t[0]) + Ascii(t[1..])
  }

  /** `json.dumps` with `ensure_ascii=False`: at most six characters per character. */
  function Readable(t: Str): (r: Str)
    ensures |t| <= |r| <= 6 * |t|
    decreases |t|
  {
    if t == [] then [] else ReadableChar(t[0]) + Readable(t[1..])
  }

  lemma ReadableCharClean(c: CodePoint)
    requires !IsSurrogate(c)
    ensures NoControl(ReadableChar(c)) && SurrogateFree(ReadableChar(c))
  {
    if ShortEscape(c).None? && c < 0x20 {
      UEscapePrintable(c);
    }
  }

  /** The readable form is JSON-string text that UTF-8 can encode, when the text itself can be. */
  lemma {:induction false} ReadableIsClean(t: Str)
    requires SurrogateFree(t)
    ensures NoControl(Readable(t)) && SurrogateFree(Readable(t))
    decreases |t|
  {
    if t != [] {
      assert SurrogateFree(t[1..]) by {
        forall i | 0 <= i < |t[1..]|
          ensures !IsSurrogate(t[1..][i])
        {
          assert t[1..][i] == t[i + 1];
        }
      }
      ReadableIsClean(t[1..]);
      var head := ReadableChar(t[0]);
      ReadableCharClean(t[0]);
      var r := Readable(t);
      assert r == head + Readable(t[1..]);
      forall i | 0 <= i < |r|
        ensures r[i] >= 0x20 && !IsSurrogate(r[i])
      {
        if i >= |head| {
          assert r[i] == Readable(t[1..])[i - |head|];
        }
      }
    }
  }

  lemma Single(c: CodePoint)
    ensures Ascii([c]) == AsciiChar(c) && Readable([c]) == ReadableChar(c)
  {
    assert [c][1..] == [];
    assert AsciiChar(c) + [] == AsciiChar(c) && ReadableChar(c) + [] == ReadableChar(c);
  }

  /** The surrogates of `c` lie in their ranges and combine back into `c`. */
  lemma SurrogateRanges(c: CodePoint)
    requires c >= 0x1_0000
    ensures 0xD800 <= High(c) < 0xDC00 <= Low(c) < 0xE000
    ensures 0x1_0000 + (High(c) - 0xD800) * 0x400 + (Low(c) - 0xDC00) == c
  {
    var v := c - 0x1_0000;
    assert v == (v / 0x400) * 0x400 + v % 0x400;
    assert v / 0x400 < 0x400;
  }

  lemma Beyond(c: CodePoint)
    requires c >= 0x1_0000
    ensures AsciiChar(c) == UEscape(High(c)) + UEscape(Low(c)) && ReadableChar(c) == [c]
    ensures IsSurrogate(High(c)) && IsSurrogate(Low(c))
  {
    SurrogateRanges(c);
    assert ShortEscape(c).None?;
  }

  // ---------------------------------------------------------------------------
  // decode_unicode as written, on json.dumps output

  /**
    As written, a character beyond U+FFFF comes back as two lone
    surrogates, which UTF-8 cannot encode, where the readable form keeps the
    character.
  */
  lemma PairSplit(names: Names, c: CodePoint)
    requires c >= 0x1_0000
    ensures Readable([c]) == [c]
    ensures Decode(names, Ascii([c])) == Ok([High(c) as CodePoint, Low(c) as CodePoint])
    ensures !SurrogateFree([High(c) as CodePoint, Low(c) as CodePoint])
  {
    Single(c);
    Beyond(c);
    DecodeTwoEscapes(names, High(c), Low(c));
    assert IsSurrogate([High(c) as CodePoint, Low(c) as CodePoint][0]);
  }

  lemma DecodeTwoEscapes(names: Names, h: nat, l: nat)
    requires 0xD800 <= h < 0xDC00 <= l < 0xE000
    ensures Decode(names, UEscape(h) + UEscape(l)) == Ok([h as CodePoint, l as CodePoint])
  {
    var high := UEscape(h);
    var low := UEscape(l);
    UEscapeQuad(h);
    UEscapeQuad(l);
    assert [Backslash, LowerU] + high[2..6] + [Backslash, LowerU] + low[2..6] == high + low by {
      assert high == [Backslash, LowerU] + high[2..6];
      assert low == [Backslash, LowerU] + low[2..6];
    }
    SurrogatesStaySplit(names, high[2..6], low[2..6]);
  }

  /**
    As written, `json.dumps`' escape of a control character is decoded into
    the raw character, which a JSON string may not hold; the readable form
    keeps the escape.
  */
  lemma ControlDecoded(names: Names, c: CodePoint)
    requires c < 0x20 && ShortEscape(c).None?
    ensures Readable([c]) == UEscape(c) && NoControl(Readable([c]))
    ensures Decode(names, Ascii([c])) == Ok([c])
    ensures !NoControl([c])
  {
    Single(c);
    UEscapePrintable(c);
    var e := UEscape(c);
    UEscapeQuad(c);
    assert e == [Backslash, LowerU] + e[2..6] + [];
    DecodeUnicode4(names, e[2..6], []);
    assert Decode(names, []) == Ok([]);
    assert [c] + [] == [c];
  }

  /**
    As written, a backslash that `json.dumps` doubled is not paired with its
    partner: a text `\u` and four hex digits, such as `\u0041`, is written
    `\\u0041` and decodes to a backslash and the character, `\A`, an escape
    JSON does not have, where the readable form keeps `\\u0041`.
  */
  lemma DoubledBackslashSplit(names: Names, t: Str)
    requires Quad(t) && |t| == 6
    ensures Ascii(t) == Readable(t) == [Backslash] + t
    ensures Decode(names, Ascii(t)) == Ok([Backslash, QuadValue(t) as CodePoint])
    ensures Decode(names, Ascii(t)) != Ok(Readable(t))
  {
    EscapeIsPlainAfterBackslash(t);
    var d := t[2..6];
    assert [Backslash] + t[1..] == [Backslash, LowerU] + d + [] by {
      assert t == [Backslash, LowerU] + d;
    }
    assert Decode(names, [Backslash] + t[1..]) == Ok([QuadValue(t) as CodePoint]) by {
      DecodeUnicode4(names, d, []);
      assert Decode(names, []) == Ok([]);
      assert [QuadValue(t) as CodePoint] + [] == [QuadValue(t) as CodePoint];
    }
    BackslashNotPaired(names, t[1..]);
    assert [Backslash] + [QuadValue(t) as CodePoint] == [Backslash, QuadValue(t) as CodePoint];
  }

  /** The ASCII and readable forms of `\u` and four hex digits double the backslash and keep the rest. */
  lemma EscapeIsPlainAfterBackslash(t: Str)
    requires Quad(t) && |t| == 6
    ensures Ascii(t) == Readable(t) == [Backslash, Backslash] + t[1..] == [Backslash] + t
  {
    QuadTailPlain(t);
    assert t == [Backslash] + t[1..];
    BackslashThenPlain(t[1..]);
  }

  /** A backslash followed by plain text: the backslash is doubled in both forms. */
  lemma BackslashThenPlain(tail: Str)
    requires Plain(tail)
    ensures Ascii([Backslash] + tail) == Readable([Backslash] + tail) == [Backslash, Backslash] + tail
  {
    PlainText(tail);
    Cons(Backslash, tail);
    BackslashDoubled();
  }

  lemma BackslashDoubled()
    ensures AsciiChar(Backslash) == ReadableChar(Backslash) == [Backslash, Backslash]
  {
  }

  /** Both forms of a text are the forms of its first character followed by those of the rest. */
  lemma Cons(c: CodePoint, t: Str)
    ensures Ascii([c] + t) == AsciiChar(c) + Ascii(t)
    ensures Readable([c] + t) == ReadableChar(c) + Readable(t)
  {
    assert ([c] + t)[1..] == t;
  }

  /** After its backslash, `\u` and four hex digits are plain text. */
  lemma QuadTailPlain(t: Str)
    requires Quad(t) && |t| == 6
    ensures Plain(t[1..])
  {
    var plain := t[1..];
    HexIsPlain(t[2..6]);
    forall i | 0 <= i < |plain|
      ensures 0x20 <= plain[i] <= 0x7E && plain[i] != Quote && plain[i] != Backslash
    {
      if i > 0 {
        assert plain[i] == t[2..6][i - 1];
      }
    }
  }

  /** Printable ASCII other than the quote and the backslash: written as it is in both forms. */
  predicate Plain(t: Str) {
    forall i :: 0 <= i < |t| ==> 0x20 <= t[i] <= 0x7E && t[i] != Quote && t[i] != Backslash
  }

  lemma {:induction false} PlainText(t: Str)
    requires Plain(t)
    ensures Ascii(t) == t && Readable(t) == t
    decreases |t|
  {
    if t != [] {
      PlainText(t[1..]);
      assert [t[0]] + t[1..] == t;
    }
  }

  /**
    Where the text has no backslash, no control character and nothing
    beyond U+FFFF, decoding as written does give the readable form.
  */
  lemma {:induction false} DecodeAgreesOnBmp(names: Names, t: Str)
    requires forall i :: 0 <= i < |t| ==> 0x20 <= t[i] < 0x1_0000 && t[i] != Backslash && !IsSurrogate(t[i])
    ensures Decode(names, Ascii(t)) == Ok(Readable(t))
    decreases |t|
  {
    if t != [] {
      var c := t[0];
      var rest := Ascii(t[1..]);
      DecodeAgreesOnBmp(names, t[1..]);
      assert Ascii(t) == AsciiChar(c) + rest;
      if c == Quote {
        assert AsciiChar(c) + rest == [Backslash, Quote] + rest;
        OtherEscapesKept(names, Quote, rest);
      } else if c <= 0x7E {
        assert AsciiChar(c) + rest == [c] + rest;
        assert (AsciiChar(c) + rest)[1..] == rest;
      } else {
        var e := UEscape(c);
        UEscapeQuad(c);
        assert e == [Backslash, LowerU] + e[2..6];
        DecodeUnicode4(names, e[2..6], rest);
      }
    }
  }

  // ---------------------------------------------------------------------------
  // The corrected decoder

  /** `s` starts with `\u` and four hex digits. */
  predicate Quad(s: Str) {
    6 <= |s| && s[0] == Backslash && s[1] == LowerU && AllHex(s[2..6])
  }

  function QuadValue(s: Str): (v: nat)
    requires Quad(s)
    ensures v < 0x1_0000
  {
    FourDigits();
    HexNumber(s[2..6])
  }

  /** A six-character escape keeps its value in front of any text. */
  lemma QuadPrefix(e: Str, rest: Str)
    requires Quad(e) && |e| == 6
    ensures Quad(e + rest) && QuadValue(e + rest) == QuadValue(e)
    ensures (e + rest)[..6] == e && (e + rest)[6..] == rest
  {
    assert (e + rest)[2..6] == e[2..6];
  }

  /** An escape `json.dumps` writes is a six-character escape of its value. */
  lemma UEscapeQuad(v: nat)
    requires v < 0x1_0000
    ensures Quad(UEscape(v)) && QuadValue(UEscape(v)) == v
  {
    var e := UEscape(v);
    var d := e[2..6];
    assert d == [HexChar(v / 16 / 16 / 16), HexChar(v / 16 / 16 % 16), HexChar(v / 16 % 16), HexChar(v % 16)];
    FourHexDigits(d, v);
  }

  /**
    The corrected `decode_unicode` for `json.dumps` text: a backslash and the
    character after it are one unit, kept as they are unless they start a
    `\u` escape; an escape of a control character is kept; a surrogate pair
    of escapes becomes the one character it encodes; any other `\u` escape
    becomes its character.
  */
  function DecodeJson(s: Str): (r: Str)
    ensures |r| <= |s|
    decreases |s|
  {
    if s == [] then [] else var u := Unit(s); u.1 + DecodeJson(s[u.0..])
  }

  /** The first unit of a non-empty `s`: how many characters it takes and what it decodes to. */
  function Unit(s: Str): (u: (nat, Str))
    requires s != []
    ensures 1 <= u.0 <= |s| && |u.1| <= u.0
  {
    if s[0] != Backslash || |s| == 1 then (1, [s[0]])
    else if !Quad(s) then (2, s[..2])
    else
      var v := QuadValue(s);
      if v < 0x20 then (6, s[..6])
      else if 0xD800 <= v < 0xDC00 && Quad(s[6..]) && 0xDC00 <= QuadValue(s[6..]) < 0xE000 then
        (12, [(0x1_0000 + (v - 0xD800) * 0x400 + (QuadValue(s[6..]) - 0xDC00)) as CodePoint])
      else (6, [v as CodePoint])
  }

  /** A two-character escape other than `\u` is kept. */
  lemma DecodeJsonPairKept(e: CodePoint, rest: Str)
    requires e != LowerU
    ensures DecodeJson([Backslash, e] + rest) == [Backslash, e] + DecodeJson(rest)
  {
    var s := [Backslash, e] + rest;
    assert s[..2] == [Backslash, e] && s[2..] == rest;
    assert Unit(s) == (2, [Backslash, e]);
  }

  /** A `\u` escape that is not a high surrogate decodes on its own. */
  lemma DecodeJsonQuad(e: Str, rest: Str)
    requires Quad(e) && |e| == 6 && !(0xD800 <= QuadValue(e) < 0xDC00)
    ensures DecodeJson(e + rest)
            == (if QuadValue(e) < 0x20 then e else [QuadValue(e) as CodePoint]) + DecodeJson(rest)
  {
    QuadPrefix(e, rest);
    assert Unit(e + rest) == (6, if QuadValue(e) < 0x20 then e else [QuadValue(e) as CodePoint]);
  }

  /** A surrogate pair of escapes decodes to the one character it encodes. */
  lemma DecodeJsonSurrogates(high: Str, low: Str, rest: Str, h: nat, l: nat)
    requires Quad(high) && |high| == 6 && QuadValue(high) == h && 0xD800 <= h < 0xDC00
    requires Quad(low) && |low| == 6 && QuadValue(low) == l && 0xDC00 <= l < 0xE000
    ensures DecodeJson(high + (low + rest))
            == [(0x1_0000 + (h - 0xD800) * 0x400 + (l - 0xDC00)) as CodePoint] + DecodeJson(rest)
  {
    var s := high + (low + rest);
    QuadPrefix(high, low + rest);
    QuadPrefix(low, rest);
    assert s[6..][6..] == s[12..];
    assert Unit(s).0 == 12;
  }

  /** A character other than the backslash is copied. */
  lemma DecodeJsonCopied(c: CodePoint, rest: Str)
    requires c != Backslash
    ensures DecodeJson([c] + rest) == [c] + DecodeJson(rest)
  {
    assert ([c] + rest)[1..] == rest;
    assert Unit([c] + rest) == (1, [c]);
  }

  /** A character of the Basic Multilingual Plane that `json.dumps` escapes as `\u` and four hex digits. */
  lemma DecodeJsonBmp(c: CodePoint, rest: Str)
    requires ShortEscape(c).None? && (c < 0x20 || 0x7E < c) && c < 0x1_0000 && !IsSurrogate(c)
    ensures DecodeJson(AsciiChar(c) + rest) == ReadableChar(c) + DecodeJson(rest)
  {
    var e := UEscape(c);
    assert AsciiChar(c) == e;
    assert ReadableChar(c) == if c < 0x20 then e else [c];
    UEscapeQuad(c);
    DecodeJsonQuad(e, rest);
  }

  /** The surrogate pair `json.dumps` writes for a character beyond U+FFFF decodes to the character. */
  lemma DecodeJsonBeyond(c: CodePoint, rest: Str)
    requires c >= 0x1_0000
    ensures DecodeJson(UEscape(High(c)) + UEscape(Low(c)) + rest) == [c] + DecodeJson(rest)
  {
    SurrogateRanges(c);
    var high, low := UEscape(High(c)), UEscape(Low(c));
    UEscapeQuad(High(c));
    UEscapeQuad(Low(c));
    DecodeJsonSurrogates(high, low, rest, High(c), Low(c));
    assert high + low + rest == high + (low + rest);
  }

  /** One character: the corrected decoder turns its ASCII form into its readable form. */
  lemma DecodeJsonChar(c: CodePoint, rest: Str)
    requires !IsSurrogate(c)
    ensures DecodeJson(AsciiChar(c) + rest) == ReadableChar(c) + DecodeJson(rest)
  {
    if ShortEscape(c).Some? {
      var e := ShortEscape(c).value;
      assert AsciiChar(c) == ReadableChar(c) == [Backslash, e];
      DecodeJsonPairKept(e, rest);
    } else if 0x20 <= c <= 0x7E {
      assert AsciiChar(c) == ReadableChar(c) == [c];
      DecodeJsonCopied(c, rest);
    } else if c < 0x1_0000 {
      DecodeJsonBmp(c, rest);
    } else {
      Beyond(c);
      DecodeJsonBeyond(c, rest);
    }
  }

  /**
    The corrected decoder does what `decode_unicode` is for: the ASCII form
    of any text UTF-8 can encode decodes to its readable form, which holds no
    raw control character and no lone surrogate.
  */
  lemma {:induction false} DecodeJsonReadable(t: Str)
    requires SurrogateFree(t)
    ensures DecodeJson(Ascii(t)) == Readable(t)
    ensures NoControl(DecodeJson(Ascii(t))) && SurrogateFree(DecodeJson(Ascii(t)))
    decreases |t|
  {
    ReadableIsClean(t);
    if t != [] {
      assert SurrogateFree(t[1..]) by {
        forall i | 0 <= i < |t[1..]|
          ensures !IsSurrogate(t[1..][i])
        {
          assert t[1..][i] == t[i + 1];
        }
      }
      DecodeJsonReadable(t[1..]);
      DecodeJsonChar(t[0], Ascii(t[1..]));
    }
  }
}
