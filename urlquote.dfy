/** `generate_image_url`: the image service URL built around the visual
    prompt, percent-encoded as Python's `urllib.parse.quote(prompt)` does:
    the text is encoded as UTF-8 (RFC 3629), and every byte outside the
    unreserved set of section 2.3 of RFC 3986 and `/` is written as `%XX`
    with upper-case hex digits (section 2.1 of RFC 3986). */
module UrlQuote {
  import opened Wrappers
  import opened HexDigits

  type byte = b: int | 0 <= b < 256

  /** The UTF-8 encoding of one Unicode scalar value: one byte for ASCII,
      otherwise a lead byte of 0xC0 or above followed by continuation bytes
      in 0x80..0xBF. */
  function Utf8Char(c: char): (bs: seq<byte>)
    ensures 1 <= |bs| <= 4
    ensures c as int < 0x80 ==> bs == [c as int]
    ensures c as int >= 0x80 ==> 0xC0 <= bs[0] && forall i :: 1 <= i < |bs| ==> 0x80 <= bs[i] < 0xC0
  {
    var n := c as int;
    var n1 := n / 64;
    var n2 := n1 / 64;
    if n < 0x80 then [n]
    else if n < 0x800 then [0xC0 + n1, 0x80 + n % 64]
    else if n < 0x10000 then [0xE0 + n2, 0x80 + n1 % 64, 0x80 + n % 64]
    else [0xF0 + n2 / 64, 0x80 + n2 % 64, 0x80 + n1 % 64, 0x80 + n % 64]
  }

  /** The UTF-8 encoding of a text: one to four bytes per character. */
  function Utf8Encode(s: string): (bs: seq<byte>)
    ensures |s| <= |bs| <= 4 * |s|
  {
    if s == [] then [] else Utf8Char(s[0]) + Utf8Encode(s[1..])
  }

  predicate IsContinuation(b: byte) {
    0x80 <= b < 0xC0
  }

  /** Reads the UTF-8 sequence at the front of `bs` as section 3 of RFC 3629
      defines it: the scalar value it encodes and the number of bytes it
      takes. A truncated sequence, a stray continuation byte, an overlong
      form, a surrogate or a value above U+10FFFF is refused. */
  function Utf8DecodeChar(bs: seq<byte>): (r: Option<(char, nat)>)
    ensures r.Some? ==> 1 <= r.value.1 <= |bs|
  {
    if bs == [] then None
    else
      var b0: int := bs[0];
      if b0 < 0x80 then Some((b0 as char, 1))
      else if 0xC0 <= b0 < 0xE0 then
        if |bs| < 2 || !IsContinuation(bs[1]) then None
        else
          var n := (b0 - 0xC0) * 64 + (bs[1] as int - 0x80);
          if n < 0x80 then None else Some((n as char, 2))
      else if 0xE0 <= b0 < 0xF0 then
        if |bs| < 3 || !IsContinuation(bs[1]) || !IsContinuation(bs[2]) then None
        else
          var n := (b0 - 0xE0) * 4096 + (bs[1] as int - 0x80) * 64 + (bs[2] as int - 0x80);
          if n < 0x800 || 0xD800 <= n < 0xE000 then None else Some((n as char, 3))
      else if 0xF0 <= b0 < 0xF8 then
        if |bs| < 4 || !IsContinuation(bs[1]) || !IsContinuation(bs[2]) || !IsContinuation(bs[3]) then None
        else
          var n := (b0 - 0xF0) * 262144 + (bs[1] as int - 0x80) * 4096 + (bs[2] as int - 0x80) * 64 + (bs[3] as int - 0x80);
          if n < 0x10000 || n >= 0x110000 then None else Some((n as char, 4))
      else None
  }

  /** Decodes a whole byte string, sequence by sequence. */
  function Utf8Decode(bs: seq<byte>): Option<string>
    decreases |bs|
  {
    if bs == [] then Some("")
    else
      match Utf8DecodeChar(bs)
      case None => None
      case Some((c, k)) =>
        match Utf8Decode(bs[k..])
        case None => None
        case Some(s) => Some([c] + s)
  }

  lemma DecodeTwo(c: char, rest: seq<byte>)
    requires 0x80 <= c as int < 0x800
    ensures Utf8DecodeChar(Utf8Char(c) + rest) == Some((c, 2))
  {
    var n := c as int;
    var s := Utf8Char(c) + rest;
    assert s[0] == 0xC0 + n / 64 && s[1] == 0x80 + n % 64;
  }

  /** Six bits at a time: a number is its quotient by 64 followed by its remainder. */
  lemma SixBits(n: nat)
    ensures n == (n / 64) * 64 + n % 64 && 0 <= n % 64 < 64
  {
  }

  lemma DecodeThree(c: char, rest: seq<byte>)
    requires 0x800 <= c as int < 0x10000
    ensures Utf8DecodeChar(Utf8Char(c) + rest) == Some((c, 3))
  {
    var n := c as int;
    var n1 := n / 64;
    var n2 := n1 / 64;
    var s := Utf8Char(c) + rest;
    assert s[0] == 0xE0 + n2 && s[1] == 0x80 + n1 % 64 && s[2] == 0x80 + n % 64;
    SixBits(n);
    SixBits(n1);
    assert n2 * 4096 + (n1 % 64) * 64 + n % 64 == n;
  }

  lemma DecodeFour(c: char, rest: seq<byte>)
    requires 0x10000 <= c as int
    ensures Utf8DecodeChar(Utf8Char(c) + rest) == Some((c, 4))
  {
    var n := c as int;
    var n1 := n / 64;
    var n2 := n1 / 64;
    var s := Utf8Char(c) + rest;
    assert s[0] == 0xF0 + n2 / 64 && s[1] == 0x80 + n2 % 64;
    assert s[2] == 0x80 + n1 % 64 && s[3] == 0x80 + n % 64;
    SixBits(n);
    SixBits(n1);
    SixBits(n2);
    assert (n2 / 64) * 262144 + (n2 % 64) * 4096 + (n1 % 64) * 64 + n % 64 == n;
  }

  /** The bytes `Utf8Char` writes for a character are read back as that
      character, whatever follows them. */
  lemma Utf8CharDecodes(c: char, rest: seq<byte>)
    ensures Utf8DecodeChar(Utf8Char(c) + rest) == Some((c, |Utf8Char(c)|))
  {
    var n := c as int;
    if n < 0x80 {
      assert (Utf8Char(c) + rest)[0] == n;
    } else if n < 0x800 {
      DecodeTwo(c, rest);
    } else if n < 0x10000 {
      DecodeThree(c, rest);
    } else {
      DecodeFour(c, rest);
    }
  }

  /** Decoding the UTF-8 encoding of a text gives the text back, so two
      different texts never have the same encoding. */
  lemma {:induction false} Utf8RoundTrip(s: string)
    ensures Utf8Decode(Utf8Encode(s)) == Some(s)
  {
    if s != [] {
      var head := Utf8Char(s[0]);
      var tail := Utf8Encode(s[1..]);
      Utf8CharDecodes(s[0], tail);
      assert (head + tail)[|head|..] == tail;
      Utf8RoundTrip(s[1..]);
      assert [s[0]] + s[1..] == s;
    }
  }

  /** A number below 64 after a multiple of 64 is read back by `/ 64` and `% 64`. */
  lemma Join64(a: nat, d: nat)
    requires d < 64
    ensures (a * 64 + d) / 64 == a && (a * 64 + d) % 64 == d
  {
  }

  /** A sequence the decoder accepts is the encoding of the character it
      reads: the strict decoder accepts only the shortest form. */
  lemma Utf8CharOfDecoded(bs: seq<byte>)
    requires Utf8DecodeChar(bs).Some?
    ensures Utf8Char(Utf8DecodeChar(bs).value.0) == bs[..Utf8DecodeChar(bs).value.1]
  {
    var b0: int := bs[0];
    if 0xC0 <= b0 < 0xE0 {
      EncodeTwo(b0, bs[1]);
      assert bs[..2] == [bs[0], bs[1]];
    } else if 0xE0 <= b0 < 0xF0 {
      EncodeThree(b0, bs[1], bs[2]);
      assert bs[..3] == [bs[0], bs[1], bs[2]];
    } else if 0xF0 <= b0 < 0xF8 {
      EncodeFour(b0, bs[1], bs[2], bs[3]);
      assert bs[..4] == [bs[0], bs[1], bs[2], bs[3]];
    }
  }

  lemma EncodeTwo(b0: int, b1: int)
    requires 0xC0 <= b0 < 0xE0 && 0x80 <= b1 < 0xC0
    requires (b0 - 0xC0) * 64 + (b1 - 0x80) >= 0x80
    ensures Utf8Char(((b0 - 0xC0) * 64 + (b1 - 0x80)) as char) == [b0, b1]
  {
    Join64(b0 - 0xC0, b1 - 0x80);
  }

  lemma EncodeThree(b0: int, b1: int, b2: int)
    requires 0xE0 <= b0 < 0xF0 && 0x80 <= b1 < 0xC0 && 0x80 <= b2 < 0xC0
    requires var n := (b0 - 0xE0) * 4096 + (b1 - 0x80) * 64 + (b2 - 0x80); n >= 0x800 && !(0xD800 <= n < 0xE000)
    ensures Utf8Char(((b0 - 0xE0) * 4096 + (b1 - 0x80) * 64 + (b2 - 0x80)) as char) == [b0, b1, b2]
  {
    var n1 := (b0 - 0xE0) * 64 + (b1 - 0x80);
    Join64(b0 - 0xE0, b1 - 0x80);
    Join64(n1, b2 - 0x80);
    assert n1 * 64 + (b2 - 0x80) == (b0 - 0xE0) * 4096 + (b1 - 0x80) * 64 + (b2 - 0x80);
  }

  lemma EncodeFour(b0: int, b1: int, b2: int, b3: int)
    requires 0xF0 <= b0 < 0xF8 && 0x80 <= b1 < 0xC0 && 0x80 <= b2 < 0xC0 && 0x80 <= b3 < 0xC0
    requires var n := (b0 - 0xF0) * 262144 + (b1 - 0x80) * 4096 + (b2 - 0x80) * 64 + (b3 - 0x80); 0x10000 <= n < 0x110000
    ensures Utf8Char(((b0 - 0xF0) * 262144 + (b1 - 0x80) * 4096 + (b2 - 0x80) * 64 + (b3 - 0x80)) as char) == [b0, b1, b2, b3]
  {
    var n2 := (b0 - 0xF0) * 64 + (b1 - 0x80);
    var n1 := n2 * 64 + (b2 - 0x80);
    Join64(b0 - 0xF0, b1 - 0x80);
    Join64(n2, b2 - 0x80);
    Join64(n1, b3 - 0x80);
    assert n1 * 64 + (b3 - 0x80) == (b0 - 0xF0) * 262144 + (b1 - 0x80) * 4096 + (b2 - 0x80) * 64 + (b3 - 0x80);
  }

  /** Whatever the decoder accepts is the encoding of what it decodes to, so
      `Utf8Decode` and `Utf8Encode` are inverse both ways. */
  lemma {:induction false} Utf8DecodeEncode(bs: seq<byte>, s: string)
    requires Utf8Decode(bs) == Some(s)
    ensures Utf8Encode(s) == bs
    decreases |bs|
  {
    if bs != [] {
      var d := Utf8DecodeChar(bs);
      assert d.Some? && Utf8Decode(bs[d.value.1..]).Some?;
      var c, k := d.value.0, d.value.1;
      var tail := Utf8Decode(bs[k..]).value;
      assert s == [c] + tail;
      Utf8CharOfDecoded(bs);
      Utf8DecodeEncode(bs[k..], tail);
      EncodeCons(c, tail);
      SplitAt(bs, k);
    }
  }

  lemma SplitAt(bs: seq<byte>, k: nat)
    requires k <= |bs|
    ensures bs[..k] + bs[k..] == bs
  {
  }

  lemma EncodeCons(c: char, s: string)
    ensures Utf8Encode([c] + s) == Utf8Char(c) + Utf8Encode(s)
  {
    assert ([c] + s)[1..] == s;
  }

  /** Different texts have different UTF-8 encodings. */
  lemma Utf8EncodeInjective(s: string, t: string)
    requires Utf8Encode(s) == Utf8Encode(t)
    ensures s == t
  {
    Utf8RoundTrip(s);
    Utf8RoundTrip(t);
  }

  /** The unreserved characters of section 2.3 of RFC 3986, as bytes. */
  predicate Unreserved(b: int) {
    || (65 <= b <= 90)    // A-Z
    || (97 <= b <= 122)   // a-z
    || (48 <= b <= 57)    // 0-9
    || b == 95 || b == 46 || b == 45 || b == 126   // _ . - ~
  }

  /** Bytes `quote` leaves as they are: the unreserved ones and its default safe `/`. */
  predicate Unescaped(b: int) {
    Unreserved(b) || b == 47
  }

  /** One byte as `quote` writes it. */
  function QuoteByte(b: byte): string {
    if Unescaped(b) then [b as char] else ['%', UpperDigit(b / 16), UpperDigit(b % 16)]
  }

  function QuoteBytes(bs: seq<byte>): string {
    if bs == [] then "" else QuoteByte(bs[0]) + QuoteBytes(bs[1..])
  }

  /** `urllib.parse.quote(s)` with its default `safe='/'`. */
  function Quote(s: string): (q: string)
    ensures WellQuoted(q)
  {
    QuoteBytesWellQuoted(Utf8Encode(s));
    QuoteBytes(Utf8Encode(s))
  }

  /** Percent-decoding (section 2.1 of RFC 3986) into bytes: `%XX` in either
      case is one byte, any other ASCII character stands for itself; a
      stray `%` or a non-ASCII character is refused. */
  function Unquote(r: string): Option<seq<byte>>
    decreases |r|
  {
    if r == [] then Some([])
    else if r[0] == '%' then
      if |r| >= 3 && IsHexDigit(r[1]) && IsHexDigit(r[2]) then
        match Unquote(r[3..])
        case None => None
        case Some(rest) => Some([DigitValue(r[1]) * 16 + DigitValue(r[2])] + rest)
      else None
    else if r[0] as int < 128 then
      match Unquote(r[1..])
      case None => None
      case Some(rest) => Some([r[0] as int] + rest)
    else None
  }

  /** A string made only of characters `quote` never escapes and of `%XX`
      triples with upper-case hex digits that stand for a byte `quote` does
      escape: the canonical form, with exactly one spelling per byte string. */
  predicate WellQuoted(r: string)
    decreases |r|
  {
    || r == []
    || (Unescaped(r[0] as int) && WellQuoted(r[1..]))
    || (&& |r| >= 3 && r[0] == '%' && IsUpperHexDigit(r[1]) && IsUpperHexDigit(r[2])
        && !Unescaped(DigitValue(r[1]) * 16 + DigitValue(r[2])) && WellQuoted(r[3..]))
  }

  /** Decoding one quoted byte in front of more text gives that byte in front. */
  lemma UnquoteByte(b: byte, rest: string)
    ensures Unquote(QuoteByte(b) + rest) ==
      match Unquote(rest)
      case None => None
      case Some(bs) => Some([b] + bs)
  {
    var q := QuoteByte(b) + rest;
    if Unescaped(b) {
      assert q[0] == b as char && q[1..] == rest;
    } else {
      assert q[0] == '%' && q[1] == UpperDigit(b / 16) && q[2] == UpperDigit(b % 16) && q[3..] == rest;
    }
  }

  /** Percent-decoding undoes `quote` on bytes. */
  lemma {:induction false} UnquoteQuoteBytes(bs: seq<byte>)
    ensures Unquote(QuoteBytes(bs)) == Some(bs)
  {
    if bs != [] {
      UnquoteQuoteBytes(bs[1..]);
      UnquoteByte(bs[0], QuoteBytes(bs[1..]));
      assert [bs[0]] + bs[1..] == bs;
    }
  }

  /** Percent-decoding the quoted text gives back its UTF-8 bytes. */
  lemma UnquoteQuote(s: string)
    ensures Unquote(Quote(s)) == Some(Utf8Encode(s))
  {
    UnquoteQuoteBytes(Utf8Encode(s));
  }

  /** Percent-decoding followed by UTF-8 decoding. */
  function UnquoteText(r: string): Option<string> {
    match Unquote(r)
    case None => None
    case Some(bs) => Utf8Decode(bs)
  }

  /** Unquoting the quoted text gives the text back: `quote` loses nothing. */
  lemma QuoteRoundTrip(s: string)
    ensures UnquoteText(Quote(s)) == Some(s)
  {
    UnquoteQuote(s);
    Utf8RoundTrip(s);
  }

  /** Everything `quote` writes is well quoted. */
  lemma {:induction false} QuoteBytesWellQuoted(bs: seq<byte>)
    ensures WellQuoted(QuoteBytes(bs))
  {
    if bs != [] {
      QuoteBytesWellQuoted(bs[1..]);
      var q := QuoteBytes(bs);
      var b := bs[0];
      if Unescaped(b) {
        assert q[0] == b as char && q[1..] == QuoteBytes(bs[1..]);
      } else {
        assert q[..3] == ['%', UpperDigit(b / 16), UpperDigit(b % 16)] && q[3..] == QuoteBytes(bs[1..]);
        assert DigitValue(q[1]) * 16 + DigitValue(q[2]) == b;
      }
    }
  }

  /** Well-quoted text is exactly what `quote` writes for the bytes it
      decodes to, so no other spelling of those bytes is well quoted. */
  lemma {:induction false} WellQuotedCanonical(r: string)
    requires WellQuoted(r)
    ensures Unquote(r).Some? && r == QuoteBytes(Unquote(r).value)
  {
    if r != [] {
      if Unescaped(r[0] as int) && WellQuoted(r[1..]) {
        WellQuotedCanonical(r[1..]);
        var b: byte := r[0] as int;
        var rest := Unquote(r[1..]).value;
        assert Unquote(r) == Some([b] + rest);
        assert ([b] + rest)[1..] == rest;
        assert QuoteByte(b) == [r[0]];
        assert [r[0]] + r[1..] == r;
      } else {
        WellQuotedCanonical(r[3..]);
        var hi, lo := DigitValue(r[1]), DigitValue(r[2]);
        var b: byte := hi * 16 + lo;
        var rest := Unquote(r[3..]).value;
        assert Unquote(r) == Some([b] + rest);
        assert ([b] + rest)[1..] == rest;
        assert b / 16 == hi && b % 16 == lo;
        UpperDigitOfValue(r[1]);
        UpperDigitOfValue(r[2]);
        assert QuoteByte(b) == r[..3];
        assert r[..3] + r[3..] == r;
      }
    }
  }

  /** `Quote(s)` is the only well-quoted text that reads back as `s`. */
  lemma QuoteUnique(r: string, s: string)
    requires WellQuoted(r) && UnquoteText(r) == Some(s)
    ensures r == Quote(s)
  {
    WellQuotedCanonical(r);
    Utf8DecodeEncode(Unquote(r).value, s);
  }

  /** The characters of well-quoted text are unreserved characters, `/` and `%`
      only; in particular no `?`, `#` or space can end the URL path early. */
  lemma {:induction false} WellQuotedAlphabet(r: string)
    requires WellQuoted(r)
    ensures forall i :: 0 <= i < |r| ==> Unescaped(r[i] as int) || r[i] == '%'
  {
    if r != [] {
      if Unescaped(r[0] as int) && WellQuoted(r[1..]) {
        WellQuotedAlphabet(r[1..]);
        assert forall i :: 1 <= i < |r| ==> r[i] == r[1..][i - 1];
      } else {
        WellQuotedAlphabet(r[3..]);
        assert forall i :: 3 <= i < |r| ==> r[i] == r[3..][i - 3];
      }
    }
  }

  const ImageServicePrefix := "https://image.pollinations.ai/prompt/"
  const ImageServiceQuery := "?nologo=true"

  /** `generate_image_url(prompt)`. */
  function ImageUrl(prompt: string): (url: string)
    ensures |ImageServicePrefix| + |ImageServiceQuery| <= |url|
    ensures url[..|ImageServicePrefix|] == ImageServicePrefix
    ensures url[|url| - |ImageServiceQuery|..] == ImageServiceQuery
    ensures WellQuoted(url[|ImageServicePrefix|..|url| - |ImageServiceQuery|])
    ensures Unquote(url[|ImageServicePrefix|..|url| - |ImageServiceQuery|]) == Some(Utf8Encode(prompt))
  {
    var q := Quote(prompt);
    var url := ImageServicePrefix + q + ImageServiceQuery;
    assert url[..|ImageServicePrefix|] == ImageServicePrefix;
    assert url[|url| - |ImageServiceQuery|..] == ImageServiceQuery;
    assert url[|ImageServicePrefix|..|url| - |ImageServiceQuery|] == q;
    UnquoteQuoteBytes(Utf8Encode(prompt));
    url
  }

  /** The prompt an image URL was built from, if it has the shape `ImageUrl` gives. */
  function PromptOfImageUrl(url: string): Option<string> {
    if |ImageServicePrefix| + |ImageServiceQuery| <= |url|
       && url[..|ImageServicePrefix|] == ImageServicePrefix
       && url[|url| - |ImageServiceQuery|..] == ImageServiceQuery
    then UnquoteText(url[|ImageServicePrefix|..|url| - |ImageServiceQuery|])
    else None
  }

  /** The prompt can be read back out of the image URL. */
  lemma ImageUrlRoundTrip(prompt: string)
    ensures PromptOfImageUrl(ImageUrl(prompt)) == Some(prompt)
  {
    var q := Quote(prompt);
    var url := ImageUrl(prompt);
    assert url == ImageServicePrefix + q + ImageServiceQuery;
    assert url[|ImageServicePrefix|..|url| - |ImageServiceQuery|] == q;
    QuoteRoundTrip(prompt);
  }

  /** The image URL of a prompt is the only URL of that shape, with a
      well-quoted path segment, that reads back as the prompt. */
  lemma ImageUrlUnique(url: string, prompt: string)
    requires |ImageServicePrefix| + |ImageServiceQuery| <= |url|
    requires WellQuoted(url[|ImageServicePrefix|..|url| - |ImageServiceQuery|])
    requires PromptOfImageUrl(url) == Some(prompt)
    ensures url == ImageUrl(prompt)
  {
    var middle := url[|ImageServicePrefix|..|url| - |ImageServiceQuery|];
    QuoteUnique(middle, prompt);
    assert url == url[..|ImageServicePrefix|] + middle + url[|url| - |ImageServiceQuery|..];
  }
}
