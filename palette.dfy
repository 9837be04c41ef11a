/** The random colour palette picker: five colours, each written as `#`
    followed by six upper-case hex digits, shown as swatches and handed to
    the form as one string joined with ", ". `Math.random()` is an input:
    `draws` are the five values `Math.floor(Math.random() * 16777215)` took. */
module Palette {
  import opened HexDigits

  const PaletteSize := 5

  /** The factor the random draw is scaled by; every draw lies below it. */
  const RandomCeiling := 16777215

  const ColorSeparator := ", "

  /** 16 to the power `k`. */
  function Pow16(k: nat): nat {
    if k == 0 then 1 else 16 * Pow16(k - 1)
  }

  /** The number a string of hex digits denotes, most significant first. */
  function ValueOf(s: string): nat {
    if s == [] then 0 else ValueOf(s[..|s| - 1]) * 16 + DigitValue(s[|s| - 1])
  }

  /** `n.toString(16)`: lower-case hex digits, no leading zero except for 0 itself. */
  function ToHex(n: nat): (s: string)
    ensures |s| >= 1
    ensures forall i :: 0 <= i < |s| ==> IsLowerHexDigit(s[i])
    ensures s[0] == '0' <==> n == 0
    decreases n
  {
    if n < 16 then [LowerDigit(n)] else ToHex(n / 16) + [LowerDigit(n % 16)]
  }

  /** `ToHex` denotes the number it was given. */
  lemma {:induction false} ToHexValue(n: nat)
    ensures ValueOf(ToHex(n)) == n
    decreases n
  {
    var s := ToHex(n);
    if n >= 16 {
      ToHexValue(n / 16);
      assert s[..|s| - 1] == ToHex(n / 16);
    }
  }

  /** A number below 16^k has at most k hex digits. */
  lemma {:induction false} ToHexShort(n: nat, k: nat)
    requires 1 <= k && n < Pow16(k)
    ensures |ToHex(n)| <= k
    decreases n
  {
    if n >= 16 {
      assert k >= 2;
      assert n / 16 < Pow16(k - 1);
      ToHexShort(n / 16, k - 1);
    }
  }

  function Zeros(k: nat): (z: string)
    ensures |z| == k && forall i :: 0 <= i < k ==> z[i] == '0'
  {
    seq(k, _ => '0')
  }

  /** `s.padStart(width, '0')`. */
  function PadStart(s: string, width: nat): (r: string)
    ensures |r| == if |s| >= width then |s| else width
    ensures r[|r| - |s|..] == s
    ensures forall i :: 0 <= i < |r| - |s| ==> r[i] == '0'
  {
    if |s| >= width then s else Zeros(width - |s|) + s
  }

  lemma {:induction false} ZerosValue(z: string)
    requires forall i :: 0 <= i < |z| ==> z[i] == '0'
    ensures ValueOf(z) == 0
  {
    if z != [] {
      ZerosValue(z[..|z| - 1]);
    }
  }

  /** Leading zeros do not change the number. */
  lemma {:induction false} LeadingZerosValue(z: string, s: string)
    requires forall i :: 0 <= i < |z| ==> z[i] == '0'
    ensures ValueOf(z + s) == ValueOf(s)
    decreases |s|
  {
    if s == [] {
      assert z + s == z;
      ZerosValue(z);
    } else {
      var t := z + s;
      assert t[..|t| - 1] == z + s[..|s| - 1];
      LeadingZerosValue(z, s[..|s| - 1]);
    }
  }

  /** JavaScript's `toUpperCase` on one character of a hex string. */
  function UpperChar(c: char): char {
    if 'a' <= c <= 'z' then (c as int - 32) as char else c
  }

  function ToUpper(s: string): (r: string)
    ensures |r| == |s|
  {
    seq(|s|, i requires 0 <= i < |s| => UpperChar(s[i]))
  }

  /** Upper-casing keeps the digits' values and leaves only upper-case digits. */
  lemma {:induction false} ToUpperValue(s: string)
    requires forall i :: 0 <= i < |s| ==> IsLowerHexDigit(s[i])
    ensures ValueOf(ToUpper(s)) == ValueOf(s)
    ensures forall i :: 0 <= i < |s| ==> IsUpperHexDigit(ToUpper(s)[i])
  {
    if s != [] {
      var u := ToUpper(s);
      assert u[..|u| - 1] == ToUpper(s[..|s| - 1]);
      ToUpperValue(s[..|s| - 1]);
    }
  }

  /** A colour as the picker writes it: `#` and six upper-case hex digits. */
  predicate WellFormedColor(c: string) {
    |c| == 7 && c[0] == '#' && forall i :: 1 <= i < 7 ==> IsUpperHexDigit(c[i])
  }

  /** Six hex digits behind a `#` make a well-formed colour. */
  lemma ColorOfDigits(u: string)
    requires |u| == 6 && forall i :: 0 <= i < 6 ==> IsUpperHexDigit(u[i])
    ensures WellFormedColor("#" + u) && ("#" + u)[1..] == u
  {
    var c := "#" + u;
    forall i | 1 <= i < 7
      ensures IsUpperHexDigit(c[i])
    {
      assert c[i] == u[i - 1];
    }
  }

  /** A draw below 16^6, written in hex and padded to six digits, keeps its value. */
  lemma PaddedHex(n: nat)
    requires n < Pow16(6)
    ensures var p := PadStart(ToHex(n), 6);
      |p| == 6 && ValueOf(p) == n && forall i :: 0 <= i < 6 ==> IsLowerHexDigit(p[i])
  {
    var h := ToHex(n);
    ToHexShort(n, 6);
    ToHexValue(n);
    var z := Zeros(6 - |h|);
    LeadingZerosValue(z, h);
    var p := z + h;
    assert PadStart(h, 6) == p;
    forall i | 0 <= i < 6
      ensures IsLowerHexDigit(p[i])
    {
      if i >= |z| {
        assert p[i] == h[i - |z|];
      }
    }
  }

  /** One swatch: `'#' + n.toString(16).padStart(6, '0').toUpperCase()`.
      For any draw below 16^6 it is well formed and its digits give the draw back. */
  function HexColor(n: nat): (c: string)
    ensures n < Pow16(6) ==> WellFormedColor(c) && ValueOf(c[1..]) == n
  {
    var p := PadStart(ToHex(n), 6);
    if n < Pow16(6) then
      PaddedHex(n);
      ToUpperValue(p);
      ColorOfDigits(ToUpper(p));
      "#" + ToUpper(p)
    else
      "#" + ToUpper(p)
  }

  /** Different draws give different colours. */
  lemma HexColorInjective(m: nat, n: nat)
    requires m < Pow16(6) && n < Pow16(6) && HexColor(m) == HexColor(n)
    ensures m == n
  {
  }

  /** Because the draw is scaled by 16777215 and rounded down, white
      (`#FFFFFF`, the value 16777215) is never picked. */
  lemma NeverWhite(n: nat)
    requires n < RandomCeiling
    ensures HexColor(n) != "#FFFFFF"
  {
    var w := "#FFFFFF";
    assert w[1..] == "FFFFFF";
    assert ValueOf("FFFFFF") == 16777215 by {
      assert "FFFFFF"[..5] == "FFFFF";
      assert "FFFFF"[..4] == "FFFF";
      assert "FFFF"[..3] == "FFF";
      assert "FF"[..1] == "F";
      assert "FFF"[..2] == "FF";
      assert "F"[..0] == "";
    }
  }

  /** The five swatches for five draws. */
  function Colors(draws: seq<nat>): (cs: seq<string>)
    ensures |cs| == |draws|
  {
    seq(|draws|, i requires 0 <= i < |draws| => HexColor(draws[i]))
  }

  /** `Array.prototype.join(sep)`. */
  function Join(ss: seq<string>, sep: string): (r: string)
    ensures |ss| == 0 ==> r == ""
    ensures |ss| > 0 ==> |ss[0]| <= |r| && r[..|ss[0]|] == ss[0]
    ensures |ss| > 0 ==> |ss[|ss| - 1]| <= |r| && r[|r| - |ss[|ss| - 1]|..] == ss[|ss| - 1]
  {
    if |ss| == 0 then ""
    else if |ss| == 1 then ss[0]
    else
      var rest := Join(ss[1..], sep);
      var r := ss[0] + sep + rest;
      assert r[..|ss[0]|] == ss[0];
      assert r[|r| - |rest|..] == rest;
      r
  }

  /** Seven-character swatches joined with ", ": the i-th swatch sits at
      offset 9 * i, and n of them take 9 * n - 2 characters. */
  lemma {:induction false} JoinedSwatches(ss: seq<string>, i: nat)
    requires forall k :: 0 <= k < |ss| ==> |ss[k]| == 7
    requires i < |ss|
    ensures |Join(ss, ColorSeparator)| == 9 * |ss| - 2
    ensures Join(ss, ColorSeparator)[9 * i..9 * i + 7] == ss[i]
    decreases |ss|
  {
    if |ss| > 1 {
      var rest := Join(ss[1..], ColorSeparator);
      var j := if i == 0 then 0 else i - 1;
      JoinedSwatches(ss[1..], j);
      if i > 0 {
        assert Join(ss, ColorSeparator)[9 * i..9 * i + 7] == rest[9 * j..9 * j + 7];
      }
    }
  }

  /** The string handed to the form: the swatches joined with ", ". */
  function Selection(draws: seq<nat>): string {
    Join(Colors(draws), ColorSeparator)
  }

  /** Draws the picker can make: five of them, each below the ceiling. */
  predicate ValidDraws(draws: seq<nat>) {
    |draws| == PaletteSize && forall i :: 0 <= i < |draws| ==> draws[i] < RandomCeiling
  }

  /** Every swatch of valid draws is a well-formed colour that denotes its draw. */
  lemma ColorsWellFormed(draws: seq<nat>)
    requires ValidDraws(draws)
    ensures |Colors(draws)| == PaletteSize
    ensures forall k :: 0 <= k < PaletteSize ==>
      WellFormedColor(Colors(draws)[k]) && ValueOf(Colors(draws)[k][1..]) == draws[k]
  {
    assert Pow16(6) == 16777216;
  }

  /** The i-th swatch read back out of the selection string. */
  lemma SwatchInSelection(draws: seq<nat>, i: nat)
    requires ValidDraws(draws) && i < PaletteSize
    ensures |Selection(draws)| == 43
    ensures Selection(draws)[9 * i] == '#' && ValueOf(Selection(draws)[9 * i + 1..9 * i + 7]) == draws[i]
  {
    var cs := Colors(draws);
    var s := Selection(draws);
    ColorsWellFormed(draws);
    JoinedSwatches(cs, i);
    assert s[9 * i..9 * i + 7] == cs[i];
    assert s[9 * i + 1..9 * i + 7] == cs[i][1..];
  }

  /** The selection string is 43 characters long and every draw can be read
      back from the six digits at offset 9 * i + 1: the form receives the
      whole palette, in order. */
  lemma SelectionRoundTrip(draws: seq<nat>)
    requires ValidDraws(draws)
    ensures |Selection(draws)| == 43
    ensures forall i :: 0 <= i < PaletteSize ==>
      Selection(draws)[9 * i] == '#' && ValueOf(Selection(draws)[9 * i + 1..9 * i + 7]) == draws[i]
  {
    SwatchInSelection(draws, 0);
    forall i | 0 <= i < PaletteSize
      ensures Selection(draws)[9 * i] == '#' && ValueOf(Selection(draws)[9 * i + 1..9 * i + 7]) == draws[i]
    {
      SwatchInSelection(draws, i);
    }
  }

  /** The picker component: its state is the list of swatches shown. */
  class ColorPaletteGenerator {
    var colors: seq<string>

    /** Mounted with no swatches; the mount effect then generates the first palette. */
    constructor ()
      ensures colors == []
    {
      colors := [];
    }

    /** The summary line under the swatches. */
    function Summary(): string
      reads this
    {
      Join(colors, ColorSeparator)
    }

    /** `generateColors`: replaces the swatches with the five drawn colours
      and returns what it passes to `onSelect`, the same text as the summary line. */
    method GenerateColors(draws: seq<nat>) returns (selection: string)
      requires ValidDraws(draws)
      modifies this
      ensures colors == Colors(draws)
      ensures forall i :: 0 <= i < |colors| ==> WellFormedColor(colors[i])
      ensures selection == Summary() == Selection(draws)
    {
      ColorsWellFormed(draws);
      colors := Colors(draws);
      selection := Join(colors, ColorSeparator);
    }
  }
}
