/**
 * Colours as the editor stores them (`#RRGGBB` strings) and as the export hands them to the
 * PDF library: three channels, each `parseInt` of a two-character slice. The library's own
 * division by 255 is not modelled; a channel here is the integer before that division.
 */
module Colors {
  import opened Optional
  import opened JsStrings

  datatype Rgb = Rgb(r: Number, g: Number, b: Number)

  const Black: Rgb := Rgb(Int(0), Int(0), Int(0))

  /** The channels read from a colour string: characters 1-2, 3-4 and 5-6, each parsed in base 16. */
  function Channels(color: string): Rgb {
    Rgb(ParseHex(Slice(color, 1, 3)), ParseHex(Slice(color, 3, 5)), ParseHex(Slice(color, 5, 7)))
  }

  /** A colour the pickers and palette produce: `#` followed by six hexadecimal digits. */
  predicate WellFormed(color: string) {
    |color| == 7 && color[0] == '#' && AllHex(color[1..])
  }

  /** What the colour picker reports for a colour of zero alpha. */
  const Transparent: string := "transparent"

  /** A colour the palette or the picker can produce. */
  predicate PickerColor(color: string) {
    WellFormed(color) || color == Transparent
  }

  /** `transparent` has no hex digits where the channels are read, so every channel is NaN. */
  lemma TransparentChannels()
    ensures Channels(Transparent) == Rgb(NaN, NaN, NaN)
  {
    assert Slice(Transparent, 1, 3) == "ra" && Slice(Transparent, 3, 5) == "ns" && Slice(Transparent, 5, 7) == "pa";
    NotHexStart("ra");
    NotHexStart("ns");
    NotHexStart("pa");
  }

  /** A string starting with a letter that is no hex digit, sign, space or `0` parses to NaN. */
  lemma NotHexStart(s: string)
    requires |s| > 0 && HexDigit(s[0]).None? && !IsJsWhitespace(s[0]) && s[0] != '-' && s[0] != '+'
    ensures ParseHex(s) == NaN
  {
    assert TrimStart(s) == s;
    assert HexPrefix(s) == [];
  }

  /** The colour an optional colour field draws with: an absent or empty colour is falsy and gives black. */
  function FillColor(color: string): (c: Rgb)
    ensures color == "" ==> c == Black
  {
    if color != "" then Channels(color) else Black
  }

  /** Channels the library's `rgb` can take: whole numbers in 0..255. */
  predicate ByteChannels(c: Rgb) {
    && c.r.Int? && c.g.Int? && c.b.Int?
    && 0 <= c.r.value <= 255 && 0 <= c.g.value <= 255 && 0 <= c.b.value <= 255
  }

  /** Each channel of a well-formed colour is the byte its two digits spell, so it lies in 0..255. */
  lemma WellFormedChannels(color: string)
    requires WellFormed(color)
    ensures Channels(color) == Rgb(
      Int(16 * HexDigit(color[1]).value + HexDigit(color[2]).value),
      Int(16 * HexDigit(color[3]).value + HexDigit(color[4]).value),
      Int(16 * HexDigit(color[5]).value + HexDigit(color[6]).value))
    ensures ByteChannels(Channels(color))
  {
    ChannelAt(color, 1, 3);
    ChannelAt(color, 3, 5);
    ChannelAt(color, 5, 7);
  }

  /** The channel spelled by characters `from` and `from + 1` (= `to - 1`) of a well-formed colour. */
  lemma ChannelAt(color: string, from: nat, to: nat)
    requires WellFormed(color) && from in {1, 3, 5} && to == from + 2
    ensures ParseHex(Slice(color, from, to)) == Int(16 * HexDigit(color[from]).value + HexDigit(color[from + 1]).value)
    ensures 0 <= 16 * HexDigit(color[from]).value + HexDigit(color[from + 1]).value <= 255
  {
    var t := color[from..to];
    assert t[0] == color[1..][from - 1] && t[1] == color[1..][from];
    ParseTwoHexDigits(t);
  }

  const Digits: string := "0123456789abcdef"

  /** The two lower-case hexadecimal digits of a byte. */
  function HexByte(v: nat): (s: string)
    requires v < 256
    ensures |s| == 2 && AllHex(s)
  {
    [Digits[v / 16], Digits[v % 16]]
  }

  /** The `#rrggbb` string of three bytes, the form the colour picker reports. */
  function Encode(r: nat, g: nat, b: nat): (color: string)
    requires r < 256 && g < 256 && b < 256
    ensures WellFormed(color)
  {
    "#" + HexByte(r) + HexByte(g) + HexByte(b)
  }

  lemma HexByteDigits(v: nat)
    requires v < 256
    ensures 16 * HexDigit(HexByte(v)[0]).value + HexDigit(HexByte(v)[1]).value == v
  {
    var hi, lo := v / 16, v % 16;
    assert HexDigit(Digits[hi]) == Some(hi) && HexDigit(Digits[lo]) == Some(lo) by {
      DigitsValue(hi);
      DigitsValue(lo);
    }
  }

  lemma DigitsValue(d: nat)
    requires d < 16
    ensures HexDigit(Digits[d]) == Some(d)
  {
    assert Digits == ['0', '1', '2', '3', '4', '5', '6', '7', '8', '9', 'a', 'b', 'c', 'd', 'e', 'f'];
  }

  /** Reading the channels back out of an encoded colour returns the bytes that were encoded. */
  lemma ChannelsOfEncode(r: nat, g: nat, b: nat)
    requires r < 256 && g < 256 && b < 256
    ensures Channels(Encode(r, g, b)) == Rgb(Int(r), Int(g), Int(b))
  {
    var c := Encode(r, g, b);
    var hr, hg, hb := HexByte(r), HexByte(g), HexByte(b);
    assert c == ['#', hr[0], hr[1], hg[0], hg[1], hb[0], hb[1]];
    WellFormedChannels(c);
    HexByteDigits(r);
    HexByteDigits(g);
    HexByteDigits(b);
  }
}
