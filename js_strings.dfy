/**
 * The JavaScript string built-ins the annotation editor relies on: `String.prototype.trim`,
 * `String.prototype.slice` with non-negative bounds, and `parseInt(s, 16)`.
 */
module JsStrings {
  import opened Optional

  /** WhiteSpace and LineTerminator code points of ECMAScript (what `trim` and `parseInt` skip). */
  predicate IsJsWhitespace(c: char) {
    c == '\t' || c == '\n' || c == '\U{000B}' || c == '\U{000C}' || c == '\r' || c == ' '
    || c == '\U{00A0}' || c == '\U{1680}' || ('\U{2000}' <= c <= '\U{200A}')
    || c == '\U{2028}' || c == '\U{2029}' || c == '\U{202F}' || c == '\U{205F}'
    || c == '\U{3000}' || c == '\U{FEFF}'
  }

  /** `s` without its leading whitespace. */
  function TrimStart(s: string): string {
    if s != [] && IsJsWhitespace(s[0]) then TrimStart(s[1..]) else s
  }

  /** `TrimStart` removes a prefix made only of whitespace, and what it keeps starts with a non-whitespace character. */
  lemma {:induction false} TrimStartRemovesLeadingWhitespace(s: string)
    ensures var r := TrimStart(s);
      && |r| <= |s| && r == s[|s| - |r|..]
      && (forall i :: 0 <= i < |s| - |r| ==> IsJsWhitespace(s[i]))
      && (r != [] ==> !IsJsWhitespace(r[0]))
  {
    if s != [] && IsJsWhitespace(s[0]) {
      var t, r := s[1..], TrimStart(s[1..]);
      TrimStartRemovesLeadingWhitespace(t);
      assert TrimStart(s) == r;
      assert r == s[|s| - |r|..] by { assert t[|t| - |r|..] == s[|s| - |r|..]; }
      forall i | 0 <= i < |s| - |r| ensures IsJsWhitespace(s[i]) {
        if i > 0 {
          assert s[i] == t[i - 1];
        }
      }
    }
  }

  /** `s` without its trailing whitespace. */
  function TrimEnd(s: string): (r: string)
    ensures |r| <= |s| && r == s[..|r|]
    ensures forall i :: |r| <= i < |s| ==> IsJsWhitespace(s[i])
    ensures r != [] ==> !IsJsWhitespace(r[|r| - 1])
  {
    if s != [] && IsJsWhitespace(s[|s| - 1]) then TrimEnd(s[..|s| - 1]) else s
  }

  /** `s.trim()`. */
  function Trim(s: string): string {
    TrimEnd(TrimStart(s))
  }

  /** `s.trim()` is non-empty (truthy) exactly when `s` holds a character that is not whitespace. */
  lemma TrimNonEmpty(s: string)
    ensures Trim(s) != [] <==> exists i :: 0 <= i < |s| && !IsJsWhitespace(s[i])
  {
    var t := TrimStart(s);
    TrimStartRemovesLeadingWhitespace(s);
    if Trim(s) != [] {
      var k := |s| - |t|;
      assert t[0] == s[k];
    }
  }

  function Min(a: nat, b: nat): nat { if a <= b then a else b }

  /** `s.slice(from, to)` for non-negative bounds: both are clamped to the length. */
  function Slice(s: string, from: nat, to: nat): (r: string)
    ensures to <= |s| && from <= to ==> r == s[from..to]
    ensures from < |s| <= to ==> r == s[from..]
    ensures from >= |s| || to <= from ==> r == ""
  {
    var lo, hi := Min(from, |s|), Min(to, |s|);
    if lo < hi then s[lo..hi] else ""
  }

  /** The value of one hexadecimal digit, in either case. */
  function HexDigit(c: char): (d: Option<nat>)
    ensures d.Some? ==> d.value < 16
    ensures d.Some? ==> !IsJsWhitespace(c) && c != '+' && c != '-' && c != 'x' && c != 'X'
  {
    if '0' <= c <= '9' then Some(c as nat - '0' as nat)
    else if 'a' <= c <= 'f' then Some(c as nat - 'a' as nat + 10)
    else if 'A' <= c <= 'F' then Some(c as nat - 'A' as nat + 10)
    else None
  }

  predicate AllHex(s: string) {
    forall i :: 0 <= i < |s| ==> HexDigit(s[i]).Some?
  }

  /** The number the digit string `s` denotes in base 16. */
  function HexValue(s: string): nat
    requires AllHex(s)
  {
    if s == [] then 0 else HexValue(s[..|s| - 1]) * 16 + HexDigit(s[|s| - 1]).value
  }

  /** The longest prefix of `s` made of hexadecimal digits. */
  function HexPrefix(s: string): (r: string)
    ensures |r| <= |s| && r == s[..|r|] && AllHex(r)
    ensures |r| < |s| ==> HexDigit(s[|r|]).None?
  {
    if s == [] || HexDigit(s[0]).None? then [] else [s[0]] + HexPrefix(s[1..])
  }

  /** What `parseInt` returns: an integer, or NaN. */
  datatype Number = Int(value: int) | NaN

  /**
   * `parseInt(s, 16)`: skip leading whitespace, take an optional sign, drop a `0x`/`0X`
   * prefix, then read the longest run of hexadecimal digits; no digit at all gives NaN.
   */
  function ParseHex(s: string): Number {
    var t := TrimStart(s);
    var negative := t != [] && t[0] == '-';
    var u := if t != [] && (t[0] == '-' || t[0] == '+') then t[1..] else t;
    var v := if |u| >= 2 && u[0] == '0' && (u[1] == 'x' || u[1] == 'X') then u[2..] else u;
    var digits := HexPrefix(v);
    if digits == [] then NaN
    else if negative then Int(-(HexValue(digits) as int))
    else Int(HexValue(digits))
  }

  /** Two hexadecimal digits parse to the byte they spell: the high digit times 16 plus the low one. */
  lemma ParseTwoHexDigits(s: string)
    requires |s| == 2 && AllHex(s)
    ensures ParseHex(s) == Int(16 * HexDigit(s[0]).value + HexDigit(s[1]).value)
    ensures 0 <= ParseHex(s).value <= 255
  {
    assert TrimStart(s) == s by { assert !IsJsWhitespace(s[0]); }
    assert HexPrefix(s) == s by {
      assert HexPrefix(s[1..]) == s[1..] by { assert HexPrefix(s[1..][1..]) == []; }
    }
    assert s[..1] == [s[0]];
    assert HexValue(s[..1]) == HexDigit(s[0]).value by { assert s[..1][..0] == []; }
  }
}
