/** The percent decoder (section 2.1 of RFC 3986) and the path-escape check in front of it. */
module Percent {
  import opened Prelude
  import opened Text
  import opened Utf8

  /** `char::to_digit(16)`. */
  function HexDigit(c: char): Option<nat> {
    if '0' <= c <= '9' then Some(c as int - '0' as int)
    else if 'a' <= c <= 'f' then Some(c as int - 'a' as int + 10)
    else if 'A' <= c <= 'F' then Some(c as int - 'A' as int + 10)
    else None
  }

  /** A `%` with two hexadecimal digits at position `i`. */
  predicate EscapeAt(s: string, i: nat) {
    i + 2 < |s| && s[i] == '%' && HexDigit(s[i + 1]).Some? && HexDigit(s[i + 2]).Some?
  }

  lemma HexDigitRange(c: char)
    ensures HexDigit(c).Some? ==> HexDigit(c).value < 16
  {
  }

  function EscapedByte(s: string, i: nat): char
    requires EscapeAt(s, i)
  {
    HexDigitRange(s[i + 1]);
    HexDigitRange(s[i + 2]);
    (HexDigit(s[i + 1]).value * 16 + HexDigit(s[i + 2]).value) as char
  }

  /** What one pass of decoding yields: escapes become bytes, everything else is kept. */
  function Decode(s: string): string {
    if s == "" then ""
    else if EscapeAt(s, 0) then [EscapedByte(s, 0)] + Decode(s[3..])
    else [s[0]] + Decode(s[1..])
  }

  lemma DecodeFrom(s: string, i: nat)
    requires i < |s|
    ensures if EscapeAt(s, i) then Decode(s[i..]) == [EscapedByte(s, i)] + Decode(s[i + 3..])
            else Decode(s[i..]) == [s[i]] + Decode(s[i + 1..])
  {
    assert EscapeAt(s[i..], 0) == EscapeAt(s, i);
    if EscapeAt(s, i) {
      assert s[i..][3..] == s[i + 3..];
    } else {
      assert s[i..][1..] == s[i + 1..];
    }
  }

  /** The decoding loop. */
  method PercentDecodeBytes(s: string) returns (out: string)
    ensures out == Decode(s)
  {
    out := "";
    var i := 0;
    while i < |s|
      invariant 0 <= i <= |s|
      invariant Decode(s) == out + Decode(s[i..])
    {
      DecodeFrom(s, i);
      ghost var step := if EscapeAt(s, i) then 3 else 1;
      AppendAssociates(out, [if EscapeAt(s, i) then EscapedByte(s, i) else s[i]], Decode(s[i + step..]));
      if s[i] == '%' {
        var h := if i + 1 < |s| then HexDigit(s[i + 1]) else None;
        var l := if i + 2 < |s| then HexDigit(s[i + 2]) else None;
        if h.Some? && l.Some? {
          HexDigitRange(s[i + 1]);
          HexDigitRange(s[i + 2]);
          out := out + [(h.value * 16 + l.value) as char];
          i := i + 3;
          continue;
        }
      }
      out := out + [s[i]];
      i := i + 1;
    }
  }

  /** `percent_decode`: nothing when the decoded bytes are not UTF-8. */
  function PercentDecode(s: string): Option<string> {
    if ValidUtf8(Decode(s)) then Some(Decode(s)) else None
  }

  /** Every `%` starts an escape. */
  ghost predicate WellEscaped(s: string) {
    forall i :: 0 <= i < |s| && s[i] == '%' ==> EscapeAt(s, i)
  }

  /** The search of `invalid_path_escape`: the first `%` that starts no escape, with at most two
      characters after it. */
  method InvalidPathEscape(path: string) returns (r: Option<string>)
    ensures r.None? <==> WellEscaped(path)
    ensures r.Some? ==> exists i ::
              && 0 <= i < |path| && path[i] == '%' && !EscapeAt(path, i)
              && (forall j :: 0 <= j < i && path[j] == '%' ==> EscapeAt(path, j))
              && r.value == path[i..if i + 3 <= |path| then i + 3 else |path|]
  {
    var i := 0;
    while i < |path|
      invariant 0 <= i <= |path|
      invariant forall j :: 0 <= j < i && path[j] == '%' ==> EscapeAt(path, j)
    {
      if path[i] == '%' && !(i + 2 < |path| && HexDigit(path[i + 1]).Some? && HexDigit(path[i + 2]).Some?) {
        r := Some(path[i..if i + 3 <= |path| then i + 3 else |path|]);
        return;
      }
      i := i + 1;
    }
    r := None;
  }

  function Percents(s: string): nat {
    if s == "" then 0 else (if s[0] == '%' then 1 else 0) + Percents(s[1..])
  }

  // ---- Encoding -------------------------------------------------------------------------------

  /** A hexadecimal digit, in either case. */
  function Hex(d: nat, upper: bool): char
    requires d < 16
  {
    if upper then "0123456789ABCDEF"[d] else "0123456789abcdef"[d]
  }

  /** A byte escaped: the high digit first, each digit in the chosen case. */
  function Escape(b: char, upperHigh: bool, upperLow: bool): string
    requires b as int < 256
  {
    ['%', Hex(b as int / 16, upperHigh), Hex(b as int % 16, upperLow)]
  }

  /** The text starts with an escape of `b`. */
  predicate Escapes(e: string, b: char) {
    b as int < 256 && exists upperHigh, upperLow :: Escape(b, upperHigh, upperLow) <= e
  }

  /** `e` spells `s` with some of its bytes escaped, `%` always among them, in either hex case. */
  predicate Encodes(e: string, s: string)
    decreases |s|
  {
    if s == "" then e == ""
    else
      || (e != "" && e[0] != '%' && e[0] == s[0] && Encodes(e[1..], s[1..]))
      || (Escapes(e, s[0]) && Encodes(e[3..], s[1..]))
  }

  lemma HexDigitOfHex(d: nat, upper: bool)
    requires d < 16
    ensures HexDigit(Hex(d, upper)) == Some(d)
  {
  }

  lemma HexOfHexDigit(c: char)
    requires HexDigit(c).Some?
    ensures HexDigit(c).value < 16
    ensures c == Hex(HexDigit(c).value, false) || c == Hex(HexDigit(c).value, true)
  {
  }

  lemma EscapeReads(e: string, b: char, upperHigh: bool, upperLow: bool)
    requires b as int < 256 && Escape(b, upperHigh, upperLow) <= e
    ensures EscapeAt(e, 0) && EscapedByte(e, 0) == b
  {
    var x := Escape(b, upperHigh, upperLow);
    assert e[0] == x[0] && e[1] == x[1] && e[2] == x[2];
    HexDigitOfHex(b as int / 16, upperHigh);
    HexDigitOfHex(b as int % 16, upperLow);
  }

  lemma HexOfSum(high: nat, low: nat)
    requires high < 16 && low < 16
    ensures (high * 16 + low) / 16 == high && (high * 16 + low) % 16 == low && high * 16 + low < 256
  {
  }

  lemma ReadIsEscape(e: string)
    requires EscapeAt(e, 0)
    ensures Escapes(e, EscapedByte(e, 0))
  {
    HexOfHexDigit(e[1]);
    HexOfHexDigit(e[2]);
    var high, low := HexDigit(e[1]).value, HexDigit(e[2]).value;
    HexOfSum(high, low);
    var upperHigh, upperLow := e[1] == Hex(high, true), e[2] == Hex(low, true);
    assert Escape(EscapedByte(e, 0), upperHigh, upperLow) <= e;
  }

  /** An escape of a byte, in any case, reads as that byte, and nothing else does. */
  lemma EscapesMeaning(e: string, b: char)
    ensures Escapes(e, b) <==> EscapeAt(e, 0) && EscapedByte(e, 0) == b
  {
    if Escapes(e, b) {
      var upperHigh, upperLow :| Escape(b, upperHigh, upperLow) <= e;
      EscapeReads(e, b, upperHigh, upperLow);
    }
    if EscapeAt(e, 0) {
      ReadIsEscape(e);
    }
  }

  /** Decoding an escaped byte gives the byte, whatever follows. */
  lemma DecodeOfEscape(b: char, upperHigh: bool, upperLow: bool, rest: string)
    requires b as int < 256
    ensures Decode(Escape(b, upperHigh, upperLow) + rest) == [b] + Decode(rest)
  {
    var e := Escape(b, upperHigh, upperLow) + rest;
    assert Escape(b, upperHigh, upperLow) <= e && e[3..] == rest;
    EscapesMeaning(e, b);
  }

  lemma WellEscapedTail(e: string, n: nat)
    requires WellEscaped(e) && n <= |e|
    ensures WellEscaped(e[n..])
  {
    forall i | 0 <= i < |e[n..]| && e[n..][i] == '%' ensures EscapeAt(e[n..], i) {
      assert EscapeAt(e, n + i);
    }
  }

  /** The encodings of a text are exactly the accepted texts that decode to it. */
  lemma {:induction false} EncodingInverse(e: string, s: string)
    ensures Encodes(e, s) <==> WellEscaped(e) && Decode(e) == s
    decreases |s|
  {
    if s != "" {
      EscapesMeaning(e, s[0]);
    }
    if Encodes(e, s) && s != "" {
      var n := if e[0] == '%' then 3 else 1;
      EncodingInverse(e[n..], s[1..]);
      forall i | 0 <= i < |e| && e[i] == '%' ensures EscapeAt(e, i) {
        if i >= n {
          assert EscapeAt(e[n..], i - n);
        } else {
          assert i == 0;
        }
      }
    }
    if WellEscaped(e) && Decode(e) == s && s != "" {
      var n := if e[0] == '%' then 3 else 1;
      assert e[0] == '%' ==> EscapeAt(e, 0);
      WellEscapedTail(e, n);
      EncodingInverse(e[n..], s[1..]);
    }
  }

  /** Each escape of an accepted text shortens it by two. */
  lemma {:induction false} DecodedLength(e: string)
    requires WellEscaped(e)
    ensures |Decode(e)| + 2 * Percents(e) == |e|
    decreases |e|
  {
    if e != "" {
      if e[0] == '%' {
        assert EscapeAt(e, 0);
        WellEscapedTail(e, 3);
        DecodedLength(e[3..]);
        assert Percents(e) == 1 + Percents(e[1..]) && Percents(e[1..]) == Percents(e[1..][1..]);
        assert e[1..][1..] == e[2..] && e[2..][1..] == e[3..];
      } else {
        WellEscapedTail(e, 1);
        DecodedLength(e[1..]);
      }
    }
  }

  /** What starts no escape is kept, malformed or not. */
  lemma {:induction false} NoEscapeNoChange(s: string)
    requires forall i :: 0 <= i < |s| ==> !EscapeAt(s, i)
    ensures Decode(s) == s
  {
    if s != "" {
      forall i | 0 <= i < |s[1..]| ensures !EscapeAt(s[1..], i) {
        assert EscapeAt(s[1..], i) == EscapeAt(s, i + 1);
      }
      NoEscapeNoChange(s[1..]);
    }
  }

  lemma NoPercentNoChange(s: string)
    requires '%' !in s
    ensures Decode(s) == s && WellEscaped(s)
  {
    NoEscapeNoChange(s);
  }

  /** An escape never spans a character that is neither `%` nor a hexadecimal digit. */
  lemma {:induction false} DecodeAtSeparator(a: string, sep: char, b: string)
    requires sep != '%' && HexDigit(sep).None?
    ensures Decode(a + [sep] + b) == Decode(a) + [sep] + Decode(b)
    decreases |a|
  {
    var s := a + [sep] + b;
    if a == "" {
      assert s[1..] == b && !EscapeAt(s, 0);
    } else {
      assert EscapeAt(s, 0) <==> EscapeAt(a, 0);
      var n := if EscapeAt(a, 0) then 3 else 1;
      assert s[n..] == a[n..] + [sep] + b;
      DecodeAtSeparator(a[n..], sep, b);
    }
  }

  function DecodeAll(parts: seq<string>): (r: seq<string>)
    ensures |r| == |parts| && forall i :: 0 <= i < |parts| ==> r[i] == Decode(parts[i])
  {
    seq(|parts|, i requires 0 <= i < |parts| => Decode(parts[i]))
  }

  lemma {:induction false} DecodeJoin(parts: seq<string>, sep: char)
    requires sep != '%' && HexDigit(sep).None? && parts != []
    ensures Decode(Join(parts, sep)) == Join(DecodeAll(parts), sep)
  {
    if |parts| > 1 {
      DecodeAtSeparator(parts[0], sep, Join(parts[1..], sep));
      DecodeJoin(parts[1..], sep);
      assert DecodeAll(parts)[1..] == DecodeAll(parts[1..]);
    }
  }

  /** Decoding the segments of any path and joining them is decoding the path once, even where
      a malformed escape touches a slash. */
  lemma DecodeSegments(path: string)
    ensures Join(DecodeAll(Split(path, '/')), '/') == Decode(path)
  {
    DecodeJoin(Split(path, '/'), '/');
    JoinOfSplit(path, '/');
  }
}
