/** Well-formed UTF-8 and the lossy repair of ill-formed text, over one char per byte. */
module Utf8 {

  predicate Between(s: string, i: nat, lo: int, hi: int) {
    i < |s| && lo <= s[i] as int <= hi
  }

  /** The chunk at the start of a text: a well-formed sequence, or the longest ill-formed
      prefix of one (Unicode Standard table 3-7), which is replaced as a unit. */
  function Chunk(s: string): (r: (bool, nat))
    requires s != ""
    ensures 1 <= r.1 <= |s|
    ensures r.1 > 1 ==> forall i :: 1 <= i < r.1 ==> 0x80 <= s[i] as int
  {
    var b := s[0] as int;
    if b < 0x80 then (true, 1)
    else if 0xC2 <= b <= 0xDF then
      if Between(s, 1, 0x80, 0xBF) then (true, 2) else (false, 1)
    else if 0xE0 <= b <= 0xEF then
      if !Between(s, 1, if b == 0xE0 then 0xA0 else 0x80, if b == 0xED then 0x9F else 0xBF) then (false, 1)
      else if Between(s, 2, 0x80, 0xBF) then (true, 3) else (false, 2)
    else if 0xF0 <= b <= 0xF4 then
      if !Between(s, 1, if b == 0xF0 then 0x90 else 0x80, if b == 0xF4 then 0x8F else 0xBF) then (false, 1)
      else if !Between(s, 2, 0x80, 0xBF) then (false, 2)
      else if Between(s, 3, 0x80, 0xBF) then (true, 4) else (false, 3)
    else (false, 1)
  }

  /** `str::from_utf8` succeeds. */
  predicate ValidUtf8(s: string) {
    s == "" || (Chunk(s).0 && ValidUtf8(s[Chunk(s).1..]))
  }

  /** U+FFFD. */
  const REPLACEMENT: string := [0xEF as char, 0xBF as char, 0xBD as char]

  /** `String::from_utf8_lossy`. */
  function Lossy(s: string): string {
    if s == "" then ""
    else
      var (ok, n) := Chunk(s);
      (if ok then s[..n] else REPLACEMENT) + Lossy(s[n..])
  }

  lemma {:induction false} LossyKeepsValid(s: string)
    requires ValidUtf8(s)
    ensures Lossy(s) == s
  {
    if s != "" {
      var n := Chunk(s).1;
      LossyKeepsValid(s[n..]);
      assert Lossy(s) == s[..n] + s[n..];
    }
  }

  /** A well-formed text's chunks do not depend on what follows it. */
  lemma ChunkPrefix(a: string, b: string)
    requires a != "" && Chunk(a).0
    ensures Chunk(a + b) == Chunk(a)
  {
    var n := Chunk(a).1;
    assert forall i :: 0 <= i < n ==> (a + b)[i] == a[i];
  }

  lemma {:induction false} ValidConcat(a: string, b: string)
    requires ValidUtf8(a) && ValidUtf8(b)
    ensures ValidUtf8(a + b)
  {
    if a == "" {
      assert a + b == b;
    } else {
      ChunkPrefix(a, b);
      var n := Chunk(a).1;
      assert (a + b)[n..] == a[n..] + b;
      ValidConcat(a[n..], b);
    }
  }

  lemma {:induction false} AsciiIsValid(s: string)
    requires forall i :: 0 <= i < |s| ==> s[i] as int < 0x80
    ensures ValidUtf8(s)
  {
    if s != "" {
      AsciiIsValid(s[1..]);
    }
  }

  // ---- Code points ----------------------------------------------------------------------------

  /** A Unicode scalar value: a code point that is not a surrogate. */
  predicate Scalar(cp: int) { 0 <= cp < 0xD800 || 0xE000 <= cp < 0x11_0000 }

  /** A continuation byte. */
  function Tail(bits: int): char
    requires 0 <= bits < 64
  {
    (0x80 + bits) as char
  }

  /** The UTF-8 encoding of a scalar value (section 3 of RFC 3629). */
  function Encoded(cp: int): string
    requires Scalar(cp)
  {
    if cp < 0x80 then [cp as char]
    else if cp < 0x800 then [(0xC0 + cp / 64) as char, Tail(cp % 64)]
    else if cp < 0x1_0000 then [(0xE0 + cp / 4096) as char, Tail(cp / 64 % 64), Tail(cp % 64)]
    else [(0xF0 + cp / 26_2144) as char, Tail(cp / 4096 % 64), Tail(cp / 64 % 64), Tail(cp % 64)]
  }

  ghost predicate AllScalars(cps: seq<int>) { forall i :: 0 <= i < |cps| ==> Scalar(cps[i]) }

  function EncodedAll(cps: seq<int>): string
    requires AllScalars(cps)
  {
    if cps == [] then "" else Encoded(cps[0]) + EncodedAll(cps[1..])
  }

  /** An encoded scalar value is one well-formed chunk. */
  lemma EncodedIsChunk(cp: int)
    requires Scalar(cp)
    ensures Chunk(Encoded(cp)) == (true, |Encoded(cp)|)
  {
    if 0x800 <= cp < 0x1_0000 {
      MiddleIsChunk(cp);
    } else if 0x1_0000 <= cp {
      LongIsChunk(cp);
    }
  }

  lemma MiddleIsChunk(cp: int)
    requires Scalar(cp) && 0x800 <= cp < 0x1_0000
    ensures Chunk(Encoded(cp)) == (true, 3)
  {
  }

  lemma LongIsChunk(cp: int)
    requires Scalar(cp) && 0x1_0000 <= cp
    ensures Chunk(Encoded(cp)) == (true, 4)
  {
  }

  /** The scalar value a well-formed chunk stands for. */
  function Decoded(s: string): int
    requires s != "" && Chunk(s).0
  {
    var n := Chunk(s).1;
    if n == 1 then s[0] as int
    else if n == 2 then (s[0] as int - 0xC0) * 64 + (s[1] as int - 0x80)
    else if n == 3 then (s[0] as int - 0xE0) * 4096 + (s[1] as int - 0x80) * 64 + (s[2] as int - 0x80)
    else (s[0] as int - 0xF0) * 26_2144 + (s[1] as int - 0x80) * 4096 + (s[2] as int - 0x80) * 64 + (s[3] as int - 0x80)
  }

  lemma TwoDigits(a: int, b: int)
    requires 0 <= b < 64
    ensures (a * 64 + b) / 64 == a && (a * 64 + b) % 64 == b
  {
  }

  lemma ThreeDigits(a: int, b: int, c: int)
    requires 0 <= b < 64 && 0 <= c < 64
    ensures var n := a * 4096 + b * 64 + c; n / 4096 == a && n / 64 == a * 64 + b && n / 64 % 64 == b && n % 64 == c
  {
    TwoDigits(a * 64 + b, c);
    TwoDigits(a, b);
  }

  lemma FourDigits(a: int, b: int, c: int, d: int)
    requires 0 <= b < 64 && 0 <= c < 64 && 0 <= d < 64
    ensures var n := a * 26_2144 + b * 4096 + c * 64 + d;
            n / 26_2144 == a && n / 4096 % 64 == b && n / 64 % 64 == c && n % 64 == d
  {
    ThreeDigits(a * 64 + b, c, d);
    TwoDigits(a, b);
  }

  lemma ShortChunkIsEncoded(s: string)
    requires s != "" && Chunk(s).0 && Chunk(s).1 <= 2
    ensures Scalar(Decoded(s)) && s[..Chunk(s).1] == Encoded(Decoded(s))
  {
    if Chunk(s).1 == 2 {
      TwoDigits(s[0] as int - 0xC0, s[1] as int - 0x80);
    }
  }

  lemma MiddleChunkIsEncoded(s: string)
    requires s != "" && Chunk(s).0 && Chunk(s).1 == 3
    ensures Scalar(Decoded(s)) && s[..3] == Encoded(Decoded(s))
  {
    ThreeDigits(s[0] as int - 0xE0, s[1] as int - 0x80, s[2] as int - 0x80);
  }

  lemma LongChunkIsEncoded(s: string)
    requires s != "" && Chunk(s).0 && Chunk(s).1 == 4
    ensures Scalar(Decoded(s)) && s[..4] == Encoded(Decoded(s))
  {
    FourDigits(s[0] as int - 0xF0, s[1] as int - 0x80, s[2] as int - 0x80, s[3] as int - 0x80);
  }

  /** A well-formed chunk encodes a scalar value. */
  lemma ChunkIsEncoded(s: string)
    requires s != "" && Chunk(s).0
    ensures Scalar(Decoded(s)) && s[..Chunk(s).1] == Encoded(Decoded(s))
  {
    if Chunk(s).1 <= 2 {
      ShortChunkIsEncoded(s);
    } else if Chunk(s).1 == 3 {
      MiddleChunkIsEncoded(s);
    } else {
      LongChunkIsEncoded(s);
    }
  }

  lemma {:induction false} ValidIsEncoded(s: string) returns (cps: seq<int>)
    requires ValidUtf8(s)
    ensures AllScalars(cps) && s == EncodedAll(cps)
  {
    if s == "" {
      cps := [];
    } else {
      ChunkIsEncoded(s);
      var rest := ValidIsEncoded(s[Chunk(s).1..]);
      cps := [Decoded(s)] + rest;
      assert cps[1..] == rest;
    }
  }

  lemma {:induction false} EncodedIsValid(cps: seq<int>)
    requires AllScalars(cps)
    ensures ValidUtf8(EncodedAll(cps))
  {
    if cps != [] {
      EncodedIsValid(cps[1..]);
      EncodedIsChunk(cps[0]);
      assert ValidUtf8(Encoded(cps[0]));
      ValidConcat(Encoded(cps[0]), EncodedAll(cps[1..]));
    }
  }

  /** The accepted texts are exactly the encodings of sequences of scalar values. */
  lemma ValidExactly(s: string)
    ensures ValidUtf8(s) <==> exists cps :: AllScalars(cps) && s == EncodedAll(cps)
  {
    if ValidUtf8(s) {
      var cps := ValidIsEncoded(s);
    }
    if cps :| AllScalars(cps) && s == EncodedAll(cps) {
      EncodedIsValid(cps);
    }
  }

  /** An ill-formed chunk is cut where it stops being the start of any encoding, or is one byte. */
  lemma IllFormedChunkIsMaximal(s: string)
    requires s != "" && !Chunk(s).0
    ensures var n := Chunk(s).1;
            && (n == 1 || exists cp :: Scalar(cp) && s[..n] <= Encoded(cp))
            && (n < |s| ==> forall cp :: Scalar(cp) ==> !(s[..n + 1] <= Encoded(cp)))
  {
    var n := Chunk(s).1;
    if n > 1 {
      var full := s[..n] + if s[0] as int < 0xF0 || n == 3 then [Tail(0)] else [Tail(0), Tail(0)];
      ChunkIsEncoded(full);
      assert s[..n] <= Encoded(Decoded(full));
    }
    if n < |s| {
      forall cp | Scalar(cp) ensures !(s[..n + 1] <= Encoded(cp)) {
        EncodedIsChunk(cp);
        if s[..n + 1] <= Encoded(cp) {
          SameStart(s, Encoded(cp), n);
        }
      }
    }
  }

  lemma SameStart(s: string, e: string, n: nat)
    requires s != "" && Chunk(s) == (false, n) && n < |s| && s[..n + 1] <= e
    ensures !Chunk(e).0
  {
    assert forall i :: 0 <= i <= n ==> e[i] == s[..n + 1][i] == s[i];
  }

  /** The repaired text is always well formed, and each repair is a U+FFFD. */
  lemma {:induction false} LossyIsValid(s: string)
    ensures ValidUtf8(Lossy(s)) && REPLACEMENT == Encoded(0xFFFD)
  {
    if s != "" {
      var (ok, n) := Chunk(s);
      LossyIsValid(s[n..]);
      if ok {
        ChunkIsEncoded(s);
        EncodedIsChunk(Decoded(s));
        assert ValidUtf8(s[..n]);
        ValidConcat(s[..n], Lossy(s[n..]));
      } else {
        assert ValidUtf8(REPLACEMENT);
        ValidConcat(REPLACEMENT, Lossy(s[n..]));
      }
    }
  }
}
