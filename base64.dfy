/** Base64 as defined by RFC 4648, one encoder for both alphabets the
    adapters use: the standard one of section 4 (FOFA's `base64Encode`) and
    the URL and filename safe one of section 5 (Hunter's `base64URLEncode`),
    both with `=` padding. Every 3 input octets become 4 symbols; a final
    group of 1 or 2 octets becomes 2 or 3 symbols followed by `==` or `=`. */
module Base64 {
  import opened Outcomes

  /** One octet of input. */
  type byte = b: int | 0 <= b < 256

  /** The alphabet of section 4 (`+`, `/`) or of section 5 (`-`, `_`) of RFC 4648. */
  datatype Alphabet = Standard | UrlSafe

  const Pad: char := '='

  /** The symbol that encodes the 6-bit value `v` (Table 1 or Table 2 of RFC 4648). */
  function Symbol(alpha: Alphabet, v: int): (c: char)
    requires 0 <= v < 64
    ensures c != Pad
  {
    if v < 26 then ('A' as int + v) as char
    else if v < 52 then ('a' as int + (v - 26)) as char
    else if v < 62 then ('0' as int + (v - 52)) as char
    else if v == 62 then (if alpha == Standard then '+' else '-')
    else (if alpha == Standard then '/' else '_')
  }

  /** The 6-bit value a symbol stands for; None for any other character,
      the pad included. */
  function Value(alpha: Alphabet, c: char): (r: Option<int>)
    ensures r.Some? ==> 0 <= r.value < 64 && Symbol(alpha, r.value) == c
    ensures c == Pad ==> r.None?
  {
    if 'A' <= c <= 'Z' then Some(c as int - 'A' as int)
    else if 'a' <= c <= 'z' then Some(c as int - 'a' as int + 26)
    else if '0' <= c <= '9' then Some(c as int - '0' as int + 52)
    else if c == Symbol(alpha, 62) then Some(62)
    else if c == Symbol(alpha, 63) then Some(63)
    else None
  }

  lemma ValueOfSymbol(alpha: Alphabet, v: int)
    requires 0 <= v < 64
    ensures Value(alpha, Symbol(alpha, v)) == Some(v)
  {
  }

  /** A character the encoder may emit: a symbol of the alphabet or the pad. */
  predicate IsOutput(alpha: Alphabet, c: char)
  {
    Value(alpha, c).Some? || c == Pad
  }

  /** How many pad characters end the encoding of `n` octets. */
  function PadCount(n: nat): (k: nat)
    ensures k <= 2
  {
    (3 - n % 3) % 3
  }

  /** The four symbols of one complete 24-bit group. */
  function EncodeQuantum(alpha: Alphabet, b0: byte, b1: byte, b2: byte): (s: string)
    ensures |s| == 4
  {
    [ Symbol(alpha, b0 / 4),
      Symbol(alpha, (b0 % 4) * 16 + b1 / 16),
      Symbol(alpha, (b1 % 16) * 4 + b2 / 64),
      Symbol(alpha, b2 % 64) ]
  }

  /** `Encoding.EncodeToString`: the padded encoding of `data`. */
  function Encode(alpha: Alphabet, data: seq<byte>): (s: string)
    ensures |s| == 4 * ((|data| + 2) / 3)
    decreases |data|
  {
    if |data| == 0 then
      []
    else if |data| == 1 then
      [Symbol(alpha, data[0] / 4), Symbol(alpha, (data[0] % 4) * 16), Pad, Pad]
    else if |data| == 2 then
      [ Symbol(alpha, data[0] / 4),
        Symbol(alpha, (data[0] % 4) * 16 + data[1] / 16),
        Symbol(alpha, (data[1] % 16) * 4),
        Pad ]
    else
      EncodeQuantum(alpha, data[0], data[1], data[2]) + Encode(alpha, data[3..])
  }

  /** Every character of an encoding is a symbol of its alphabet or the pad,
      and the pad fills exactly the last `PadCount` positions. */
  lemma {:induction false} EncodeCharacters(alpha: Alphabet, data: seq<byte>)
    ensures forall i :: 0 <= i < |Encode(alpha, data)| ==> IsOutput(alpha, Encode(alpha, data)[i])
    ensures forall i :: 0 <= i < |Encode(alpha, data)| ==>
      (Encode(alpha, data)[i] == Pad <==> i >= |Encode(alpha, data)| - PadCount(|data|))
    decreases |data|
  {
    if |data| > 2 {
      var q, rest := EncodeQuantum(alpha, data[0], data[1], data[2]), Encode(alpha, data[3..]);
      EncodeCharacters(alpha, data[3..]);
      assert PadCount(|data|) == PadCount(|data| - 3);
      assert Encode(alpha, data) == q + rest;
      forall i | 0 <= i < |q + rest|
        ensures IsOutput(alpha, (q + rest)[i])
        ensures (q + rest)[i] == Pad <==> i >= |q + rest| - PadCount(|data|)
      {
        if i >= 4 {
          assert (q + rest)[i] == rest[i - 4];
        }
      }
    }
  }

  /** The octets of one 4-character group; `last` says whether the group
      ends the text, the only place where padding is accepted. */
  function DecodeQuantum(alpha: Alphabet, q: string, last: bool): (r: Option<seq<byte>>)
    requires |q| == 4
    ensures r.Some? ==> 1 <= |r.value| <= 3
    ensures r.Some? && !last ==> |r.value| == 3
  {
    var v0, v1, v2, v3 := Value(alpha, q[0]), Value(alpha, q[1]), Value(alpha, q[2]), Value(alpha, q[3]);
    if v0.None? || v1.None? then None
    else if last && q[2] == Pad && q[3] == Pad then
      Some([v0.value * 4 + v1.value / 16])
    else if v2.None? then None
    else if last && q[3] == Pad then
      Some([v0.value * 4 + v1.value / 16, (v1.value % 16) * 16 + v2.value / 4])
    else if v3.None? then None
    else
      Some([v0.value * 4 + v1.value / 16, (v1.value % 16) * 16 + v2.value / 4, (v2.value % 4) * 64 + v3.value])
  }

  /** The inverse of `Encode`: None for text that is not a padded encoding
      in groups of four characters. */
  function Decode(alpha: Alphabet, s: string): (r: Option<seq<byte>>)
    decreases |s|
  {
    if |s| == 0 then Some([])
    else if |s| < 4 then None
    else
      match DecodeQuantum(alpha, s[..4], |s| == 4)
      case None => None
      case Some(head) =>
        match Decode(alpha, s[4..])
        case None => None
        case Some(tail) => Some(head + tail)
  }

  /** Splitting a 6-bit value into its top 2 and bottom 4 bits. */
  lemma Split16(hi: int, lo: int)
    requires 0 <= hi < 4 && 0 <= lo < 16
    ensures (hi * 16 + lo) / 16 == hi && (hi * 16 + lo) % 16 == lo
  {
  }

  /** Splitting a 6-bit value into its top 4 and bottom 2 bits. */
  lemma Split4(hi: int, lo: int)
    requires 0 <= hi < 16 && 0 <= lo < 4
    ensures (hi * 4 + lo) / 4 == hi && (hi * 4 + lo) % 4 == lo
  {
  }

  lemma QuantumRoundTrip(alpha: Alphabet, b0: byte, b1: byte, b2: byte, last: bool)
    ensures DecodeQuantum(alpha, EncodeQuantum(alpha, b0, b1, b2), last) == Some([b0, b1, b2])
  {
    var v0, v1, v2, v3 := b0 / 4, (b0 % 4) * 16 + b1 / 16, (b1 % 16) * 4 + b2 / 64, b2 % 64;
    Split16(b0 % 4, b1 / 16);
    Split4(b1 % 16, b2 / 64);
    ValueOfSymbol(alpha, v0);
    ValueOfSymbol(alpha, v1);
    ValueOfSymbol(alpha, v2);
    ValueOfSymbol(alpha, v3);
  }

  /** Decoding a text of exactly one group. */
  lemma DecodeLast(alpha: Alphabet, s: string, r: seq<byte>)
    requires |s| == 4 && DecodeQuantum(alpha, s, true) == Some(r)
    ensures Decode(alpha, s) == Some(r)
  {
    assert s[..4] == s && s[4..] == [];
    assert r + [] == r;
  }

  /** A final group of one or two octets. */
  lemma FinalRoundTrip(alpha: Alphabet, data: seq<byte>)
    requires 1 <= |data| <= 2
    ensures Decode(alpha, Encode(alpha, data)) == Some(data)
  {
    var s := Encode(alpha, data);
    var b0 := data[0];
    var v0 := b0 / 4;
    ValueOfSymbol(alpha, v0);
    if |data| == 1 {
      var v1 := (b0 % 4) * 16;
      Split16(b0 % 4, 0);
      ValueOfSymbol(alpha, v1);
      assert DecodeQuantum(alpha, s, true) == Some([v0 * 4 + v1 / 16]);
      assert [v0 * 4 + v1 / 16] == data;
    } else {
      var b1 := data[1];
      var v1, v2 := (b0 % 4) * 16 + b1 / 16, (b1 % 16) * 4;
      Split16(b0 % 4, b1 / 16);
      Split4(b1 % 16, 0);
      ValueOfSymbol(alpha, v1);
      ValueOfSymbol(alpha, v2);
      assert DecodeQuantum(alpha, s, true) == Some([v0 * 4 + v1 / 16, (v1 % 16) * 16 + v2 / 4]);
      assert [v0 * 4 + v1 / 16, (v1 % 16) * 16 + v2 / 4] == data;
    }
    DecodeLast(alpha, s, data);
  }

  /** Decoding one group followed by the rest of a text. */
  lemma DecodeConcat(alpha: Alphabet, q: string, r: string, head: seq<byte>, tail: seq<byte>)
    requires |q| == 4
    requires DecodeQuantum(alpha, q, r == []) == Some(head)
    requires Decode(alpha, r) == Some(tail)
    ensures Decode(alpha, q + r) == Some(head + tail)
  {
    assert (q + r)[..4] == q && (q + r)[4..] == r;
    if r == [] {
      assert tail == [];
      assert head + tail == head;
    }
  }

  /** The encoding of more than two octets is its first group's symbols
      followed by the encoding of the rest. */
  lemma EncodeConcat(alpha: Alphabet, data: seq<byte>)
    requires |data| > 2
    ensures Encode(alpha, data) == EncodeQuantum(alpha, data[0], data[1], data[2]) + Encode(alpha, data[3..])
  {
  }

  /** One step of the round trip: a complete group in front of a rest that
      already round-trips. */
  lemma RoundTripStep(alpha: Alphabet, data: seq<byte>)
    requires |data| > 2
    requires Decode(alpha, Encode(alpha, data[3..])) == Some(data[3..])
    ensures Decode(alpha, Encode(alpha, data)) == Some(data)
  {
    var head, rest := [data[0], data[1], data[2]], data[3..];
    var q, r := EncodeQuantum(alpha, data[0], data[1], data[2]), Encode(alpha, rest);
    assert r == [] <==> rest == [];
    QuantumRoundTrip(alpha, data[0], data[1], data[2], r == []);
    DecodeConcat(alpha, q, r, head, rest);
    EncodeConcat(alpha, data);
    assert data == head + rest;
  }

  /** Decoding the encoding of any octets gives them back. */
  lemma {:induction false} RoundTrip(alpha: Alphabet, data: seq<byte>)
    ensures Decode(alpha, Encode(alpha, data)) == Some(data)
    decreases |data|
  {
    if |data| == 0 {
    } else if |data| <= 2 {
      FinalRoundTrip(alpha, data);
    } else {
      RoundTrip(alpha, data[3..]);
      RoundTripStep(alpha, data);
    }
  }

  /** The RFC 4648 section 4 text has only the characters `A-Z a-z 0-9 + / =`. */
  lemma StandardCharacters(data: seq<byte>)
    ensures forall c :: c in Encode(Standard, data) ==>
      ('A' <= c <= 'Z') || ('a' <= c <= 'z') || ('0' <= c <= '9') || c == '+' || c == '/' || c == '='
  {
    EncodeCharacters(Standard, data);
  }

  /** The RFC 4648 section 5 text never holds `+` or `/`, so it needs no escaping in a URL. */
  lemma UrlSafeCharacters(data: seq<byte>)
    ensures '+' !in Encode(UrlSafe, data) && '/' !in Encode(UrlSafe, data)
  {
    EncodeCharacters(UrlSafe, data);
  }

  /** The character-by-character rewrite from RFC 4648 section 4 text to RFC 4648 section 5 text. */
  function ToUrlSafe(c: char): char
  {
    if c == '+' then '-' else if c == '/' then '_' else c
  }

  /** The URL-safe encoding is the standard one with `+` replaced by `-`
      and `/` by `_`, position by position; length and padding agree. */
  lemma {:induction false} UrlSafeIsTranslatedStandard(data: seq<byte>)
    ensures |Encode(UrlSafe, data)| == |Encode(Standard, data)|
    ensures forall i :: 0 <= i < |Encode(Standard, data)| ==>
      Encode(UrlSafe, data)[i] == ToUrlSafe(Encode(Standard, data)[i])
    decreases |data|
  {
    if |data| > 2 {
      UrlSafeIsTranslatedStandard(data[3..]);
    }
  }
}
