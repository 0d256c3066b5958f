/**
 * Percent-encoding of one URI component: `encodeURIComponent` and `decodeURIComponent` of ECMA-262,
 * section 19.2.6, which the accumulator keys go through.
 */
module UriComponents {
  import opened Wrappers
  import opened Texts

  datatype UriError = Malformed

  const PERCENT: CodeUnit := 0x25

  type Byte = b: nat | b < 0x100

  /** A Unicode scalar value: a code point that is not a surrogate. */
  predicate IsScalar(v: nat) {
    v < 0xD800 || 0xE000 <= v < 0x11_0000
  }

  predicate IsHigh(u: CodeUnit) {
    0xD800 <= u < 0xDC00
  }

  predicate IsLow(u: CodeUnit) {
    0xDC00 <= u < 0xE000
  }

  /** Letters, digits and - _ . ! ~ * ' ( ) stand for themselves. */
  predicate Unreserved(u: CodeUnit) {
    || 0x30 <= u <= 0x39 || 0x41 <= u <= 0x5A || 0x61 <= u <= 0x7A
    || u == 0x2D || u == 0x5F || u == 0x2E || u == 0x21 || u == 0x7E || u == 0x2A || u == 0x27 || u == 0x28 || u == 0x29
  }

  function HexDigit(n: nat): CodeUnit
    requires n < 16
  {
    if n < 10 then 0x30 + n else 0x37 + n
  }

  /** The value of a hexadecimal digit in either case. */
  function HexValue(u: CodeUnit): Option<nat> {
    if 0x30 <= u <= 0x39 then Some(u - 0x30)
    else if 0x41 <= u <= 0x46 then Some(u - 0x37)
    else if 0x61 <= u <= 0x66 then Some(u - 0x57)
    else None
  }

  function Escape(b: Byte): Text {
    [PERCENT, HexDigit(b / 16), HexDigit(b % 16)]
  }

  function EscapeAll(bytes: seq<Byte>): (t: Text)
    ensures |t| == 3 * |bytes|
  {
    if bytes == [] then [] else Escape(bytes[0]) + EscapeAll(bytes[1..])
  }

  function Utf8(v: nat): (bytes: seq<Byte>)
    requires IsScalar(v)
    ensures 1 <= |bytes| <= 4
  {
    if v < 0x80 then [v]
    else if v < 0x800 then [0xC0 + v / 0x40, 0x80 + v % 0x40]
    else if v < 0x1_0000 then [0xE0 + v / 0x1000, 0x80 + v / 0x40 % 0x40, 0x80 + v % 0x40]
    else [0xF0 + v / 0x4_0000, 0x80 + v / 0x1000 % 0x40, 0x80 + v / 0x40 % 0x40, 0x80 + v % 0x40]
  }

  function Utf16(v: nat): Text
    requires IsScalar(v)
  {
    if v < 0x1_0000 then [v] else [0xD800 + (v - 0x1_0000) / 0x400, 0xDC00 + (v - 0x1_0000) % 0x400]
  }

  /** Every surrogate is half of a pair. */
  predicate WellFormed(t: Text) {
    if t == [] then true
    else if IsHigh(t[0]) then |t| > 1 && IsLow(t[1]) && WellFormed(t[2..])
    else !IsLow(t[0]) && WellFormed(t[1..])
  }

  function Paired(high: CodeUnit, low: CodeUnit): (v: nat)
    requires IsHigh(high) && IsLow(low)
    ensures IsScalar(v) && v >= 0x1_0000 && Utf16(v) == [high, low]
  {
    0x1_0000 + (high - 0xD800) * 0x400 + (low - 0xDC00)
  }

  function Prepend(t: Text, rest: Result<Text, UriError>): Result<Text, UriError> {
    if rest.Ok? then Ok(t + rest.value) else rest
  }

  function Encode(t: Text): Result<Text, UriError> {
    if t == [] then Ok([])
    else if Unreserved(t[0]) then Prepend([t[0]], Encode(t[1..]))
    else if IsScalar(t[0]) then Prepend(EscapeAll(Utf8(t[0])), Encode(t[1..]))
    else if IsHigh(t[0]) && |t| > 1 && IsLow(t[1]) then Prepend(EscapeAll(Utf8(Paired(t[0], t[1]))), Encode(t[2..]))
    else Err(Malformed)
  }

  /** The byte that an escape at the start of the text stands for. */
  function Unescape(t: Text): Option<Byte> {
    if |t| < 3 || t[0] != PERCENT || HexValue(t[1]).None? || HexValue(t[2]).None? then None
    else
      assert HexValue(t[1]).value < 16 && HexValue(t[2]).value < 16;
      Some(HexValue(t[1]).value * 16 + HexValue(t[2]).value)
  }

  /** `n` escapes in a row. */
  function UnescapeAll(t: Text, n: nat): (r: Option<seq<Byte>>)
    ensures r.Some? ==> |r.value| == n && 3 * n <= |t|
  {
    if n == 0 then Some([])
    else if Unescape(t).None? then None
    else
      var rest := UnescapeAll(t[3..], n - 1);
      if rest.None? then None else Some([Unescape(t).value] + rest.value)
  }

  /** How many bytes the sequence that starts with `b` has; zero if none starts so. */
  function SequenceLength(b: Byte): nat {
    if b < 0x80 then 1
    else if b < 0xC0 then 0
    else if b < 0xE0 then 2
    else if b < 0xF0 then 3
    else if b < 0xF8 then 4
    else 0
  }

  predicate IsContinuation(b: Byte) {
    0x80 <= b < 0xC0
  }

  /** The six bits of a continuation byte, or the bits of a leading one. */
  function Bits(b: Byte, mark: nat): nat
    requires mark <= b
  {
    b - mark
  }

  /** The scalar value that exactly these bytes encode, if they are well formed and not overlong. */
  function FromUtf8(bytes: seq<Byte>): (r: Option<nat>)
    ensures r.Some? ==> IsScalar(r.value)
  {
    if |bytes| == 1 && bytes[0] < 0x80 then Some(bytes[0])
    else if |bytes| == 2 && 0xC0 <= bytes[0] < 0xE0 && IsContinuation(bytes[1]) then
      var v: nat := Bits(bytes[0], 0xC0) * 0x40 + Bits(bytes[1], 0x80);
      if v >= 0x80 then Some(v) else None
    else if |bytes| == 3 && 0xE0 <= bytes[0] < 0xF0 && IsContinuation(bytes[1]) && IsContinuation(bytes[2]) then
      var v: nat := Bits(bytes[0], 0xE0) * 0x1000 + Bits(bytes[1], 0x80) * 0x40 + Bits(bytes[2], 0x80);
      if v >= 0x800 && IsScalar(v) then Some(v) else None
    else if |bytes| == 4 && 0xF0 <= bytes[0] < 0xF8 && IsContinuation(bytes[1]) && IsContinuation(bytes[2])
            && IsContinuation(bytes[3]) then
      var v: nat := Bits(bytes[0], 0xF0) * 0x4_0000 + Bits(bytes[1], 0x80) * 0x1000 + Bits(bytes[2], 0x80) * 0x40
          + Bits(bytes[3], 0x80);
      if 0x1_0000 <= v < 0x11_0000 then Some(v) else None
    else None
  }

  function Decode(t: Text): Result<Text, UriError>
    decreases |t|
  {
    if t == [] then Ok([])
    else if t[0] != PERCENT then Prepend([t[0]], Decode(t[1..]))
    else if Unescape(t).None? then Err(Malformed)
    else
      var n := SequenceLength(Unescape(t).value);
      var bytes := UnescapeAll(t, n);
      if n == 0 || bytes.None? || FromUtf8(bytes.value).None? then Err(Malformed)
      else Prepend(Utf16(FromUtf8(bytes.value).value), Decode(t[3 * n..]))
  }

  // ----- round trip

  lemma Utf8RoundTrip(v: nat)
    requires IsScalar(v)
    ensures FromUtf8(Utf8(v)) == Some(v) && SequenceLength(Utf8(v)[0]) == |Utf8(v)|
  {
    if 0x800 <= v < 0x1_0000 {
      ThreeDigits(v);
    } else if v >= 0x1_0000 {
      FourDigits(v);
    }
  }

  lemma ThreeDigits(v: nat)
    ensures v == v / 0x1000 * 0x1000 + v / 0x40 % 0x40 * 0x40 + v % 0x40
  {
  }

  lemma FourDigits(v: nat)
    ensures v == v / 0x4_0000 * 0x4_0000 + v / 0x1000 % 0x40 * 0x1000 + v / 0x40 % 0x40 * 0x40 + v % 0x40
  {
    ThreeDigits(v / 0x40);
    DividedTwice(v);
  }

  lemma DividedTwice(v: nat)
    ensures v / 0x40 / 0x40 == v / 0x1000 && v / 0x40 / 0x1000 == v / 0x4_0000
  {
  }

  lemma EscapeRoundTrip(b: Byte, rest: Text)
    ensures Unescape(Escape(b) + rest) == Some(b)
  {
  }

  lemma {:induction false} EscapeAllRoundTrip(bytes: seq<Byte>, rest: Text)
    ensures UnescapeAll(EscapeAll(bytes) + rest, |bytes|) == Some(bytes)
  {
    if bytes != [] {
      var t, tail := EscapeAll(bytes) + rest, EscapeAll(bytes[1..]) + rest;
      assert t == Escape(bytes[0]) + tail;
      EscapeRoundTrip(bytes[0], tail);
      EscapeAllRoundTrip(bytes[1..], rest);
      assert t[3..] == tail && [bytes[0]] + bytes[1..] == bytes;
    }
  }

  /** An escaped scalar value decodes to its code units, whatever follows. */
  lemma DecodeEscaped(v: nat, rest: Text)
    requires IsScalar(v)
    ensures Decode(EscapeAll(Utf8(v)) + rest) == Prepend(Utf16(v), Decode(rest))
  {
    var bytes := Utf8(v);
    var t := EscapeAll(bytes) + rest;
    Utf8RoundTrip(v);
    EscapeAllRoundTrip(bytes, rest);
    EscapeRoundTrip(bytes[0], EscapeAll(bytes[1..]) + rest);
    assert t == Escape(bytes[0]) + (EscapeAll(bytes[1..]) + rest);
    assert t[3 * |bytes|..] == rest;
  }

  /** Encoding fails exactly on lone surrogates, and decoding undoes it everywhere else. */
  lemma {:induction false} DecodeUndoesEncode(t: Text)
    ensures Encode(t).Ok? <==> WellFormed(t)
    ensures Encode(t).Ok? ==> Decode(Encode(t).value) == Ok(t)
    decreases |t|
  {
    if t == [] {
    } else if Unreserved(t[0]) {
      DecodeUndoesEncode(t[1..]);
      if Encode(t).Ok? {
        assert Encode(t).value[1..] == Encode(t[1..]).value;
        assert [t[0]] + t[1..] == t;
      }
    } else if IsScalar(t[0]) {
      DecodeUndoesEncode(t[1..]);
      if Encode(t).Ok? {
        DecodeEscaped(t[0], Encode(t[1..]).value);
        assert [t[0]] + t[1..] == t;
      }
    } else if IsHigh(t[0]) && |t| > 1 && IsLow(t[1]) {
      DecodeUndoesEncode(t[2..]);
      if Encode(t).Ok? {
        DecodeEscaped(Paired(t[0], t[1]), Encode(t[2..]).value);
        assert [t[0], t[1]] + t[2..] == t;
      }
    }
  }

  /** What encoding writes: unreserved code units and escapes. */
  predicate Safe(t: Text) {
    forall i | 0 <= i < |t| :: Unreserved(t[i]) || t[i] == PERCENT
  }

  lemma {:induction false} EscapesAreSafe(bytes: seq<Byte>)
    ensures Safe(EscapeAll(bytes))
  {
    if bytes != [] {
      EscapesAreSafe(bytes[1..]);
    }
  }

  lemma {:induction false} EncodedIsSafe(t: Text)
    requires Encode(t).Ok?
    ensures Safe(Encode(t).value)
    decreases |t|
  {
    if t == [] {
    } else if Unreserved(t[0]) {
      EncodedIsSafe(t[1..]);
    } else if IsScalar(t[0]) {
      EncodedIsSafe(t[1..]);
      EscapesAreSafe(Utf8(t[0]));
    } else {
      EncodedIsSafe(t[2..]);
      EscapesAreSafe(Utf8(Paired(t[0], t[1])));
    }
  }

  // ----- what encoding writes

  lemma TwoDigitsBack(a: nat, b: nat)
    requires b < 0x40
    ensures (a * 0x40 + b) / 0x40 == a && (a * 0x40 + b) % 0x40 == b
  {
  }

  lemma ThreeDigitsBack(a: nat, b: nat, c: nat)
    requires b < 0x40 && c < 0x40
    ensures var v := a * 0x1000 + b * 0x40 + c; v / 0x1000 == a && v / 0x40 % 0x40 == b && v % 0x40 == c
  {
    var v := a * 0x1000 + b * 0x40 + c;
    assert v == (a * 0x40 + b) * 0x40 + c;
    TwoDigitsBack(a * 0x40 + b, c);
    TwoDigitsBack(a, b);
  }

  lemma FourDigitsBack(a: nat, b: nat, c: nat, d: nat)
    requires b < 0x40 && c < 0x40 && d < 0x40
    ensures var v := a * 0x4_0000 + b * 0x1000 + c * 0x40 + d;
            v / 0x4_0000 == a && v / 0x1000 % 0x40 == b && v / 0x40 % 0x40 == c && v % 0x40 == d
  {
    var v := a * 0x4_0000 + b * 0x1000 + c * 0x40 + d;
    assert v == (a * 0x1000 + b * 0x40 + c) * 0x40 + d;
    TwoDigitsBack(a * 0x1000 + b * 0x40 + c, d);
    ThreeDigitsBack(a, b, c);
    DividedTwice(v);
    assert v / 0x40 / 0x40 % 0x40 == b;
  }

  /** Bytes decode to a scalar value exactly when they are its UTF-8, so never when they are longer than that. */
  lemma FromUtf8Iff(bytes: seq<Byte>, v: nat)
    ensures FromUtf8(bytes) == Some(v) <==> IsScalar(v) && bytes == Utf8(v)
  {
    if FromUtf8(bytes) == Some(v) {
      if |bytes| == 2 {
        TwoDigitsBack(bytes[0] - 0xC0, bytes[1] - 0x80);
      } else if |bytes| == 3 {
        ThreeDigitsBack(bytes[0] - 0xE0, bytes[1] - 0x80, bytes[2] - 0x80);
      } else if |bytes| == 4 {
        FourDigitsBack(bytes[0] - 0xF0, bytes[1] - 0x80, bytes[2] - 0x80, bytes[3] - 0x80);
      }
      assert bytes == Utf8(v);
    } else if IsScalar(v) && bytes == Utf8(v) {
      Utf8RoundTrip(v);
    }
  }

  lemma PrependTwice(a: Text, b: Text, rest: Result<Text, UriError>)
    ensures Prepend(a + b, rest) == Prepend(a, Prepend(b, rest))
  {
    if rest.Ok? {
      assert a + b + rest.value == a + (b + rest.value);
    }
  }

  /** How many code units a well-formed text begins with that are encoded together. */
  function FirstLength(t: Text): nat {
    if t == [] then 0 else if IsHigh(t[0]) && |t| > 1 then 2 else 1
  }

  /** What they become. */
  function FirstPiece(t: Text): Text {
    if t == [] then []
    else if Unreserved(t[0]) then [t[0]]
    else if IsScalar(t[0]) then EscapeAll(Utf8(t[0]))
    else if IsHigh(t[0]) && |t| > 1 && IsLow(t[1]) then EscapeAll(Utf8(Paired(t[0], t[1])))
    else []
  }

  type Encoder = Text -> Result<Text, UriError>

  ghost predicate StartsWith(encode: Encoder, head: Text, piece: Text, rest: Text) {
    encode(head + rest) == Prepend(piece, encode(rest))
  }

  /** The first `n` code units of a text become `piece`, whatever follows. */
  ghost predicate Starts(encode: Encoder, ok: Text -> bool, t: Text, n: nat, piece: Text) {
    && 1 <= n <= |t| && ok(t[n..])
    && forall rest: Text :: StartsWith(encode, t[..n], piece, rest)
  }

  lemma EncodeFirst(t: Text)
    requires t != [] && WellFormed(t)
    ensures Starts(Encode, WellFormed, t, FirstLength(t), FirstPiece(t))
  {
    var n := FirstLength(t);
    forall rest: Text
      ensures StartsWith(Encode, t[..n], FirstPiece(t), rest)
    {
      assert (t[..n] + rest)[n..] == rest;
    }
  }

  /** Two texts in a row are encoded one after the other. */
  ghost predicate GoesThrough(encode: Encoder, a: Text, b: Text) {
    encode(a).Ok? && encode(a + b) == Prepend(encode(a).value, encode(b))
  }

  lemma OnePiece(encode: Encoder, head: Text, rest: Text, b: Text, piece: Text)
    requires StartsWith(encode, head, piece, rest) && StartsWith(encode, head, piece, rest + b)
    requires GoesThrough(encode, rest, b)
    ensures GoesThrough(encode, head + rest, b)
  {
    assert head + (rest + b) == head + rest + b;
    PrependTwice(piece, encode(rest).value, encode(b));
  }

  lemma NoPiece(encode: Encoder, b: Text)
    requires encode([]) == Ok([])
    ensures GoesThrough(encode, [], b)
  {
    assert [] + b == b && (encode(b).Ok? ==> [] + encode(b).value == encode(b).value);
  }

  lemma {:induction false} InPieces(encode: Encoder, ok: Text -> bool, length: Text -> nat, piece: Text -> Text,
                                    a: Text, b: Text)
    requires ok(a) && encode([]) == Ok([])
    requires forall t: Text | t != [] && ok(t) :: Starts(encode, ok, t, length(t), piece(t))
    ensures GoesThrough(encode, a, b)
    decreases |a|
  {
    if a == [] {
      NoPiece(encode, b);
    } else {
      var n := length(a);
      assert Starts(encode, ok, a, n, piece(a));
      InPieces(encode, ok, length, piece, a[n..], b);
      OnePiece(encode, a[..n], a[n..], b, piece(a));
      assert a[..n] + a[n..] == a;
    }
  }

  /** Encoding goes through the text piece by piece. */
  lemma EncodeInPieces(a: Text, b: Text)
    requires WellFormed(a)
    ensures Encode(a).Ok? && Encode(a + b) == Prepend(Encode(a).value, Encode(b))
  {
    forall t: Text | t != [] && WellFormed(t)
      ensures Starts(Encode, WellFormed, t, FirstLength(t), FirstPiece(t))
    {
      EncodeFirst(t);
    }
    InPieces(Encode, WellFormed, FirstLength, FirstPiece, a, b);
  }

  /** Unreserved text stands for itself. */
  lemma {:induction false} UnreservedStands(t: Text)
    requires forall i | 0 <= i < |t| :: Unreserved(t[i])
    ensures Encode(t) == Ok(t)
  {
    if t != [] {
      UnreservedStands(t[1..]);
      assert [t[0]] + t[1..] == t;
    }
  }

  /** An upper-case hexadecimal digit. */
  predicate IsDigitOf(u: CodeUnit, n: nat) {
    n < 16 && u == (if n < 10 then 0x30 + n else 0x41 + (n - 10))
  }

  lemma EncodeOne(u: CodeUnit)
    requires IsScalar(u) && !Unreserved(u)
    ensures Encode([u]) == Ok(EscapeAll(Utf8(u)))
  {
    assert [u][1..] == [];
    assert EscapeAll(Utf8(u)) + [] == EscapeAll(Utf8(u));
  }

  /** Any other ASCII character becomes a percent sign and its two digits. */
  lemma ReservedIsEscaped(u: CodeUnit)
    requires u < 0x80 && !Unreserved(u)
    ensures var r := Encode([u]);
            && r.Ok? && |r.value| == 3 && r.value[0] == 0x25
            && IsDigitOf(r.value[1], u / 16) && IsDigitOf(r.value[2], u % 16)
  {
    EncodeOne(u);
    assert EscapeAll([u]) == Escape(u) + EscapeAll([]);
  }

  /** An e with acute accent takes two bytes: `%C3%A9`. */
  lemma EncodedAccent()
    ensures Encode([0xE9]) == Ok([0x25, 0x43, 0x33, 0x25, 0x41, 0x39])
  {
    EncodeOne(0xE9);
    assert Utf8(0xE9) == [0xC3, 0xA9];
    EscapedPair(0xC3, 0xA9);
    assert Escape(0xC3) + Escape(0xA9) == [0x25, 0x43, 0x33, 0x25, 0x41, 0x39];
  }

  /** The euro sign takes three: `%E2%82%AC`. */
  lemma EncodedEuro()
    ensures Encode([0x20AC]) == Ok([0x25, 0x45, 0x32, 0x25, 0x38, 0x32, 0x25, 0x41, 0x43])
  {
    EncodeOne(0x20AC);
    assert Utf8(0x20AC) == [0xE2, 0x82, 0xAC];
    EscapedTriple(0xE2, 0x82, 0xAC);
    assert Escape(0xE2) + Escape(0x82) + Escape(0xAC)
        == [0x25, 0x45, 0x32, 0x25, 0x38, 0x32, 0x25, 0x41, 0x43];
  }

  /** A face that is a pair of surrogates takes four: `%F0%9F%98%80`. */
  lemma EncodedFace()
    ensures Encode([0xD83D, 0xDE00])
         == Ok([0x25, 0x46, 0x30, 0x25, 0x39, 0x46, 0x25, 0x39, 0x38, 0x25, 0x38, 0x30])
  {
    var t: Text, v := [0xD83D, 0xDE00], Paired(0xD83D, 0xDE00);
    assert v == 0x1_F600 && Utf8(v) == [0xF0, 0x9F, 0x98, 0x80];
    EscapedTriple(0x9F, 0x98, 0x80);
    assert Escape(0xF0) + (Escape(0x9F) + Escape(0x98) + Escape(0x80))
        == [0x25, 0x46, 0x30, 0x25, 0x39, 0x46, 0x25, 0x39, 0x38, 0x25, 0x38, 0x30];
    assert Utf8(v)[1..] == [0x9F, 0x98, 0x80] && EscapeAll(Utf8(v)) == Escape(0xF0) + EscapeAll(Utf8(v)[1..]);
    assert t[2..] == [] && EscapeAll(Utf8(v)) + [] == EscapeAll(Utf8(v));
  }

  lemma EscapedPair(a: Byte, b: Byte)
    ensures EscapeAll([a, b]) == Escape(a) + Escape(b)
  {
    assert [a, b][1..] == [b] && [b][1..] == [];
    assert EscapeAll([b]) == Escape(b) + EscapeAll([]);
  }

  lemma EscapedTriple(a: Byte, b: Byte, c: Byte)
    ensures EscapeAll([a, b, c]) == Escape(a) + Escape(b) + Escape(c)
  {
    EscapedPair(b, c);
    assert [a, b, c][1..] == [b, c];
  }
}
