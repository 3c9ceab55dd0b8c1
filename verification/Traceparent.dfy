// W3C traceparent headers: parse, print, and traces made from request ids. Text is bytes.
module Traceparent {
  import opened Options

  type Byte = bv8
  type Text = seq<Byte>

  const DASH: Byte := 0x2d
  const ZERO: Byte := 0x30
  const VERSION: Text := [0x30, 0x30]
  const FLAGS_SAMPLED: Text := [0x30, 0x31]
  const FLAGS_UNSAMPLED: Text := [0x30, 0x30]

  datatype Trace = Trace(traceId: Text, spanId: Text, sampled: bool)

  // --- hex ---

  predicate Digit(c: Byte) {
    0x30 <= c <= 0x39
  }

  predicate LowerHex(c: Byte) {
    Digit(c) || 0x61 <= c <= 0x66
  }

  predicate UpperHex(c: Byte) {
    0x41 <= c <= 0x46
  }

  predicate Hex(c: Byte) {
    LowerHex(c) || UpperHex(c)
  }

  predicate AllLowerHex(s: Text) {
    forall i :: 0 <= i < |s| ==> LowerHex(s[i])
  }

  predicate IsHex(s: Text) {
    |s| > 0 && forall i :: 0 <= i < |s| ==> Hex(s[i])
  }

  predicate AllZeros(s: Text) {
    forall i :: 0 <= i < |s| ==> s[i] == ZERO
  }

  function LowerByte(c: Byte): Byte {
    if 0x41 <= c <= 0x5a then c + 0x20 else c
  }

  function ToLower(s: Text): (r: Text)
    ensures |r| == |s| && forall i :: 0 <= i < |s| ==> r[i] == LowerByte(s[i])
  {
    seq(|s|, i requires 0 <= i < |s| => LowerByte(s[i]))
  }

  /** The value of a hex digit. */
  function Nibble(c: Byte): Byte {
    if Digit(c) then c - 0x30 else if UpperHex(c) then c - 0x37 else c - 0x57
  }

  function HexDigit(n: Byte): Byte {
    if n < 10 then n + 0x30 else n + 0x57
  }

  /** hex.EncodeToString. */
  function Encode(bytes: Text): (r: Text)
    ensures |r| == 2 * |bytes|
  {
    if bytes == [] then [] else [HexDigit(bytes[0] >> 4), HexDigit(bytes[0] & 0x0f)] + Encode(bytes[1..])
  }

  lemma LowerIsLowerHex(c: Byte)
    requires Hex(c)
    ensures LowerHex(LowerByte(c)) && (LowerByte(c) == ZERO <==> c == ZERO) && (LowerByte(c) == c <==> LowerHex(c))
  {
  }

  lemma LowerHexText(s: Text)
    requires IsHex(s)
    ensures AllLowerHex(ToLower(s)) && (AllZeros(ToLower(s)) <==> AllZeros(s)) && (ToLower(s) == s <==> AllLowerHex(s))
  {
    forall i | 0 <= i < |s|
      ensures LowerHex(ToLower(s)[i]) && (ToLower(s)[i] == ZERO <==> s[i] == ZERO) && (ToLower(s)[i] == s[i] <==> LowerHex(s[i]))
    {
      LowerIsLowerHex(s[i]);
    }
    if ToLower(s) == s {
      assert forall i :: 0 <= i < |s| ==> ToLower(s)[i] == s[i];
    }
  }

  lemma ByteEncodes(b: Byte)
    ensures LowerHex(HexDigit(b >> 4)) && LowerHex(HexDigit(b & 0x0f))
    ensures HexDigit(b >> 4) == ZERO && HexDigit(b & 0x0f) == ZERO <==> b == 0
  {
  }

  /** Encoding gives lower-case hex, all zeros exactly for all-zero bytes. */
  lemma {:induction false} EncodeIsHex(bytes: Text)
    ensures AllLowerHex(Encode(bytes))
    ensures AllZeros(Encode(bytes)) <==> forall i :: 0 <= i < |bytes| ==> bytes[i] == 0
  {
    if bytes != [] {
      var head, rest := [HexDigit(bytes[0] >> 4), HexDigit(bytes[0] & 0x0f)], Encode(bytes[1..]);
      ByteEncodes(bytes[0]);
      EncodeIsHex(bytes[1..]);
      assert Encode(bytes) == head + rest;
      assert Encode(bytes)[0] == head[0] && Encode(bytes)[1] == head[1];
      assert forall i :: 0 <= i < |rest| ==> Encode(bytes)[i + 2] == rest[i];
      assert forall i :: 0 <= i < |bytes| - 1 ==> bytes[1..][i] == bytes[i + 1];
      if AllZeros(Encode(bytes)) {
        assert AllZeros(rest);
      }
    }
  }

  const HEX_DIGITS: Text := [0x30, 0x31, 0x32, 0x33, 0x34, 0x35, 0x36, 0x37, 0x38, 0x39, 0x61, 0x62, 0x63, 0x64, 0x65, 0x66]

  /** 0 to 9 and then a to f. */
  lemma HexDigitIs(n: Byte)
    requires n < 16
    ensures HexDigit(n) == HEX_DIGITS[n as int] && Nibble(HexDigit(n)) == n
  {
  }

  /** Two digits give their byte back. */
  lemma ByteDecodes(b: Byte)
    ensures (Nibble(HexDigit(b >> 4)) << 4) | Nibble(HexDigit(b & 0x0f)) == b
  {
    assert b >> 4 < 16 && b & 0x0f < 16;
    HexDigitIs(b >> 4);
    HexDigitIs(b & 0x0f);
  }

  /** The byte that the k-th pair of digits stands for. */
  function PairAt(s: Text, k: nat): Byte
    requires 2 * k + 1 < |s|
  {
    (Nibble(s[2 * k]) << 4) | Nibble(s[2 * k + 1])
  }

  /** hex.EncodeToString loses nothing: pair by pair it reads back as the bytes. */
  lemma {:induction false} EncodeReadsBack(bytes: Text, k: nat)
    requires k < |bytes|
    ensures PairAt(Encode(bytes), k) == bytes[k]
  {
    var rest := Encode(bytes[1..]);
    if k == 0 {
      ByteDecodes(bytes[0]);
    } else {
      EncodeReadsBack(bytes[1..], k - 1);
      assert Encode(bytes)[2 * k] == rest[2 * (k - 1)] && Encode(bytes)[2 * k + 1] == rest[2 * (k - 1) + 1];
    }
  }

  // --- segments ---

  predicate Dashless(s: Text) {
    forall i :: 0 <= i < |s| ==> s[i] != DASH
  }

  /** strings.Split on a dash: never empty. */
  function Split(s: Text): (parts: seq<Text>)
    ensures |parts| > 0
  {
    if s == [] then [[]]
    else
      var rest := Split(s[1..]);
      if s[0] == DASH then [[]] + rest else [[s[0]] + rest[0]] + rest[1..]
  }

  function Join(parts: seq<Text>): Text {
    if parts == [] then [] else if |parts| == 1 then parts[0] else parts[0] + [DASH] + Join(parts[1..])
  }

  lemma {:induction false} JoinSplit(s: Text)
    ensures Join(Split(s)) == s
    ensures forall i :: 0 <= i < |Split(s)| ==> Dashless(Split(s)[i])
  {
    if s != [] {
      var rest := Split(s[1..]);
      JoinSplit(s[1..]);
      assert s == [s[0]] + s[1..];
      if s[0] == DASH {
        assert Split(s)[1..] == rest;
      } else {
        assert Split(s)[1..] == rest[1..];
        if |rest| > 1 {
          assert Join(Split(s)) == ([s[0]] + rest[0]) + [DASH] + Join(rest[1..]);
        }
      }
    }
  }

  lemma {:induction false} SplitFirst(a: Text, s: Text)
    requires Dashless(a)
    ensures Split(a + [DASH] + s) == [a] + Split(s)
    ensures Split(a) == [a]
  {
    if a == [] {
      assert ([] + [DASH] + s)[1..] == s;
      assert [] + [DASH] + s == [DASH] + s;
    } else {
      SplitFirst(a[1..], s);
      assert (a + [DASH] + s)[1..] == a[1..] + [DASH] + s;
      assert a == [a[0]] + a[1..];
    }
  }

  // --- parse and print ---

  predicate ValidField(s: Text, n: nat) {
    |s| == n && IsHex(s) && !AllZeros(s)
  }

  predicate FlagSampled(flags: Text)
    requires |flags| == 2
  {
    ((Nibble(flags[0]) << 4) | Nibble(flags[1])) & 0x01 != 0
  }

  /** Sampled exactly if the last digit of the flags is odd. */
  lemma SampledIff(flags: Text)
    requires |flags| == 2 && IsHex(flags)
    ensures FlagSampled(flags) <==>
            flags[1] in {0x31, 0x33, 0x35, 0x37, 0x39, 0x62, 0x64, 0x66, 0x42, 0x44, 0x46}
  {
    SampledBit(flags[0], flags[1]);
  }

  lemma SampledBit(high: Byte, low: Byte)
    requires Hex(high) && Hex(low)
    ensures ((Nibble(high) << 4) | Nibble(low)) & 0x01 != 0 <==>
            low == 0x31 || low == 0x33 || low == 0x35 || low == 0x37 || low == 0x39
            || low == 0x62 || low == 0x64 || low == 0x66 || low == 0x42 || low == 0x44 || low == 0x46
  {
  }

  function Parse(header: Text): Option<Trace> {
    var parts := Split(header);
    if |parts| != 4 || parts[0] != VERSION || !ValidField(parts[1], 32) || !ValidField(parts[2], 16) then None
    else if |parts[3]| != 2 || !IsHex(parts[3]) then None
    else Some(Trace(ToLower(parts[1]), ToLower(parts[2]), FlagSampled(parts[3])))
  }

  function Print(t: Trace): Text {
    VERSION + [DASH] + t.traceId + [DASH] + t.spanId + [DASH] + if t.sampled then FLAGS_SAMPLED else FLAGS_UNSAMPLED
  }

  /** A trace as its documentation describes it: lower-case hex of the right lengths, not all zeros. */
  predicate WellFormed(t: Trace) {
    && |t.traceId| == 32 && AllLowerHex(t.traceId) && !AllZeros(t.traceId)
    && |t.spanId| == 16 && AllLowerHex(t.spanId) && !AllZeros(t.spanId)
  }

  /** The grammar of a header: four dash-separated fields. */
  ghost predicate Header(header: Text, traceId: Text, spanId: Text, flags: Text) {
    && header == [0x30, 0x30, 0x2d] + traceId + [0x2d] + spanId + [0x2d] + flags
    && ValidField(traceId, 32) && ValidField(spanId, 16) && |flags| == 2 && IsHex(flags)
  }

  lemma HexIsDashless(s: Text)
    requires forall i :: 0 <= i < |s| ==> Hex(s[i])
    ensures Dashless(s)
  {
  }

  lemma {:induction false} FourSegments(a: Text, b: Text, c: Text, d: Text)
    requires Dashless(a) && Dashless(b) && Dashless(c) && Dashless(d)
    ensures Split(a + [DASH] + b + [DASH] + c + [DASH] + d) == [a, b, c, d]
  {
    var cd := c + [DASH] + d;
    var bcd := b + [DASH] + cd;
    assert a + [DASH] + b + [DASH] + c + [DASH] + d == a + [DASH] + bcd;
    SplitFirst(a, bcd);
    SplitFirst(b, cd);
    SplitFirst(c, d);
    SplitFirst(d, []);
  }

  lemma {:induction false} HeaderParses(header: Text, traceId: Text, spanId: Text, flags: Text)
    requires Header(header, traceId, spanId, flags)
    ensures Split(header) == [VERSION, traceId, spanId, flags]
    ensures Parse(header) == Some(Trace(ToLower(traceId), ToLower(spanId), FlagSampled(flags)))
  {
    HexIsDashless(traceId);
    HexIsDashless(spanId);
    HexIsDashless(flags);
    assert header == VERSION + [DASH] + traceId + [DASH] + spanId + [DASH] + flags;
    FourSegments(VERSION, traceId, spanId, flags);
  }

  lemma {:induction false} ParsedIsHeader(header: Text)
    requires Parse(header).Some?
    ensures var parts := Split(header); |parts| == 4 && Header(header, parts[1], parts[2], parts[3])
  {
    var parts := Split(header);
    JoinSplit(header);
    assert Join(parts[3..]) == parts[3];
    assert parts[2..][1..] == parts[3..] && parts[1..][1..] == parts[2..];
    assert Join(parts[2..]) == parts[2] + [DASH] + parts[3];
    assert Join(parts[1..]) == parts[1] + [DASH] + (parts[2] + [DASH] + parts[3]);
    assert header == VERSION + [DASH] + parts[1] + [DASH] + parts[2] + [DASH] + parts[3];
  }

  /** Parse accepts exactly the headers of the grammar. Hex of either case is accepted and the ids
      are lowered. */
  lemma ParseIffHeader(header: Text, t: Trace)
    ensures Parse(header) == Some(t) <==>
            exists traceId, spanId, flags :: Header(header, traceId, spanId, flags)
              && t == Trace(ToLower(traceId), ToLower(spanId), FlagSampled(flags))
  {
    if Parse(header) == Some(t) {
      var parts := Split(header);
      ParsedIsHeader(header);
      assert Header(header, parts[1], parts[2], parts[3]) && t == Trace(ToLower(parts[1]), ToLower(parts[2]), FlagSampled(parts[3]));
    }
    forall traceId, spanId, flags | Header(header, traceId, spanId, flags)
      ensures Parse(header) == Some(Trace(ToLower(traceId), ToLower(spanId), FlagSampled(flags)))
    {
      HeaderParses(header, traceId, spanId, flags);
    }
  }

  lemma LowerHexIsHex(s: Text)
    requires AllLowerHex(s) && |s| > 0
    ensures IsHex(s) && ToLower(s) == s
  {
    LowerHexText(s);
  }

  /** Every well-formed trace is read back from its own header. */
  lemma ParsePrint(t: Trace)
    requires WellFormed(t)
    ensures Parse(Print(t)) == Some(t)
  {
    var flags := if t.sampled then FLAGS_SAMPLED else FLAGS_UNSAMPLED;
    LowerHexIsHex(t.traceId);
    LowerHexIsHex(t.spanId);
    HeaderParses(Print(t), t.traceId, t.spanId, flags);
  }

  /** Whatever Parse accepts is well formed and survives printing. */
  lemma ParsedIsWellFormed(header: Text)
    requires Parse(header).Some?
    ensures WellFormed(Parse(header).value) && Parse(Print(Parse(header).value)) == Parse(header)
  {
    var parts := Split(header);
    LowerHexText(parts[1]);
    LowerHexText(parts[2]);
    ParsePrint(Parse(header).value);
  }

  function FlagsOf(t: Trace): Text { if t.sampled then FLAGS_SAMPLED else FLAGS_UNSAMPLED }

  lemma PrintedIsHeader(t: Trace)
    requires WellFormed(t)
    ensures Header(Print(t), t.traceId, t.spanId, FlagsOf(t))
  {
    LowerHexIsHex(t.traceId);
    LowerHexIsHex(t.spanId);
  }

  /** A header has one reading. */
  lemma {:induction false} OneReading(header: Text, a: Text, b: Text, f: Text, a': Text, b': Text, f': Text)
    requires Header(header, a, b, f) && Header(header, a', b', f')
    ensures a == a' && b == b' && f == f'
  {
    HeaderParses(header, a, b, f);
    HeaderParses(header, a', b', f');
    assert [VERSION, a, b, f][1] == [VERSION, a', b', f'][1] && [VERSION, a, b, f][2] == [VERSION, a', b', f'][2]
           && [VERSION, a, b, f][3] == [VERSION, a', b', f'][3];
  }

  /** Printing gives the header back exactly when it was in the canonical form: lower-case ids, and
      flags 00 or 01. */
  lemma PrintParseIff(header: Text, traceId: Text, spanId: Text, flags: Text)
    requires Header(header, traceId, spanId, flags)
    ensures Parse(header).Some?
    ensures Print(Parse(header).value) == header <==>
            AllLowerHex(traceId) && AllLowerHex(spanId) && (flags == FLAGS_SAMPLED || flags == FLAGS_UNSAMPLED)
  {
    HeaderParses(header, traceId, spanId, flags);
    LowerHexText(traceId);
    LowerHexText(spanId);
    ParsedIsWellFormed(header);
    var t := Parse(header).value;
    PrintedIsHeader(t);
    if Print(t) == header {
      OneReading(header, traceId, spanId, flags, t.traceId, t.spanId, FlagsOf(t));
    }
  }

  // --- traces from request ids ---

  function StripDashes(s: Text): Text {
    if s == [] then [] else if s[0] == DASH then StripDashes(s[1..]) else [s[0]] + StripDashes(s[1..])
  }

  /** The exclusive or of the first n bytes whose position is j modulo 16. */
  function Xor(id: Text, n: nat, j: nat): Byte
    requires n <= |id|
  {
    if n == 0 then 0
    else if (n - 1) % 16 == j then Xor(id, n - 1, j) ^ id[n - 1]
    else Xor(id, n - 1, j)
  }

  function Folded(id: Text): (out: Text)
    ensures |out| == 16
  {
    seq(16, j requires 0 <= j < 16 => Xor(id, |id|, j))
  }

  predicate AllZeroBytes(s: Text) {
    forall i :: 0 <= i < |s| ==> s[i] == 0
  }

  predicate UsableAsIs(stripped: Text) {
    |stripped| == 32 && IsHex(stripped) && !AllZeros(stripped)
  }

  function Normalised(id: Text): Text {
    var stripped := ToLower(StripDashes(id));
    if UsableAsIs(stripped) then stripped
    else if AllZeroBytes(Folded(id)) then Encode(Folded(id)[15 := 1])
    else Encode(Folded(id))
  }

  method NormaliseRequestID(id: Text) returns (r: Text)
    ensures r == Normalised(id)
  {
    var stripped := ToLower(StripDashes(id));
    if |stripped| == 32 && IsHex(stripped) && !AllZeros(stripped) {
      return stripped;
    }
    var out := new Byte[16](_ => 0);
    for i := 0 to |id|
      invariant forall j :: 0 <= j < 16 ==> out[j] == Xor(id, i, j)
    {
      out[i % 16] := out[i % 16] ^ id[i];
    }
    assert out[..] == Folded(id);
    EncodeIsHex(Folded(id));
    if AllZeros(Encode(out[..])) {
      out[15] := 1;
      assert out[..] == Folded(id)[15 := 1];
    }
    r := Encode(out[..]);
  }

  function Concat(parts: seq<Text>): Text {
    if parts == [] then [] else parts[0] + Concat(parts[1..])
  }

  lemma {:induction false} ConcatLonger(x: Byte, parts: seq<Text>)
    requires parts != []
    ensures Concat([[x] + parts[0]] + parts[1..]) == [x] + Concat(parts)
  {
    assert ([[x] + parts[0]] + parts[1..])[1..] == parts[1..];
    assert ([x] + parts[0]) + Concat(parts[1..]) == [x] + (parts[0] + Concat(parts[1..]));
  }

  /** Stripping the dashes leaves the fields between them, one after the other. */
  lemma {:induction false} StrippedFields(s: Text)
    ensures StripDashes(s) == Concat(Split(s))
  {
    if s != [] {
      var rest := Split(s[1..]);
      StrippedFields(s[1..]);
      if s[0] == DASH {
        assert Split(s)[1..] == rest;
      } else {
        ConcatLonger(s[0], rest);
      }
    }
  }

  lemma {:induction false} XorShort(id: Text, n: nat, j: nat)
    requires n <= |id| <= 16 && j < 16
    ensures Xor(id, n, j) == if j < n then id[j] else 0
  {
    if n > 0 {
      XorShort(id, n - 1, j);
      assert (n - 1) % 16 == n - 1;
      ZeroIsNeutral(id[n - 1]);
    }
  }

  lemma ZeroIsNeutral(b: Byte)
    ensures 0 ^ b == b == b ^ 0
  {
  }

  /** Up to sixteen bytes fold to themselves, padded with zeros. */
  lemma FoldShort(id: Text, j: nat)
    requires |id| <= 16 && j < 16
    ensures Folded(id)[j] == if j < |id| then id[j] else 0
  {
    XorShort(id, |id|, j);
  }

  lemma {:induction false} XorPrefix(a: Text, b: Text, n: nat, j: nat)
    requires n <= |a|
    ensures Xor(a + b, n, j) == Xor(a, n, j)
  {
    if n > 0 {
      XorPrefix(a, b, n - 1, j);
    }
  }

  /** One more byte changes one place of the fold, sixteen places in turn. */
  lemma FoldAppend(id: Text, b: Byte, j: nat)
    requires j < 16
    ensures Folded([])[j] == 0
    ensures Folded(id + [b])[j] == if |id| % 16 == j then Folded(id)[j] ^ b else Folded(id)[j]
  {
    XorPrefix(id, [b], |id|, j);
    assert (id + [b])[|id|] == b;
  }

  /** An id that is not 32 hex digits, not all zero, becomes its fold in hex, or 1 if the fold is zero. */
  lemma {:induction false} FoldedIdReadsBack(id: Text, k: nat)
    requires k < 16 && !(|StripDashes(id)| == 32 && IsHex(StripDashes(id)) && !AllZeros(StripDashes(id)))
    ensures |Normalised(id)| == 32
    ensures PairAt(Normalised(id), k) ==
            if AllZeroBytes(Folded(id)) then (if k == 15 then 1 else 0) else Folded(id)[k]
  {
    NotUsable(id);
    EncodeReadsBack(Folded(id), k);
    EncodeReadsBack(Folded(id)[15 := 1], k);
  }

  lemma {:induction false} NotUsable(id: Text)
    requires !(|StripDashes(id)| == 32 && IsHex(StripDashes(id)) && !AllZeros(StripDashes(id)))
    ensures !UsableAsIs(ToLower(StripDashes(id)))
  {
    var s := StripDashes(id);
    if UsableAsIs(ToLower(s)) {
      forall i | 0 <= i < |s| ensures Hex(s[i]) {
        HexIfLowered(s[i]);
        assert ToLower(s)[i] == LowerByte(s[i]);
      }
      LowerHexText(s);
    }
  }

  lemma HexIfLowered(c: Byte)
    ensures Hex(LowerByte(c)) ==> Hex(c)
  {
  }

  /** Any request id becomes a valid trace id. */
  lemma NormalisedIsValid(id: Text)
    ensures var r := Normalised(id); |r| == 32 && AllLowerHex(r) && !AllZeros(r)
  {
    var stripped := ToLower(StripDashes(id));
    if UsableAsIs(stripped) {
      forall i | 0 <= i < |stripped| ensures LowerHex(stripped[i]) {
        assert stripped[i] == LowerByte(StripDashes(id)[i]) && Hex(stripped[i]);
      }
    } else {
      EncodeIsHex(Folded(id));
      EncodeIsHex(Folded(id)[15 := 1]);
      assert Folded(id)[15 := 1][15] == 1;
    }
  }

  /** A 32-digit hex id, with or without dashes and in either case, is kept digit for digit. */
  lemma {:induction false} HexIdKept(id: Text)
    requires |StripDashes(id)| == 32 && IsHex(StripDashes(id)) && !AllZeros(StripDashes(id))
    ensures Normalised(id) == ToLower(StripDashes(id))
  {
    LowerHexText(StripDashes(id));
    LowerHexIsHex(ToLower(StripDashes(id)));
  }

  function FromRequestID(id: Text, span: Text): Trace {
    Trace(Normalised(id), Encode(span), true)
  }

  /** For any request id, the header of the new trace is read back unchanged exactly if the eight
      random span bytes are not all zero. */
  lemma FromRequestIDRoundTrips(id: Text, span: Text)
    requires |span| == 8
    ensures Parse(Print(FromRequestID(id, span))) == Some(FromRequestID(id, span)) <==> !AllZeroBytes(span)
    ensures var t := FromRequestID(id, span);
            t.sampled && |t.spanId| == 16 && forall k :: 0 <= k < 8 ==> PairAt(t.spanId, k) == span[k]
  {
    var t := FromRequestID(id, span);
    forall k | 0 <= k < 8 ensures PairAt(t.spanId, k) == span[k] {
      EncodeReadsBack(span, k);
    }
    NormalisedIsValid(id);
    EncodeIsHex(span);
    if AllZeroBytes(span) {
      if Parse(Print(t)) == Some(t) {
        ParsedIsWellFormed(Print(t));
      }
    } else {
      ParsePrint(t);
    }
  }
}
