/** Canonical CBOR (RFC 8949, sections 3 and 4.2.1) for the values that reach the wire. */
module Cbor {
  import opened Prelude
  import opened Floats

  datatype Value =
    | VInt(n: int)
    | VBytes(bytes: Bytes)
    | VText(text: Text)
    | VArray(items: seq<Value>)
    | VBool(flag: bool)
    | VNull
    | VFloat(bits: Bytes)  // a float, as the 8 big-endian bytes of its 64-bit form

  const TWO64 := 0x1_0000_0000_0000_0000

  /** What an item can carry: 64-bit integers and lengths, and a finite float. */
  ghost predicate Encodable(v: Value) {
    match v
    case VInt(n) => -TWO64 <= n < TWO64
    case VBytes(b) => |b| < TWO64
    case VText(t) => |t| < TWO64
    case VArray(items) => |items| < TWO64 && forall x | x in items :: Encodable(x)
    case VFloat(bits) => |bits| == 8 && Finite(DOUBLE, FieldsOf(bits))
    case _ => true
  }

  // ---------- big-endian integers ----------

  function Power256(k: nat): nat {
    if k == 0 then 1 else 0x100 * Power256(k - 1)
  }

  function BigEndian(n: nat, k: nat): (b: Bytes)
    ensures |b| == k
  {
    if k == 0 then [] else BigEndian(n / 0x100, k - 1) + [n % 0x100]
  }

  function FromBigEndian(b: Bytes): nat {
    if b == [] then 0 else 0x100 * FromBigEndian(b[..|b| - 1]) + b[|b| - 1]
  }

  lemma {:induction false} BigEndianRoundTrip(n: nat, k: nat)
    requires n < Power256(k)
    ensures FromBigEndian(BigEndian(n, k)) == n
  {
    if k > 0 {
      BigEndianRoundTrip(n / 0x100, k - 1);
      var b := BigEndian(n, k);
      assert b[..|b| - 1] == BigEndian(n / 0x100, k - 1);
    }
  }

  lemma {:induction false} FromBigEndianRoundTrip(b: Bytes)
    ensures FromBigEndian(b) < Power256(|b|)
    ensures BigEndian(FromBigEndian(b), |b|) == b
  {
    if b != [] {
      FromBigEndianRoundTrip(b[..|b| - 1]);
      assert b == b[..|b| - 1] + [b[|b| - 1]];
    }
  }

  lemma Powers()
    ensures Power256(1) == 0x100 && Power256(2) == 0x1_0000
    ensures Power256(4) == 0x1_0000_0000 && Power256(8) == TWO64
  {
    assert Power256(3) == 0x100_0000 && Power256(5) == 0x100_0000_0000;
    assert Power256(6) == 0x1_0000_0000_0000 && Power256(7) == 0x100_0000_0000_0000;
  }

  // ---------- floats ----------

  function FieldsOf(bits: Bytes): Fields {
    Unpack(DOUBLE, FromBigEndian(bits))
  }

  /** The exact narrower form of a 64-bit float, if there is one. */
  function Narrowed(fmt: Format, bits: Bytes): Option<Fields>
    requires fmt == HALF || fmt == SINGLE
  {
    Narrow(fmt, DOUBLE, FieldsOf(bits))
  }

  /** The 64-bit form of a narrower float. */
  function Widened(fmt: Format, word: Bytes): Bytes
    requires fmt == HALF || fmt == SINGLE
  {
    BigEndian(Pack(DOUBLE, Widen(fmt, DOUBLE, Unpack(fmt, FromBigEndian(word)))), 8)
  }

  /** A float in the narrowest of the three widths that holds it exactly. */
  function FloatItem(bits: Bytes): (b: Bytes)
    ensures |b| > 0
  {
    var half, single := Narrowed(HALF, bits), Narrowed(SINGLE, bits);
    if half.Some? then [0xf9] + BigEndian(Pack(HALF, half.value), 2)
    else if single.Some? then [0xfa] + BigEndian(Pack(SINGLE, single.value), 4)
    else [0xfb] + bits
  }

  function ReadFloat(word: Bytes): Bytes {
    if |word| == 2 then Widened(HALF, word) else if |word| == 4 then Widened(SINGLE, word) else word
  }

  /** A finite float that no narrower width would hold. */
  predicate Shortest(width: nat, bits: Bytes) {
    && Finite(DOUBLE, FieldsOf(bits))
    && (width > 2 ==> Narrowed(HALF, bits).None?)
    && (width > 4 ==> Narrowed(SINGLE, bits).None?)
  }

  lemma FormatSizes()
    ensures 2 * HALF.exponents * Pow2(HALF.fractionBits) == Power256(2)
    ensures 2 * SINGLE.exponents * Pow2(SINGLE.fractionBits) == Power256(4)
    ensures 2 * DOUBLE.exponents * Pow2(DOUBLE.fractionBits) == Power256(8)
  {
    Powers();
    assert Pow2(10) == 0x400;
    Pow2Adds(10, 13);
    assert Pow2(13) == 0x2000;
    Pow2Adds(26, 26);
    assert Pow2(26) == 0x400_0000;
  }

  /** A word and its fields determine each other. */
  lemma WordOfFields(fmt: Format, f: Fields, width: nat)
    requires fmt.exponents > 0 && Fits(fmt, f) && 2 * fmt.exponents * Pow2(fmt.fractionBits) == Power256(width)
    ensures Unpack(fmt, FromBigEndian(BigEndian(Pack(fmt, f), width))) == f
  {
    UnpackOfPack(fmt, f);
    BigEndianRoundTrip(Pack(fmt, f), width);
  }

  lemma FieldsOfWord(fmt: Format, word: Bytes)
    requires fmt.exponents > 0 && 2 * fmt.exponents * Pow2(fmt.fractionBits) == Power256(|word|)
    ensures var f := Unpack(fmt, FromBigEndian(word)); Fits(fmt, f) && BigEndian(Pack(fmt, f), |word|) == word
  {
    FromBigEndianRoundTrip(word);
    PackOfUnpack(fmt, FromBigEndian(word));
  }

  /** A float that narrows is read back from its narrow word. */
  lemma WidenedOfNarrowed(fmt: Format, bits: Bytes, width: nat)
    requires (fmt == HALF && width == 2) || (fmt == SINGLE && width == 4)
    requires |bits| == 8 && Narrowed(fmt, bits).Some?
    ensures Widened(fmt, BigEndian(Pack(fmt, Narrowed(fmt, bits).value), width)) == bits
  {
    FormatSizes();
    FieldsOfWord(DOUBLE, bits);
    WidenOfNarrow(fmt, DOUBLE, FieldsOf(bits));
    WordOfFields(fmt, Narrowed(fmt, bits).value, width);
  }

  /** A narrow word is the narrow form of the float it reads as, if that is finite. */
  lemma NarrowedOfWidened(fmt: Format, word: Bytes)
    requires (fmt == HALF && |word| == 2) || (fmt == SINGLE && |word| == 4)
    requires Finite(DOUBLE, FieldsOf(Widened(fmt, word)))
    ensures var f := Unpack(fmt, FromBigEndian(word));
            Narrowed(fmt, Widened(fmt, word)) == Some(f) && BigEndian(Pack(fmt, f), |word|) == word
  {
    FormatSizes();
    FieldsOfWord(fmt, word);
    var f := Unpack(fmt, FromBigEndian(word));
    WidenFits(fmt, f);
    WordOfFields(DOUBLE, Widen(fmt, DOUBLE, f), 8);
    NarrowOfWiden(fmt, DOUBLE, f);
  }

  lemma WidenFits(fmt: Format, f: Fields)
    requires (fmt == HALF || fmt == SINGLE) && Fits(fmt, f)
    ensures Fits(DOUBLE, Widen(fmt, DOUBLE, f))
    ensures Finite(DOUBLE, Widen(fmt, DOUBLE, f)) ==> Finite(fmt, f)
  {
    if Finite(fmt, f) {
      NarrowOfWiden(fmt, DOUBLE, f);
    } else {
      Scaled(f.fraction, fmt.fractionBits, DOUBLE.fractionBits - fmt.fractionBits);
    }
  }

  // ---------- heads ----------

  /** Bytes that follow the initial byte for additional information 24 to 27. */
  function Width(info: nat): nat
    requires 24 <= info <= 27
  {
    if info == 24 then 1 else if info == 25 then 2 else if info == 26 then 4 else 8
  }

  /** The least argument that needs that many following bytes. */
  function Least(info: nat): nat
    requires 24 <= info <= 27
  {
    if info == 24 then 24 else if info == 25 then 0x100 else if info == 26 then 0x1_0000 else 0x1_0000_0000
  }

  /** Additional information of the shortest head for an argument. */
  function Info(n: nat): nat {
    if n < 24 then n
    else if n < 0x100 then 24
    else if n < 0x1_0000 then 25
    else if n < 0x1_0000_0000 then 26
    else 27
  }

  function Head(major: nat, n: nat): (h: Bytes)
    requires major < 8
    ensures |h| > 0
  {
    var info := Info(n);
    [0x20 * major + info] + if info < 24 then [] else BigEndian(n, Width(info))
  }

  datatype HeadParse = NoHead | Parsed(major: nat, n: nat, rest: Bytes)

  /** Reads a head. A strict reader refuses an argument that a shorter head could carry. */
  function ReadHead(b: Bytes, strict: bool): (h: HeadParse)
    ensures h.Parsed? ==> h.major < 8 && |h.rest| < |b|
  {
    if b == [] then NoHead
    else
      var major, info := b[0] / 0x20, b[0] % 0x20;
      if info < 24 then Parsed(major, info, b[1..])
      else if info > 27 || |b| < 1 + Width(info) then NoHead
      else
        var n := FromBigEndian(b[1..1 + Width(info)]);
        if strict && n < Least(info) then NoHead else Parsed(major, n, b[1 + Width(info)..])
  }

  lemma ReadShortHead(major: nat, n: nat, rest: Bytes, strict: bool)
    requires major < 8 && n < 24
    ensures Head(major, n) == [0x20 * major + n]
    ensures ReadHead([0x20 * major + n] + rest, strict) == Parsed(major, n, rest)
  {
    var b := [0x20 * major + n] + rest;
    assert b[0] / 0x20 == major && b[0] % 0x20 == n && b[1..] == rest;
  }

  lemma ReadHeadOfHead(major: nat, n: nat, rest: Bytes, strict: bool)
    requires major < 8 && n < TWO64
    ensures ReadHead(Head(major, n) + rest, strict) == Parsed(major, n, rest)
  {
    if n < 24 {
      ReadShortHead(major, n, rest, strict);
    } else {
      ReadLongHead(major, n, rest, strict);
    }
  }

  lemma InfoFits(n: nat)
    requires 24 <= n < TWO64
    ensures 24 <= Info(n) <= 27 && Least(Info(n)) <= n < Power256(Width(Info(n)))
  {
    Powers();
  }

  lemma ReadLongHead(major: nat, n: nat, rest: Bytes, strict: bool)
    requires major < 8 && 24 <= n < TWO64
    ensures ReadHead(Head(major, n) + rest, strict) == Parsed(major, n, rest)
  {
    InfoFits(n);
    var info := Info(n);
    var digits := BigEndian(n, Width(info));
    BigEndianRoundTrip(n, Width(info));
    assert Head(major, n) == [0x20 * major + info] + digits;
  }

  lemma HeadOfStrictHead(b: Bytes)
    requires ReadHead(b, true).Parsed?
    ensures var h := ReadHead(b, true); h.n < TWO64 && b == Head(h.major, h.n) + h.rest
  {
    var h := ReadHead(b, true);
    var info := b[0] % 0x20;
    if info >= 24 {
      Powers();
      FromBigEndianRoundTrip(b[1..1 + Width(info)]);
      assert b == [b[0]] + b[1..1 + Width(info)] + b[1 + Width(info)..];
      assert Info(h.n) == info;
    } else {
      assert b == [b[0]] + b[1..];
    }
  }

  // ---------- items ----------

  function Encode(v: Value): (b: Bytes)
    ensures |b| > 0
  {
    match v
    case VInt(n) => if n >= 0 then Head(0, n) else Head(1, -1 - n)
    case VBytes(b) => Head(2, |b|) + b
    case VText(t) => Head(3, |t|) + t
    case VArray(items) => Head(4, |items|) + EncodeAll(items)
    case VBool(flag) => if flag then [0xf5] else [0xf4]
    case VNull => [0xf6]
    case VFloat(bits) => FloatItem(bits)
  }

  function EncodeAll(vs: seq<Value>): Bytes {
    if vs == [] then [] else Encode(vs[0]) + EncodeAll(vs[1..])
  }

  datatype ItemParse = NoItem | Item(v: Value, rest: Bytes)
  datatype ItemsParse = NoItems | Items(vs: seq<Value>, rest: Bytes)

  /** One data item off the front of a byte string: a strict reader accepts canonical heads only. */
  function Decode(b: Bytes, strict: bool): (r: ItemParse)
    ensures r.Item? ==> |r.rest| < |b|
    decreases |b|, 0
  {
    if b != [] && b[0] >= 0xe0 then DecodeSimple(b, strict)
    else
      var h := ReadHead(b, strict);
      if h.NoHead? then NoItem else DecodeContent(h.major, h.n, h.rest, strict)
  }

  /** What a head of major type 0 to 4 announces. */
  function DecodeContent(major: nat, n: nat, b: Bytes, strict: bool): (r: ItemParse)
    ensures r.Item? ==> |r.rest| <= |b|
    decreases |b|, 2
  {
    if major == 0 then Item(VInt(n), b)
    else if major == 1 then Item(VInt(-1 - n), b)
    else if major == 2 then if n <= |b| then Item(VBytes(b[..n]), b[n..]) else NoItem
    else if major == 3 then if n <= |b| then Item(VText(b[..n]), b[n..]) else NoItem
    else if major == 4 then
      var items := DecodeAll(n, b, strict);
      if items.Items? then Item(VArray(items.vs), items.rest) else NoItem
    else NoItem
  }

  /** Major type 7: booleans, null and floats. A strict reader accepts a finite float in its shortest width. */
  function DecodeSimple(b: Bytes, strict: bool): (r: ItemParse)
    requires b != []
    ensures r.Item? ==> |r.rest| < |b|
  {
    var width := if b[0] == 0xf9 then 2 else if b[0] == 0xfa then 4 else 8;
    if b[0] == 0xf4 || b[0] == 0xf5 then Item(VBool(b[0] == 0xf5), b[1..])
    else if b[0] == 0xf6 then Item(VNull, b[1..])
    else if 0xf9 <= b[0] <= 0xfb && |b| >= 1 + width then DecodeWord(b[1..1 + width], b[1 + width..], strict)
    else NoItem
  }

  function DecodeWord(word: Bytes, rest: Bytes, strict: bool): ItemParse {
    var bits := ReadFloat(word);
    if strict && !Shortest(|word|, bits) then NoItem else Item(VFloat(bits), rest)
  }

  function DecodeAll(n: nat, b: Bytes, strict: bool): (r: ItemsParse)
    ensures r.Items? ==> |r.rest| <= |b| && |r.vs| == n
    decreases |b|, 1
  {
    if n == 0 then Items([], b)
    else
      var first := Decode(b, strict);
      if first.NoItem? then NoItems
      else
        var others := DecodeAll(n - 1, first.rest, strict);
        if others.NoItems? then NoItems else Items([first.v] + others.vs, others.rest)
  }

  lemma DecodeHeaded(major: nat, n: nat, rest: Bytes, strict: bool)
    requires major < 5 && n < TWO64
    ensures Decode(Head(major, n) + rest, strict) == DecodeContent(major, n, rest, strict)
  {
    ReadHeadOfHead(major, n, rest, strict);
  }

  /** Decoding an encoding followed by anything returns the value and what followed. */
  lemma {:induction false} DecodeOfEncode(v: Value, rest: Bytes, strict: bool)
    requires Encodable(v)
    ensures Decode(Encode(v) + rest, strict) == Item(v, rest)
    decreases v, 0
  {
    if v.VArray? {
      DecodeHeaded(4, |v.items|, EncodeAll(v.items) + rest, strict);
      Associative(Head(4, |v.items|), EncodeAll(v.items), rest);
      DecodeAllOfEncodeAll(v.items, rest, strict);
    } else if v.VInt? || v.VBytes? || v.VText? {
      DecodeOfEncodeString(v, rest, strict);
    } else {
      DecodeOfEncodeSimple(v, rest, strict);
    }
  }

  lemma Associative(a: Bytes, b: Bytes, c: Bytes)
    ensures a + b + c == a + (b + c)
  {
  }

  lemma DecodeOfEncodeString(v: Value, rest: Bytes, strict: bool)
    requires Encodable(v) && (v.VInt? || v.VBytes? || v.VText?)
    ensures Decode(Encode(v) + rest, strict) == Item(v, rest)
  {
    match v
    case VInt(n) => DecodeHeaded(if n >= 0 then 0 else 1, if n >= 0 then n else -1 - n, rest, strict);
    case VBytes(x) =>
      DecodeHeaded(2, |x|, x + rest, strict);
      Associative(Head(2, |x|), x, rest);
    case VText(x) =>
      DecodeHeaded(3, |x|, x + rest, strict);
      Associative(Head(3, |x|), x, rest);
  }

  lemma DecodeOfEncodeSimple(v: Value, rest: Bytes, strict: bool)
    requires Encodable(v) && (v.VBool? || v.VNull? || v.VFloat?)
    ensures Decode(Encode(v) + rest, strict) == Item(v, rest)
  {
    if v.VFloat? {
      DecodeOfFloatItem(v.bits, rest, strict);
    } else {
      assert (Encode(v) + rest)[1..] == rest;
    }
  }

  lemma DecodeOfFloatItem(bits: Bytes, rest: Bytes, strict: bool)
    requires |bits| == 8 && Finite(DOUBLE, FieldsOf(bits))
    ensures Decode(FloatItem(bits) + rest, strict) == Item(VFloat(bits), rest)
  {
    var half, single := Narrowed(HALF, bits), Narrowed(SINGLE, bits);
    if half.Some? {
      WidenedOfNarrowed(HALF, bits, 2);
      DecodeOfWord(0xf9, BigEndian(Pack(HALF, half.value), 2), bits, rest, strict);
    } else if single.Some? {
      WidenedOfNarrowed(SINGLE, bits, 4);
      DecodeOfWord(0xfa, BigEndian(Pack(SINGLE, single.value), 4), bits, rest, strict);
    } else {
      DecodeOfWord(0xfb, bits, bits, rest, strict);
    }
  }

  lemma DecodeOfWord(initial: byte, word: Bytes, bits: Bytes, rest: Bytes, strict: bool)
    requires (initial == 0xf9 && |word| == 2) || (initial == 0xfa && |word| == 4) || (initial == 0xfb && |word| == 8)
    requires ReadFloat(word) == bits && (strict ==> Shortest(|word|, bits))
    ensures Decode([initial] + word + rest, strict) == Item(VFloat(bits), rest)
  {
    DecodeAtWord([initial] + word + rest, word, rest, strict);
  }

  lemma DecodeAtWord(b: Bytes, word: Bytes, rest: Bytes, strict: bool)
    requires b != [] && |word| == (if b[0] == 0xf9 then 2 else if b[0] == 0xfa then 4 else 8)
    requires 0xf9 <= b[0] <= 0xfb && |b| >= 1 + |word| && b[1..1 + |word|] == word && b[1 + |word|..] == rest
    ensures Decode(b, strict) == DecodeWord(word, rest, strict)
  {
  }

  lemma {:induction false} DecodeAllOfEncodeAll(vs: seq<Value>, rest: Bytes, strict: bool)
    requires forall v | v in vs :: Encodable(v)
    ensures DecodeAll(|vs|, EncodeAll(vs) + rest, strict) == Items(vs, rest)
    decreases vs, 1
  {
    if vs == [] {
      assert EncodeAll(vs) + rest == rest;
    } else {
      var others := EncodeAll(vs[1..]);
      Associative(Encode(vs[0]), others, rest);
      DecodeOfEncode(vs[0], others + rest, strict);
      DecodeAllOfEncodeAll(vs[1..], rest, strict);
      DecodeAllStep(|vs|, Encode(vs[0]) + (others + rest), strict, vs[0], others + rest);
      assert vs == [vs[0]] + vs[1..];
    }
  }

  lemma DecodeAllStep(n: nat, b: Bytes, strict: bool, v: Value, rest: Bytes)
    requires n > 0 && Decode(b, strict) == Item(v, rest)
    ensures var others := DecodeAll(n - 1, rest, strict);
            DecodeAll(n, b, strict) == if others.NoItems? then NoItems else Items([v] + others.vs, others.rest)
  {
  }

  /** Whatever the canonical reader accepts re-encodes to the very bytes it read. */
  lemma {:induction false} EncodeOfStrictDecode(b: Bytes)
    requires Decode(b, true).Item?
    ensures var r := Decode(b, true); Encodable(r.v) && b == Encode(r.v) + r.rest
    decreases |b|, 0
  {
    if b[0] >= 0xe0 {
      EncodeOfDecodeSimple(b);
    } else {
      HeadOfStrictHead(b);
      var h := ReadHead(b, true);
      EncodeOfContent(h.major, h.n, h.rest);
    }
  }

  lemma EncodeOfDecodeSimple(b: Bytes)
    requires b != [] && DecodeSimple(b, true).Item?
    ensures var r := DecodeSimple(b, true); Encodable(r.v) && b == Encode(r.v) + r.rest
  {
    var r := DecodeSimple(b, true);
    if b[0] >= 0xf9 {
      var width := if b[0] == 0xf9 then 2 else if b[0] == 0xfa then 4 else 8;
      FloatItemOfWord(b[0], b[1..1 + width]);
      Spliced(b, width);
    } else {
      assert Encode(r.v) == [b[0]] && r.rest == b[1..];
    }
  }

  lemma Spliced(b: Bytes, width: nat)
    requires |b| >= 1 + width
    ensures b == [b[0]] + b[1..1 + width] + b[1 + width..]
  {
  }

  /** A float in its shortest width is written just as it was read. */
  lemma FloatItemOfWord(initial: byte, word: Bytes)
    requires (initial == 0xf9 && |word| == 2) || (initial == 0xfa && |word| == 4) || (initial == 0xfb && |word| == 8)
    requires Shortest(|word|, ReadFloat(word))
    ensures |ReadFloat(word)| == 8 && FloatItem(ReadFloat(word)) == [initial] + word
  {
    if |word| == 2 {
      NarrowedOfWidened(HALF, word);
    } else if |word| == 4 {
      NarrowedOfWidened(SINGLE, word);
    }
  }

  lemma {:induction false} EncodeOfContent(major: nat, n: nat, b: Bytes)
    requires major < 8 && n < TWO64 && DecodeContent(major, n, b, true).Item?
    ensures var r := DecodeContent(major, n, b, true); Encodable(r.v) && Head(major, n) + b == Encode(r.v) + r.rest
    decreases |b|, 2
  {
    if major == 2 || major == 3 {
      SplitBehindHead(Head(major, n), b, n);
    } else if major == 4 {
      EncodeAllOfStrictDecodeAll(n, b);
    }
  }

  lemma SplitBehindHead(head: Bytes, b: Bytes, n: nat)
    requires n <= |b|
    ensures head + b == head + b[..n] + b[n..]
  {
  }

  lemma {:induction false} EncodeAllOfStrictDecodeAll(n: nat, b: Bytes)
    requires DecodeAll(n, b, true).Items?
    ensures var r := DecodeAll(n, b, true); (forall v | v in r.vs :: Encodable(v)) && b == EncodeAll(r.vs) + r.rest
    decreases |b|, 1
  {
    if n > 0 {
      EncodeOfStrictDecode(b);
      var first := Decode(b, true);
      EncodeAllOfStrictDecodeAll(n - 1, first.rest);
      var others := DecodeAll(n - 1, first.rest, true);
      DecodeAllStep(n, b, true, first.v, first.rest);
      EncodeAllGlue(b, first.v, first.rest, others.vs, others.rest);
    }
  }

  lemma EncodeAllGlue(b: Bytes, v: Value, middle: Bytes, vs: seq<Value>, rest: Bytes)
    requires b == Encode(v) + middle && middle == EncodeAll(vs) + rest
    requires Encodable(v) && forall x | x in vs :: Encodable(x)
    ensures b == EncodeAll([v] + vs) + rest
    ensures forall x | x in [v] + vs :: Encodable(x)
  {
    assert ([v] + vs)[1..] == vs;
    Associative(Encode(v), EncodeAll(vs), rest);
  }

  /** No encoding is a proper prefix of another, and distinct values encode differently. */
  lemma EncodePrefixFree(v: Value, w: Value, s: Bytes, t: Bytes)
    requires Encodable(v) && Encodable(w)
    requires Encode(v) + s == Encode(w) + t
    ensures v == w && s == t
  {
    DecodeOfEncode(v, s, true);
    DecodeOfEncode(w, t, true);
  }

  lemma EncodeInjective(v: Value, w: Value)
    requires Encodable(v) && Encodable(w)
    requires Encode(v) == Encode(w)
    ensures v == w
  {
    EncodePrefixFree(v, w, [], []);
  }

  /** A lenient read is of canonical bytes exactly when the strict reader accepts them too. */
  lemma StrictIffReencodes(b: Bytes)
    requires Decode(b, false).Item?
    ensures var r := Decode(b, false);
            Decode(b, true).Item? <==> Encodable(r.v) && b == Encode(r.v) + r.rest
    ensures Decode(b, true).Item? ==> Decode(b, true) == Decode(b, false)
  {
    var r := Decode(b, false);
    if Decode(b, true).Item? {
      EncodeOfStrictDecode(b);
      DecodeOfEncode(Decode(b, true).v, Decode(b, true).rest, false);
    } else if Encodable(r.v) && b == Encode(r.v) + r.rest {
      DecodeOfEncode(r.v, r.rest, true);
    }
  }

  // ---------- trailing bytes ----------

  lemma ReadHeadExtends(b: Bytes, more: Bytes, strict: bool)
    requires ReadHead(b, strict).Parsed?
    ensures var h := ReadHead(b, strict); ReadHead(b + more, strict) == Parsed(h.major, h.n, h.rest + more)
  {
    var info := b[0] % 0x20;
    var width := if info < 24 then 0 else Width(info);
    TakeExtends(b, more, 1, 1 + width);
  }

  lemma TakeExtends(b: Bytes, more: Bytes, i: nat, j: nat)
    requires i <= j <= |b|
    ensures (b + more)[i..j] == b[i..j] && (b + more)[j..] == b[j..] + more && (b + more)[..j] == b[..j]
  {
  }

  /** What is read off the front of a byte string does not depend on what follows it. */
  lemma {:induction false} DecodeExtends(b: Bytes, more: Bytes, strict: bool)
    requires Decode(b, strict).Item?
    ensures var r := Decode(b, strict); Decode(b + more, strict) == Item(r.v, r.rest + more)
    decreases |b|, 0
  {
    if b[0] >= 0xe0 {
      DecodeSimpleExtends(b, more, strict);
    } else {
      ReadHeadExtends(b, more, strict);
      var h := ReadHead(b, strict);
      DecodeContentExtends(h.major, h.n, h.rest, more, strict);
    }
  }

  lemma DecodeSimpleExtends(b: Bytes, more: Bytes, strict: bool)
    requires b != [] && DecodeSimple(b, strict).Item?
    ensures var r := DecodeSimple(b, strict); DecodeSimple(b + more, strict) == Item(r.v, r.rest + more)
  {
    var width := if b[0] < 0xf9 then 0 else if b[0] == 0xf9 then 2 else if b[0] == 0xfa then 4 else 8;
    TakeExtends(b, more, 1, 1 + width);
  }

  lemma {:induction false} DecodeContentExtends(major: nat, n: nat, b: Bytes, more: Bytes, strict: bool)
    requires DecodeContent(major, n, b, strict).Item?
    ensures var r := DecodeContent(major, n, b, strict);
            DecodeContent(major, n, b + more, strict) == Item(r.v, r.rest + more)
    decreases |b|, 2
  {
    if major == 2 || major == 3 {
      TakeExtends(b, more, 0, n);
    } else if major == 4 {
      DecodeAllExtends(n, b, more, strict);
    }
  }

  lemma {:induction false} DecodeAllExtends(n: nat, b: Bytes, more: Bytes, strict: bool)
    requires DecodeAll(n, b, strict).Items?
    ensures var r := DecodeAll(n, b, strict); DecodeAll(n, b + more, strict) == Items(r.vs, r.rest + more)
    decreases |b|, 1
  {
    if n > 0 {
      var first := Decode(b, strict);
      DecodeExtends(b, more, strict);
      DecodeAllExtends(n - 1, first.rest, more, strict);
      DecodeAllStep(n, b, strict, first.v, first.rest);
      DecodeAllStep(n, b + more, strict, first.v, first.rest + more);
    }
  }

  // ---------- the module's two functions ----------

  function Dumps(v: Value): Bytes {
    Encode(v)
  }

  /** The first item, in any well-formed head width; trailing bytes are not looked at. */
  function Loads(b: Bytes): Option<Value> {
    var r := Decode(b, false);
    if r.Item? then Some(r.v) else None
  }

  lemma LoadsOfDumps(v: Value)
    requires Encodable(v)
    ensures Loads(Dumps(v)) == Some(v)
  {
    DecodeOfEncode(v, [], false);
    assert Encode(v) + [] == Encode(v);
  }

  /** `loads` does not look at what follows the first item. */
  lemma LoadsExtends(b: Bytes, more: Bytes)
    requires Loads(b).Some?
    ensures Loads(b + more) == Loads(b)
  {
    DecodeExtends(b, more, false);
  }

  /** Examples of appendix A of RFC 8949. */
  lemma CborExamples()
    ensures Encode(VInt(0)) == [0x00] && Encode(VInt(10)) == [0x0a] && Encode(VInt(23)) == [0x17]
    ensures Encode(VInt(24)) == [0x18, 0x18] && Encode(VInt(100)) == [0x18, 0x64]
    ensures Encode(VInt(1000)) == [0x19, 0x03, 0xe8] && Encode(VInt(1000000)) == [0x1a, 0x00, 0x0f, 0x42, 0x40]
    ensures Encode(VInt(-1)) == [0x20] && Encode(VInt(-10)) == [0x29] && Encode(VInt(-100)) == [0x38, 0x63]
    ensures Encode(VInt(-1000)) == [0x39, 0x03, 0xe7]
    ensures Encode(VBool(false)) == [0xf4] && Encode(VBool(true)) == [0xf5] && Encode(VNull) == [0xf6]
    ensures Encode(VBytes([1, 2, 3, 4])) == [0x44, 1, 2, 3, 4] && Encode(VText([0x61])) == [0x61, 0x61]
    ensures Encode(VArray([])) == [0x80]
  {
    BigEndianExamples();
  }

  lemma BigEndianExamples()
    ensures BigEndian(24, 1) == [0x18] && BigEndian(100, 1) == [0x64] && BigEndian(99, 1) == [0x63]
    ensures BigEndian(1000, 2) == [0x03, 0xe8] && BigEndian(999, 2) == [0x03, 0xe7]
    ensures BigEndian(1000000, 4) == [0x00, 0x0f, 0x42, 0x40]
  {
    assert BigEndian(3, 1) == [3];
    assert BigEndian(0, 1) == [0] && BigEndian(0xf, 2) == [0, 0xf] && BigEndian(0xf42, 3) == [0, 0xf, 0x42];
  }

  lemma ArrayExample()
    ensures Encode(VArray([VInt(1), VInt(2), VInt(3)])) == [0x83, 1, 2, 3]
  {
    var all := [VInt(1), VInt(2), VInt(3)];
    assert all[1..] == [VInt(2), VInt(3)] && all[1..][1..] == [VInt(3)] && all[1..][1..][1..] == [];
    assert EncodeAll([VInt(3)]) == [3];
    assert EncodeAll([VInt(2), VInt(3)]) == [2] + [3];
  }

  /** The lenient reader takes a number in any width; a canonical one takes it in the least alone. */
  lemma WideHeads(n: nat, info: nat, rest: Bytes)
    requires 24 <= info <= 27 && n < Power256(Width(info))
    ensures Decode([info] + BigEndian(n, Width(info)) + rest, false) == Item(VInt(n), rest)
    ensures Decode([info] + BigEndian(n, Width(info)) + rest, true).Item? <==> n >= Least(info)
  {
    var b := [info] + BigEndian(n, Width(info)) + rest;
    BigEndianRoundTrip(n, Width(info));
    assert b[1..1 + Width(info)] == BigEndian(n, Width(info)) && b[1 + Width(info)..] == rest;
  }
}
