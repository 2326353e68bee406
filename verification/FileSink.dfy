/** The append-only receipt log, at byte level (pilotfish/adapters/file_sink.py). */
module FileSink {
  import opened Prelude

  // ---------- base64 (RFC 4648, section 4) ----------

  const PAD: byte := 61

  function Digit(n: nat): byte
    requires n < 64
  {
    if n < 26 then 65 + n else if n < 52 then 71 + n else if n < 62 then n - 4 else if n == 62 then 43 else 47
  }

  /** The value of a digit, or 64 for any other byte. */
  function DigitValue(c: byte): (n: nat)
    ensures n <= 64
    ensures n < 64 ==> Digit(n) == c
  {
    if 65 <= c < 91 then c - 65
    else if 97 <= c < 123 then c - 71
    else if 48 <= c < 58 then c + 4
    else if c == 43 then 62
    else if c == 47 then 63
    else 64
  }

  function Quad(a: byte, b: byte, c: byte): Bytes {
    [Digit(a / 4), Digit(a % 4 * 16 + b / 16), Digit(b % 16 * 4 + c / 64), Digit(c % 64)]
  }

  function Base64(b: Bytes): (t: Bytes)
    ensures |t| == (|b| + 2) / 3 * 4
  {
    if b == [] then []
    else if |b| == 1 then [Digit(b[0] / 4), Digit(b[0] % 4 * 16), PAD, PAD]
    else if |b| == 2 then [Digit(b[0] / 4), Digit(b[0] % 4 * 16 + b[1] / 16), Digit(b[1] % 16 * 4), PAD]
    else Quad(b[0], b[1], b[2]) + Base64(b[3..])
  }

  /** How far the runtime's decoder has come: the bytes so far, the position in the group of four, the
      bits left over, the padding since the last digit, and whether padding has ended the text. */
  datatype Reading = Reading(out: Bytes, quad: nat, left: nat, pads: nat, done: bool)

  function Clean(out: Bytes): Reading {
    Reading(out, 0, 0, 0, false)
  }

  function Octet(n: nat): byte {
    if n < 0x100 then n else n % 0x100
  }

  function ReadDigit(s: Reading, v: nat): Reading
    requires v < 64
  {
    if s.quad == 0 then Reading(s.out, 1, v, 0, false)
    else if s.quad == 1 then Reading(s.out + [Octet(s.left * 4 + v / 16)], 2, v % 16, 0, false)
    else if s.quad == 2 then Reading(s.out + [Octet(s.left * 16 + v / 4)], 3, v % 4, 0, false)
    else Clean(s.out + [Octet(s.left * 64 + v)])
  }

  /** Padding counts from the third place on; any other byte that is no digit is skipped. */
  function ReadChar(s: Reading, c: byte): Reading {
    if s.done then s
    else if c == PAD then
      if s.quad < 2 then s else s.(pads := s.pads + 1, done := s.quad + s.pads + 1 >= 4)
    else if DigitValue(c) == 64 then s
    else ReadDigit(s, DigitValue(c))
  }

  function ReadChars(s: Reading, t: Bytes): Reading {
    if t == [] then s else ReadChar(ReadChars(s, t[..|t| - 1]), t[|t| - 1])
  }

  /** The runtime's lenient decoder: it stops at complete padding, and raises on an incomplete group. */
  function Unbase64(t: Bytes): Option<Bytes> {
    var s := ReadChars(Clean([]), t);
    if s.done || s.quad == 0 then Some(s.out) else None
  }

  lemma {:induction false} ReadConcat(s: Reading, a: Bytes, b: Bytes)
    ensures ReadChars(s, a + b) == ReadChars(ReadChars(s, a), b)
  {
    if b == [] {
      assert a + b == a;
    } else {
      assert (a + b)[..|a + b| - 1] == a + b[..|b| - 1];
      ReadConcat(s, a, b[..|b| - 1]);
    }
  }

  lemma ReadOne(s: Reading, c: byte)
    ensures ReadChars(s, [c]) == ReadChar(s, c)
  {
    assert [c][..0] == [];
  }

  lemma {:induction false} ReadNothingMore(s: Reading, t: Bytes)
    requires s.done
    ensures ReadChars(s, t) == s
  {
    if t != [] {
      ReadNothingMore(s, t[..|t| - 1]);
    }
  }

  lemma ReadTwo(s: Reading, c: byte, d: byte)
    ensures ReadChars(s, [c, d]) == ReadChar(ReadChar(s, c), d)
  {
    ReadOne(s, c);
    assert [c, d][..1] == [c];
  }

  lemma ReadFour(s: Reading, c: byte, d: byte, e: byte, f: byte)
    ensures ReadChars(s, [c, d, e, f]) == ReadChar(ReadChar(ReadChar(ReadChar(s, c), d), e), f)
  {
    ReadTwo(s, c, d);
    ReadTwo(ReadChar(ReadChar(s, c), d), e, f);
    ReadConcat(s, [c, d], [e, f]);
    assert [c, d] + [e, f] == [c, d, e, f];
  }

  lemma ReadQuad(out: Bytes, a: byte, b: byte, c: byte)
    ensures ReadChars(Clean(out), Quad(a, b, c)) == Clean(out + [a] + [b] + [c])
  {
    ReadQuadDigits(out, a / 4, a % 4 * 16 + b / 16, b % 16 * 4 + c / 64, c % 64, a, b, c);
  }

  lemma ReadQuadDigits(out: Bytes, w: nat, x: nat, y: nat, z: nat, a: byte, b: byte, c: byte)
    requires w < 64 && x < 64 && y < 64 && z < 64
    requires w * 4 + x / 16 == a && x % 16 * 16 + y / 4 == b && y % 4 * 64 + z == c
    ensures ReadChars(Clean(out), [Digit(w), Digit(x), Digit(y), Digit(z)]) == Clean(out + [a] + [b] + [c])
  {
    ReadFour(Clean(out), Digit(w), Digit(x), Digit(y), Digit(z));
    CharsOfDigits(out, w, x, y, z);
  }

  lemma CharsOfDigits(out: Bytes, w: nat, x: nat, y: nat, z: nat)
    requires w < 64 && x < 64 && y < 64 && z < 64
    ensures ReadChar(ReadChar(ReadChar(ReadChar(Clean(out), Digit(w)), Digit(x)), Digit(y)), Digit(z))
            == ReadDigit(ReadDigit(ReadDigit(ReadDigit(Clean(out), w), x), y), z)
  {
    DigitsDecode(w, x, y, z);
  }

  lemma DigitsDecode(w: nat, x: nat, y: nat, z: nat)
    requires w < 64 && x < 64 && y < 64 && z < 64
    ensures DigitValue(Digit(w)) == w && DigitValue(Digit(x)) == x && DigitValue(Digit(y)) == y
            && DigitValue(Digit(z)) == z
    ensures Digit(w) != PAD && Digit(x) != PAD && Digit(y) != PAD && Digit(z) != PAD
  {
  }

  /** The last group carries one byte or two, and the padding ends the text. */
  lemma ReadLastByte(out: Bytes, a: byte)
    ensures var s := ReadChars(Clean(out), [Digit(a / 4), Digit(a % 4 * 16), PAD, PAD]);
            s.done && s.out == out + [a]
  {
    DigitsDecode(a / 4, a % 4 * 16, 0, 0);
    ReadFour(Clean(out), Digit(a / 4), Digit(a % 4 * 16), PAD, PAD);
  }

  lemma ReadLastTwoBytes(out: Bytes, a: byte, b: byte)
    ensures var s := ReadChars(Clean(out), [Digit(a / 4), Digit(a % 4 * 16 + b / 16), Digit(b % 16 * 4), PAD]);
            s.done && s.out == out + [a] + [b]
  {
    var w, x, y := a / 4, a % 4 * 16 + b / 16, b % 16 * 4;
    ReadFour(Clean(out), Digit(w), Digit(x), Digit(y), PAD);
    DigitsDecode(w, x, y, 0);
  }

  /** From a group boundary the encoding reads as its bytes, and padding ends the text. */
  ghost predicate ReadsAs(out: Bytes, b: Bytes) {
    EndsAs(ReadChars(Clean(out), Base64(b)), out + b, |b|)
  }

  ghost predicate EndsAs(s: Reading, out: Bytes, n: nat) {
    s.out == out && if n % 3 == 0 then s == Clean(out) else s.done
  }

  lemma ThreeMore(s: Reading, out: Bytes, n: nat)
    requires n >= 3 && EndsAs(s, out, n - 3)
    ensures EndsAs(s, out, n)
  {
  }

  lemma {:induction false} ReadEncoding(out: Bytes, b: Bytes)
    ensures ReadsAs(out, b)
    decreases |b|
  {
    if b == [] {
      assert out + b == out;
    } else if |b| <= 2 {
      ReadLast(out, b);
    } else {
      ReadEncoding(out + [b[0]] + [b[1]] + [b[2]], b[3..]);
      ReadMore(out, b, out + [b[0]] + [b[1]] + [b[2]]);
    }
  }

  lemma ReadMore(out: Bytes, b: Bytes, next: Bytes)
    requires |b| > 2 && next == out + [b[0]] + [b[1]] + [b[2]] && ReadsAs(next, b[3..])
    ensures ReadsAs(out, b)
  {
    ReadFirstQuad(out, b);
    assert next + b[3..] == out + b;
    ThreeMore(ReadChars(Clean(next), Base64(b[3..])), out + b, |b|);
  }

  lemma ReadLast(out: Bytes, b: Bytes)
    requires 0 < |b| <= 2
    ensures ReadsAs(out, b)
  {
    if |b| == 1 {
      ReadLastByte(out, b[0]);
      assert out + b == out + [b[0]];
    } else {
      ReadLastTwoBytes(out, b[0], b[1]);
      assert out + b == out + [b[0]] + [b[1]];
    }
  }

  lemma ReadFirstQuad(out: Bytes, b: Bytes)
    requires |b| > 2
    ensures ReadChars(Clean(out), Base64(b)) == ReadChars(Clean(out + [b[0]] + [b[1]] + [b[2]]), Base64(b[3..]))
  {
    ReadQuad(out, b[0], b[1], b[2]);
    ReadConcat(Clean(out), Quad(b[0], b[1], b[2]), Base64(b[3..]));
  }

  lemma Unbase64OfBase64(b: Bytes)
    ensures Unbase64(Base64(b)) == Some(b)
  {
    ReadEncoding([], b);
    assert [] + b == b;
  }

  lemma {:induction false} Base64HasNoNewline(b: Bytes)
    ensures NEWLINE !in Base64(b)
  {
    if |b| > 2 {
      Base64HasNoNewline(b[3..]);
    }
  }

  /** The test vectors of section 10 of RFC 4648, `f` to `foobar`, in ASCII codes. */
  lemma Base64Examples()
    ensures Base64([102]) == [90, 103, 61, 61] && Base64([102, 111]) == [90, 109, 56, 61]
    ensures Base64([102, 111, 111]) == [90, 109, 57, 118]
    ensures Base64([102, 111, 111] + [98]) == [90, 109, 57, 118] + [89, 103, 61, 61]
    ensures Base64([102, 111, 111] + [98, 97]) == [90, 109, 57, 118] + [89, 109, 69, 61]
    ensures Base64([102, 111, 111] + [98, 97, 114]) == [90, 109, 57, 118] + [89, 109, 70, 121]
  {
    Base64ShortExamples();
    Base64LongExamples([98]);
    Base64LongExamples([98, 97]);
    Base64LongExamples([98, 97, 114]);
  }

  lemma QuadExamples()
    ensures Quad(102, 111, 111) == [90, 109, 57, 118] && Quad(98, 97, 114) == [89, 109, 70, 121]
    ensures Quad(0xfb, 0xf0, 0xfc) == [43, 47, 68, 56]
  {
  }

  lemma Base64LongExamples(more: Bytes)
    ensures Base64([102, 111, 111] + more) == [90, 109, 57, 118] + Base64(more)
  {
    QuadExamples();
    Base64OfQuad(102, 111, 111, more);
  }

  lemma Base64OfQuad(a: byte, b: byte, c: byte, more: Bytes)
    ensures Base64([a, b, c] + more) == Quad(a, b, c) + Base64(more)
  {
    assert ([a, b, c] + more)[3..] == more;
  }

  lemma Base64ShortExamples()
    ensures Base64([102]) == [90, 103, 61, 61] && Base64([102, 111]) == [90, 109, 56, 61]
    ensures Base64([98]) == [89, 103, 61, 61] && Base64([98, 97]) == [89, 109, 69, 61]
    ensures Base64([102, 111, 111]) == [90, 109, 57, 118] && Base64([98, 97, 114]) == [89, 109, 70, 121]
  {
    QuadExamples();
    Base64OfQuad(102, 111, 111, []);
    Base64OfQuad(98, 97, 114, []);
    assert [102, 111, 111] + [] == [102, 111, 111] && [98, 97, 114] + [] == [98, 97, 114];
  }

  /** Bytes outside the alphabet are skipped, wherever they stand. */
  lemma ForeignSkipped(a: Bytes, c: byte, b: Bytes)
    requires DigitValue(c) == 64 && c != PAD
    ensures Unbase64(a + [c] + b) == Unbase64(a + b)
  {
    ReadConcat(Clean([]), a + [c], b);
    ReadConcat(Clean([]), a, [c]);
    ReadConcat(Clean([]), a, b);
    ReadOne(ReadChars(Clean([]), a), c);
  }

  // ---------- what digits alone can decode to ----------

  ghost predicate AllDigits(t: Bytes) {
    forall i | 0 <= i < |t| :: t[i] != PAD && DigitValue(t[i]) < 64
  }

  /** Bytes completed by that many digits. */
  function Written(digits: nat): nat {
    digits / 4 * 3 + if digits % 4 == 0 then 0 else digits % 4 - 1
  }

  ghost predicate AfterDigits(s: Reading, digits: nat) {
    !s.done && s.quad == digits % 4 && |s.out| == Written(digits)
  }

  lemma NextDigit(n: nat)
    ensures Written(n + 1) == Written(n) + if n % 4 == 0 then 0 else 1
    ensures (n + 1) % 4 == if n % 4 == 3 then 0 else n % 4 + 1
  {
  }

  lemma DigitWrites(s: Reading, n: nat, v: nat)
    requires AfterDigits(s, n) && v < 64
    ensures AfterDigits(ReadDigit(s, v), n + 1)
  {
    NextDigit(n);
  }

  lemma {:induction false} DigitsWrite(s: Reading, n: nat, t: Bytes)
    requires AfterDigits(s, n) && AllDigits(t)
    ensures AfterDigits(ReadChars(s, t), n + |t|)
  {
    if t != [] {
      var m := |t| - 1;
      DigitsWrite(s, n, t[..m]);
      DigitWrites(ReadChars(s, t[..m]), n + m, DigitValue(t[m]));
    }
  }

  /** Padding that a text of so many digits needs. */
  function Padding(digits: nat): Bytes {
    if digits % 4 == 2 then [PAD, PAD] else if digits % 4 == 3 then [PAD] else []
  }

  ghost predicate Splits(b: Bytes, digits: Bytes) {
    && Base64(b) == digits + Padding(|digits|) && AllDigits(digits)
    && |digits| % 4 != 1 && Written(|digits|) == |b|
  }

  /** An encoding is digits and then the padding they need. */
  lemma {:induction false} EncodingSplits(b: Bytes) returns (digits: Bytes)
    ensures Splits(b, digits)
    decreases |b|
  {
    if b == [] {
      digits := [];
    } else if |b| == 1 {
      DigitsDecode(b[0] / 4, b[0] % 4 * 16, 0, 0);
      digits := [Digit(b[0] / 4), Digit(b[0] % 4 * 16)];
    } else if |b| == 2 {
      DigitsDecode(b[0] / 4, b[0] % 4 * 16 + b[1] / 16, b[1] % 16 * 4, 0);
      digits := [Digit(b[0] / 4), Digit(b[0] % 4 * 16 + b[1] / 16), Digit(b[1] % 16 * 4)];
    } else {
      var others := EncodingSplits(b[3..]);
      digits := Quad(b[0], b[1], b[2]) + others;
      MoreSplits(b, others);
    }
  }

  lemma MoreSplits(b: Bytes, others: Bytes)
    requires |b| > 2 && Splits(b[3..], others)
    ensures Splits(b, Quad(b[0], b[1], b[2]) + others)
  {
    FourMoreDigits(|others|);
  }

  lemma FourMoreDigits(n: nat)
    ensures Padding(4 + n) == Padding(n) && Written(4 + n) == 3 + Written(n) && (4 + n) % 4 == n % 4
  {
  }

  /** Padding adds no byte, and completes no lone digit. */
  lemma ReadPadding(s: Reading, n: nat, digits: nat)
    requires AfterDigits(s, n)
    ensures ReadChars(s, Padding(digits)).out == s.out && ReadChars(s, Padding(digits)).quad == s.quad
    ensures s.quad < 2 || digits % 4 == 0 ==> !ReadChars(s, Padding(digits)).done
  {
    ReadOne(s, PAD);
    ReadTwo(s, PAD, PAD);
  }

  /** Digits before an encoding keep it from decoding to what it encodes. */
  lemma ShiftedDecodesOtherwise(s: Reading, n: nat, next: Bytes)
    requires AfterDigits(s, n) && n > 0
    ensures var end := ReadChars(s, Base64(next)); (end.done || end.quad == 0) ==> |end.out| > |next|
  {
    var digits := EncodingSplits(next);
    ReadConcat(s, digits, Padding(|digits|));
    DigitsWrite(s, n, digits);
    ReadPadding(ReadChars(s, digits), n + |digits|, |digits|);
    WrittenGrows(n, |digits|);
  }

  lemma WrittenGrows(n: nat, d: nat)
    requires n > 0 && d % 4 != 1
    ensures Written(n + d) > Written(d) || (n == 1 && d % 4 == 0)
    ensures Written(n + d) >= Written(d)
  {
  }

  lemma FrontOfEncoding(digits: Bytes, m: nat)
    requires m < |digits + Padding(|digits|)|
    ensures (digits + Padding(|digits|))[..m] == if m <= |digits| then digits[..m] else digits + [PAD]
  {
  }

  // ---------- when a joined line decodes ----------

  /** The digits in the encoding of so many bytes. */
  function DigitsIn(bytes: nat): nat {
    bytes / 3 * 4 + if bytes % 3 == 0 then 0 else bytes % 3 + 1
  }

  lemma DigitsOfWritten(digits: nat)
    requires digits % 4 != 1
    ensures DigitsIn(Written(digits)) == digits
  {
  }

  /** The digits in the first `m` bytes of the encoding of so many bytes. */
  function DigitsLeft(bytes: nat, m: nat): nat {
    if m <= DigitsIn(bytes) then m else DigitsIn(bytes)
  }

  /** So many digits of a group, with the encoding of so many bytes behind them, make up whole groups or
      padded ones. */
  predicate Completes(quad: nat, bytes: nat) {
    quad == 0 || (quad == 1 && bytes % 3 != 0) || (quad == 2 && bytes % 3 == 1)
  }

  lemma PartReads(digits: Bytes, m: nat)
    requires AllDigits(digits) && (m > |digits| ==> |digits| % 4 == 2)
    ensures var part := if m <= |digits| then digits[..m] else digits + [PAD];
            AfterDigits(ReadChars(Clean([]), part), if m <= |digits| then m else |digits|)
  {
    assert AfterDigits(Clean([]), 0);
    if m <= |digits| {
      DigitsWrite(Clean([]), 0, digits[..m]);
    } else {
      DigitsWrite(Clean([]), 0, digits);
      ReadConcat(Clean([]), digits, [PAD]);
      ReadOne(ReadChars(Clean([]), digits), PAD);
    }
  }

  /** Part of an encoding, short of its end, leaves the decoder between digits. */
  lemma PartIsDigits(payload: Bytes, m: nat)
    requires 0 < m < |Base64(payload)|
    ensures DigitsLeft(|payload|, m) > 0
    ensures AfterDigits(ReadChars(Clean([]), Base64(payload)[..m]), DigitsLeft(|payload|, m))
  {
    var digits := EncodingSplits(payload);
    DigitsOfWritten(|digits|);
    FrontOfEncoding(digits, m);
    PartReads(digits, m);
  }

  predicate Decodes(s: Reading) {
    s.done || s.quad == 0
  }

  /** So much padding ends a group of so many digits. */
  predicate GroupEnds(quad: nat, pads: nat) {
    quad == 0 || (quad >= 2 && quad + pads >= 4)
  }

  /** The decoder stands in a group of so many digits, and this padding comes next. */
  predicate Awaits(s: Reading, quad: nat, padding: Bytes) {
    && !s.done && s.quad == quad < 4 && (padding != [] ==> s.pads == 0)
    && (padding == [] || padding == [PAD] || padding == [PAD, PAD])
  }

  lemma PaddingCompletes(s: Reading, quad: nat, padding: Bytes)
    requires Awaits(s, quad, padding)
    ensures Decodes(ReadChars(s, padding)) <==> GroupEnds(quad, |padding|)
  {
    ReadOne(s, PAD);
    ReadTwo(s, PAD, PAD);
  }

  lemma WrittenRest(digits: nat)
    requires digits % 4 != 1
    ensures Written(digits) % 3 == if digits % 4 == 0 then 0 else digits % 4 - 1
  {
  }

  /** The place in its group after so many more digits. */
  function Turn(quad: nat, digits: nat): nat {
    if digits == 0 then quad
    else if Turn(quad, digits - 1) == 3 then 0
    else Turn(quad, digits - 1) + 1
  }

  lemma {:induction false} TurnIsRest(quad: nat, digits: nat)
    requires quad < 4
    ensures Turn(quad, digits) == (quad + digits) % 4
  {
    if digits > 0 {
      TurnIsRest(quad, digits - 1);
    }
  }

  lemma CompletesBehind(quad: nat, digits: nat)
    requires quad < 4 && digits % 4 != 1
    ensures Completes(quad, Written(digits)) <==> GroupEnds(Turn(quad, digits), |Padding(digits)|)
  {
    WrittenRest(digits);
    TurnIsRest(quad, digits);
  }

  ghost predicate StandsAt(s: Reading, quad: nat) {
    !s.done && s.quad == quad < 4
  }

  lemma {:induction false} DigitsTurn(s: Reading, quad: nat, t: Bytes)
    requires StandsAt(s, quad) && AllDigits(t)
    ensures StandsAt(ReadChars(s, t), Turn(quad, |t|)) && (t != [] ==> ReadChars(s, t).pads == 0)
  {
    if t != [] {
      var n := |t| - 1;
      DigitsTurn(s, quad, t[..n]);
    }
  }

  /** Within a group, an encoding decodes exactly if the digits make up whole groups or padded ones. */
  lemma DecodesBehind(s: Reading, quad: nat, next: Bytes)
    requires StandsAt(s, quad)
    ensures Decodes(ReadChars(s, Base64(next))) <==> Completes(quad, |next|)
  {
    var digits := EncodingSplits(next);
    DigitsDecodeBehind(s, quad, digits);
  }

  lemma DigitsDecodeBehind(s: Reading, quad: nat, digits: Bytes)
    requires StandsAt(s, quad) && AllDigits(digits) && |digits| % 4 != 1
    ensures Decodes(ReadChars(s, digits + Padding(|digits|))) <==> Completes(quad, Written(|digits|))
  {
    DigitsTurn(s, quad, digits);
    PaddingDecodes(ReadChars(s, digits), quad, |digits|);
    DecodesApart(s, digits, Padding(|digits|));
  }

  lemma PaddingDecodes(s: Reading, quad: nat, digits: nat)
    requires quad < 4 && digits % 4 != 1 && StandsAt(s, Turn(quad, digits)) && (digits > 0 ==> s.pads == 0)
    ensures Decodes(ReadChars(s, Padding(digits))) <==> Completes(quad, Written(digits))
  {
    CompletesBehind(quad, digits);
    PaddingCompletes(s, Turn(quad, digits), Padding(digits));
  }

  lemma DecodesApart(s: Reading, a: Bytes, b: Bytes)
    ensures Decodes(ReadChars(s, a + b)) <==> Decodes(ReadChars(ReadChars(s, a), b))
  {
    ReadConcat(s, a, b);
  }

  /** Part of an encoding, joined by the next one, decodes exactly by the counts of digits and bytes. */
  lemma JoinedDecodes(payload: Bytes, m: nat, next: Bytes)
    requires 0 < m < |Base64(payload)|
    ensures Unbase64(Base64(payload)[..m] + Base64(next)).Some? <==> Completes(DigitsLeft(|payload|, m) % 4, |next|)
  {
    ReadConcat(Clean([]), Base64(payload)[..m], Base64(next));
    PartIsDigits(payload, m);
    DecodesBehind(ReadChars(Clean([]), Base64(payload)[..m]), DigitsLeft(|payload|, m) % 4, next);
  }

  lemma {:induction false} OutGrows(s: Reading, t: Bytes)
    ensures s.out <= ReadChars(s, t).out
  {
    if t != [] {
      OutGrows(s, t[..|t| - 1]);
    }
  }

  lemma {:induction false} PadsAddNothing(s: Reading, t: Bytes)
    requires forall i | 0 <= i < |t| :: t[i] == PAD
    ensures ReadChars(s, t).out == s.out
  {
    if t != [] {
      PadsAddNothing(s, t[..|t| - 1]);
    }
  }

  /** All digits of an encoding bring all its bytes. */
  lemma DigitsBringAll(payload: Bytes, m: nat)
    requires DigitsIn(|payload|) <= m <= |Base64(payload)|
    ensures ReadChars(Clean([]), Base64(payload)[..m]).out == payload
  {
    var digits := EncodingSplits(payload);
    DigitsOfWritten(|digits|);
    var t := Base64(payload);
    ReadConcat(Clean([]), t[..m], t[m..]);
    assert t[..m] + t[m..] == t;
    PadsAddNothing(ReadChars(Clean([]), t[..m]), t[m..]);
    ReadEncoding([], payload);
    assert [] + payload == payload;
  }

  lemma PaddingCut(bytes: nat, m: nat, next: nat)
    requires DigitsIn(bytes) <= m < (bytes + 2) / 3 * 4
    ensures m > 0 && (Completes(DigitsLeft(bytes, m) % 4, next) <==> bytes % 3 == 1 && next % 3 == 1)
  {
    var n := DigitsIn(bytes);
    assert DigitsLeft(bytes, m) == n && bytes % 3 != 0;
    assert n == bytes / 3 * 4 + (bytes % 3 + 1);
    assert n % 4 == bytes % 3 + 1;
  }

  /** When a tear took padding and newline alone, the joined line decodes exactly if both payloads have
      one byte more than whole groups, and then it begins with the torn payload. */
  lemma JoinedWithinPadding(payload: Bytes, m: nat, next: Bytes)
    requires DigitsIn(|payload|) <= m < |Base64(payload)|
    ensures var joined := Unbase64(Base64(payload)[..m] + Base64(next));
            && (joined.Some? <==> |payload| % 3 == 1 && |next| % 3 == 1)
            && (joined.Some? ==> payload <= joined.value)
  {
    PaddingCut(|payload|, m, |next|);
    JoinedDecodes(payload, m, next);
    JoinedBringsAll(payload, m, next);
  }

  lemma JoinedBringsAll(payload: Bytes, m: nat, next: Bytes)
    requires DigitsIn(|payload|) <= m <= |Base64(payload)|
    ensures var joined := Unbase64(Base64(payload)[..m] + Base64(next)); joined.Some? ==> payload <= joined.value
  {
    ReadConcat(Clean([]), Base64(payload)[..m], Base64(next));
    DigitsBringAll(payload, m);
    OutGrows(ReadChars(Clean([]), Base64(payload)[..m]), Base64(next));
  }

  // ---------- what a joined line decodes to ----------

  /** A line that lost its newline alone, whose padding hides whatever follows, and which is appended again. */
  predicate Hides(payload: Bytes, m: nat, next: Bytes) {
    m == |Base64(payload)| && |payload| % 3 != 0 && payload == next
  }

  /** A payload with another one behind it, unless padding hides that. */
  function WithBehind(payload: Bytes, next: Bytes): Bytes {
    if |payload| % 3 != 0 then payload else payload + next
  }

  /** A whole encoding, joined by the next one, decodes to the payload alone if it is padded, and to both
      payloads if it is not. */
  lemma WholeJoined(payload: Bytes, next: Bytes)
    ensures Unbase64(Base64(payload) + Base64(next)) == Some(WithBehind(payload, next))
  {
    ReadConcat(Clean([]), Base64(payload), Base64(next));
    ReadEncoding([], payload);
    assert [] + payload == payload;
    var s := ReadChars(Clean([]), Base64(payload));
    if s.done {
      ReadNothingMore(s, Base64(next));
    } else {
      ReadEncoding(payload, next);
    }
  }

  /** Part of an encoding, joined by the next one, does not decode or decodes to more bytes than were appended. */
  lemma PartJoined(payload: Bytes, m: nat, next: Bytes)
    requires 0 < m < |Base64(payload)|
    ensures var joined := Unbase64(Base64(payload)[..m] + Base64(next)); joined.Some? ==> |joined.value| > |next|
  {
    ReadConcat(Clean([]), Base64(payload)[..m], Base64(next));
    PartIsDigits(payload, m);
    ShiftedDecodesOtherwise(ReadChars(Clean([]), Base64(payload)[..m]), DigitsLeft(|payload|, m), next);
  }

  /** The part of a line that a tear left, joined by the next encoding, decodes to what was appended
      exactly when the tear took only the newline and padding hides the rest, of a payload that is
      appended again. */
  lemma JoinedDecode(payload: Bytes, m: nat, next: Bytes)
    requires 0 < m <= |Base64(payload)|
    ensures Unbase64(Base64(payload)[..m] + Base64(next)) == Some(next) <==> Hides(payload, m, next)
  {
    if m == |Base64(payload)| {
      assert Base64(payload)[..m] == Base64(payload);
      WholeJoined(payload, next);
    } else {
      PartJoined(payload, m, next);
    }
  }

  // ---------- lines ----------

  const NEWLINE: byte := 10

  function Line(payload: Bytes): Bytes {
    Base64(payload) + [NEWLINE]
  }

  /** The finished lines and the piece after the last newline. */
  datatype Pieces = Pieces(lines: seq<Bytes>, tail: Bytes)

  function Scan(s: Pieces, raw: Bytes): Pieces
    decreases |raw|
  {
    if raw == [] then s
    else if raw[0] == NEWLINE then Scan(Pieces(s.lines + [s.tail], []), raw[1..])
    else Scan(Pieces(s.lines, s.tail + [raw[0]]), raw[1..])
  }

  /** `raw.split(b"\n")` is the finished lines and then the tail. */
  function Split(raw: Bytes): Pieces {
    Scan(Pieces([], []), raw)
  }

  predicate NonEmpty(line: Bytes) {
    line != []
  }

  predicate Complete(raw: Bytes) {
    raw == [] || raw[|raw| - 1] == NEWLINE
  }

  /** The complete, non-empty lines; what follows the last newline is dropped. */
  function CompleteLines(raw: Bytes): seq<Bytes> {
    var pieces := Split(raw);
    Filter(NonEmpty, if Complete(raw) then pieces.lines + [pieces.tail] else pieces.lines)
  }

  function DecodeLines(lines: seq<Bytes>): Option<seq<Bytes>> {
    if lines == [] then Some([])
    else
      var before := DecodeLines(lines[..|lines| - 1]);
      var last := Unbase64(lines[|lines| - 1]);
      if before.None? || last.None? then None else Some(before.value + [last.value])
  }

  /** `read_all`: nothing if some complete line is not base64. */
  function ReadAll(raw: Bytes): Option<seq<Bytes>> {
    DecodeLines(CompleteLines(raw))
  }

  class FileReceiptSink {
    /** The file's bytes; a missing file reads as an empty one. */
    var raw: Bytes

    constructor (raw: Bytes)
      ensures this.raw == raw
    {
      this.raw := raw;
    }

    method Append(payload: Bytes)
      modifies this
      ensures raw == old(raw) + Line(payload)
    {
      raw := raw + (Base64(payload) + [NEWLINE]);
    }
  }

  // ---------- reading after appends and cuts ----------

  lemma {:induction false} ScanConcat(s: Pieces, a: Bytes, b: Bytes)
    ensures Scan(s, a + b) == Scan(Scan(s, a), b)
    decreases |a|
  {
    if a == [] {
      assert a + b == b;
    } else {
      assert (a + b)[1..] == a[1..] + b;
      if a[0] == NEWLINE {
        ScanConcat(Pieces(s.lines + [s.tail], []), a[1..], b);
      } else {
        ScanConcat(Pieces(s.lines, s.tail + [a[0]]), a[1..], b);
      }
    }
  }

  lemma {:induction false} ScanWithoutNewline(s: Pieces, t: Bytes)
    requires NEWLINE !in t
    ensures Scan(s, t) == Pieces(s.lines, s.tail + t)
    decreases |t|
  {
    if t == [] {
      assert s.tail + t == s.tail;
    } else {
      ScanWithoutNewline(Pieces(s.lines, s.tail + [t[0]]), t[1..]);
      assert s.tail + [t[0]] + t[1..] == s.tail + t;
    }
  }

  lemma CompleteEndsEmpty(raw: Bytes)
    ensures Split(raw).tail == [] <==> Complete(raw)
  {
    if raw != [] {
      var n := |raw| - 1;
      assert raw == raw[..n] + [raw[n]];
      ScanConcat(Pieces([], []), raw[..n], [raw[n]]);
      assert [raw[n]][1..] == [];
    }
  }

  lemma CompleteLinesAreLines(raw: Bytes)
    ensures CompleteLines(raw) == Filter(NonEmpty, Split(raw).lines)
  {
    CompleteEndsEmpty(raw);
    if Complete(raw) {
      FilterConcat(NonEmpty, Split(raw).lines, [[]]);
      FilterOne([]);
    }
  }

  /** What a log reads as once a line is added behind a possibly torn tail: the tail joins the line. */
  lemma LinesAfterAppend(raw: Bytes, t: Bytes)
    requires NEWLINE !in t && t != []
    ensures CompleteLines(raw + (t + [NEWLINE])) == CompleteLines(raw) + [Split(raw).tail + t]
    ensures Complete(raw + (t + [NEWLINE]))
  {
    var s := Split(raw);
    ScanConcat(Pieces([], []), raw, t + [NEWLINE]);
    ScanConcat(s, t, [NEWLINE]);
    ScanWithoutNewline(s, t);
    assert [NEWLINE][1..] == [];
    assert Split(raw + (t + [NEWLINE])).lines == s.lines + [s.tail + t];
    CompleteLinesAreLines(raw);
    CompleteLinesAreLines(raw + (t + [NEWLINE]));
    FilterConcat(NonEmpty, s.lines, [s.tail + t]);
    FilterOne(s.tail + t);
  }

  lemma {:induction false} ScanGrows(s: Pieces, raw: Bytes)
    ensures s.lines <= Scan(s, raw).lines
    decreases |raw|
  {
    if raw != [] {
      ScanGrows(if raw[0] == NEWLINE then Pieces(s.lines + [s.tail], []) else Pieces(s.lines, s.tail + [raw[0]]),
                raw[1..]);
    }
  }

  /** Whatever is appended to a log, its complete lines stay the first ones. */
  lemma LinesGrow(raw: Bytes, more: Bytes)
    ensures CompleteLines(raw) <= CompleteLines(raw + more)
  {
    ScanConcat(Pieces([], []), raw, more);
    ScanGrows(Split(raw), more);
    CompleteLinesAreLines(raw);
    CompleteLinesAreLines(raw + more);
    var lines, all := Split(raw).lines, Split(raw + more).lines;
    assert all == lines + all[|lines|..];
    FilterConcat(NonEmpty, lines, all[|lines|..]);
  }

  /** What reads stays the first part of what reads later, and what is unreadable stays so. */
  lemma ReadAllGrows(raw: Bytes, more: Bytes)
    ensures ReadAll(raw + more).Some? ==> ReadAll(raw).Some? && ReadAll(raw).value <= ReadAll(raw + more).value
  {
    LinesGrow(raw, more);
    var lines, all := CompleteLines(raw), CompleteLines(raw + more);
    assert all == lines + all[|lines|..];
    DecodeLinesConcat(lines, all[|lines|..]);
  }

  lemma FilterOne(line: Bytes)
    ensures Filter(NonEmpty, [line]) == if line == [] then [] else [line]
  {
    assert [line][..0] == [];
  }

  lemma {:induction false} DecodeLinesConcat(a: seq<Bytes>, b: seq<Bytes>)
    ensures DecodeLines(a + b) ==
            if DecodeLines(a).None? || DecodeLines(b).None? then None
            else Some(DecodeLines(a).value + DecodeLines(b).value)
  {
    if b == [] {
      assert a + b == a;
      if DecodeLines(a).Some? {
        assert DecodeLines(a).value + [] == DecodeLines(a).value;
      }
    } else {
      var n := |b| - 1;
      assert a + b == a + b[..n] + [b[n]] && b == b[..n] + [b[n]];
      DecodeLinesConcat(a, b[..n]);
      if DecodeLines(a).Some? && DecodeLines(b).Some? {
        var x, y, z := DecodeLines(a).value, DecodeLines(b[..n]).value, Unbase64(b[n]).value;
        assert x + y + [z] == x + (y + [z]);
      }
    }
  }

  lemma DecodeOneLine(t: Bytes)
    ensures DecodeLines([t]) == if Unbase64(t).None? then None else Some([Unbase64(t).value])
  {
    var none: seq<Bytes> := [];
    if Unbase64(t).Some? {
      assert none + [Unbase64(t).value] == [Unbase64(t).value];
    }
    assert none + [t] == [t];
  }

  /** An append to a log that ends in a newline adds exactly its payload. */
  lemma ReadAfterAppend(raw: Bytes, payload: Bytes)
    requires Complete(raw) && payload != []
    ensures Complete(raw + Line(payload))
    ensures ReadAll(raw + Line(payload)) == if ReadAll(raw).None? then None else Some(ReadAll(raw).value + [payload])
  {
    Base64HasNoNewline(payload);
    CompleteEndsEmpty(raw);
    LinesAfterAppend(raw, Base64(payload));
    assert [] + Base64(payload) == Base64(payload);
    DecodeLinesConcat(CompleteLines(raw), [Base64(payload)]);
    DecodeOneLine(Base64(payload));
    Unbase64OfBase64(payload);
  }

  /** The bytes of a log to which these payloads were appended, in order. */
  function LogOf(payloads: seq<Bytes>): Bytes {
    FlatMap(Line, payloads)
  }

  ghost predicate NoneEmpty(payloads: seq<Bytes>) {
    forall i | 0 <= i < |payloads| :: payloads[i] != []
  }

  lemma ReadEmptyLog()
    ensures Complete([]) && ReadAll([]) == Some([])
  {
    FilterOne([]);
    assert CompleteLines([]) == [];
  }

  lemma {:induction false} ReadWholeLog(payloads: seq<Bytes>)
    requires NoneEmpty(payloads)
    ensures Complete(LogOf(payloads)) && ReadAll(LogOf(payloads)) == Some(payloads)
  {
    if payloads == [] {
      ReadEmptyLog();
    } else {
      var front, last := payloads[..|payloads| - 1], payloads[|payloads| - 1];
      ReadWholeLog(front);
      var raw := LogOf(front);
      assert LogOf(payloads) == raw + Line(last);
      ReadAfterAppend(raw, last);
      assert payloads == front + [last];
    }
  }

  /** The payloads whose whole line, newline included, lies before the cut. */
  function WholeBefore(payloads: seq<Bytes>, cut: nat): (k: nat)
    ensures k <= |payloads|
    ensures |LogOf(payloads[..k])| <= cut
    ensures k < |payloads| ==> cut < |LogOf(payloads[..k + 1])|
    decreases |payloads|
  {
    var n := |payloads|;
    if |LogOf(payloads)| <= cut then
      assert payloads[..n] == payloads;
      n
    else
      assert payloads != [];
      var front := payloads[..n - 1];
      var k := WholeBefore(front, cut);
      assert front[..k] == payloads[..k];
      assert k == n - 1 ==> payloads[..k + 1] == payloads;
      assert k < n - 1 ==> front[..k + 1] == payloads[..k + 1];
      k
  }

  lemma LogSplits(payloads: seq<Bytes>, k: nat)
    requires k < |payloads|
    ensures LogOf(payloads[..k + 1]) == LogOf(payloads[..k]) + Line(payloads[k])
    ensures LogOf(payloads) == LogOf(payloads[..k + 1]) + LogOf(payloads[k + 1..])
  {
    assert payloads[..k + 1][..k] == payloads[..k];
    FlatMapConcat(Line, payloads[..k + 1], payloads[k + 1..]);
    assert payloads == payloads[..k + 1] + payloads[k + 1..];
  }

  /** The cut falls within the line of payload `k`, or at the end of the log. */
  ghost predicate CutsIn(payloads: seq<Bytes>, k: nat, cut: nat) {
    && k <= |payloads| && |LogOf(payloads[..k])| <= cut <= |LogOf(payloads)|
    && (k < |payloads| ==> cut < |LogOf(payloads[..k + 1])|)
  }

  /** What the cut leaves of the line of payload `k`. */
  function Remnant(payloads: seq<Bytes>, k: nat, length: nat): Bytes {
    if k < |payloads| && length <= |Base64(payloads[k])| then Base64(payloads[k])[..length] else []
  }

  /** A cut log is a whole log followed by the first part of the next line. */
  lemma CutTail(payloads: seq<Bytes>, k: nat, cut: nat)
    requires CutsIn(payloads, k, cut)
    ensures var m := cut - |LogOf(payloads[..k])|;
            && LogOf(payloads)[..cut] == LogOf(payloads[..k]) + Remnant(payloads, k, m)
            && |Remnant(payloads, k, m)| == m
  {
    if k == |payloads| {
      assert payloads[..k] == payloads;
    } else {
      LogSplits(payloads, k);
      var whole, t := LogOf(payloads[..k]), Base64(payloads[k]);
      assert whole + Line(payloads[k]) + LogOf(payloads[k + 1..]) == whole + t + ([NEWLINE] + LogOf(payloads[k + 1..]));
    }
  }

  /** However a log is cut, reading it returns exactly the payloads that lie wholly before the cut. */
  lemma TornLogReads(payloads: seq<Bytes>, cut: nat)
    requires NoneEmpty(payloads)
    requires cut <= |LogOf(payloads)|
    ensures ReadAll(LogOf(payloads)[..cut]) == Some(payloads[..WholeBefore(payloads, cut)])
  {
    CutLogReads(payloads, WholeBefore(payloads, cut), cut);
  }

  lemma CutLogReads(payloads: seq<Bytes>, k: nat, cut: nat)
    requires NoneEmpty(payloads) && CutsIn(payloads, k, cut)
    ensures ReadAll(LogOf(payloads)[..cut]) == Some(payloads[..k])
  {
    var tail := Remnant(payloads, k, cut - |LogOf(payloads[..k])|);
    CutTail(payloads, k, cut);
    ReadWholeLog(payloads[..k]);
    if k < |payloads| {
      Base64HasNoNewline(payloads[k]);
    }
    TailIsDropped(LogOf(payloads[..k]), tail);
  }

  lemma TailIsDropped(raw: Bytes, tail: Bytes)
    requires Complete(raw) && NEWLINE !in tail
    ensures CompleteLines(raw + tail) == CompleteLines(raw)
    ensures Split(raw + tail).tail == tail
  {
    ScanConcat(Pieces([], []), raw, tail);
    ScanWithoutNewline(Split(raw), tail);
    CompleteEndsEmpty(raw);
    CompleteLinesAreLines(raw);
    CompleteLinesAreLines(raw + tail);
    assert [] + tail == tail;
  }

  /** An append to the log that was cut reads back as itself, behind the first `k` payloads. */
  ghost predicate ReadsBack(payloads: seq<Bytes>, k: nat, cut: nat, next: Bytes)
    requires k <= |payloads| && cut <= |LogOf(payloads)|
  {
    ReadAll(LogOf(payloads)[..cut] + Line(next)) == Some(payloads[..k] + [next])
  }

  /** The cut falls on the line boundary before payload `k`, or it hides what is appended. */
  ghost predicate Unharmed(payloads: seq<Bytes>, k: nat, cut: nat, next: Bytes)
    requires k <= |payloads|
  {
    var m := cut - |LogOf(payloads[..k])|;
    m == 0 || (m > 0 && k < |payloads| && Hides(payloads[k], m, next))
  }

  /** A torn tail is not removed from the file: the next append joins it. The append reads back as
      itself exactly when the cut fell on a line boundary, or took a newline alone behind padding and
      the same payload is appended again. */
  lemma AppendAfterTear(payloads: seq<Bytes>, cut: nat, next: Bytes)
    requires next != [] && NoneEmpty(payloads)
    requires cut <= |LogOf(payloads)|
    ensures var k := WholeBefore(payloads, cut); ReadsBack(payloads, k, cut, next) <==> Unharmed(payloads, k, cut, next)
  {
    var k := WholeBefore(payloads, cut);
    assert CutsIn(payloads, k, cut);
    AppendAfterCut(payloads, k, cut, next);
  }

  lemma AppendAfterCut(payloads: seq<Bytes>, k: nat, cut: nat, next: Bytes)
    requires next != [] && NoneEmpty(payloads) && CutsIn(payloads, k, cut)
    ensures ReadsBack(payloads, k, cut, next) <==> Unharmed(payloads, k, cut, next)
  {
    CutTail(payloads, k, cut);
    var m := cut - |LogOf(payloads[..k])|;
    if m == 0 {
      assert LogOf(payloads)[..cut] == LogOf(payloads[..k]);
      AppendOnBoundary(payloads[..k], LogOf(payloads)[..cut], next);
    } else {
      assert k < |payloads| && 0 < m <= |Base64(payloads[k])|;
      assert LogOf(payloads)[..cut] == LogOf(payloads[..k]) + Base64(payloads[k])[..m];
      AppendBehindTail(payloads[..k], payloads[k], m, next);
    }
  }

  lemma AppendOnBoundary(front: seq<Bytes>, raw: Bytes, next: Bytes)
    requires next != [] && NoneEmpty(front) && raw == LogOf(front)
    ensures ReadAll(raw + Line(next)) == Some(front + [next])
  {
    ReadWholeLog(front);
    ReadAfterAppend(raw, next);
  }

  /** What an append behind a torn tail reads as. */
  lemma ReadBehindTail(front: seq<Bytes>, payload: Bytes, m: nat, next: Bytes)
    requires next != [] && NoneEmpty(front) && m <= |Base64(payload)|
    ensures var joined := Unbase64(Base64(payload)[..m] + Base64(next));
            ReadAll(LogOf(front) + Base64(payload)[..m] + Line(next)) ==
            if joined.None? then None else Some(front + [joined.value])
    ensures Complete(LogOf(front) + Base64(payload)[..m] + Line(next))
  {
    var tail := Base64(payload)[..m];
    ReadWholeLog(front);
    Base64HasNoNewline(payload);
    TailIsDropped(LogOf(front), tail);
    ReadJoined(LogOf(front) + tail, next);
  }

  /** An append behind a torn tail. */
  lemma AppendBehindTail(front: seq<Bytes>, payload: Bytes, m: nat, next: Bytes)
    requires next != [] && NoneEmpty(front) && 0 < m <= |Base64(payload)|
    ensures ReadAll(LogOf(front) + Base64(payload)[..m] + Line(next)) == Some(front + [next])
            <==> Hides(payload, m, next)
  {
    ReadBehindTail(front, payload, m, next);
    JoinedDecode(payload, m, next);
    LastDiffers(front, Unbase64(Base64(payload)[..m] + Base64(next)), next);
  }

  lemma LastDiffers(front: seq<Bytes>, joined: Option<Bytes>, next: Bytes)
    ensures joined.Some? ==> (front + [joined.value] == front + [next] <==> joined.value == next)
  {
    if joined.Some? && front + [joined.value] == front + [next] {
      assert (front + [joined.value])[|front|] == (front + [next])[|front|];
    }
  }

  lemma ReadJoined(raw: Bytes, next: Bytes)
    requires next != []
    ensures var joined := Unbase64(Split(raw).tail + Base64(next));
            ReadAll(raw + Line(next)) ==
            if ReadAll(raw).None? || joined.None? then None else Some(ReadAll(raw).value + [joined.value])
  {
    Base64HasNoNewline(next);
    LinesAfterAppend(raw, Base64(next));
    var t := Split(raw).tail + Base64(next);
    DecodeLinesConcat(CompleteLines(raw), [t]);
    DecodeOneLine(t);
  }
}
