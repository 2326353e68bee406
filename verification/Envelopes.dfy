/** The signed envelope (pilotfish/protocol/envelope.py). */
module Envelopes {
  import opened Prelude
  import opened Cbor
  import opened Models
  import opened Policy

  const NONCE_BYTES := 16

  datatype Envelope = Envelope(
    msgType: Text, issuer: Text, issuedAt: int, nonce: Bytes, payload: Bytes, signature: Bytes)

  datatype EnvelopeError = MalformedEnvelope | BadNonce | SignatureInvalid

  function SignedFields(e: Envelope): seq<Value> {
    [VText(e.msgType), VText(e.issuer), VInt(ToSeconds(e.issuedAt)), VBytes(e.nonce), VBytes(e.payload)]
  }

  /** The bytes a signature covers; a nonce of another length is refused. */
  function SigningInput(e: Envelope): Result<Bytes, EnvelopeError> {
    if |e.nonce| != NONCE_BYTES then Err(BadNonce) else Ok(Dumps(VArray(SignedFields(e))))
  }

  function Sign(p: Platform, msgType: Text, issuer: Text, issuedAt: int, nonce: Bytes, payload: Bytes, key: Bytes)
    : Result<Envelope, EnvelopeError>
  {
    var unsigned := Envelope(msgType, issuer, issuedAt, nonce, payload, []);
    var material :- SigningInput(unsigned);
    Ok(unsigned.(signature := p.sign(key, material)))
  }

  function Verify(p: Platform, e: Envelope, publicKey: Bytes): Result<(), EnvelopeError> {
    var material :- SigningInput(e);
    if p.verifies(publicKey, e.signature, material) then Ok(()) else Err(SignatureInvalid)
  }

  function EnvelopeValue(e: Envelope): Value {
    VArray(SignedFields(e) + [VBytes(e.signature)])
  }

  function EncodeEnvelope(e: Envelope): Bytes {
    Dumps(EnvelopeValue(e))
  }

  /** An array of exactly six fields, or nothing. */
  function DecodeEnvelope(data: Bytes): Result<Envelope, EnvelopeError> {
    var v := Loads(data);
    if v.Some? && v.value.VArray? && |v.value.items| == 6 then
      var f := v.value.items;
      if f[0].VText? && f[1].VText? && f[2].VInt? && f[3].VBytes? && f[4].VBytes? && f[5].VBytes? then
        Ok(Envelope(f[0].text, f[1].text, FromSeconds(f[2].n), f[3].bytes, f[4].bytes, f[5].bytes))
      else Err(MalformedEnvelope)
    else Err(MalformedEnvelope)
  }

  /** Bytes decode to an envelope exactly if they begin with its value: six fields of the right types, no
      fewer and no more, the time in whole seconds. */
  lemma EnvelopeDecodesExactly(data: Bytes, e: Envelope)
    ensures DecodeEnvelope(data) == Ok(e)
            <==> Loads(data) == Some(EnvelopeValue(e)) && Truncated(e.issuedAt) == e.issuedAt
  {
    TruncatedTwice(e.issuedAt);
    var v := Loads(data);
    if DecodeEnvelope(data) == Ok(e) {
      var f := v.value.items;
      WholeTime(f[2].n);
      assert f == SignedFields(e) + [VBytes(e.signature)];
    }
  }

  lemma WholeTime(seconds: int)
    ensures ToSeconds(FromSeconds(seconds)) == seconds && Truncated(FromSeconds(seconds)) == FromSeconds(seconds)
  {
    TruncatedTwice(FromSeconds(seconds));
  }

  function TruncatedEnvelope(e: Envelope): Envelope {
    e.(issuedAt := Truncated(e.issuedAt))
  }

  /** An envelope survives the wire up to sub-second time, and verifies exactly when the original does. */
  lemma DecodeEnvelopeOfEncode(p: Platform, e: Envelope, publicKey: Bytes)
    requires Encodable(EnvelopeValue(e))
    ensures DecodeEnvelope(EncodeEnvelope(e)) == Ok(TruncatedEnvelope(e))
    ensures Verify(p, TruncatedEnvelope(e), publicKey) == Verify(p, e, publicKey)
    ensures EncodeEnvelope(TruncatedEnvelope(e)) == EncodeEnvelope(e)
  {
    LoadsOfDumps(EnvelopeValue(e));
    TruncatedTwice(e.issuedAt);
  }

  /** Lines with one and the same envelope begin with one and the same value. */
  lemma EnvelopeDecidesValue(a: Bytes, b: Bytes)
    requires DecodeEnvelope(a).Ok? && DecodeEnvelope(a) == DecodeEnvelope(b)
    ensures Loads(a) == Loads(b)
  {
    var f, g := Loads(a).value.items, Loads(b).value.items;
    assert f[0] == g[0] && f[1] == g[1] && f[2] == g[2] && f[3] == g[3] && f[4] == g[4] && f[5] == g[5];
    assert f == g;
  }

  /** What is signed verifies under the signer's own key. */
  lemma SignedVerifies(p: Platform, msgType: Text, issuer: Text, issuedAt: int, nonce: Bytes, payload: Bytes,
                       key: Bytes)
    requires p.Sound()
    ensures var r := Sign(p, msgType, issuer, issuedAt, nonce, payload, key);
            if |nonce| == NONCE_BYTES
            then r.Ok? && Verify(p, r.value, p.publicKey(key)) == Ok(()) && |r.value.signature| == 64
            else r == Err(BadNonce)
  {
    var unsigned := Envelope(msgType, issuer, issuedAt, nonce, payload, []);
    if |nonce| == NONCE_BYTES {
      var signed := Sign(p, msgType, issuer, issuedAt, nonce, payload, key).value;
      assert SignedFields(signed) == SignedFields(unsigned);
    }
  }

  lemma {:induction false} EncodeAllConcat(a: seq<Value>, b: seq<Value>)
    ensures EncodeAll(a + b) == EncodeAll(a) + EncodeAll(b)
  {
    if a == [] {
      assert a + b == b;
    } else {
      assert (a + b)[1..] == a[1..] + b;
      EncodeAllConcat(a[1..], b);
    }
  }

  /** The encoded envelope is its signing input with the array header 0x85 replaced by 0x86 and
      the encoded signature appended. */
  lemma EnvelopeExtendsSigningInput(e: Envelope)
    requires |e.nonce| == NONCE_BYTES
    ensures var material := SigningInput(e).value;
            material[0] == 0x85
            && EncodeEnvelope(e) == [0x86] + material[1..] + Encode(VBytes(e.signature))
  {
    var signature := [VBytes(e.signature)];
    EncodeAllConcat(SignedFields(e), signature);
    assert signature[1..] == [];
    assert EncodeAll(signature) == Encode(VBytes(e.signature)) + [];
  }

  /** An envelope verifies exactly if its nonce has sixteen bytes and its signature is good, under the key,
      for the very bytes that precede it on the wire, but for the array header. */
  lemma VerifiesExactly(p: Platform, e: Envelope, publicKey: Bytes)
    ensures Verify(p, e, publicKey) == Ok(())
            <==> |e.nonce| == NONCE_BYTES
                 && exists material :: p.verifies(publicKey, e.signature, material) && |material| > 0
                                       && material[0] == 0x85
                                       && EncodeEnvelope(e) == [0x86] + material[1..] + Encode(VBytes(e.signature))
  {
    if |e.nonce| == NONCE_BYTES {
      var own := SigningInput(e).value;
      EnvelopeExtendsSigningInput(e);
      forall material: Bytes | |material| > 0 && material[0] == 0x85
                               && EncodeEnvelope(e) == [0x86] + material[1..] + Encode(VBytes(e.signature))
        ensures material == own
      {
        SameBehindHeader(own, material, Encode(VBytes(e.signature)));
      }
    }
  }

  lemma SameBehindHeader(a: Bytes, b: Bytes, tail: Bytes)
    requires |a| > 0 && |b| > 0 && a[0] == b[0] && [0x86] + a[1..] + tail == [0x86] + b[1..] + tail
    ensures a == b
  {
    var x, y := [0x86] + a[1..] + tail, [0x86] + b[1..] + tail;
    assert |x| == |a| + |tail| && |y| == |b| + |tail|;
    assert x[1..|a|] == a[1..] && y[1..|b|] == b[1..];
    assert a == [a[0]] + a[1..] && b == [b[0]] + b[1..];
  }

  /** A signature covers every field: equal signing inputs mean equal fields, up to sub-second time. */
  lemma SigningInputCoversFields(a: Envelope, b: Envelope)
    requires Encodable(VArray(SignedFields(a))) && Encodable(VArray(SignedFields(b)))
    requires SigningInput(a).Ok? && SigningInput(a) == SigningInput(b)
    ensures TruncatedEnvelope(a).(signature := []) == TruncatedEnvelope(b).(signature := [])
  {
    EncodeInjective(VArray(SignedFields(a)), VArray(SignedFields(b)));
    var f, g := SignedFields(a), SignedFields(b);
    assert f[0] == g[0] && f[1] == g[1] && f[2] == g[2] && f[3] == g[3] && f[4] == g[4];
  }

  /** The framing of the frozen vector: a 13-byte type, an 11-byte issuer, 1787918400 seconds,
      a 16-byte nonce and a 29-byte payload. */
  lemma FrozenVectorFraming(e: Envelope)
    requires |e.msgType| == 13 && |e.issuer| == 11 && |e.nonce| == 16 && |e.payload| == 29
    requires e.issuedAt == 1787918400 * SECOND
    ensures SigningInput(e) == Ok([0x85] + ([0x6d] + e.msgType + ([0x6b] + e.issuer + ([0x1a, 0x6a, 0x91, 0x78, 0x40]
                                  + ([0x50] + e.nonce + ([0x58, 0x1d] + e.payload))))))
  {
    assert BigEndian(1787918400, 4) == [0x6a, 0x91, 0x78, 0x40] by {
      assert BigEndian(0x6a, 1) == [0x6a];
      assert BigEndian(0x6a91, 2) == [0x6a, 0x91];
      assert BigEndian(0x6a9178, 3) == [0x6a, 0x91, 0x78];
    }
    assert BigEndian(29, 1) == [0x1d];
    assert Head(4, 5) == [0x85] && Head(3, 13) == [0x6d] && Head(3, 11) == [0x6b];
    assert Head(0, 1787918400) == [0x1a, 0x6a, 0x91, 0x78, 0x40];
    assert Head(2, 16) == [0x50] && Head(2, 29) == [0x58, 0x1d];
    var f := SignedFields(e);
    EncodeFive(f[0], f[1], f[2], f[3], f[4]);
  }

  lemma EncodeFive(a: Value, b: Value, c: Value, d: Value, e: Value)
    ensures EncodeAll([a, b, c, d, e]) == Encode(a) + (Encode(b) + (Encode(c) + (Encode(d) + Encode(e))))
  {
    assert [a, b, c, d, e][1..] == [b, c, d, e] && [b, c, d, e][1..] == [c, d, e];
    assert [c, d, e][1..] == [d, e] && [d, e][1..] == [e] && [e][1..] == [];
    assert EncodeAll([e]) == Encode(e) + EncodeAll([]);
    assert EncodeAll([d, e]) == Encode(d) + EncodeAll([e]);
    assert EncodeAll([c, d, e]) == Encode(c) + EncodeAll([d, e]);
    assert EncodeAll([b, c, d, e]) == Encode(b) + EncodeAll([c, d, e]);
  }
}
