/** The hash-chained audit trail (pilotfish/agent/receipts.py). */
module Receipts {
  import opened Prelude
  import opened Ordering
  import opened Cbor
  import opened Models
  import opened Policy
  import opened Messages
  import opened Envelopes
  import opened FileSink

  const KIND_DECISION := Ascii("DECISION")
  const KIND_EXECUTION := Ascii("EXECUTION")
  const KIND_EFFECT := Ascii("EFFECT")

  const OUTCOME_ENFORCED := Ascii("ENFORCED")
  const OUTCOME_POSTCONDITION_FAILED := Ascii("POSTCONDITION_FAILED")
  const OUTCOME_ENFORCEMENT_ERROR := Ascii("ENFORCEMENT_ERROR")

  /** Sixty-four zeros. */
  const GENESIS_HASH := Ascii("0000000000000000000000000000000000000000000000000000000000000000")

  // ---------- state_hash ----------

  /** What a dataplane holds: the link ids in force for each class. */
  type State = map<Text, seq<Text>>

  /** `actual.get(class_id, ())` */
  function InForce(state: State, classId: Text): seq<Text> {
    if classId in state then state[classId] else []
  }

  function StateRow(state: State): Text -> Value {
    (classId: Text) => VArray([VText(classId), TextsValue(Sort(TextLe, InForce(state, classId)))])
  }

  /** Rows `[class_id, sorted(links)]` in the order of their class ids, which are distinct. */
  function StateValue(state: State): Value {
    VArray(Map(StateRow(state), SortedKeys(state.Keys)))
  }

  function StateHash(p: Platform, state: State): Text {
    p.HexDigest(Dumps(StateValue(state)))
  }

  lemma TextsValueInjective(a: seq<Text>, b: seq<Text>)
    requires TextsValue(a) == TextsValue(b)
    ensures a == b
  {
    var f, g := Map(TextValue, a), Map(TextValue, b);
    assert f == g && |f| == |a| && |g| == |b|;
    forall i | 0 <= i < |a| ensures a[i] == b[i] {
      assert f[i] == g[i] && f[i] == TextValue(a[i]) && g[i] == TextValue(b[i]);
    }
  }

  lemma SortedTexts(a: seq<Text>, b: seq<Text>)
    ensures Sort(TextLe, a) == Sort(TextLe, b) <==> multiset(a) == multiset(b)
  {
    TextOrder();
    SortSorts(TextLe, a);
    SortSorts(TextLe, b);
    if multiset(a) == multiset(b) {
      SortCanonical(TextLe, a, b);
    }
  }

  lemma StateRowDecides(a: State, b: State, k: Text, l: Text)
    ensures StateRow(a)(k) == StateRow(b)(l) <==> k == l && multiset(InForce(a, k)) == multiset(InForce(b, l))
  {
    SortedTexts(InForce(a, k), InForce(b, l));
    var x, y := StateRow(a)(k).items, StateRow(b)(l).items;
    if x == y {
      assert x[0] == y[0] && x[1] == y[1];
      TextsValueInjective(Sort(TextLe, InForce(a, k)), Sort(TextLe, InForce(b, l)));
    }
  }

  /** The dataplanes name the same classes and hold the same multiset of links for each. */
  ghost predicate SameState(a: State, b: State) {
    a.Keys == b.Keys && forall k | k in a.Keys :: multiset(a[k]) == multiset(b[k])
  }

  ghost predicate SameEntries(a: State, b: State, keys: seq<Text>, others: seq<Text>) {
    keys == others && forall i | 0 <= i < |keys| :: multiset(InForce(a, keys[i])) == multiset(InForce(b, keys[i]))
  }

  lemma RowsDecideEntries(a: State, b: State, keys: seq<Text>, others: seq<Text>)
    ensures Map(StateRow(a), keys) == Map(StateRow(b), others) <==>
            SameEntries(a, b, keys, others)
  {
    var ra, rb := Map(StateRow(a), keys), Map(StateRow(b), others);
    assert |ra| == |keys| && |rb| == |others|;
    if |keys| == |others| {
      forall i | 0 <= i < |keys|
        ensures ra[i] == rb[i] <==>
                keys[i] == others[i] && multiset(InForce(a, keys[i])) == multiset(InForce(b, keys[i]))
      {
        assert ra[i] == StateRow(a)(keys[i]) && rb[i] == StateRow(b)(others[i]);
        StateRowDecides(a, b, keys[i], others[i]);
      }
    }
  }

  lemma EntriesDecideState(a: State, b: State, keys: seq<Text>, others: seq<Text>)
    requires forall k :: k in keys <==> k in a.Keys
    requires forall k :: k in others <==> k in b.Keys
    requires a.Keys == b.Keys ==> keys == others
    ensures SameEntries(a, b, keys, others) <==> SameState(a, b)
  {
    if SameEntries(a, b, keys, others) {
      forall k | k in a.Keys ensures k in b.Keys && multiset(a[k]) == multiset(b[k]) {
        var i :| 0 <= i < |keys| && keys[i] == k;
        assert multiset(InForce(a, keys[i])) == multiset(InForce(b, keys[i]));
      }
    }
    if SameState(a, b) {
      forall i | 0 <= i < |keys| ensures multiset(InForce(a, keys[i])) == multiset(InForce(b, keys[i])) {
        assert keys[i] in keys;
      }
    }
  }

  lemma StateValueDecides(a: State, b: State)
    ensures StateValue(a) == StateValue(b) <==> SameState(a, b)
  {
    RowsDecideEntries(a, b, SortedKeys(a.Keys), SortedKeys(b.Keys));
    EntriesDecideState(a, b, SortedKeys(a.Keys), SortedKeys(b.Keys));
  }

  /** Undisputed state hashes agree exactly when the dataplanes hold the same. */
  lemma StateHashDecidesState(p: Platform, a: State, b: State)
    requires Encodable(StateValue(a)) && Encodable(StateValue(b))
    requires p.Distinguishes(Dumps(StateValue(a)), Dumps(StateValue(b)))
    ensures StateHash(p, a) == StateHash(p, b) <==> SameState(a, b)
  {
    DigestSeparates(p, Dumps(StateValue(a)), Dumps(StateValue(b)));
    if StateHash(p, a) == StateHash(p, b) {
      EncodeInjective(StateValue(a), StateValue(b));
    }
    StateValueDecides(a, b);
  }

  // ---------- receipts ----------

  datatype Receipt = Receipt(
    site: Text, number: int, prevHash: Text, kind: Text, decision: Decision,
    outcome: Text, observed: Text, detail: Text)

  function Body(r: Receipt): Value {
    VArray([VText(r.site), VInt(r.number), VText(r.prevHash), VText(r.kind), VBytes(EncodeDecision(r.decision)),
            VText(r.outcome), VText(r.observed), VText(r.detail)])
  }

  function ReceiptHash(p: Platform, r: Receipt): Text {
    p.HexDigest(Dumps(Body(r)))
  }

  function ReadReceipt(v: Value): Result<Receipt, CodecError> {
    var f :- ItemsOf(v);
    var site :- TextAt(f, 0);
    var number :- IntAt(f, 1);
    var prevHash :- TextAt(f, 2);
    var kind :- TextAt(f, 3);
    var payload :- BytesAt(f, 4);
    var decision :- DecodeDecision(payload);
    var outcome :- TextAt(f, 5);
    var observed :- TextAt(f, 6);
    var detail :- TextAt(f, 7);
    Ok(Receipt(site, number, prevHash, kind, decision, outcome, observed, detail))
  }

  /** A value decodes to a receipt exactly if the receipt's fields stand where they should. */
  lemma ReceiptDecodesExactly(v: Value, r: Receipt)
    ensures ReadReceipt(v) == Ok(r)
            <==> v.VArray? && |v.items| >= 8
                 && v.items[0] == VText(r.site) && v.items[1] == VInt(r.number) && v.items[2] == VText(r.prevHash)
                 && v.items[3] == VText(r.kind) && v.items[4].VBytes?
                 && DecodeDecision(v.items[4].bytes) == Ok(r.decision)
                 && v.items[5] == VText(r.outcome) && v.items[6] == VText(r.observed) && v.items[7] == VText(r.detail)
  {
  }

  function TruncatedReceipt(r: Receipt): Receipt {
    r.(decision := TruncatedDecision(r.decision))
  }

  /** A decoded receipt hashes as the one in memory did, sub-second decision times included. */
  lemma ReadReceiptOfBody(p: Platform, r: Receipt)
    requires Encodable(DecisionValue(r.decision))
    ensures ReadReceipt(Body(r)) == Ok(TruncatedReceipt(r))
    ensures Body(TruncatedReceipt(r)) == Body(r)
    ensures ReceiptHash(p, TruncatedReceipt(r)) == ReceiptHash(p, r)
  {
    DecodeDecisionOfEncode(r.decision);
    EncodeDecisionOfTruncated(r.decision);
  }

  lemma BodyDeterminesReceipt(a: Receipt, b: Receipt)
    requires Body(a) == Body(b)
    requires Encodable(DecisionValue(a.decision)) && Encodable(DecisionValue(b.decision))
    ensures a.number == b.number && a.prevHash == b.prevHash
    ensures TruncatedReceipt(a) == TruncatedReceipt(b)
  {
    var x, y := Body(a).items, Body(b).items;
    assert x[0] == y[0] && x[1] == y[1] && x[2] == y[2] && x[3] == y[3];
    assert x[4] == y[4] && x[5] == y[5] && x[6] == y[6] && x[7] == y[7];
    DecodeDecisionOfEncode(a.decision);
    DecodeDecisionOfEncode(b.decision);
  }

  // ---------- the chain ----------

  datatype ChainError = Unreadable | Unverified(index: nat) | Foreign | Broken(at: nat)

  datatype ChainHead = ChainHead(number: int, hash: Text)

  const GENESIS := ChainHead(0, GENESIS_HASH)

  function HeadOf(p: Platform, rs: seq<Receipt>): ChainHead {
    if rs == [] then GENESIS else ChainHead(rs[|rs| - 1].number, ReceiptHash(p, rs[|rs| - 1]))
  }

  /** The receipt carries the next number and the hash of its predecessor. */
  predicate Linked(p: Platform, rs: seq<Receipt>, i: nat)
    requires i < |rs|
  {
    rs[i].number == i + 1 && rs[i].prevHash == if i == 0 then GENESIS_HASH else ReceiptHash(p, rs[i - 1])
  }

  ghost predicate ValidChain(p: Platform, rs: seq<Receipt>) {
    forall i | 0 <= i < |rs| :: Linked(p, rs, i)
  }

  /** The first receipt, from position `i` on, that does not continue the chain. */
  function BreakFrom(p: Platform, rs: seq<Receipt>, i: nat): (at: Option<nat>)
    requires i <= |rs|
    ensures at.None? ==> forall j | i <= j < |rs| :: Linked(p, rs, j)
    ensures at.Some? ==> i <= at.value < |rs| && !Linked(p, rs, at.value)
    ensures at.Some? ==> forall j | i <= j < at.value :: Linked(p, rs, j)
    decreases |rs| - i
  {
    if i == |rs| then None else if Linked(p, rs, i) then BreakFrom(p, rs, i + 1) else Some(i)
  }

  function FirstBreak(p: Platform, rs: seq<Receipt>): (at: Option<nat>)
    ensures at.None? <==> ValidChain(p, rs)
    ensures at.Some? ==> at.value < |rs| && !Linked(p, rs, at.value) && forall i | 0 <= i < at.value :: Linked(p, rs, i)
  {
    BreakFrom(p, rs, 0)
  }

  /** `verify_chain`: refuses at the first break, accepts exactly the unbroken runs. */
  method VerifyChain(p: Platform, rs: seq<Receipt>) returns (r: Result<(), ChainError>)
    ensures r.Ok? <==> ValidChain(p, rs)
    ensures r == if FirstBreak(p, rs).None? then Ok(()) else Err(Broken(FirstBreak(p, rs).value))
  {
    var expectedPrev := GENESIS_HASH;
    var expectedNumber := 1;
    for i := 0 to |rs|
      invariant expectedNumber == i + 1
      invariant expectedPrev == if i == 0 then GENESIS_HASH else ReceiptHash(p, rs[i - 1])
      invariant forall j | 0 <= j < i :: Linked(p, rs, j)
    {
      if rs[i].number != expectedNumber || rs[i].prevHash != expectedPrev {
        assert !Linked(p, rs, i);
        return Err(Broken(i));
      }
      assert Linked(p, rs, i);
      expectedPrev := ReceiptHash(p, rs[i]);
      expectedNumber := expectedNumber + 1;
    }
    return Ok(());
  }

  /** One line of the log: its envelope must decode and verify, its payload must be a receipt. */
  function ReadLine(p: Platform, line: Bytes, publicKey: Bytes, index: nat): Result<Receipt, ChainError> {
    var e := DecodeEnvelope(line);
    if e.Err? then Err(Unreadable)
    else
      var verified := Verify(p, e.value, publicKey);
      if verified == Err(SignatureInvalid) then Err(Unverified(index))
      else if verified.Err? then Err(Unreadable)
      else
        var v := Loads(e.value.payload);
        if v.None? then Err(Unreadable)
        else
          var r := ReadReceipt(v.value);
          if r.Err? then Err(Unreadable) else Ok(r.value)
  }

  /** Reads lines in order; the first failure is the failure of the whole. */
  function ReadInOrder<T, E>(read: (Bytes, nat) -> Result<T, E>, lines: seq<Bytes>): Result<seq<T>, E> {
    if lines == [] then Ok([])
    else
      var n := |lines| - 1;
      var before :- ReadInOrder(read, lines[..n]);
      var last :- read(lines[n], n);
      Ok(before + [last])
  }

  function Reader(p: Platform, publicKey: Bytes): (Bytes, nat) -> Result<Receipt, ChainError> {
    (line: Bytes, index: nat) => ReadLine(p, line, publicKey, index)
  }

  function ReadLines(p: Platform, lines: seq<Bytes>, publicKey: Bytes): Result<seq<Receipt>, ChainError> {
    ReadInOrder(Reader(p, publicKey), lines)
  }

  function ReadLog(p: Platform, raw: Bytes, publicKey: Bytes): Result<seq<Receipt>, ChainError> {
    var lines := ReadAll(raw);
    if lines.None? then Err(Unreadable) else ReadLines(p, lines.value, publicKey)
  }

  lemma {:induction false} ReadFailsEarly<T, E>(read: (Bytes, nat) -> Result<T, E>, lines: seq<Bytes>, k: nat)
    requires k <= |lines| && ReadInOrder(read, lines[..k]).Err?
    ensures ReadInOrder(read, lines) == ReadInOrder(read, lines[..k])
    decreases |lines|
  {
    var n := |lines| - 1;
    if k <= n {
      assert lines[..n][..k] == lines[..k];
      ReadFailsEarly(read, lines[..n], k);
    } else {
      assert lines[..k] == lines;
    }
  }

  /** The loop of `read_chain`, which raises at the first line it cannot vouch for. */
  method ReadLoop<T, E>(read: (Bytes, nat) -> Result<T, E>, lines: seq<Bytes>) returns (r: Result<seq<T>, E>)
    ensures r == ReadInOrder(read, lines)
  {
    var items: seq<T> := [];
    for i := 0 to |lines|
      invariant ReadInOrder(read, lines[..i]) == Ok(items)
    {
      var next := read(lines[i], i);
      assert lines[..i + 1][..i] == lines[..i];
      if next.Err? {
        ReadFailsEarly(read, lines, i + 1);
        return Err(next.error);
      }
      items := items + [next.value];
    }
    assert lines[..|lines|] == lines;
    return Ok(items);
  }

  /** `read_chain` */
  method ReadChain(p: Platform, sink: FileReceiptSink, publicKey: Bytes) returns (r: Result<seq<Receipt>, ChainError>)
    ensures r == ReadLog(p, sink.raw, publicKey)
  {
    var all := ReadAll(sink.raw);
    if all.None? {
      return Err(Unreadable);
    }
    r := ReadLoop(Reader(p, publicKey), all.value);
  }

  predicate HasForeign(rs: seq<Receipt>, site: Text) {
    exists i | 0 <= i < |rs| :: rs[i].site != site
  }

  /** Where an existing log is resumed, if it may be. */
  function Resume(p: Platform, raw: Bytes, publicKey: Bytes, site: Text): Result<ChainHead, ChainError> {
    var rs :- ReadLog(p, raw, publicKey);
    if HasForeign(rs, site) then Err(Foreign)
    else if FirstBreak(p, rs).Some? then Err(Broken(FirstBreak(p, rs).value))
    else Ok(HeadOf(p, rs))
  }

  /** The line carries an envelope that verifies under the key, and this receipt in it. */
  ghost predicate LineTells(p: Platform, line: Bytes, publicKey: Bytes, r: Receipt) {
    var e := DecodeEnvelope(line);
    && e.Ok? && Verify(p, e.value, publicKey) == Ok(())
    && Loads(e.value.payload).Some? && ReadReceipt(Loads(e.value.payload).value) == Ok(r)
  }

  /** The log reads as these receipts exactly if each of its lines, in order, verifies and carries its one. */
  lemma LogReadsExactly(p: Platform, raw: Bytes, publicKey: Bytes, rs: seq<Receipt>)
    ensures ReadLog(p, raw, publicKey) == Ok(rs)
            <==> ReadAll(raw).Some? && |ReadAll(raw).value| == |rs|
                 && forall i | 0 <= i < |rs| :: LineTells(p, ReadAll(raw).value[i], publicKey, rs[i])
  {
    if ReadAll(raw).Some? {
      var read, lines := Reader(p, publicKey), ReadAll(raw).value;
      ReadsExactly(read, lines, rs);
      forall i: nat | i < |lines| && i < |rs|
        ensures read(lines[i], i) == Ok(rs[i]) <==> LineTells(p, lines[i], publicKey, rs[i])
      {
        LineReadsExactly(p, lines[i], publicKey, i, rs[i]);
      }
    }
  }

  lemma LineReadsExactly(p: Platform, line: Bytes, publicKey: Bytes, index: nat, r: Receipt)
    ensures ReadLine(p, line, publicKey, index) == Ok(r) <==> LineTells(p, line, publicKey, r)
  {
  }

  ghost predicate LineIsGood(p: Platform, line: Bytes, publicKey: Bytes) {
    exists r :: LineTells(p, line, publicKey, r)
  }

  /** Reading stops at the first line that cannot be vouched for, and names it exactly if it is an envelope
      whose signature is not good. */
  lemma StopsAtFirst(p: Platform, lines: seq<Bytes>, publicKey: Bytes, k: nat)
    requires k < |lines| && forall i | 0 <= i < k :: LineIsGood(p, lines[i], publicKey)
    requires !LineIsGood(p, lines[k], publicKey)
    ensures var e := DecodeEnvelope(lines[k]);
            ReadLines(p, lines, publicKey)
            == Err(if e.Ok? && Verify(p, e.value, publicKey) == Err(SignatureInvalid) then Unverified(k)
                   else Unreadable)
  {
    var read := Reader(p, publicKey);
    forall i: nat | i < k
      ensures read(lines[i], i).Ok?
    {
      LineReads(p, lines[i], publicKey, i);
    }
    LineFails(p, lines[k], publicKey, k);
    FailsAtFirst(read, lines, k);
  }

  lemma {:induction false} FailsAtFirst<T, E>(read: (Bytes, nat) -> Result<T, E>, lines: seq<Bytes>, k: nat)
    requires k < |lines| && read(lines[k], k).Err? && forall i: nat | i < k :: read(lines[i], i).Ok?
    ensures ReadInOrder(read, lines) == Err(read(lines[k], k).error)
    decreases |lines|
  {
    var n := |lines| - 1;
    if k < n {
      FailsAtFirst(read, lines[..n], k);
    } else {
      FrontReads(read, lines[..n]);
    }
  }

  lemma {:induction false} FrontReads<T, E>(read: (Bytes, nat) -> Result<T, E>, lines: seq<Bytes>)
    requires forall i: nat | i < |lines| :: read(lines[i], i).Ok?
    ensures ReadInOrder(read, lines).Ok?
  {
    if lines != [] {
      FrontReads(read, lines[..|lines| - 1]);
    }
  }

  lemma LineReads(p: Platform, line: Bytes, publicKey: Bytes, index: nat)
    requires LineIsGood(p, line, publicKey)
    ensures ReadLine(p, line, publicKey, index).Ok?
  {
    var r :| LineTells(p, line, publicKey, r);
    LineReadsExactly(p, line, publicKey, index, r);
  }

  lemma LineFails(p: Platform, line: Bytes, publicKey: Bytes, index: nat)
    requires !LineIsGood(p, line, publicKey)
    ensures var e := DecodeEnvelope(line);
            ReadLine(p, line, publicKey, index)
            == Err(if e.Ok? && Verify(p, e.value, publicKey) == Err(SignatureInvalid) then Unverified(index)
                   else Unreadable)
  {
    if ReadLine(p, line, publicKey, index).Ok? {
      LineReadsExactly(p, line, publicKey, index, ReadLine(p, line, publicKey, index).value);
    }
  }

  lemma {:induction false} ReadsExactly<T(!new), E>(read: (Bytes, nat) -> Result<T, E>, lines: seq<Bytes>,
                                                    items: seq<T>)
    ensures ReadInOrder(read, lines) == Ok(items)
            <==> |items| == |lines| && forall i: nat | i < |lines| :: read(lines[i], i) == Ok(items[i])
  {
    if lines != [] {
      var n := |lines| - 1;
      if |items| == |lines| {
        ReadsExactly(read, lines[..n], items[..n]);
        assert items == items[..n] + [items[n]];
      }
      var before := ReadInOrder(read, lines[..n]);
      if before.Ok? {
        ReadsExactly(read, lines[..n], before.value);
      }
    }
  }

  /** The log reads, as one unbroken chain, all of it of this site. */
  ghost predicate Vouched(p: Platform, raw: Bytes, publicKey: Bytes, site: Text, rs: seq<Receipt>) {
    ReadLog(p, raw, publicKey) == Ok(rs) && ValidChain(p, rs) && forall i | 0 <= i < |rs| :: rs[i].site == site
  }

  /** A log is resumed exactly if it can be vouched for, and then at the head of its last receipt. */
  lemma ResumesExactly(p: Platform, raw: Bytes, publicKey: Bytes, site: Text, head: ChainHead)
    ensures Resume(p, raw, publicKey, site) == Ok(head)
            <==> exists rs :: Vouched(p, raw, publicKey, site, rs) && head == HeadOf(p, rs)
  {
    var read := ReadLog(p, raw, publicKey);
    if read.Ok? && Resume(p, raw, publicKey, site).Ok? {
      assert Vouched(p, raw, publicKey, site, read.value);
    }
  }

  /** A log that reads is refused as another site's exactly if it holds a receipt of another site, and as
      broken, at the first receipt that does not continue the chain, exactly if it does not. */
  lemma RefusesExactly(p: Platform, raw: Bytes, publicKey: Bytes, site: Text, rs: seq<Receipt>)
    requires ReadLog(p, raw, publicKey) == Ok(rs)
    ensures Resume(p, raw, publicKey, site) == Err(Foreign) <==> exists i | 0 <= i < |rs| :: rs[i].site != site
    ensures forall k: nat :: Resume(p, raw, publicKey, site) == Err(Broken(k)) <==>
              (forall i | 0 <= i < |rs| :: rs[i].site == site) && BreaksFirstAt(p, rs, k)
  {
    forall k: nat ensures FirstBreak(p, rs) == Some(k) <==> BreaksFirstAt(p, rs, k) {
      BreakIsFirst(p, rs, k);
    }
  }

  ghost predicate BreaksFirstAt(p: Platform, rs: seq<Receipt>, k: nat) {
    k < |rs| && !Linked(p, rs, k) && forall i | 0 <= i < k :: Linked(p, rs, i)
  }

  lemma BreakIsFirst(p: Platform, rs: seq<Receipt>, k: nat)
    ensures FirstBreak(p, rs) == Some(k) <==> BreaksFirstAt(p, rs, k)
  {
    var at := FirstBreak(p, rs);
    if BreaksFirstAt(p, rs, k) && at.Some? {
      assert at.value >= k && k >= at.value;
    }
  }

  // ---------- recording ----------

  function Nonce(p: Platform, r: Receipt): Bytes {
    var digest := FromHex(ReceiptHash(p, r));
    if |digest| < NONCE_BYTES then digest else digest[..NONCE_BYTES]
  }

  function Seal(p: Platform, r: Receipt, now: int, key: Bytes): Result<Envelope, EnvelopeError> {
    Sign(p, MSG_DECISION_RECEIPT, r.site, now, Nonce(p, r), Dumps(Body(r)), key)
  }

  lemma SealSucceeds(p: Platform, r: Receipt, now: int, key: Bytes)
    requires p.Sound()
    ensures Seal(p, r, now, key).Ok?
  {
    assert |p.sha256(Dumps(Body(r)))| == 32;
  }

  /** The payload that `record` appends. */
  function Sealed(p: Platform, r: Receipt, now: int, key: Bytes): Bytes {
    var e := Seal(p, r, now, key);
    if e.Err? then [] else EncodeEnvelope(e.value)
  }

  /** More than any machine can hold: what keeps every length and number within a CBOR head. */
  const SIZE := 0x1000_0000_0000_0000

  ghost predicate Sized(d: Decision, now: int, detail: Text) {
    && Encodable(DecisionValue(d))
    && |EncodeDecision(d)| < SIZE
    && |detail| < SIZE
    && -SIZE < ToSeconds(now) < SIZE
  }

  lemma HeadIsShort(major: nat, n: nat)
    requires major < 8
    ensures |Head(major, n)| <= 9
  {
  }

  ghost predicate IsShort(v: Value) {
    match v
    case VText(t) => |t| < SIZE
    case VBytes(b) => |b| < SIZE
    case _ => v.VInt?
  }

  lemma StringIsShort(v: Value)
    requires IsShort(v)
    ensures |Encode(v)| < SIZE + 9
  {
    match v
    case VText(t) => HeadIsShort(3, |t|);
    case VBytes(b) => HeadIsShort(2, |b|);
    case VInt(n) => HeadIsShort(if n >= 0 then 0 else 1, if n >= 0 then n else -1 - n);
  }

  lemma {:induction false} ListIsShort(vs: seq<Value>)
    requires forall v | v in vs :: IsShort(v)
    ensures |EncodeAll(vs)| <= |vs| * (SIZE + 9)
  {
    if vs != [] {
      StringIsShort(vs[0]);
      ListIsShort(vs[1..]);
    }
  }

  /** The receipt is of a size that the wire can carry. */
  ghost predicate Carried(r: Receipt, now: int) {
    && Sized(r.decision, now, r.detail)
    && |r.site| < SIZE && |r.prevHash| < SIZE && |r.kind| < SIZE && |r.outcome| < SIZE && |r.observed| < SIZE
    && 0 <= r.number < TWO64
  }

  lemma CarriedEncodes(p: Platform, r: Receipt, now: int, key: Bytes)
    requires p.Sound() && Carried(r, now)
    ensures Encodable(Body(r))
    ensures Seal(p, r, now, key).Ok? && Encodable(EnvelopeValue(Seal(p, r, now, key).value))
  {
    SealSucceeds(p, r, now, key);
    var items := Body(r).items;
    assert IsShort(items[0]) && IsShort(items[1]) && IsShort(items[2]) && IsShort(items[3]);
    assert IsShort(items[4]) && IsShort(items[5]) && IsShort(items[6]) && IsShort(items[7]);
    ListIsShort(items);
    HeadIsShort(4, 8);
    assert |Dumps(Body(r))| <= 9 + 8 * (SIZE + 9) < TWO64;
  }

  /** What was sealed reads back, up to sub-second time. */
  lemma SealedReads(p: Platform, r: Receipt, now: int, key: Bytes, index: nat)
    requires p.Sound() && Carried(r, now)
    ensures Sealed(p, r, now, key) != []
    ensures ReadLine(p, Sealed(p, r, now, key), p.publicKey(key), index) == Ok(TruncatedReceipt(r))
  {
    CarriedEncodes(p, r, now, key);
    var e := Seal(p, r, now, key).value;
    SignedVerifies(p, MSG_DECISION_RECEIPT, r.site, now, Nonce(p, r), Dumps(Body(r)), key);
    DecodeEnvelopeOfEncode(p, e, p.publicKey(key));
    LoadsOfDumps(Body(r));
    ReadReceiptOfBody(p, r);
  }

  /** The log reads as these receipts, they form one chain of this site, and the live head is its end. */
  ghost predicate Synced(p: Platform, raw: Bytes, publicKey: Bytes, site: Text, rs: seq<Receipt>, head: ChainHead) {
    && Complete(raw)
    && ReadLog(p, raw, publicKey) == Ok(rs)
    && ValidChain(p, rs)
    && (forall i | 0 <= i < |rs| :: rs[i].site == site)
    && head == HeadOf(p, rs)
  }

  lemma SyncedResumes(p: Platform, raw: Bytes, publicKey: Bytes, site: Text, rs: seq<Receipt>, head: ChainHead)
    requires Synced(p, raw, publicKey, site, rs, head)
    ensures Resume(p, raw, publicKey, site) == Ok(head)
  {
  }

  lemma {:induction false} ReadPrefix<T, E>(read: (Bytes, nat) -> Result<T, E>, lines: seq<Bytes>, k: nat)
    requires k <= |lines| && ReadInOrder(read, lines).Ok?
    ensures |ReadInOrder(read, lines).value| == |lines|
    ensures ReadInOrder(read, lines[..k]) == Ok(ReadInOrder(read, lines).value[..k])
    decreases |lines|
  {
    var n := |lines| - 1;
    if k == |lines| {
      assert lines[..k] == lines;
      if n >= 0 {
        ReadPrefix(read, lines[..n], n);
      }
      var items := ReadInOrder(read, lines).value;
      assert |items| == |lines| && items[..k] == items;
    } else {
      ReadPrefix(read, lines[..n], k);
      assert lines[..n][..k] == lines[..k];
      var items, front := ReadInOrder(read, lines).value, ReadInOrder(read, lines[..n]).value;
      assert items[..n] == front;
      assert items[..k] == front[..k];
    }
  }

  lemma PrefixOfChain(p: Platform, rs: seq<Receipt>, k: nat)
    requires ValidChain(p, rs) && k <= |rs|
    ensures ValidChain(p, rs[..k])
  {
    forall i | 0 <= i < k ensures Linked(p, rs[..k], i) {
      assert Linked(p, rs, i);
    }
  }

  /** Wherever a power cut tears a log, it is resumed at the last receipt whose line is whole. */
  lemma TornLogResumes(p: Platform, payloads: seq<Bytes>, cut: nat, publicKey: Bytes, site: Text,
                       rs: seq<Receipt>, head: ChainHead)
    requires NoneEmpty(payloads) && cut <= |LogOf(payloads)|
    requires Synced(p, LogOf(payloads), publicKey, site, rs, head)
    ensures var k := WholeBefore(payloads, cut);
            k <= |rs| && ReadLog(p, LogOf(payloads)[..cut], publicKey) == Ok(rs[..k])
            && Resume(p, LogOf(payloads)[..cut], publicKey, site) == Ok(HeadOf(p, rs[..k]))
  {
    var k := WholeBefore(payloads, cut);
    ReadWholeLog(payloads);
    TornLogReads(payloads, cut);
    ReadPrefix(Reader(p, publicKey), payloads, k);
    PrefixOfChain(p, rs, k);
  }

  lemma HeadOfChain(p: Platform, rs: seq<Receipt>)
    requires p.Sound() && ValidChain(p, rs)
    ensures HeadOf(p, rs).number == |rs| && |HeadOf(p, rs).hash| == 64
  {
    if rs != [] {
      assert Linked(p, rs, |rs| - 1);
      assert |p.sha256(Dumps(Body(rs[|rs| - 1])))| == 32;
    }
  }

  lemma ReadLogAfterAppend(p: Platform, raw: Bytes, publicKey: Bytes, rs: seq<Receipt>, payload: Bytes, r: Receipt)
    requires Complete(raw) && ReadLog(p, raw, publicKey) == Ok(rs)
    requires payload != [] && forall index: nat :: ReadLine(p, payload, publicKey, index) == Ok(r)
    ensures Complete(raw + Line(payload)) && ReadLog(p, raw + Line(payload), publicKey) == Ok(rs + [r])
  {
    ReadAfterAppend(raw, payload);
    ReadOneMore(Reader(p, publicKey), ReadAll(raw).value, payload);
  }

  /** The next receipt after a head. */
  function Next(site: Text, head: ChainHead, kind: Text, d: Decision, outcome: Text, observed: Text, detail: Text)
    : Receipt
  {
    Receipt(site, head.number + 1, head.hash, kind, d, outcome, observed, detail)
  }

  /** Recording keeps log and head in step: the log gains exactly the new receipt. */
  lemma RecordKeepsSynced(p: Platform, raw: Bytes, key: Bytes, site: Text, rs: seq<Receipt>, head: ChainHead,
                          r: Receipt, now: int)
    requires p.Sound() && Synced(p, raw, p.publicKey(key), site, rs, head)
    requires r == Next(site, head, r.kind, r.decision, r.outcome, r.observed, r.detail)
    requires |rs| + 1 < TWO64 && Sized(r.decision, now, r.detail)
    requires |site| < SIZE && |r.kind| < SIZE && |r.outcome| < SIZE && |r.observed| < SIZE
    ensures Synced(p, raw + Line(Sealed(p, r, now, key)), p.publicKey(key), site, rs + [TruncatedReceipt(r)],
                   ChainHead(r.number, ReceiptHash(p, r)))
  {
    HeadOfChain(p, rs);
    var payload := Sealed(p, r, now, key);
    forall index: nat ensures ReadLine(p, payload, p.publicKey(key), index) == Ok(TruncatedReceipt(r)) {
      SealedReads(p, r, now, key, index);
    }
    SealedReads(p, r, now, key, 0);
    ReadLogAfterAppend(p, raw, p.publicKey(key), rs, payload, TruncatedReceipt(r));
    ReadReceiptOfBody(p, r);
    ChainExtends(p, rs, TruncatedReceipt(r));
  }

  /** A line that carries more behind its envelope reads as the envelope alone. */
  lemma ReadLineExtends(p: Platform, line: Bytes, more: Bytes, publicKey: Bytes, index: nat)
    requires ReadLine(p, line, publicKey, index).Ok?
    ensures ReadLine(p, line + more, publicKey, index) == ReadLine(p, line, publicKey, index)
  {
    LoadsExtends(line, more);
  }

  lemma ReadOneMore<T, E>(read: (Bytes, nat) -> Result<T, E>, front: seq<Bytes>, line: Bytes)
    ensures ReadInOrder(read, front + [line]) ==
            if ReadInOrder(read, front).Err? then ReadInOrder(read, front)
            else if read(line, |front|).Err? then Err(read(line, |front|).error)
            else Ok(ReadInOrder(read, front).value + [read(line, |front|).value])
  {
    assert (front + [line])[..|front|] == front;
  }

  lemma {:induction false} ReadItem<T, E>(read: (Bytes, nat) -> Result<T, E>, lines: seq<Bytes>, items: seq<T>, k: nat)
    requires ReadInOrder(read, lines) == Ok(items) && k < |lines|
    ensures |items| == |lines| && read(lines[k], k) == Ok(items[k])
    decreases |lines|
  {
    var n := |lines| - 1;
    var before := ReadInOrder(read, lines[..n]).value;
    if n > 0 {
      ReadItem(read, lines[..n], before, if k < n then k else 0);
    }
  }

  /** Another line in the place of the last one read. */
  lemma ReadWithLast<T, E>(read: (Bytes, nat) -> Result<T, E>, lines: seq<Bytes>, items: seq<T>, k: nat, last: Bytes)
    requires ReadInOrder(read, lines) == Ok(items) && k < |lines|
    ensures |items| == |lines| && ReadInOrder(read, lines[..k] + [last]) ==
            if read(last, k).Err? then Err(read(last, k).error) else Ok(items[..k] + [read(last, k).value])
  {
    ReadPrefix(read, lines, k);
    ReadOneMore(read, lines[..k], last);
  }

  /** A line that reads the same. */
  lemma ReadReplaced<T, E>(read: (Bytes, nat) -> Result<T, E>, lines: seq<Bytes>, items: seq<T>, k: nat, last: Bytes)
    requires ReadInOrder(read, lines) == Ok(items) && k < |lines| && read(last, k) == read(lines[k], k)
    ensures k < |items| && ReadInOrder(read, lines[..k] + [last]) == Ok(items[..k + 1])
  {
    ReadItem(read, lines, items, k);
    ReadWithLast(read, lines, items, k, last);
    FrontAndNext(items, k);
  }

  lemma FrontAndNext<T>(items: seq<T>, k: nat)
    requires k < |items|
    ensures items[..k] + [items[k]] == items[..k + 1]
  {
  }

  /** What is left of the torn line `k`, and what it decodes to once the next append has joined it. */
  function Joined(payloads: seq<Bytes>, k: nat, m: nat, next: Bytes): Option<Bytes>
    requires k < |payloads| && m <= |Base64(payloads[k])|
  {
    Unbase64(Base64(payloads[k])[..m] + Base64(next))
  }

  /** A log of a synced chain that is torn within line `k`, and appended to: it reads as the receipts before
      line `k` and whatever the joined line reads as. */
  lemma ReadJoinedLog(p: Platform, payloads: seq<Bytes>, k: nat, m: nat, publicKey: Bytes, rs: seq<Receipt>,
                      next: Bytes)
    requires NoneEmpty(payloads) && k < |payloads| && m <= |Base64(payloads[k])| && next != []
    requires ReadLines(p, payloads, publicKey) == Ok(rs)
    ensures |rs| == |payloads| && ReadLine(p, payloads[k], publicKey, k) == Ok(rs[k])
    ensures var torn, joined := LogOf(payloads[..k]) + Base64(payloads[k])[..m], Joined(payloads, k, m, next);
            ReadLog(p, torn + Line(next), publicKey) ==
            if joined.None? then Err(Unreadable)
            else
              var last := ReadLine(p, joined.value, publicKey, k);
              if last.Err? then Err(last.error) else Ok(rs[..k] + [last.value])
  {
    ReadBehindTail(payloads[..k], payloads[k], m, next);
    var joined := Joined(payloads, k, m, next);
    ReadItem(Reader(p, publicKey), payloads, rs, k);
    ReadWithLast(Reader(p, publicKey), payloads, rs, k, if joined.Some? then joined.value else []);
  }

  /** Every front of a synced log is synced with the head it resumes at. */
  lemma FrontSynced(p: Platform, payloads: seq<Bytes>, k: nat, publicKey: Bytes, site: Text, rs: seq<Receipt>)
    requires NoneEmpty(payloads) && k <= |payloads|
    requires Synced(p, LogOf(payloads), publicKey, site, rs, HeadOf(p, rs))
    ensures ReadLines(p, payloads, publicKey) == Ok(rs) && |rs| == |payloads|
    ensures Synced(p, LogOf(payloads[..k]), publicKey, site, rs[..k], HeadOf(p, rs[..k]))
  {
    ReadWholeLog(payloads);
    ReadWholeLog(payloads[..k]);
    ReadPrefix(Reader(p, publicKey), payloads, k);
    PrefixOfChain(p, rs, k);
  }

  /** Torn on a line boundary and resumed, log and head stay in step when the next receipt is recorded. */
  lemma RecordOnBoundary(p: Platform, payloads: seq<Bytes>, k: nat, key: Bytes, site: Text, rs: seq<Receipt>,
                         r: Receipt, now: int)
    requires p.Sound() && NoneEmpty(payloads) && k <= |payloads| && k <= |rs| && |rs| + 1 < TWO64
    requires Synced(p, LogOf(payloads), p.publicKey(key), site, rs, HeadOf(p, rs))
    requires r == Next(site, HeadOf(p, rs[..k]), r.kind, r.decision, r.outcome, r.observed, r.detail)
    requires Sized(r.decision, now, r.detail)
    requires |site| < SIZE && |r.kind| < SIZE && |r.outcome| < SIZE && |r.observed| < SIZE
    ensures Synced(p, LogOf(payloads[..k]) + Line(Sealed(p, r, now, key)), p.publicKey(key), site,
                   rs[..k] + [TruncatedReceipt(r)], ChainHead(r.number, ReceiptHash(p, r)))
  {
    FrontSynced(p, payloads, k, p.publicKey(key), site, rs);
    RecordKeepsSynced(p, LogOf(payloads[..k]), key, site, rs[..k], HeadOf(p, rs[..k]), r, now);
  }

  lemma FrontIsChain(p: Platform, rs: seq<Receipt>, k: nat, site: Text)
    requires ValidChain(p, rs) && k < |rs| && forall i | 0 <= i < |rs| :: rs[i].site == site
    ensures ValidChain(p, rs[..k + 1]) && HeadOf(p, rs[..k + 1]) == ChainHead(k + 1, ReceiptHash(p, rs[k]))
    ensures var front := rs[..k + 1]; forall i | 0 <= i < |front| :: front[i].site == site
  {
    PrefixOfChain(p, rs, k + 1);
    assert Linked(p, rs, k);
  }

  /** A log reads as one list of receipts, so it is in step with one head alone. */
  lemma SyncedAlone(p: Platform, raw: Bytes, publicKey: Bytes, site: Text, rs: seq<Receipt>, head: ChainHead)
    requires Complete(raw) && ReadLog(p, raw, publicKey) == Ok(rs) && ValidChain(p, rs)
    requires forall i | 0 <= i < |rs| :: rs[i].site == site
    ensures InStep(p, raw, publicKey, site, head) <==> head == HeadOf(p, rs)
  {
    if head == HeadOf(p, rs) {
      assert Synced(p, raw, publicKey, site, rs, head);
    }
  }

  /** What a log reads as when the last receipt's line, cut to `m` bytes, is joined by this payload. */
  function JoinedLog(payloads: seq<Bytes>, k: nat, m: nat, next: Bytes): Bytes
    requires k < |payloads| && m <= |Base64(payloads[k])|
  {
    LogOf(payloads[..k]) + Base64(payloads[k])[..m] + Line(next)
  }

  /** The log reads as some chain of the site, and the head is its end. */
  ghost predicate InStep(p: Platform, raw: Bytes, publicKey: Bytes, site: Text, head: ChainHead) {
    exists all :: Synced(p, raw, publicKey, site, all, head)
  }

  /** A joined line that begins with the torn payload reads as the torn receipt: that receipt comes back,
      what was appended is lost, and log and head are in step exactly if the head is the torn receipt's. */
  lemma RecordBehindTornPayload(p: Platform, payloads: seq<Bytes>, k: nat, m: nat, publicKey: Bytes, site: Text,
                                rs: seq<Receipt>, next: Bytes, head: ChainHead)
    requires NoneEmpty(payloads) && k < |payloads| && m <= |Base64(payloads[k])| && next != []
    requires Synced(p, LogOf(payloads), publicKey, site, rs, HeadOf(p, rs))
    requires var joined := Joined(payloads, k, m, next); joined.Some? && payloads[k] <= joined.value
    ensures var log := JoinedLog(payloads, k, m, next);
            && k < |rs| && ReadLog(p, log, publicKey) == Ok(rs[..k + 1])
            && (InStep(p, log, publicKey, site, head) <==> head == ChainHead(k + 1, ReceiptHash(p, rs[k])))
  {
    FrontSynced(p, payloads, k, publicKey, site, rs);
    ReadBehindTornPayload(p, payloads, k, m, publicKey, rs, next);
    FrontIsChain(p, rs, k, site);
    SyncedAlone(p, JoinedLog(payloads, k, m, next), publicKey, site, rs[..k + 1], head);
  }

  lemma BeginningReads(p: Platform, payload: Bytes, line: Bytes, publicKey: Bytes, index: nat)
    requires ReadLine(p, payload, publicKey, index).Ok? && payload <= line
    ensures ReadLine(p, line, publicKey, index) == ReadLine(p, payload, publicKey, index)
  {
    ReadLineExtends(p, payload, line[|payload|..], publicKey, index);
    assert payload + line[|payload|..] == line;
  }

  lemma ReadBehindTornPayload(p: Platform, payloads: seq<Bytes>, k: nat, m: nat, publicKey: Bytes, rs: seq<Receipt>,
                              next: Bytes)
    requires NoneEmpty(payloads) && k < |payloads| && m <= |Base64(payloads[k])| && next != []
    requires ReadLines(p, payloads, publicKey) == Ok(rs)
    requires var joined := Joined(payloads, k, m, next); joined.Some? && payloads[k] <= joined.value
    ensures var log := JoinedLog(payloads, k, m, next);
            k < |rs| && Complete(log) && ReadLog(p, log, publicKey) == Ok(rs[..k + 1])
  {
    var read, joined := Reader(p, publicKey), Joined(payloads, k, m, next).value;
    ReadBehindTail(payloads[..k], payloads[k], m, next);
    ReadItem(read, payloads, rs, k);
    BeginningReads(p, payloads[k], joined, publicKey, k);
    ReadReplaced(read, payloads, rs, k, joined);
  }

  /** When a tear took one newline alone, the torn receipt comes back with the next append and what was
      appended is lost, whatever it was: log and live head are then in step exactly if the receipt
      recorded hashes as the one that came back. */
  lemma RecordBehindWholeLine(p: Platform, payloads: seq<Bytes>, k: nat, publicKey: Bytes, site: Text,
                              rs: seq<Receipt>, next: Bytes, head: ChainHead)
    requires NoneEmpty(payloads) && k < |payloads| && next != []
    requires Synced(p, LogOf(payloads), publicKey, site, rs, HeadOf(p, rs))
    ensures var log := LogOf(payloads[..k]) + Base64(payloads[k]) + Line(next);
            && k < |rs| && ReadLog(p, log, publicKey) == Ok(rs[..k + 1])
            && (InStep(p, log, publicKey, site, head) <==>
                head == ChainHead(k + 1, ReceiptHash(p, rs[k])))
  {
    var m := |Base64(payloads[k])|;
    assert Base64(payloads[k])[..m] == Base64(payloads[k]);
    WholeJoined(payloads[k], next);
    RecordBehindTornPayload(p, payloads, k, m, publicKey, site, rs, next, head);
  }

  /** When a tear took some of the padding, or all of it, along with the newline: if both lines have one
      byte more than whole groups, the torn receipt comes back and what was appended is lost; if not,
      the log does not read any more. */
  lemma RecordWithinPadding(p: Platform, payloads: seq<Bytes>, k: nat, m: nat, publicKey: Bytes, site: Text,
                            rs: seq<Receipt>, next: Bytes, head: ChainHead)
    requires NoneEmpty(payloads) && k < |payloads| && next != []
    requires DigitsIn(|payloads[k]|) <= m < |Base64(payloads[k])|
    requires Synced(p, LogOf(payloads), publicKey, site, rs, HeadOf(p, rs))
    ensures var log, comesBack := JoinedLog(payloads, k, m, next), |payloads[k]| % 3 == 1 && |next| % 3 == 1;
            && k < |rs|
            && ReadLog(p, log, publicKey) == (if comesBack then Ok(rs[..k + 1]) else Err(Unreadable))
            && (InStep(p, log, publicKey, site, head) <==>
                comesBack && head == ChainHead(k + 1, ReceiptHash(p, rs[k])))
  {
    FrontSynced(p, payloads, k, publicKey, site, rs);
    JoinedWithinPadding(payloads[k], m, next);
    if Joined(payloads, k, m, next).Some? {
      RecordBehindTornPayload(p, payloads, k, m, publicKey, site, rs, next, head);
    } else {
      ReadJoinedLog(p, payloads, k, m, publicKey, rs, next);
    }
  }

  /** Torn within a line, the log reads after the next append only if the digits left of the torn line make
      up groups with those of the next, by their counts alone. */
  lemma RecordWithinLine(p: Platform, payloads: seq<Bytes>, k: nat, m: nat, publicKey: Bytes, rs: seq<Receipt>,
                         next: Bytes)
    requires NoneEmpty(payloads) && k < |payloads| && 0 < m < |Base64(payloads[k])| && next != []
    requires ReadLines(p, payloads, publicKey) == Ok(rs)
    ensures var joined := Joined(payloads, k, m, next);
            && (joined.Some? <==> Completes(DigitsLeft(|payloads[k]|, m) % 4, |next|))
            && (joined.Some? ==> |joined.value| > |next|)
            && (joined.None? ==> ReadLog(p, JoinedLog(payloads, k, m, next), publicKey) == Err(Unreadable))
            && (ReadLog(p, JoinedLog(payloads, k, m, next), publicKey).Ok? <==>
                joined.Some? && ReadLine(p, joined.value, publicKey, k).Ok?)
  {
    ReadJoinedLog(p, payloads, k, m, publicKey, rs, next);
    PartJoined(payloads[k], m, next);
    JoinedDecodes(payloads[k], m, next);
  }

  // ---------- recording on a torn log, when only what was signed verifies ----------

  /** The two lines carry one and the same envelope. */
  predicate Carries(a: Bytes, b: Bytes) {
    DecodeEnvelope(a).Ok? && DecodeEnvelope(a) == DecodeEnvelope(b)
  }

  /** What signatures are for, asked of one line: if it verifies, its envelope is one of those signed. */
  ghost predicate OnlySigned(p: Platform, line: Bytes, publicKey: Bytes, signed: seq<Bytes>) {
    var e := DecodeEnvelope(line);
    e.Ok? && Verify(p, e.value, publicKey).Ok? ==> exists i :: 0 <= i < |signed| && Carries(line, signed[i])
  }

  /** A line that begins with another carries the other's envelope; if its envelope is in canonical form,
      it carries no other line's. */
  lemma CarriesIffBegins(line: Bytes, e: Envelope)
    requires Encodable(EnvelopeValue(e)) && Decode(line, true).Item?
    ensures Carries(line, EncodeEnvelope(e)) <==> EncodeEnvelope(e) <= line
  {
    var other := EncodeEnvelope(e);
    LoadsOfDumps(EnvelopeValue(e));
    if other <= line {
      LoadsExtends(other, line[|other|..]);
      assert other + line[|other|..] == line;
    }
    if Carries(line, other) {
      StrictIffReencodes(line);
      EncodeOfStrictDecode(line);
      EnvelopeDecidesValue(line, other);
    }
  }

  /** What a log with any tail reads as once a line is appended: the tail joins the line. */
  lemma ReadLogBehindTail(p: Platform, raw: Bytes, publicKey: Bytes, rs: seq<Receipt>, next: Bytes)
    requires ReadLog(p, raw, publicKey) == Ok(rs) && next != []
    ensures Complete(raw + Line(next))
    ensures var joined := Unbase64(Split(raw).tail + Base64(next));
            ReadLog(p, raw + Line(next), publicKey) ==
            if joined.None? then Err(Unreadable)
            else
              var last := ReadLine(p, joined.value, publicKey, |rs|);
              if last.Err? then Err(last.error) else Ok(rs + [last.value])
  {
    Base64HasNoNewline(next);
    LinesAfterAppend(raw, Base64(next));
    ReadJoined(raw, next);
    var lines, joined := ReadAll(raw).value, Unbase64(Split(raw).tail + Base64(next));
    ReadPrefix(Reader(p, publicKey), lines, 0);
    if joined.Some? {
      ReadOneMore(Reader(p, publicKey), lines, joined.value);
    }
  }

  /** One more receipt behind a chain of the site is in step exactly with its own head, if it continues
      the chain. */
  lemma InStepWithLast(p: Platform, raw: Bytes, publicKey: Bytes, site: Text, rs: seq<Receipt>, last: Receipt,
                       head: ChainHead)
    requires Complete(raw) && ReadLog(p, raw, publicKey) == Ok(rs + [last])
    requires ValidChain(p, rs) && forall i | 0 <= i < |rs| :: rs[i].site == site
    ensures InStep(p, raw, publicKey, site, head) <==>
            && last.site == site && last.number == |rs| + 1 && last.prevHash == HeadOf(p, rs).hash
            && head == ChainHead(last.number, ReceiptHash(p, last))
  {
    var all := rs + [last];
    assert all[..|rs|] == rs && all[|rs|] == last;
    if InStep(p, raw, publicKey, site, head) {
      assert Linked(p, all, |rs|);
    }
    if last.site == site && last.number == |rs| + 1 && last.prevHash == HeadOf(p, rs).hash {
      ChainExtends(p, rs, last);
      assert head == HeadOf(p, all) ==> Synced(p, raw, publicKey, site, all, head);
    }
  }

  /** What a line reads as if it carries the envelope of a line that was read. */
  lemma CarriedItem(p: Platform, payloads: seq<Bytes>, publicKey: Bytes, rs: seq<Receipt>, i: nat, line: Bytes,
                    index: nat)
    requires ReadLines(p, payloads, publicKey) == Ok(rs) && i < |payloads| && Carries(line, payloads[i])
    ensures |rs| == |payloads| && ReadLine(p, line, publicKey, index) == Ok(rs[i])
  {
    ReadItem(Reader(p, publicKey), payloads, rs, i);
  }

  /** The line carries the envelope of payload `k`. */
  predicate CarriesTorn(line: Bytes, payloads: seq<Bytes>, k: nat) {
    k < |payloads| && Carries(line, payloads[k])
  }

  /** A signed line that has number `k + 1` carries the new envelope or that of payload `k`. */
  lemma SignedContinues(p: Platform, payloads: seq<Bytes>, publicKey: Bytes, rs: seq<Receipt>, k: nat, next: Bytes,
                        line: Bytes)
    requires ReadLines(p, payloads, publicKey) == Ok(rs) && ValidChain(p, rs)
    requires OnlySigned(p, line, publicKey, payloads + [next])
    requires var last := ReadLine(p, line, publicKey, k); last.Ok? && last.value.number == k + 1
    ensures Carries(line, next) || CarriesTorn(line, payloads, k)
  {
    var signed := payloads + [next];
    var i := SignedBy(p, line, publicKey, k, signed);
    if i < |payloads| {
      assert signed[i] == payloads[i];
      CarriedNumber(p, payloads, publicKey, rs, i, line, k);
    }
  }

  lemma CarriedNumber(p: Platform, payloads: seq<Bytes>, publicKey: Bytes, rs: seq<Receipt>, i: nat, line: Bytes,
                      index: nat)
    requires ReadLines(p, payloads, publicKey) == Ok(rs) && ValidChain(p, rs)
    requires i < |payloads| && Carries(line, payloads[i])
    ensures var last := ReadLine(p, line, publicKey, index); last.Ok? && last.value.number == i + 1
  {
    CarriedItem(p, payloads, publicKey, rs, i, line, index);
    assert Linked(p, rs, i);
  }

  lemma SignedBy(p: Platform, line: Bytes, publicKey: Bytes, index: nat, signed: seq<Bytes>) returns (i: nat)
    requires OnlySigned(p, line, publicKey, signed) && ReadLine(p, line, publicKey, index).Ok?
    ensures i < |signed| && Carries(line, signed[i])
  {
    i :| i < |signed| && Carries(line, signed[i]);
  }

  /** What is recorded, and read back as, on the log that `TornLogResumes` resumed. */
  ghost predicate Records(p: Platform, key: Bytes, site: Text, rs: seq<Receipt>, r: Receipt, now: int) {
    && r == Next(site, HeadOf(p, rs), r.kind, r.decision, r.outcome, r.observed, r.detail)
    && Sized(r.decision, now, r.detail)
    && |site| < SIZE && |r.kind| < SIZE && |r.outcome| < SIZE && |r.observed| < SIZE
  }

  /** Wherever a power cut tore the log, once it is resumed and recorded to: log and live head are in step
      if and only if the tail that the tear left, joined by the new line, carries the new receipt's
      envelope, or the torn receipt's and the two receipts hash alike. This asks of signatures that
      the joined bytes verify only as something the site signed. */
  lemma RecordAfterTear(p: Platform, payloads: seq<Bytes>, cut: nat, key: Bytes, site: Text, rs: seq<Receipt>,
                        r: Receipt, now: int)
    requires p.Sound() && NoneEmpty(payloads) && cut <= |LogOf(payloads)| && |payloads| == |rs| < TWO64 - 1
    requires Synced(p, LogOf(payloads), p.publicKey(key), site, rs, HeadOf(p, rs))
    requires Records(p, key, site, rs[..WholeBefore(payloads, cut)], r, now)
    requires var raw, next := LogOf(payloads)[..cut], Sealed(p, r, now, key);
             var joined := Unbase64(Split(raw).tail + Base64(next));
             joined.Some? ==> OnlySigned(p, joined.value, p.publicKey(key), payloads + [next])
    ensures var k, raw, next := WholeBefore(payloads, cut), LogOf(payloads)[..cut], Sealed(p, r, now, key);
            var joined := Unbase64(Split(raw).tail + Base64(next));
            InStep(p, raw + Line(next), p.publicKey(key), site, ChainHead(r.number, ReceiptHash(p, r))) <==>
            joined.Some? && (Carries(joined.value, next)
                             || (CarriesTorn(joined.value, payloads, k)
                                 && ReceiptHash(p, rs[k]) == ReceiptHash(p, r)))
  {
    var k, raw, next := WholeBefore(payloads, cut), LogOf(payloads)[..cut], Sealed(p, r, now, key);
    TornLogResumes(p, payloads, cut, p.publicKey(key), site, rs, HeadOf(p, rs));
    FrontSynced(p, payloads, k, p.publicKey(key), site, rs);
    TornTailJoins(p, payloads, raw, k, key, site, rs, r, now);
  }

  lemma TornTailJoins(p: Platform, payloads: seq<Bytes>, raw: Bytes, k: nat, key: Bytes, site: Text,
                      rs: seq<Receipt>, r: Receipt, now: int)
    requires p.Sound() && k <= |payloads| == |rs| < TWO64 - 1
    requires ReadLines(p, payloads, p.publicKey(key)) == Ok(rs) && ValidChain(p, rs)
    requires forall i | 0 <= i < |rs| :: rs[i].site == site
    requires ReadLog(p, raw, p.publicKey(key)) == Ok(rs[..k]) && Records(p, key, site, rs[..k], r, now)
    requires var next := Sealed(p, r, now, key);
             var joined := Unbase64(Split(raw).tail + Base64(next));
             joined.Some? ==> OnlySigned(p, joined.value, p.publicKey(key), payloads + [next])
    ensures var next := Sealed(p, r, now, key);
            var joined := Unbase64(Split(raw).tail + Base64(next));
            InStep(p, raw + Line(next), p.publicKey(key), site, ChainHead(r.number, ReceiptHash(p, r))) <==>
            joined.Some? && (Carries(joined.value, next)
                             || (CarriesTorn(joined.value, payloads, k)
                                 && ReceiptHash(p, rs[k]) == ReceiptHash(p, r)))
  {
    var next, publicKey := Sealed(p, r, now, key), p.publicKey(key);
    var joined := Unbase64(Split(raw).tail + Base64(next));
    PrefixOfChain(p, rs, k);
    HeadOfChain(p, rs[..k]);
    SealedReads(p, r, now, key, k);
    ReadReceiptOfBody(p, r);
    ReadLogBehindTail(p, raw, publicKey, rs[..k], next);
    if joined.Some? {
      JoinedInStep(p, payloads, raw + Line(next), k, publicKey, site, rs, r, next, joined.value);
    }
  }

  lemma JoinedInStep(p: Platform, payloads: seq<Bytes>, log: Bytes, k: nat, publicKey: Bytes, site: Text,
                     rs: seq<Receipt>, r: Receipt, next: Bytes, line: Bytes)
    requires k <= |payloads| == |rs| && ReadLines(p, payloads, publicKey) == Ok(rs) && ValidChain(p, rs)
    requires forall i | 0 <= i < |rs| :: rs[i].site == site
    requires r.site == site && r.number == k + 1 && r.prevHash == HeadOf(p, rs[..k]).hash
    requires ReadLine(p, next, publicKey, k) == Ok(TruncatedReceipt(r))
    requires ReceiptHash(p, TruncatedReceipt(r)) == ReceiptHash(p, r)
    requires OnlySigned(p, line, publicKey, payloads + [next])
    requires Complete(log)
    requires var last := ReadLine(p, line, publicKey, k);
             ReadLog(p, log, publicKey) == if last.Err? then Err(last.error) else Ok(rs[..k] + [last.value])
    ensures InStep(p, log, publicKey, site, ChainHead(r.number, ReceiptHash(p, r))) <==>
            Carries(line, next) || (CarriesTorn(line, payloads, k) && ReceiptHash(p, rs[k]) == ReceiptHash(p, r))
  {
    var last, head := ReadLine(p, line, publicKey, k), ChainHead(r.number, ReceiptHash(p, r));
    if CarriesTorn(line, payloads, k) {
      CarriedItem(p, payloads, publicKey, rs, k, line, k);
    }
    if last.Ok? {
      PrefixOfChain(p, rs, k);
      InStepWithLast(p, log, publicKey, site, rs[..k], last.value, head);
      if last.value.number == k + 1 {
        SignedContinues(p, payloads, publicKey, rs, k, next, line);
      }
      LastDecides(p, rs, k, site, r, last.value, Carries(line, next), CarriesTorn(line, payloads, k),
                  InStep(p, log, publicKey, site, head));
    }
  }

  lemma LastDecides(p: Platform, rs: seq<Receipt>, k: nat, site: Text, r: Receipt, last: Receipt, carriesNew: bool,
                    carriesTorn: bool, inStep: bool)
    requires ValidChain(p, rs) && k <= |rs| && forall i | 0 <= i < |rs| :: rs[i].site == site
    requires r.site == site && r.number == k + 1 && r.prevHash == HeadOf(p, rs[..k]).hash
    requires carriesNew ==> last == TruncatedReceipt(r)
    requires ReceiptHash(p, TruncatedReceipt(r)) == ReceiptHash(p, r)
    requires carriesTorn ==> k < |rs| && last == rs[k]
    requires last.number == k + 1 ==> carriesNew || carriesTorn
    requires inStep <==>
             && last.site == site && last.number == k + 1 && last.prevHash == HeadOf(p, rs[..k]).hash
             && ChainHead(r.number, ReceiptHash(p, r)) == ChainHead(last.number, ReceiptHash(p, last))
    ensures inStep <==> carriesNew || (carriesTorn && ReceiptHash(p, rs[k]) == ReceiptHash(p, r))
  {
    if carriesTorn {
      assert Linked(p, rs, k);
    }
  }

  lemma ChainExtends(p: Platform, rs: seq<Receipt>, r: Receipt)
    requires ValidChain(p, rs) && r.number == |rs| + 1 && r.prevHash == HeadOf(p, rs).hash
    ensures ValidChain(p, rs + [r])
  {
    var all := rs + [r];
    forall i | 0 <= i < |all| ensures Linked(p, all, i) {
      if i < |rs| {
        assert Linked(p, rs, i);
      }
    }
  }

  class ReceiptChain {
    const p: Platform
    const site: Text
    const sink: FileReceiptSink
    const key: Bytes
    var number: int
    var prevHash: Text

    constructor (p: Platform, site: Text, sink: FileReceiptSink, key: Bytes, head: ChainHead := GENESIS)
      ensures this.p == p && this.site == site && this.sink == sink && this.key == key
      ensures this.number == head.number && this.prevHash == head.hash
    {
      this.p, this.site, this.sink, this.key := p, site, sink, key;
      this.number, this.prevHash := head.number, head.hash;
    }

    function CurrentHead(): ChainHead
      reads this
    {
      ChainHead(number, prevHash)
    }

    /** Resumes an existing log or starts a new one; refuses a log of another site or a broken one. */
    static method Recover(p: Platform, sink: FileReceiptSink, key: Bytes, site: Text)
      returns (r: Result<ReceiptChain, ChainError>)
      ensures r.Ok? <==> exists rs :: Vouched(p, sink.raw, p.publicKey(key), site, rs)
      ensures r.Ok? ==>
                && fresh(r.value) && r.value.p == p && r.value.site == site && r.value.sink == sink
                && r.value.key == key
                && exists rs :: Vouched(p, sink.raw, p.publicKey(key), site, rs)
                                && r.value.CurrentHead() == HeadOf(p, rs)
      ensures r.Err? ==> Resume(p, sink.raw, p.publicKey(key), site) == Err(r.error)
    {
      var read := ReadChain(p, sink, p.publicKey(key));
      if read.Err? {
        return Err(read.error);
      }
      var receipts := read.value;
      assert forall rs | Vouched(p, sink.raw, p.publicKey(key), site, rs) :: rs == receipts;
      if receipts == [] {
        assert Vouched(p, sink.raw, p.publicKey(key), site, receipts);
        var started := new ReceiptChain(p, site, sink, key);
        return Ok(started);
      }
      if HasForeign(receipts, site) {
        return Err(Foreign);
      }
      var verified := VerifyChain(p, receipts);
      if verified.Err? {
        return Err(verified.error);
      }
      assert Vouched(p, sink.raw, p.publicKey(key), site, receipts);
      var resumed := new ReceiptChain(p, site, sink, key, HeadOf(p, receipts));
      return Ok(resumed);
    }

    /** Appends one signed, linked receipt and moves the head onto it. */
    method Record(d: Decision, now: int, kind: Text, outcome: Text, observed: Text, detail: Text)
      returns (r: Receipt)
      requires p.Sound()
      modifies this, sink
      ensures r == Next(site, old(CurrentHead()), kind, d, outcome, observed, detail)
      ensures sink.raw == old(sink.raw) + Line(Sealed(p, r, now, key))
      ensures CurrentHead() == ChainHead(r.number, ReceiptHash(p, r))
    {
      r := Receipt(site, number + 1, prevHash, kind, d, outcome, observed, detail);
      SealSucceeds(p, r, now, key);
      var e := Seal(p, r, now, key);
      sink.Append(EncodeEnvelope(e.value));
      number := r.number;
      prevHash := ReceiptHash(p, r);
    }
  }

  // ---------- tamper evidence ----------

  /** No collision among the receipts of two lists. */
  ghost predicate NoCollision(p: Platform, a: seq<Receipt>, b: seq<Receipt>) {
    forall i, j | 0 <= i < |a| && 0 <= j < |b| :: NoCollisionBetween(p, a[i], b[j])
  }

  ghost predicate ReceiptEncodable(r: Receipt) {
    Encodable(Body(r)) && Encodable(DecisionValue(r.decision))
  }

  ghost predicate AllEncodable(rs: seq<Receipt>) {
    forall i | 0 <= i < |rs| :: ReceiptEncodable(rs[i])
  }

  ghost predicate NoCollisionBetween(p: Platform, a: Receipt, b: Receipt) {
    p.Distinguishes(Dumps(Body(a)), Dumps(Body(b)))
  }

  /** Two accepted runs that end in the same hash are the same run: of one length and, receipt by
      receipt, of one content on the wire. */
  lemma SameHeadSameChain(p: Platform, a: seq<Receipt>, b: seq<Receipt>)
    requires ValidChain(p, a) && ValidChain(p, b) && a != [] && b != []
    requires AllEncodable(a) && AllEncodable(b) && NoCollision(p, a, b)
    requires HeadOf(p, a).hash == HeadOf(p, b).hash
    ensures |a| == |b| && forall i | 0 <= i < |a| :: TruncatedReceipt(a[i]) == TruncatedReceipt(b[i])
  {
    var m, n := |a| - 1, |b| - 1;
    assert ReceiptEncodable(a[m]) && ReceiptEncodable(b[n]) && NoCollisionBetween(p, a[m], b[n]);
    assert Linked(p, a, m) && Linked(p, b, n);
    SameHashSameReceipt(p, a[m], b[n]);
    SameHashSameHistory(p, a, b, m);
  }

  /** Where two accepted runs hash alike, their whole histories are alike. */
  lemma {:induction false} SameHashSameHistory(p: Platform, a: seq<Receipt>, b: seq<Receipt>, k: nat)
    requires ValidChain(p, a) && ValidChain(p, b) && k < |a| && k < |b|
    requires AllEncodable(a) && AllEncodable(b) && NoCollision(p, a, b)
    requires ReceiptHash(p, a[k]) == ReceiptHash(p, b[k])
    ensures forall i | 0 <= i <= k :: TruncatedReceipt(a[i]) == TruncatedReceipt(b[i])
  {
    SameHashSameReceipt(p, a[k], b[k]);
    assert Linked(p, a, k) && Linked(p, b, k);
    if k > 0 {
      SameHashSameHistory(p, a, b, k - 1);
    }
  }

  lemma SameHashSameReceipt(p: Platform, a: Receipt, b: Receipt)
    requires ReceiptEncodable(a) && ReceiptEncodable(b) && NoCollisionBetween(p, a, b)
    requires ReceiptHash(p, a) == ReceiptHash(p, b)
    ensures a.number == b.number && a.prevHash == b.prevHash && TruncatedReceipt(a) == TruncatedReceipt(b)
  {
    DigestSeparates(p, Dumps(Body(a)), Dumps(Body(b)));
    EncodeInjective(Body(a), Body(b));
    BodyDeterminesReceipt(a, b);
  }

  /** Receipts picked out of a list in increasing positions. */
  ghost predicate Picks(rs: seq<Receipt>, at: seq<nat>) {
    && (forall k | 0 <= k < |at| :: at[k] < |rs|)
    && (forall k, l | 0 <= k < l < |at| :: at[k] < at[l])
  }

  function Picked(rs: seq<Receipt>, at: seq<nat>): seq<Receipt>
    requires forall k | 0 <= k < |at| :: at[k] < |rs|
  {
    seq(|at|, k requires 0 <= k < |at| => rs[at[k]])
  }

  /** Of a valid run, a subsequence is accepted exactly when it is a prefix: nothing can be removed
      except from the end, and a removed end is not noticed. */
  lemma AcceptedSubsequenceIsPrefix(p: Platform, rs: seq<Receipt>, at: seq<nat>)
    requires ValidChain(p, rs) && Picks(rs, at)
    ensures ValidChain(p, Picked(rs, at)) <==> |at| <= |rs| && Picked(rs, at) == rs[..|at|]
  {
    var sub := Picked(rs, at);
    if ValidChain(p, sub) {
      forall k | 0 <= k < |at| ensures at[k] == k {
        assert Linked(p, sub, k) && Linked(p, rs, at[k]);
      }
      if |at| > 0 {
        assert at[|at| - 1] == |at| - 1;
      }
    }
    if |at| <= |rs| && sub == rs[..|at|] {
      forall k | 0 <= k < |sub| ensures Linked(p, sub, k) {
        assert Linked(p, rs, k);
      }
    }
  }

  /** No reordering of a valid run is accepted but the run itself. */
  lemma AcceptedPermutationIsIdentity(p: Platform, rs: seq<Receipt>, other: seq<Receipt>)
    requires ValidChain(p, rs) && multiset(other) == multiset(rs)
    ensures ValidChain(p, other) <==> other == rs
  {
    assert |multiset(other)| == |multiset(rs)|;
    if ValidChain(p, other) {
      forall k | 0 <= k < |rs| ensures other[k] == rs[k] {
        assert other[k] in multiset(rs);
        var j :| 0 <= j < |rs| && rs[j] == other[k];
        assert Linked(p, other, k) && Linked(p, rs, j);
      }
    }
  }
}
