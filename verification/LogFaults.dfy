/** Runs of the agent on a log whose appends may raise late or be torn by a power cut
    (pilotfish/agent/cycle.py, pilotfish/adapters/file_sink.py). */
module LogFaults {
  import opened Prelude
  import opened Cbor
  import opened Models
  import opened Policy
  import opened FileSink
  import opened Receipts
  import opened Cycle

  datatype Happening =
    | Plain(effect: Effect)
    | Late(effect: Effect)               // the append raises when its line is already on disk
    | Torn(effect: Effect, length: nat)  // a power cut leaves so many bytes of the line's encoding at most

  /** The payload that an effect appends. */
  function Payload(id: Identity, s: Agent, e: Effect): Bytes
    requires Writes(s, e)
  {
    var (r, now, _) := Cycle.Written(id, s, e);
    Sealed(id.p, r, now, id.key)
  }

  function Front(t: Bytes, length: nat): Bytes {
    if length <= |t| then t[..length] else t
  }

  /** After a late exception the head in memory stays where it was, and the turn is abandoned. */
  function Happen(id: Identity, s: Agent, h: Happening): Agent {
    match h
    case Plain(e) => Step(id, s, e)
    case Late(e) => if Writes(s, e) then Agent(s.raw + Line(Payload(id, s, e)), s.live, Idle) else s
    case Torn(e, length) =>
      if Writes(s, e) then Agent(s.raw + Front(Base64(Payload(id, s, e)), length), None, Idle) else s
  }

  function HappenAll(id: Identity, s: Agent, hs: seq<Happening>): Agent {
    if hs == [] then s else Happen(id, HappenAll(id, s, hs[..|hs| - 1]), hs[|hs| - 1])
  }

  /** The log reads as one chain of the site, parses into turns, and tells their effects. */
  ghost predicate Tells(id: Identity, raw: Bytes, rs: seq<Receipt>) {
    && ReadLog(id.p, raw, id.PublicKey()) == Ok(rs)
    && ValidChain(id.p, rs) && (forall i | 0 <= i < |rs| :: rs[i].site == id.site)
    && Turns(rs) && AllTold(id.p, rs)
  }

  /** The file does not end in a newline, or it would be resumed at another head than the one in memory. */
  predicate Damaged(id: Identity, s: Agent) {
    || !Complete(s.raw)
    || (s.live.Some? && Resume(id.p, s.raw, id.PublicKey(), id.site) != Ok(s.live.value))
  }

  /** The log tells these receipts. Where nothing is damaged, the agent is as far in its turn as they say;
      otherwise it is idle, and its head is that of the log or, behind a late exception, one short. */
  ghost predicate Stands(id: Identity, s: Agent, rs: seq<Receipt>) {
    && Tells(id, s.raw, rs)
    && (s.live.None? ==> s.phase.Idle?)
    && (s.live.Some? ==>
          if !Complete(s.raw) then s.phase.Idle? && s.live.value == HeadOf(id.p, rs)
          else if s.live.value == HeadOf(id.p, rs) then PhaseMatches(rs, s.phase)
          else s.phase.Idle? && rs != [] && s.live.value == HeadOf(id.p, rs[..|rs| - 1]))
  }

  lemma TellsResumes(id: Identity, raw: Bytes, rs: seq<Receipt>)
    requires Tells(id, raw, rs)
    ensures Resume(id.p, raw, id.PublicKey(), id.site) == Ok(HeadOf(id.p, rs))
  {
  }

  /** Log and agent are in step exactly if nothing is damaged. */
  lemma SoundIffUndamaged(id: Identity, s: Agent, rs: seq<Receipt>)
    requires Stands(id, s, rs)
    ensures Sound(id, s, rs) <==> !Damaged(id, s)
  {
    TellsResumes(id, s.raw, rs);
  }

  /** Whether anything is appended, wholly or in part. */
  predicate Appends(s: Agent, h: Happening) {
    Writes(s, h.effect)
  }

  /** The receipts that the log tells afterwards: a torn line is none. */
  ghost function Told(id: Identity, s: Agent, rs: seq<Receipt>, h: Happening): seq<Receipt> {
    if h.Torn? then rs else Grown(id, s, rs, h.effect)
  }

  ghost function ToldAll(id: Identity, s: Agent, rs: seq<Receipt>, hs: seq<Happening>): (all: seq<Receipt>)
    ensures |rs| <= |all| <= |rs| + |hs| && rs <= all
  {
    if hs == [] then rs
    else
      var n := |hs| - 1;
      Told(id, HappenAll(id, s, hs[..n]), ToldAll(id, s, rs, hs[..n]), hs[n])
  }

  lemma PlainKeepsStanding(id: Identity, s: Agent, rs: seq<Receipt>, e: Effect)
    requires id.p.Sound() && Stands(id, s, rs) && EffectSized(id.p, s, e) && |rs| + 1 < TWO64 && |id.site| < SIZE
    requires Writes(s, e) ==> !Damaged(id, s)
    ensures Stands(id, Step(id, s, e), Grown(id, s, rs, e))
  {
    SoundIffUndamaged(id, s, rs);
    if Sound(id, s, rs) {
      StepKeepsSound(id, s, rs, e);
    } else {
      TellsResumes(id, s.raw, rs);
      assert Step(id, s, e) == Quiet(id, s, e);
    }
  }

  lemma LateKeepsStanding(id: Identity, s: Agent, rs: seq<Receipt>, e: Effect)
    requires id.p.Sound() && Stands(id, s, rs) && EffectSized(id.p, s, e) && |rs| + 1 < TWO64 && |id.site| < SIZE
    requires Writes(s, e) ==> !Damaged(id, s)
    ensures Stands(id, Happen(id, s, Late(e)), Grown(id, s, rs, e))
  {
    if Writes(s, e) {
      var all := Grown(id, s, rs, e);
      SoundIffUndamaged(id, s, rs);
      StepKeepsSound(id, s, rs, e);
      HeadOfChain(id.p, rs);
      HeadOfChain(id.p, all);
      assert all[..|all| - 1] == rs;
    }
  }

  lemma FrontHasNoNewline(b: Bytes, length: nat)
    ensures NEWLINE !in Front(Base64(b), length)
  {
    Base64HasNoNewline(b);
  }

  lemma TailKeepsTelling(id: Identity, raw: Bytes, rs: seq<Receipt>, tail: Bytes)
    requires Tells(id, raw, rs) && Complete(raw) && NEWLINE !in tail
    ensures Tells(id, raw + tail, rs)
  {
    TailIsDropped(raw, tail);
  }

  lemma TornKeepsStanding(id: Identity, s: Agent, rs: seq<Receipt>, e: Effect, length: nat)
    requires Stands(id, s, rs) && (Writes(s, e) ==> !Damaged(id, s))
    ensures Stands(id, Happen(id, s, Torn(e, length)), rs)
  {
    if Writes(s, e) {
      var payload := Payload(id, s, e);
      FrontHasNoNewline(payload, length);
      TailKeepsTelling(id, s.raw, rs, Front(Base64(payload), length));
    }
  }

  lemma HappenKeepsStanding(id: Identity, s: Agent, rs: seq<Receipt>, h: Happening)
    requires id.p.Sound() && Stands(id, s, rs) && EffectSized(id.p, s, h.effect)
    requires |rs| + 1 < TWO64 && |id.site| < SIZE
    requires Appends(s, h) ==> !Damaged(id, s)
    ensures Stands(id, Happen(id, s, h), Told(id, s, rs, h))
  {
    match h
    case Plain(e) => PlainKeepsStanding(id, s, rs, e);
    case Late(e) => LateKeepsStanding(id, s, rs, e);
    case Torn(e, length) => TornKeepsStanding(id, s, rs, e, length);
  }

  /** Nothing is appended, wholly or in part, while something is damaged; and all is of carried size. */
  ghost predicate Careful(id: Identity, s: Agent, hs: seq<Happening>) {
    forall i | 0 <= i < |hs| ::
      var before := HappenAll(id, s, hs[..i]);
      EffectSized(id.p, before, hs[i].effect) && (Appends(before, hs[i]) ==> !Damaged(id, before))
  }

  /** After any interleaving of effects, late exceptions, torn appends, crashes and recoveries in which
      nothing was appended to what was damaged, the log tells every receipt whose line is whole, and it
      is in step with the agent exactly if nothing is damaged now. */
  lemma {:induction false} EveryCarefulRunStands(id: Identity, s: Agent, rs: seq<Receipt>, hs: seq<Happening>)
    requires id.p.Sound() && Sound(id, s, rs) && |id.site| < SIZE && |rs| + |hs| < TWO64
    requires Careful(id, s, hs)
    ensures var end, all := HappenAll(id, s, hs), ToldAll(id, s, rs, hs);
            Stands(id, end, all) && (Sound(id, end, all) <==> !Damaged(id, end))
  {
    if hs != [] {
      var n := |hs| - 1;
      var before, told := HappenAll(id, s, hs[..n]), ToldAll(id, s, rs, hs[..n]);
      CarefulFront(id, s, hs);
      EveryCarefulRunStands(id, s, rs, hs[..n]);
      HappenKeepsStanding(id, before, told, hs[n]);
      SoundIffUndamaged(id, Happen(id, before, hs[n]), Told(id, before, told, hs[n]));
    }
  }

  lemma CarefulFront(id: Identity, s: Agent, hs: seq<Happening>)
    requires Careful(id, s, hs) && hs != []
    ensures var n := |hs| - 1;
            && Careful(id, s, hs[..n]) && EffectSized(id.p, HappenAll(id, s, hs[..n]), hs[n].effect)
            && (Appends(HappenAll(id, s, hs[..n]), hs[n]) ==> !Damaged(id, HappenAll(id, s, hs[..n])))
  {
    var n := |hs| - 1;
    forall i | 0 <= i < n
      ensures var before := HappenAll(id, s, hs[..n][..i]);
              EffectSized(id.p, before, hs[..n][i].effect) && (Appends(before, hs[..n][i]) ==> !Damaged(id, before))
    {
      assert hs[..n][..i] == hs[..i] && hs[..n][i] == hs[i];
    }
  }

  /** A crash and recovery heal a head that stayed behind, and lose nothing. A torn tail they leave as it
      is: the log tells the same receipts, and stays damaged. */
  lemma CrashHealsHead(id: Identity, s: Agent, rs: seq<Receipt>)
    requires Stands(id, s, rs)
    ensures var back := Step(id, Step(id, s, Crash), Recover);
            && back.raw == s.raw && Stands(id, back, rs) && back.live == Some(HeadOf(id.p, rs))
            && (Sound(id, back, rs) <==> Complete(s.raw))
  {
    RecoversTo(id, s, rs);
    TellsResumes(id, s.raw, rs);
    SoundIffUndamaged(id, Agent(s.raw, Some(HeadOf(id.p, rs)), Idle), rs);
  }

  lemma RecoversTo(id: Identity, s: Agent, rs: seq<Receipt>)
    requires Tells(id, s.raw, rs)
    ensures Step(id, Step(id, s, Crash), Recover) == Agent(s.raw, Some(HeadOf(id.p, rs)), Idle)
  {
    assert Step(id, s, Crash) == Agent(s.raw, None, Idle);
    RecoversHead(id, s.raw, rs);
  }

  lemma RecoversHead(id: Identity, raw: Bytes, rs: seq<Receipt>)
    requires Tells(id, raw, rs)
    ensures Step(id, Agent(raw, None, Idle), Recover) == Agent(raw, Some(HeadOf(id.p, rs)), Idle)
  {
    TellsResumes(id, raw, rs);
  }

  // ---------- appending to what is damaged ----------

  lemma DecisionReads(id: Identity, head: ChainHead, d: Decision, now: int)
    requires id.p.Sound() && Sized(d, now, []) && |id.site| < SIZE
    requires 0 <= head.number && head.number + 1 < TWO64 && |head.hash| == 64
    ensures var r := DecisionReceipt(id, head, d);
            Sealed(id.p, r, now, id.key) != []
            && forall index: nat ::
                 ReadLine(id.p, Sealed(id.p, r, now, id.key), id.PublicKey(), index) == Ok(TruncatedReceipt(r))
  {
    var r := DecisionReceipt(id, head, d);
    SealedReads(id.p, r, now, id.key, 0);
    forall index: nat
      ensures ReadLine(id.p, Sealed(id.p, r, now, id.key), id.PublicKey(), index) == Ok(TruncatedReceipt(r))
    {
      SealedReads(id.p, r, now, id.key, index);
    }
  }

  /** A receipt recorded while the head is one behind repeats a number, and the log is refused. */
  lemma StaleHeadBreaks(id: Identity, s: Agent, rs: seq<Receipt>, d: Decision, now: int)
    requires id.p.Sound() && Stands(id, s, rs) && Complete(s.raw) && Damaged(id, s)
    requires s.live.Some? && Sized(d, now, []) && |rs| < TWO64 && |id.site| < SIZE
    ensures var after := Step(id, s, RecordDecision(d, now));
            && Complete(after.raw)
            && ReadLog(id.p, after.raw, id.PublicKey())
               == Ok(rs + [TruncatedReceipt(DecisionReceipt(id, s.live.value, d))])
            && FirstBreak(id.p, rs + [TruncatedReceipt(DecisionReceipt(id, s.live.value, d))]) == Some(|rs|)
            && Resume(id.p, after.raw, id.PublicKey(), id.site) == Err(Broken(|rs|))
  {
    HeadIsShort(id, s, rs);
    RecordsNext(id, s.raw, s.live.value, d, now);
    var r := DecisionReceipt(id, s.live.value, d);
    var payload := Sealed(id.p, r, now, id.key);
    DecisionReads(id, s.live.value, d, now);
    ReadLogAfterAppend(id.p, s.raw, id.PublicKey(), rs, payload, TruncatedReceipt(r));
    BreaksAtLast(id.p, rs, TruncatedReceipt(r));
  }

  lemma HeadIsShort(id: Identity, s: Agent, rs: seq<Receipt>)
    requires id.p.Sound() && Stands(id, s, rs) && Complete(s.raw) && Damaged(id, s) && s.live.Some?
    ensures s.phase.Idle? && rs != [] && s.live.value.number == |rs| - 1 && |s.live.value.hash| == 64
    ensures s == Agent(s.raw, Some(s.live.value), Idle)
  {
    TellsResumes(id, s.raw, rs);
    PrefixOfChain(id.p, rs, |rs| - 1);
    HeadOfChain(id.p, rs[..|rs| - 1]);
  }

  lemma BreaksAtLast(p: Platform, rs: seq<Receipt>, r: Receipt)
    requires ValidChain(p, rs) && r.number != |rs| + 1
    ensures FirstBreak(p, rs + [r]) == Some(|rs|)
  {
    var all := rs + [r];
    forall i | 0 <= i < |rs| ensures Linked(p, all, i) {
      assert Linked(p, rs, i);
    }
    assert !Linked(p, all, |rs|);
  }

  lemma StepOnlyAppends(id: Identity, s: Agent, e: Effect)
    ensures s.raw <= Step(id, s, e).raw
  {
  }

  lemma HappenOnlyAppends(id: Identity, s: Agent, h: Happening)
    ensures s.raw <= Happen(id, s, h).raw
  {
    if h.Plain? {
      StepOnlyAppends(id, s, h.effect);
    }
  }

  lemma {:induction false} RawGrows(id: Identity, s: Agent, hs: seq<Happening>)
    ensures s.raw <= HappenAll(id, s, hs).raw
  {
    if hs != [] {
      var n := |hs| - 1;
      RawGrows(id, s, hs[..n]);
      HappenOnlyAppends(id, HappenAll(id, s, hs[..n]), hs[n]);
    }
  }

  /** A log that breaks is refused whatever is appended to it. */
  lemma BreakStays(p: Platform, raw: Bytes, more: Bytes, publicKey: Bytes, site: Text, rs: seq<Receipt>)
    requires Complete(raw) && ReadLog(p, raw, publicKey) == Ok(rs) && FirstBreak(p, rs).Some?
    ensures Resume(p, raw + more, publicKey, site).Err?
  {
    ReadAllGrows(raw, more);
    var all := ReadLog(p, raw + more, publicKey);
    if all.Ok? {
      var lines := ReadAll(raw + more).value;
      ReadPrefix(Reader(p, publicKey), lines, |ReadAll(raw).value|);
      assert lines[..|ReadAll(raw).value|] == ReadAll(raw).value;
      if ValidChain(p, all.value) {
        PrefixOfChain(p, all.value, |ReadAll(raw).value|);
      }
    }
  }

  /** Once a receipt was recorded on a head that was behind, no recovery succeeds ever again. */
  lemma StaleHeadIsFatal(id: Identity, s: Agent, rs: seq<Receipt>, d: Decision, now: int, hs: seq<Happening>)
    requires id.p.Sound() && Stands(id, s, rs) && Complete(s.raw) && Damaged(id, s)
    requires s.live.Some? && Sized(d, now, []) && |rs| < TWO64 && |id.site| < SIZE
    ensures var end := HappenAll(id, Step(id, s, RecordDecision(d, now)), hs);
            Resume(id.p, end.raw, id.PublicKey(), id.site).Err?
  {
    var after := Step(id, s, RecordDecision(d, now));
    StaleHeadBreaks(id, s, rs, d, now);
    RawGrows(id, after, hs);
    BrokenForGood(id, after.raw, HappenAll(id, after, hs).raw,
                  rs + [TruncatedReceipt(DecisionReceipt(id, s.live.value, d))]);
  }

  lemma BrokenForGood(id: Identity, raw: Bytes, later: Bytes, rs: seq<Receipt>)
    requires Complete(raw) && ReadLog(id.p, raw, id.PublicKey()) == Ok(rs) && raw <= later
    requires FirstBreak(id.p, rs).Some?
    ensures Resume(id.p, later, id.PublicKey(), id.site).Err?
  {
    assert later == raw + later[|raw|..];
    BreakStays(id.p, raw, later[|raw|..], id.PublicKey(), id.site, rs);
  }

  /** What a decision adds once a recovered agent records it behind a torn line. */
  function NextLine(id: Identity, s: Agent, d: Decision, now: int): Bytes
    requires s.live.Some?
  {
    Sealed(id.p, DecisionReceipt(id, s.live.value, d), now, id.key)
  }

  /** What the torn line decodes to once that decision's line has joined it. */
  function JoinedTear(id: Identity, s: Agent, e: Effect, length: nat, d: Decision, now: int): Option<Bytes>
    requires s.live.Some?
  {
    Unbase64(Split(Happen(id, s, Torn(e, length)).raw).tail + Base64(NextLine(id, s, d, now)))
  }

  /** The receipt that the effect would have brought to the log. */
  function Missed(id: Identity, s: Agent, e: Effect): Receipt
    requires Writes(s, e)
  {
    TruncatedReceipt(Cycle.Written(id, s, e).0)
  }

  lemma MissedWouldRead(id: Identity, s: Agent, rs: seq<Receipt>, e: Effect)
    requires id.p.Sound() && Sound(id, s, rs) && Writes(s, e) && EffectSized(id.p, s, e)
    requires |rs| + 1 < TWO64 && |id.site| < SIZE
    ensures var payloads, all := ReadAll(s.raw).value + [Payload(id, s, e)], rs + [Missed(id, s, e)];
            && ReadLines(id.p, payloads, id.PublicKey()) == Ok(all) && |payloads| == |all|
            && ValidChain(id.p, all) && (forall i | 0 <= i < |all| :: all[i].site == id.site)
  {
    var (r, now, _) := Cycle.Written(id, s, e);
    StepKeepsSound(id, s, rs, e);
    ReadAfterAppend(s.raw, Payload(id, s, e));
    ReadPrefix(Reader(id.p, id.PublicKey()), ReadAll(s.raw).value + [Payload(id, s, e)], 0);
  }

  lemma TornTells(id: Identity, s: Agent, rs: seq<Receipt>, e: Effect, length: nat)
    requires Sound(id, s, rs) && Writes(s, e)
    ensures var torn := Happen(id, s, Torn(e, length));
            Tells(id, torn.raw, rs) && Step(id, torn, Recover) == Agent(torn.raw, s.live, Idle)
  {
    var tail := Front(Base64(Payload(id, s, e)), length);
    FrontHasNoNewline(Payload(id, s, e), length);
    SoundTells(id, s, rs);
    TailKeepsTelling(id, s.raw, rs, tail);
    assert Happen(id, s, Torn(e, length)) == Agent(s.raw + tail, None, Idle);
    RecoversHead(id, s.raw + tail, rs);
  }

  lemma SoundTells(id: Identity, s: Agent, rs: seq<Receipt>)
    requires Sound(id, s, rs) && s.live.Some?
    ensures Tells(id, s.raw, rs) && Complete(s.raw) && s.live == Some(HeadOf(id.p, rs))
  {
  }

  lemma RecordsNext(id: Identity, raw: Bytes, head: ChainHead, d: Decision, now: int)
    ensures var r := DecisionReceipt(id, head, d);
            var after := Step(id, Agent(raw, Some(head), Idle), RecordDecision(d, now));
            after.raw == raw + Line(Sealed(id.p, r, now, id.key))
            && after.live == Some(ChainHead(r.number, ReceiptHash(id.p, r)))
  {
    assert Cycle.Written(id, Agent(raw, Some(head), Idle), RecordDecision(d, now))
           == (DecisionReceipt(id, head, d), now, Decided(d, now));
  }

  /** A decision recorded behind a torn line, after recovery: log and head are in step if and only if the
      joined line carries the new envelope, or the torn one and the two receipts hash alike. This asks
      of signatures that the joined bytes verify only as something the site signed. */
  lemma RecordBehindTear(id: Identity, s: Agent, rs: seq<Receipt>, e: Effect, length: nat, d: Decision, now: int)
    requires id.p.Sound() && Sound(id, s, rs) && Writes(s, e) && EffectSized(id.p, s, e)
    requires Sized(d, now, []) && |rs| + 2 < TWO64 && |id.site| < SIZE
    requires var joined := JoinedTear(id, s, e, length, d, now);
             joined.Some? ==>
               OnlySigned(id.p, joined.value, id.PublicKey(),
                          ReadAll(s.raw).value + [Payload(id, s, e)] + [NextLine(id, s, d, now)])
    ensures var after := Step(id, Step(id, Happen(id, s, Torn(e, length)), Recover), RecordDecision(d, now));
            var joined := JoinedTear(id, s, e, length, d, now);
            after.live.Some? &&
            (InStep(id.p, after.raw, id.PublicKey(), id.site, after.live.value) <==>
             joined.Some? && (Carries(joined.value, NextLine(id, s, d, now))
                              || (Carries(joined.value, Payload(id, s, e))
                                  && ReceiptHash(id.p, Missed(id, s, e)) == after.live.value.hash)))
  {
    var torn, r := Happen(id, s, Torn(e, length)), DecisionReceipt(id, s.live.value, d);
    var payloads, all := ReadAll(s.raw).value + [Payload(id, s, e)], rs + [Missed(id, s, e)];
    TornTells(id, s, rs, e, length);
    MissedWouldRead(id, s, rs, e);
    RecordsNext(id, torn.raw, s.live.value, d, now);
    assert all[..|rs|] == rs && all[|rs|] == Missed(id, s, e);
    assert payloads[|rs|] == Payload(id, s, e);
    assert Records(id.p, id.key, id.site, all[..|rs|], r, now);
    TornTailJoins(id.p, payloads, torn.raw, |rs|, id.key, id.site, all, r, now);
  }
}
