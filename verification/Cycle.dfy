/** One turn of the agent, and the log that any run of turns leaves (pilotfish/agent/cycle.py). */
module Cycle {
  import opened Prelude
  import opened Ordering
  import opened Cbor
  import opened Models
  import opened Policy
  import opened Decide
  import opened FileSink
  import opened Receipts
  import opened BundleStores

  // ---------- the postcondition ----------

  function NotIn(permitted: seq<Text>): Text -> bool {
    (x: Text) => x !in permitted
  }

  /** What the dataplane may be told of one class: a surplus first, then a hold on nothing. */
  function ComplaintOf(c: ClassEligibility, actual: State): Option<Complaint> {
    var surplus := Filter(NotIn(c.permitted), InForce(actual, c.classId));
    if surplus != [] then Some(Surplus(c.classId, Sort(TextLe, Once(surplus))))
    else if InForce(actual, c.classId) == [] && c.permitted != [] then Some(HoldsNothing(c.classId, c.permitted))
    else None
  }

  /** The dataplane holds nothing for the class that was not permitted, and something if anything was. */
  ghost predicate Honours(c: ClassEligibility, actual: State) {
    && (forall x | x in InForce(actual, c.classId) :: x in c.permitted)
    && (InForce(actual, c.classId) == [] ==> c.permitted == [])
  }

  ghost predicate AllHonoured(classes: seq<ClassEligibility>, actual: State) {
    forall i | 0 <= i < |classes| :: Honours(classes[i], actual)
  }

  lemma ComplaintIffDishonoured(c: ClassEligibility, actual: State)
    ensures ComplaintOf(c, actual).None? <==> Honours(c, actual)
  {
    var surplus := Filter(NotIn(c.permitted), InForce(actual, c.classId));
    forall x ensures x in surplus <==> x in InForce(actual, c.classId) && x !in c.permitted {
      FilterMembers(NotIn(c.permitted), InForce(actual, c.classId), x);
    }
    if surplus != [] {
      assert surplus[0] in surplus;
    }
  }

  function FirstComplaint(classes: seq<ClassEligibility>, actual: State): Option<Complaint> {
    if classes == [] then None
    else if ComplaintOf(classes[0], actual).Some? then ComplaintOf(classes[0], actual)
    else FirstComplaint(classes[1..], actual)
  }

  lemma {:induction false} NoComplaintIffHonoured(classes: seq<ClassEligibility>, actual: State)
    ensures FirstComplaint(classes, actual).None? <==> AllHonoured(classes, actual)
  {
    if classes != [] {
      ComplaintIffDishonoured(classes[0], actual);
      NoComplaintIffHonoured(classes[1..], actual);
      assert forall i | 1 <= i < |classes| :: classes[i] == classes[1..][i - 1];
    }
  }

  /** What is said of the class is so: these links, and no others, are held and not permitted; or nothing
      is held although these are permitted. */
  ghost predicate IsSoOf(c: ClassEligibility, actual: State, said: Complaint) {
    match said
    case Surplus(classId, links) =>
      && classId == c.classId && links != [] && Sorted(TextLe, links) && NoDuplicates(links)
      && forall x :: x in links <==> x in InForce(actual, c.classId) && x !in c.permitted
    case HoldsNothing(classId, permitted) =>
      classId == c.classId && permitted == c.permitted != [] && InForce(actual, c.classId) == []
  }

  /** The complaint is of the first class that is not honoured, and is so. */
  ghost predicate IsComplaint(classes: seq<ClassEligibility>, actual: State, said: Complaint) {
    exists i :: 0 <= i < |classes| && AllHonoured(classes[..i], actual) && !Honours(classes[i], actual)
                && IsSoOf(classes[i], actual, said)
  }

  lemma ComplaintOfClass(c: ClassEligibility, actual: State)
    requires ComplaintOf(c, actual).Some?
    ensures IsSoOf(c, actual, ComplaintOf(c, actual).value)
  {
    var surplus := Filter(NotIn(c.permitted), InForce(actual, c.classId));
    forall x ensures x in surplus <==> x in InForce(actual, c.classId) && x !in c.permitted {
      FilterMembers(NotIn(c.permitted), InForce(actual, c.classId), x);
    }
    SortedOnce(surplus);
  }

  lemma SortedOnce(ids: seq<Text>)
    ensures var sorted := Sort(TextLe, Once(ids));
            && (forall x :: x in sorted <==> x in ids) && Sorted(TextLe, sorted) && NoDuplicates(sorted)
            && (ids != [] ==> sorted != [])
  {
    TextOrder();
    SortSorts(TextLe, Once(ids));
    SortMembers(TextLe, Once(ids));
    MultisetNoDuplicates(Once(ids), Sort(TextLe, Once(ids)));
    if ids != [] {
      assert ids[0] in Once(ids);
    }
  }

  /** A complaint, when there is one, is right. */
  lemma {:induction false} ComplaintIsRight(classes: seq<ClassEligibility>, actual: State)
    requires FirstComplaint(classes, actual).Some?
    ensures IsComplaint(classes, actual, FirstComplaint(classes, actual).value)
  {
    var said := FirstComplaint(classes, actual).value;
    ComplaintIffDishonoured(classes[0], actual);
    if ComplaintOf(classes[0], actual).Some? {
      ComplaintOfClass(classes[0], actual);
      assert AllHonoured(classes[..0], actual);
    } else {
      ComplaintIsRight(classes[1..], actual);
      var i :| 0 <= i < |classes[1..]| && AllHonoured(classes[1..][..i], actual)
               && !Honours(classes[1..][i], actual) && IsSoOf(classes[1..][i], actual, said);
      LaterHonoured(classes, actual, i);
      assert classes[i + 1] == classes[1..][i];
    }
  }

  lemma LaterHonoured(classes: seq<ClassEligibility>, actual: State, i: nat)
    requires i < |classes| && Honours(classes[0], actual) && AllHonoured(classes[1..][..i], actual)
    ensures AllHonoured(classes[..i + 1], actual)
  {
    var front, later := classes[..i + 1], classes[1..][..i];
    forall j | 0 <= j < |front| ensures Honours(front[j], actual) {
      if j > 0 {
        assert front[j] == later[j - 1];
      }
    }
  }

  /** `_postcondition_complaint`: the early-return loop. It complains exactly when some decided class
      is not honoured. */
  method PostconditionComplaint(classes: seq<ClassEligibility>, actual: State) returns (complaint: Option<Complaint>)
    ensures complaint == FirstComplaint(classes, actual)
    ensures complaint.None? <==> AllHonoured(classes, actual)
    ensures complaint.Some? ==> IsComplaint(classes, actual, complaint.value)
  {
    NoComplaintIffHonoured(classes, actual);
    if FirstComplaint(classes, actual).Some? {
      ComplaintIsRight(classes, actual);
    }
    for i := 0 to |classes|
      invariant FirstComplaint(classes, actual) == FirstComplaint(classes[i..], actual)
    {
      assert classes[i..][1..] == classes[i + 1..];
      var c := ComplaintOf(classes[i], actual);
      if c.Some? {
        return c;
      }
    }
    return None;
  }

  /** Classes that the decision does not name are not looked at, whatever the dataplane holds for them. */
  lemma {:induction false} UndecidedClassUnchecked(classes: seq<ClassEligibility>, actual: State, classId: Text,
                                                   held: seq<Text>)
    requires forall i | 0 <= i < |classes| :: classes[i].classId != classId
    ensures FirstComplaint(classes, actual[classId := held]) == FirstComplaint(classes, actual)
  {
    if classes != [] {
      UndecidedClassUnchecked(classes[1..], actual, classId, held);
    }
  }

  // ---------- the effects of a turn, one at a time ----------

  /** What the rest of a turn still has to do, for the decision it is about. */
  datatype Phase =
    | Idle
    | Decided(d: Decision, now: int)
    | Attempted(d: Decision, now: int)
    | Applied(d: Decision, now: int)

  /** The log on disk, the chain head in memory while the agent lives, and where the turn is. */
  datatype Agent = Agent(raw: Bytes, live: Option<ChainHead>, phase: Phase)

  datatype Effect =
    | RecordDecision(decision: Decision, at: int)
    | RecordExecution
    | ApplyRaises(text: Text)      // the effect receipt is written, then the exception goes on
    | ApplyReturns
    | ReadbackRaises               // no effect receipt
    | ReadbackReturns(actual: State)
    | SinkRaises                   // an append that wrote nothing; the turn is abandoned
    | Crash
    | Recover

  datatype Identity = Identity(p: Platform, site: Text, key: Bytes)
  {
    function PublicKey(): Bytes {
      p.publicKey(key)
    }
  }

  function Recorded(id: Identity, s: Agent, r: Receipt, now: int, next: Phase): Agent {
    Agent(s.raw + Line(Sealed(id.p, r, now, id.key)), Some(ChainHead(r.number, ReceiptHash(id.p, r))), next)
  }

  function DecisionReceipt(id: Identity, head: ChainHead, d: Decision): Receipt {
    Next(id.site, head, KIND_DECISION, d, [], [], [])
  }

  function ExecutionReceipt(id: Identity, head: ChainHead, d: Decision): Receipt {
    Next(id.site, head, KIND_EXECUTION, d, [], [], [])
  }

  function ErrorReceipt(id: Identity, head: ChainHead, d: Decision, text: Text): Receipt {
    Next(id.site, head, KIND_EFFECT, d, OUTCOME_ENFORCEMENT_ERROR, [], text)
  }

  /** The text of the complaint, empty when there is none. */
  function Detail(p: Platform, d: Decision, actual: State): Text {
    var c := FirstComplaint(d.classes, actual);
    if c.None? then [] else p.complaint(c.value)
  }

  function EffectOutcome(honoured: bool): Text {
    if honoured then OUTCOME_ENFORCED else OUTCOME_POSTCONDITION_FAILED
  }

  function EffectReceipt(id: Identity, head: ChainHead, d: Decision, actual: State): Receipt {
    Next(id.site, head, KIND_EFFECT, d,
         EffectOutcome(FirstComplaint(d.classes, actual).None?),
         StateHash(id.p, actual), Detail(id.p, d, actual))
  }

  /** The effect appends a receipt in this state. */
  predicate Writes(s: Agent, e: Effect) {
    s.live.Some? &&
    match s.phase
    case Idle => e.RecordDecision?
    case Decided(_, _) => e.RecordExecution?
    case Attempted(_, _) => e.ApplyRaises?
    case Applied(_, _) => e.ReadbackReturns?
  }

  /** The receipt it appends, when it is appended, and what is left to do. */
  function Written(id: Identity, s: Agent, e: Effect): (Receipt, int, Phase)
    requires Writes(s, e)
  {
    var head := s.live.value;
    match s.phase
    case Idle => (DecisionReceipt(id, head, e.decision), e.at, Decided(e.decision, e.at))
    case Decided(d, now) => (ExecutionReceipt(id, head, d), now, Attempted(d, now))
    case Attempted(d, now) => (ErrorReceipt(id, head, d, e.text), now, Idle)
    case Applied(d, now) => (EffectReceipt(id, head, d, e.actual), now, Idle)
  }

  /** What an effect that appends nothing does; one that the state does not allow changes nothing. */
  function Quiet(id: Identity, s: Agent, e: Effect): Agent {
    match e
    case Crash => Agent(s.raw, None, Idle)
    case Recover =>
      var resumed := Resume(id.p, s.raw, id.PublicKey(), id.site);
      if s.live.None? && resumed.Ok? then Agent(s.raw, Some(resumed.value), Idle) else s
    case ApplyReturns => if s.live.Some? && s.phase.Attempted? then s.(phase := Applied(s.phase.d, s.phase.now)) else s
    case ReadbackRaises => if s.live.Some? && s.phase.Applied? then s.(phase := Idle) else s
    case SinkRaises => s.(phase := Idle)
    case _ => s
  }

  /** One effect. */
  function Step(id: Identity, s: Agent, e: Effect): Agent {
    if Writes(s, e) then
      var (r, now, next) := Written(id, s, e);
      Recorded(id, s, r, now, next)
    else Quiet(id, s, e)
  }

  function Run(id: Identity, s: Agent, effects: seq<Effect>): Agent {
    if effects == [] then s else Step(id, Run(id, s, effects[..|effects| - 1]), effects[|effects| - 1])
  }

  // ---------- the shape of the log ----------

  /** One turn's receipts: D, D X or D X E, all with the same decision. */
  ghost predicate IsTurn(rs: seq<Receipt>) {
    && 1 <= |rs| <= 3
    && rs[0].kind == KIND_DECISION
    && (|rs| >= 2 ==> rs[1].kind == KIND_EXECUTION && rs[1].decision == rs[0].decision)
    && (|rs| == 3 ==> rs[2].kind == KIND_EFFECT && rs[2].decision == rs[0].decision)
  }

  /** The list is a sequence of turns. */
  ghost predicate Turns(rs: seq<Receipt>) {
    rs == [] || exists k: nat :: k < |rs| && IsTurn(rs[k..]) && Turns(rs[..k])
  }

  /** The list ends in this turn, and is a sequence of turns before it. */
  ghost predicate EndsIn(rs: seq<Receipt>, kinds: nat, d: Decision) {
    && 1 <= kinds <= 3 && kinds <= |rs|
    && Turns(rs[..|rs| - kinds]) && IsTurn(rs[|rs| - kinds..])
    && rs[|rs| - kinds].decision == TruncatedDecision(d)
  }

  /** An effect receipt tells what happened: its hash names a state that honours the decision exactly
      when its outcome is ENFORCED. */
  ghost predicate TellsEffect(p: Platform, r: Receipt) {
    r.kind == KIND_EFFECT ==>
      || (r.outcome == OUTCOME_ENFORCEMENT_ERROR && r.observed == [])
      || exists actual: State ::
           r.observed == StateHash(p, actual)
           && r.outcome == if AllHonoured(r.decision.classes, actual) then OUTCOME_ENFORCED
                           else OUTCOME_POSTCONDITION_FAILED
  }

  ghost predicate AllTold(p: Platform, rs: seq<Receipt>) {
    forall i | 0 <= i < |rs| :: TellsEffect(p, rs[i])
  }

  /** The turn is at most as long as the phase says, and its decision is of carried size. */
  ghost predicate PhaseMatches(rs: seq<Receipt>, phase: Phase) {
    match phase
    case Idle => Turns(rs)
    case Decided(d, now) => EndsIn(rs, 1, d) && Sized(d, now, [])
    case Attempted(d, now) => EndsIn(rs, 2, d) && Sized(d, now, [])
    case Applied(d, now) => EndsIn(rs, 2, d) && Sized(d, now, [])
  }

  /** The log reads, verifies, and parses into turns that tell their effects; while the agent lives
      its head is the head of the log. */
  ghost predicate Sound(id: Identity, s: Agent, rs: seq<Receipt>) {
    && Synced(id.p, s.raw, id.PublicKey(), id.site, rs, HeadOf(id.p, rs))
    && Turns(rs)
    && AllTold(id.p, rs)
    && (s.live.Some? ==> s.live.value == HeadOf(id.p, rs) && PhaseMatches(rs, s.phase))
    && (s.live.None? ==> s.phase.Idle?)
  }

  /** The texts and decisions that an effect brings to the log are of carried size. */
  ghost predicate EffectSized(p: Platform, s: Agent, e: Effect) {
    match e
    case RecordDecision(d, now) => Sized(d, now, [])
    case ApplyRaises(text) => |text| < SIZE
    case ReadbackReturns(actual) => s.phase.Applied? ==> |Detail(p, s.phase.d, actual)| < SIZE
    case _ => true
  }

  ghost predicate EffectsSized(id: Identity, s: Agent, effects: seq<Effect>) {
    forall i | 0 <= i < |effects| :: EffectSized(id.p, Run(id, s, effects[..i]), effects[i])
  }

  /** A first receipt opens a turn. */
  lemma OpensTurn(rs: seq<Receipt>, r: Receipt, d: Decision)
    requires Turns(rs) && r.kind == KIND_DECISION && r.decision == TruncatedDecision(d)
    ensures EndsIn(rs + [r], 1, d)
  {
    var all := rs + [r];
    assert all[..|all| - 1] == rs && all[|all| - 1..] == [r];
  }

  /** The next kind of receipt about the same decision extends the turn. */
  lemma ExtendsTurn(rs: seq<Receipt>, kinds: nat, r: Receipt, d: Decision)
    requires kinds < 3 && EndsIn(rs, kinds, d)
    requires r.kind == if kinds == 1 then KIND_EXECUTION else KIND_EFFECT
    requires r.decision == TruncatedDecision(d)
    ensures EndsIn(rs + [r], kinds + 1, d)
  {
    var all := rs + [r];
    var k := |rs| - kinds;
    assert all[..k] == rs[..k] && all[k..] == rs[k..] + [r];
  }

  lemma ClosesTurn(rs: seq<Receipt>, r: Receipt, d: Decision)
    requires EndsIn(rs, 2, d) && r.kind == KIND_EFFECT && r.decision == TruncatedDecision(d)
    ensures Turns(rs + [r])
  {
    ExtendsTurn(rs, 2, r, d);
  }

  /** Every recording step keeps the log readable, linked and in step with the head. */
  lemma RecordStep(id: Identity, s: Agent, rs: seq<Receipt>, r: Receipt, now: int, next: Phase)
    requires id.p.Sound() && Sound(id, s, rs) && s.live.Some?
    requires r == Next(id.site, s.live.value, r.kind, r.decision, r.outcome, r.observed, r.detail)
    requires |rs| + 1 < TWO64 && |id.site| < SIZE && Sized(r.decision, now, r.detail)
    requires |r.kind| < SIZE && |r.outcome| < SIZE && |r.observed| < SIZE
    requires TellsEffect(id.p, TruncatedReceipt(r))
    requires PhaseMatches(rs + [TruncatedReceipt(r)], next)
    ensures Sound(id, Recorded(id, s, r, now, next), rs + [TruncatedReceipt(r)])
  {
    RecordKeepsSynced(id.p, s.raw, id.key, id.site, rs, s.live.value, r, now);
    ReadReceiptOfBody(id.p, r);
  }

  /** What one effect adds to the log it reads back. */
  ghost function Grown(id: Identity, s: Agent, rs: seq<Receipt>, e: Effect): seq<Receipt> {
    if Writes(s, e) then rs + [TruncatedReceipt(Written(id, s, e).0)] else rs
  }

  lemma OpenStep(id: Identity, s: Agent, rs: seq<Receipt>, d: Decision, now: int)
    requires id.p.Sound() && Sound(id, s, rs) && s.live.Some? && s.phase.Idle? && Sized(d, now, [])
    requires |rs| + 1 < TWO64 && |id.site| < SIZE
    ensures var r := DecisionReceipt(id, s.live.value, d);
            Sound(id, Recorded(id, s, r, now, Decided(d, now)), rs + [TruncatedReceipt(r)])
  {
    var r := DecisionReceipt(id, s.live.value, d);
    OpensTurn(rs, TruncatedReceipt(r), d);
    RecordStep(id, s, rs, r, now, Decided(d, now));
  }

  lemma AttemptStep(id: Identity, s: Agent, rs: seq<Receipt>)
    requires id.p.Sound() && Sound(id, s, rs) && s.live.Some? && s.phase.Decided?
    requires |rs| + 1 < TWO64 && |id.site| < SIZE
    ensures var r := ExecutionReceipt(id, s.live.value, s.phase.d);
            Sound(id, Recorded(id, s, r, s.phase.now, Attempted(s.phase.d, s.phase.now)), rs + [TruncatedReceipt(r)])
  {
    var r := ExecutionReceipt(id, s.live.value, s.phase.d);
    ExtendsTurn(rs, 1, TruncatedReceipt(r), s.phase.d);
    RecordStep(id, s, rs, r, s.phase.now, Attempted(s.phase.d, s.phase.now));
  }

  lemma ErrorStep(id: Identity, s: Agent, rs: seq<Receipt>, text: Text)
    requires id.p.Sound() && Sound(id, s, rs) && s.live.Some? && s.phase.Attempted? && |text| < SIZE
    requires |rs| + 1 < TWO64 && |id.site| < SIZE
    ensures var r := ErrorReceipt(id, s.live.value, s.phase.d, text);
            Sound(id, Recorded(id, s, r, s.phase.now, Idle), rs + [TruncatedReceipt(r)])
  {
    var r := ErrorReceipt(id, s.live.value, s.phase.d, text);
    ClosesTurn(rs, TruncatedReceipt(r), s.phase.d);
    RecordStep(id, s, rs, r, s.phase.now, Idle);
  }

  lemma EffectIsTold(p: Platform, r: Receipt, d: Decision, actual: State)
    requires p.Sound() && r.observed == StateHash(p, actual) && r.decision == d
    requires r.outcome == EffectOutcome(FirstComplaint(d.classes, actual).None?)
    ensures TellsEffect(p, TruncatedReceipt(r)) && |r.observed| == 64
  {
    assert AllHonoured(TruncatedReceipt(r).decision.classes, actual) <==> AllHonoured(d.classes, actual);
    NoComplaintIffHonoured(d.classes, actual);
    assert TruncatedReceipt(r).observed == StateHash(p, actual);
    assert |p.sha256(Dumps(StateValue(actual)))| == 32;
  }

  lemma EffectStep(id: Identity, s: Agent, rs: seq<Receipt>, actual: State)
    requires id.p.Sound() && Sound(id, s, rs) && s.live.Some? && s.phase.Applied?
    requires |Detail(id.p, s.phase.d, actual)| < SIZE
    requires |rs| + 1 < TWO64 && |id.site| < SIZE
    ensures var r := EffectReceipt(id, s.live.value, s.phase.d, actual);
            Sound(id, Recorded(id, s, r, s.phase.now, Idle), rs + [TruncatedReceipt(r)])
  {
    var r := EffectReceipt(id, s.live.value, s.phase.d, actual);
    ClosesTurn(rs, TruncatedReceipt(r), s.phase.d);
    EffectIsTold(id.p, r, s.phase.d, actual);
    RecordStep(id, s, rs, r, s.phase.now, Idle);
  }

  lemma QuietStep(id: Identity, s: Agent, rs: seq<Receipt>, e: Effect)
    requires Sound(id, s, rs)
    ensures Sound(id, Quiet(id, s, e), rs)
  {
    match e
    case Recover => SyncedResumes(id.p, s.raw, id.PublicKey(), id.site, rs, HeadOf(id.p, rs));
    case _ =>
  }

  lemma StepKeepsSound(id: Identity, s: Agent, rs: seq<Receipt>, e: Effect)
    requires id.p.Sound() && Sound(id, s, rs) && EffectSized(id.p, s, e)
    requires |rs| + 1 < TWO64 && |id.site| < SIZE
    ensures Sound(id, Step(id, s, e), Grown(id, s, rs, e))
  {
    if !Writes(s, e) {
      QuietStep(id, s, rs, e);
    } else {
      match s.phase
      case Idle => OpenStep(id, s, rs, e.decision, e.at);
      case Decided(_, _) => AttemptStep(id, s, rs);
      case Attempted(_, _) => ErrorStep(id, s, rs, e.text);
      case Applied(_, _) => EffectStep(id, s, rs, e.actual);
    }
  }

  /** The receipts that a run adds to the log. */
  ghost function GrownAll(id: Identity, s: Agent, rs: seq<Receipt>, effects: seq<Effect>): (all: seq<Receipt>)
    ensures |rs| <= |all| <= |rs| + |effects|
    ensures rs <= all
  {
    if effects == [] then rs
    else
      var n := |effects| - 1;
      Grown(id, Run(id, s, effects[..n]), GrownAll(id, s, rs, effects[..n]), effects[n])
  }

  /** After any interleaving of turns, adapter failures, readback failures, refused appends, crashes
      between any two effects and recoveries, the log reads back, verifies as one unbroken chain of
      the site, ends in the live head, parses into turns D, D X or D X E about one decision each, and
      every ENFORCED receipt hashes a state that honours its decision. */
  lemma {:induction false} EveryRunIsSound(id: Identity, s: Agent, rs: seq<Receipt>, effects: seq<Effect>)
    requires id.p.Sound() && Sound(id, s, rs) && |id.site| < SIZE
    requires EffectsSized(id, s, effects)
    requires |rs| + |effects| < TWO64
    ensures Sound(id, Run(id, s, effects), GrownAll(id, s, rs, effects))
  {
    if effects != [] {
      var n := |effects| - 1;
      assert EffectsSized(id, s, effects[..n]) by {
        forall i | 0 <= i < n ensures EffectSized(id.p, Run(id, s, effects[..n][..i]), effects[..n][i]) {
          assert effects[..n][..i] == effects[..i] && effects[..n][i] == effects[i];
        }
      }
      EveryRunIsSound(id, s, rs, effects[..n]);
      StepKeepsSound(id, Run(id, s, effects[..n]), GrownAll(id, s, rs, effects[..n]), effects[n]);
    }
  }

  /** An agent on an empty log, not yet started, is where every such run may begin. */
  lemma FreshAgentIsSound(id: Identity)
    ensures Sound(id, Agent([], None, Idle), [])
  {
    ReadWholeLog([]);
  }

  /** After any run that ends in a crash, recovery resumes at the head of what was written: the next
      turn continues the numbering and no receipt is lost. */
  lemma RecoveryResumesLog(id: Identity, s: Agent, rs: seq<Receipt>, effects: seq<Effect>)
    requires id.p.Sound() && Sound(id, s, rs) && |id.site| < SIZE
    requires EffectsSized(id, s, effects)
    requires |rs| + |effects| < TWO64
    ensures var crashed := Step(id, Run(id, s, effects), Crash);
            var recovered := Step(id, crashed, Recover);
            var all := GrownAll(id, s, rs, effects);
            recovered.live == Some(HeadOf(id.p, all)) && HeadOf(id.p, all).number == |all|
            && recovered.raw == Run(id, s, effects).raw && ReadLog(id.p, recovered.raw, id.PublicKey()) == Ok(all)
  {
    EveryRunIsSound(id, s, rs, effects);
    CrashRecovers(id, Run(id, s, effects), GrownAll(id, s, rs, effects));
  }

  lemma CrashRecovers(id: Identity, s: Agent, rs: seq<Receipt>)
    requires id.p.Sound() && Sound(id, s, rs)
    ensures var recovered := Step(id, Step(id, s, Crash), Recover);
            recovered.live == Some(HeadOf(id.p, rs)) && HeadOf(id.p, rs).number == |rs|
            && recovered.raw == s.raw && ReadLog(id.p, recovered.raw, id.PublicKey()) == Ok(rs)
  {
    SyncedResumes(id.p, s.raw, id.PublicKey(), id.site, rs, HeadOf(id.p, rs));
    HeadOfChain(id.p, rs);
    assert Step(id, s, Crash) == Agent(s.raw, None, Idle);
  }

  // ---------- run_once ----------

  /** How an adapter answers a decision. */
  datatype Reply = Raises(text: Text) | Unreadable | Holds(actual: State)

  datatype CycleError = EnforcementError(text: Text) | ReadbackError | PostconditionViolation(complaint: Complaint)

  /** The effects of a turn from the attempt on. */
  function ReplyEffects(reply: Reply): seq<Effect> {
    match reply
    case Raises(text) => [ApplyRaises(text)]
    case Unreadable => [ApplyReturns, ReadbackRaises]
    case Holds(actual) => [ApplyReturns, ReadbackReturns(actual)]
  }

  /** The effects of one whole turn, given how the adapter answers. */
  function TurnEffects(d: Decision, now: int, reply: Reply): seq<Effect> {
    [RecordDecision(d, now), RecordExecution] + ReplyEffects(reply)
  }

  function TurnResult(d: Decision, reply: Reply): Result<Decision, CycleError> {
    match reply
    case Raises(text) => Err(EnforcementError(text))
    case Unreadable => Err(ReadbackError)
    case Holds(actual) =>
      var c := FirstComplaint(d.classes, actual);
      if c.Some? then Err(PostconditionViolation(c.value)) else Ok(d)
  }

  /** A turn succeeds, with the decision, exactly if the adapter raised nothing and holds a state that
      honours the decision; otherwise it raises what was raised, or a complaint that is right. */
  lemma TurnSucceedsExactly(d: Decision, reply: Reply)
    ensures TurnResult(d, reply).Ok? <==> reply.Holds? && AllHonoured(d.classes, reply.actual)
    ensures TurnResult(d, reply).Ok? ==> TurnResult(d, reply).value == d
    ensures forall text :: TurnResult(d, reply) == Err(EnforcementError(text)) <==> reply == Raises(text)
    ensures TurnResult(d, reply) == Err(ReadbackError) <==> reply.Unreadable?
    ensures forall said | TurnResult(d, reply) == Err(PostconditionViolation(said)) ::
              reply.Holds? && IsComplaint(d.classes, reply.actual, said)
  {
    if reply.Holds? {
      NoComplaintIffHonoured(d.classes, reply.actual);
      if FirstComplaint(d.classes, reply.actual).Some? {
        ComplaintIsRight(d.classes, reply.actual);
      }
    }
  }

  /** The agent once the decision is on the log, and once the attempt is. */
  function AfterDecision(id: Identity, raw: Bytes, head: ChainHead, d: Decision, now: int): Agent {
    Recorded(id, Agent(raw, Some(head), Idle), DecisionReceipt(id, head, d), now, Decided(d, now))
  }

  function AfterAttempt(id: Identity, raw: Bytes, head: ChainHead, d: Decision, now: int): Agent {
    var decided := AfterDecision(id, raw, head, d, now);
    Recorded(id, decided, ExecutionReceipt(id, decided.live.value, d), now, Attempted(d, now))
  }

  /** The turn from the attempt on. */
  function Concluded(id: Identity, raw: Bytes, head: ChainHead, d: Decision, now: int, reply: Reply): Agent {
    var s := Agent(raw, Some(head), Idle);
    match reply
    case Raises(text) => Recorded(id, s, ErrorReceipt(id, head, d, text), now, Idle)
    case Unreadable => s
    case Holds(actual) => Recorded(id, s, EffectReceipt(id, head, d, actual), now, Idle)
  }

  /** The turn from an idle live agent. */
  function AfterTurn(id: Identity, raw: Bytes, head: ChainHead, d: Decision, now: int, reply: Reply): Agent {
    var attempted := AfterAttempt(id, raw, head, d, now);
    Concluded(id, attempted.raw, attempted.live.value, d, now, reply)
  }

  lemma OpeningSteps(id: Identity, raw: Bytes, head: ChainHead, d: Decision, now: int)
    ensures var decided := Step(id, Agent(raw, Some(head), Idle), RecordDecision(d, now));
            decided == AfterDecision(id, raw, head, d, now)
            && Step(id, decided, RecordExecution) == AfterAttempt(id, raw, head, d, now)
  {
    var s, decided := Agent(raw, Some(head), Idle), AfterDecision(id, raw, head, d, now);
    assert Written(id, s, RecordDecision(d, now)) == (DecisionReceipt(id, head, d), now, Decided(d, now));
    assert Written(id, decided, RecordExecution)
           == (ExecutionReceipt(id, decided.live.value, d), now, Attempted(d, now));
  }

  lemma ConcludingSteps(id: Identity, raw: Bytes, head: ChainHead, d: Decision, now: int, reply: Reply)
    ensures Run(id, Agent(raw, Some(head), Attempted(d, now)), ReplyEffects(reply))
            == Concluded(id, raw, head, d, now, reply)
  {
    var attempted, applied := Agent(raw, Some(head), Attempted(d, now)), Agent(raw, Some(head), Applied(d, now));
    match reply
    case Raises(text) =>
      RunOne(id, attempted, [], ApplyRaises(text));
      assert [] + [ApplyRaises(text)] == [ApplyRaises(text)];
      assert Writes(attempted, ApplyRaises(text));
    case Unreadable =>
      RunTwo(id, attempted, ApplyReturns, ReadbackRaises);
      assert Step(id, attempted, ApplyReturns) == applied;
    case Holds(actual) =>
      RunTwo(id, attempted, ApplyReturns, ReadbackReturns(actual));
      assert Step(id, attempted, ApplyReturns) == applied;
      assert Written(id, applied, ReadbackReturns(actual)) == (EffectReceipt(id, head, d, actual), now, Idle);
  }

  lemma RunOne(id: Identity, s: Agent, effects: seq<Effect>, e: Effect)
    ensures Run(id, s, effects + [e]) == Step(id, Run(id, s, effects), e)
  {
    assert (effects + [e])[..|effects|] == effects;
  }

  lemma RunTwo(id: Identity, s: Agent, e: Effect, f: Effect)
    ensures Run(id, s, [e, f]) == Step(id, Step(id, s, e), f)
  {
    RunOne(id, s, [], e);
    RunOne(id, s, [e], f);
    assert [] + [e] == [e] && [e] + [f] == [e, f];
  }

  lemma {:induction false} RunConcat(id: Identity, s: Agent, a: seq<Effect>, b: seq<Effect>)
    ensures Run(id, s, a + b) == Run(id, Run(id, s, a), b)
  {
    if b == [] {
      assert a + b == a;
    } else {
      var n := |b| - 1;
      assert (a + b)[..|a + b| - 1] == a + b[..n];
      RunConcat(id, s, a, b[..n]);
    }
  }

  /** A turn is the run of its effects, one by one. */
  lemma AfterTurnIsARun(id: Identity, raw: Bytes, head: ChainHead, d: Decision, now: int, reply: Reply)
    ensures AfterTurn(id, raw, head, d, now, reply) == Run(id, Agent(raw, Some(head), Idle), TurnEffects(d, now, reply))
  {
    var s, attempted := Agent(raw, Some(head), Idle), AfterAttempt(id, raw, head, d, now);
    RunConcat(id, s, [RecordDecision(d, now), RecordExecution], ReplyEffects(reply));
    RunTwo(id, s, RecordDecision(d, now), RecordExecution);
    OpeningSteps(id, raw, head, d, now);
    ConcludingSteps(id, attempted.raw, attempted.live.value, d, now, reply);
  }

  /** What the last receipt of a turn says of the reply. */
  ghost predicate TellsReply(p: Platform, r: Receipt, d: Decision, reply: Reply) {
    && r.kind == KIND_EFFECT && r.decision == TruncatedDecision(d)
    && match reply
       case Unreadable => true
       case Raises(text) => r.outcome == OUTCOME_ENFORCEMENT_ERROR && r.observed == [] && r.detail == text
       case Holds(actual) =>
         && r.observed == StateHash(p, actual)
         && if AllHonoured(d.classes, actual) then r.outcome == OUTCOME_ENFORCED && r.detail == []
            else r.outcome == OUTCOME_POSTCONDITION_FAILED
                 && exists said :: IsComplaint(d.classes, actual, said) && r.detail == p.complaint(said)
  }

  /** What one whole turn writes: the decision, the attempt and, if and only if something was raised or
      read back, the effect. All three carry the decision. */
  ghost predicate WritesTurn(p: Platform, more: seq<Receipt>, d: Decision, reply: Reply) {
    && |more| == (if reply.Unreadable? then 2 else 3)
    && more[0].kind == KIND_DECISION && more[1].kind == KIND_EXECUTION
    && more[0].decision == TruncatedDecision(d) == more[1].decision
    && (!reply.Unreadable? ==> TellsReply(p, more[2], d, reply))
  }

  ghost predicate ReplySized(p: Platform, d: Decision, reply: Reply) {
    match reply
    case Raises(text) => |text| < SIZE
    case Unreadable => true
    case Holds(actual) => |Detail(p, d, actual)| < SIZE
  }

  /** One whole turn of a sound agent leaves it sound, with exactly the turn's receipts behind the log:
      an effect receipt is among them exactly if the readback did not raise. */
  lemma TurnWritesReceipts(id: Identity, s: Agent, rs: seq<Receipt>, d: Decision, now: int, reply: Reply)
    returns (more: seq<Receipt>)
    requires id.p.Sound() && Sound(id, s, rs) && s.live.Some? && s.phase.Idle? && |id.site| < SIZE
    requires Sized(d, now, []) && ReplySized(id.p, d, reply) && |rs| + 3 < TWO64
    ensures WritesTurn(id.p, more, d, reply)
    ensures (exists r | r in more :: r.kind == KIND_EFFECT) <==> !reply.Unreadable?
    ensures var after := AfterTurn(id, s.raw, s.live.value, d, now, reply);
            Sound(id, after, rs + more) && after.live.Some? && after.phase.Idle?
  {
    var first, second, attempted := TurnOpens(id, s, rs, d, now);
    TurnConcludes(id, attempted, rs + [first] + [second], d, now, reply);
    more := [first, second] + LastReceipt(id, attempted.live.value, d, reply);
    BehindLog(rs, first, second, LastReceipt(id, attempted.live.value, d, reply));
    TurnIsWritten(id, attempted.live.value, first, second, d, reply);
  }

  lemma BehindLog(rs: seq<Receipt>, first: Receipt, second: Receipt, third: seq<Receipt>)
    ensures rs + [first] + [second] + third == rs + ([first, second] + third)
  {
  }

  lemma TurnOpens(id: Identity, s: Agent, rs: seq<Receipt>, d: Decision, now: int)
    returns (first: Receipt, second: Receipt, attempted: Agent)
    requires id.p.Sound() && Sound(id, s, rs) && s.live.Some? && s.phase.Idle? && |id.site| < SIZE
    requires Sized(d, now, []) && |rs| + 2 < TWO64
    ensures attempted == AfterAttempt(id, s.raw, s.live.value, d, now)
    ensures Sound(id, attempted, rs + [first] + [second])
    ensures first.kind == KIND_DECISION && second.kind == KIND_EXECUTION
    ensures first.decision == TruncatedDecision(d) == second.decision
  {
    var decided := AfterDecision(id, s.raw, s.live.value, d, now);
    attempted := AfterAttempt(id, s.raw, s.live.value, d, now);
    first := TruncatedReceipt(DecisionReceipt(id, s.live.value, d));
    second := TruncatedReceipt(ExecutionReceipt(id, decided.live.value, d));
    OpenStep(id, s, rs, d, now);
    AttemptStep(id, decided, rs + [first]);
  }

  /** The receipt that ends a turn, if one does. */
  function LastReceipt(id: Identity, head: ChainHead, d: Decision, reply: Reply): seq<Receipt> {
    match reply
    case Raises(text) => [TruncatedReceipt(ErrorReceipt(id, head, d, text))]
    case Unreadable => []
    case Holds(actual) => [TruncatedReceipt(EffectReceipt(id, head, d, actual))]
  }

  lemma TurnConcludes(id: Identity, s: Agent, rs: seq<Receipt>, d: Decision, now: int, reply: Reply)
    requires id.p.Sound() && Sound(id, s, rs) && s.live.Some? && s.phase == Attempted(d, now) && |id.site| < SIZE
    requires ReplySized(id.p, d, reply) && |rs| + 1 < TWO64
    ensures var after := Concluded(id, s.raw, s.live.value, d, now, reply);
            Sound(id, after, rs + LastReceipt(id, s.live.value, d, reply)) && after.live.Some? && after.phase.Idle?
  {
    ghost var third := LastReceipt(id, s.live.value, d, reply);
    match reply
    case Raises(text) => ErrorStep(id, s, rs, text);
    case Unreadable => assert rs + third == rs;
    case Holds(actual) =>
      var applied := Agent(s.raw, s.live, Applied(d, now));
      assert Sound(id, applied, rs);
      EffectStep(id, applied, rs, actual);
  }

  lemma TurnIsWritten(id: Identity, head: ChainHead, first: Receipt, second: Receipt, d: Decision, reply: Reply)
    requires first.kind == KIND_DECISION && second.kind == KIND_EXECUTION
    requires first.decision == TruncatedDecision(d) == second.decision
    ensures var more := [first, second] + LastReceipt(id, head, d, reply);
            WritesTurn(id.p, more, d, reply)
            && ((exists r | r in more :: r.kind == KIND_EFFECT) <==> !reply.Unreadable?)
  {
    var third := LastReceipt(id, head, d, reply);
    LastReceiptTells(id, head, d, reply);
    var more := [first, second] + third;
    assert more[0] == first && more[1] == second;
    if reply.Unreadable? {
      assert forall r | r in more :: r == first || r == second;
    } else {
      assert more[2] == third[0] && more[2] in more;
    }
  }

  lemma LastReceiptTells(id: Identity, head: ChainHead, d: Decision, reply: Reply)
    ensures var third := LastReceipt(id, head, d, reply);
            if reply.Unreadable? then third == [] else |third| == 1 && TellsReply(id.p, third[0], d, reply)
  {
    if reply.Holds? {
      NoComplaintIffHonoured(d.classes, reply.actual);
      if FirstComplaint(d.classes, reply.actual).Some? {
        ComplaintIsRight(d.classes, reply.actual);
      }
    }
  }

  class AgentCycle {
    const site: Text
    const store: BundleStore
    const chain: ReceiptChain

    constructor (site: Text, store: BundleStore, chain: ReceiptChain)
      ensures this.site == site && this.store == store && this.chain == chain
    {
      this.site, this.store, this.chain := site, store, chain;
    }

    function Who(): Identity {
      Identity(chain.p, chain.site, chain.key)
    }

    /** Pins the bundle, decides, and carries the decision through. */
    method RunOnce(evidence: Evidence, now: int, adapter: Decision -> Reply) returns (r: Result<Decision, CycleError>)
      requires chain.p.Sound()
      modifies chain, chain.sink
      ensures var (bundle, degraded) := store.Current(now);
              var d := DecisionFor(store.p, bundle, evidence, now, site, degraded);
              && r == TurnResult(d, adapter(d))
              && AfterTurn(Who(), old(chain.sink.raw), old(chain.CurrentHead()), d, now, adapter(d)) == Between(Idle)
    {
      var (bundle, degraded) := store.Current(now);
      var d := Decide.Decide(store.p, bundle, evidence, now, site, degraded);
      r := CarryOut(d, now, adapter(d));
    }

    /** The agent between two effects of a turn. */
    function Between(phase: Phase): Agent
      reads chain, chain.sink
    {
      Agent(chain.sink.raw, Some(chain.CurrentHead()), phase)
    }

    /** Records the decision and the attempt, enforces, reads back and records the effect; raises only
        after the effect is recorded, or if nothing could be read. */
    method CarryOut(d: Decision, now: int, reply: Reply) returns (r: Result<Decision, CycleError>)
      requires chain.p.Sound()
      modifies chain, chain.sink
      ensures r == TurnResult(d, reply)
      ensures AfterTurn(Who(), old(chain.sink.raw), old(chain.CurrentHead()), d, now, reply) == Between(Idle)
    {
      Announce(d, now);
      r := Conclude(d, now, reply);
    }

    /** Enforcement and what is recorded of it. */
    method Conclude(d: Decision, now: int, reply: Reply) returns (r: Result<Decision, CycleError>)
      requires chain.p.Sound()
      modifies chain, chain.sink
      ensures r == TurnResult(d, reply)
      ensures Concluded(Who(), old(chain.sink.raw), old(chain.CurrentHead()), d, now, reply) == Between(Idle)
    {
      match reply
      case Raises(text) =>
        RecordError(d, now, text);
        return Err(EnforcementError(text));
      case Unreadable =>
        return Err(ReadbackError);
      case Holds(actual) =>
        var complaint := RecordEffect(d, now, actual);
        if complaint.Some? {
          return Err(PostconditionViolation(complaint.value));
        }
        return Ok(d);
    }

    /** An enforcement that raised goes on record before the exception goes on. */
    method RecordError(d: Decision, now: int, text: Text)
      requires chain.p.Sound()
      modifies chain, chain.sink
      ensures var r := ErrorReceipt(Who(), old(chain.CurrentHead()), d, text);
              Between(Idle) == Recorded(Who(), old(Between(Idle)), r, now, Idle)
    {
      var _ := chain.Record(d, now, KIND_EFFECT, OUTCOME_ENFORCEMENT_ERROR, [], text);
    }

    /** What the dataplane was seen to hold goes on record, whether it honours the decision or not. */
    method RecordEffect(d: Decision, now: int, actual: State) returns (complaint: Option<Complaint>)
      requires chain.p.Sound()
      modifies chain, chain.sink
      ensures complaint == FirstComplaint(d.classes, actual)
      ensures var r := EffectReceipt(Who(), old(chain.CurrentHead()), d, actual);
              Between(Idle) == Recorded(Who(), old(Between(Idle)), r, now, Idle)
    {
      complaint := PostconditionComplaint(d.classes, actual);
      var outcome := if complaint.Some? then OUTCOME_POSTCONDITION_FAILED else OUTCOME_ENFORCED;
      var detail := if complaint.Some? then chain.p.complaint(complaint.value) else [];
      var _ := chain.Record(d, now, KIND_EFFECT, outcome, StateHash(chain.p, actual), detail);
    }

    /** Recording precedes acting: the decision and the attempt are on disk before the adapter runs. */
    method Announce(d: Decision, now: int)
      requires chain.p.Sound()
      modifies chain, chain.sink
      ensures AfterAttempt(Who(), old(chain.sink.raw), old(chain.CurrentHead()), d, now) == Between(Attempted(d, now))
    {
      var _ := chain.Record(d, now, KIND_DECISION, [], [], []);
      var _ := chain.Record(d, now, KIND_EXECUTION, [], [], []);
    }
  }
}
