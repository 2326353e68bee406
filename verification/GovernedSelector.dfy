/** The governed selector: the real agent, then latency inside the permitted set (sim/selectors.py). */
module GovernedSelector {
  import opened Prelude
  import opened Ordering
  import opened Cbor
  import opened Models
  import opened Rules
  import opened Policy
  import opened Messages
  import opened Envelopes
  import opened Epoch
  import opened Floor
  import opened Decide
  import opened FileSink
  import opened Receipts
  import opened BundleStores
  import opened Cycle
  import opened Selectors
  import opened Links
  import opened Simulation

  const ISSUER := Ascii("authority-1")

  /** The scenario's bundle, the site, and the authority's key. */
  datatype Plan = Plan(p: Platform, bundle: PolicyBundle, site: Text, key: Bytes) {
    function Trust(): Config {
      Config(p.publicKey(key), ISSUER, site)
    }

    function Validity(): int {
      bundle.notAfter - bundle.issuedAt
    }

    function Floor(): PolicyBundle {
      WireFloor(ISSUER, bundle.links, bundle.classes, bundle.issuedAt)
    }
  }

  // ---------- publishing ----------

  function Reissued(plan: Plan, epoch: nat, now: int): PolicyBundle {
    plan.bundle.(sequence := epoch, issuedAt := now, notAfter := now + plan.Validity())
  }

  function SignedIssue(plan: Plan, epoch: nat, now: int): Result<Envelope, EnvelopeError> {
    Sign(plan.p, MSG_POLICY_BUNDLE, ISSUER, now, BigEndian(epoch, 16), EncodeBundle(Reissued(plan, epoch, now)),
         plan.key)
  }

  /** `_publish`: a higher sequence and a fresh nonce each time. */
  function Publish(plan: Plan, epoch: nat, now: int): Bytes {
    var signed := SignedIssue(plan, epoch, now);
    if signed.Err? then [] else EncodeEnvelope(signed.value)
  }

  /** The publication is of a size that the wire can carry. */
  ghost predicate Issuable(plan: Plan, epoch: nat, now: int) {
    && epoch < TWO64 && -TWO64 <= ToSeconds(now) < TWO64
    && Encodable(BundleValue(Reissued(plan, epoch, now)))
    && |EncodeBundle(Reissued(plan, epoch, now))| < TWO64
  }

  /** A publication of this moment names the store's authority, and has not expired once the wire has cut
      its expiry to whole seconds. */
  predicate Acceptable(plan: Plan, now: int) {
    plan.bundle.authorityId == ISSUER && now < Truncated(now + plan.Validity())
  }

  /** A validity of a second or more is still ahead after the wire has cut it to whole seconds. */
  lemma SecondIsAcceptable(plan: Plan, now: int)
    requires plan.bundle.authorityId == ISSUER && plan.Validity() >= SECOND
    ensures Acceptable(plan, now)
  {
    TruncatedTwice(now + plan.Validity());
  }

  lemma PublishedDecodes(plan: Plan, epoch: nat, now: int)
    requires plan.p.Sound() && Issuable(plan, epoch, now)
    ensures var signed := SignedIssue(plan, epoch, now);
            signed.Ok? && DecodeEnvelope(Publish(plan, epoch, now)) == Ok(TruncatedEnvelope(signed.value))
            && Verify(plan.p, TruncatedEnvelope(signed.value), plan.p.publicKey(plan.key)) == Ok(())
            && DecodeBundle(signed.value.payload) == Ok(TruncatedBundle(Reissued(plan, epoch, now)))
  {
    var payload := EncodeBundle(Reissued(plan, epoch, now));
    SignedVerifies(plan.p, MSG_POLICY_BUNDLE, ISSUER, now, BigEndian(epoch, 16), payload, plan.key);
    DecodeEnvelopeOfEncode(plan.p, SignedIssue(plan, epoch, now).value, plan.p.publicKey(plan.key));
    DecodeBundleOfEncode(Reissued(plan, epoch, now));
  }

  /** The authority's own refresh passes the checks of type, issuer, skew, signature, nonce and sequence:
      it is refused only if it names another authority or has expired on arrival. */
  lemma PublishedIsAdmitted(plan: Plan, epoch: nat, now: int, sequence: int, nonces: set<Bytes>)
    requires plan.p.Sound() && Issuable(plan, epoch, now)
    requires sequence < epoch && BigEndian(epoch, 16) !in nonces
    ensures Admit(plan.p, plan.Trust(), sequence, nonces, true, Publish(plan, epoch, now), now)
            == if plan.bundle.authorityId != ISSUER then Err(WrongAuthority)
               else if !Acceptable(plan, now) then Err(Expired)
               else Ok(Admission(TruncatedEnvelope(SignedIssue(plan, epoch, now).value),
                                 TruncatedBundle(Reissued(plan, epoch, now))))
  {
    PublishedDecodes(plan, epoch, now);
    ReissuedOnWire(plan, epoch, now);
  }

  /** A publication is the scenario's bundle under a new number, issued now and good for as long. */
  lemma ReissuedOnWire(plan: Plan, epoch: nat, now: int)
    ensures var b := TruncatedBundle(Reissued(plan, epoch, now));
            && b.authorityId == plan.bundle.authorityId && b.sequence == epoch
            && (Acceptable(plan, now) <==> b.authorityId == ISSUER && now < b.notAfter)
            && b.issuedAt == Truncated(now)
                    && b.notAfter == Truncated(now + (plan.bundle.notAfter - plan.bundle.issuedAt))
            && b.bundleId == plan.bundle.bundleId && b.ttl == plan.bundle.ttl && b.links == plan.bundle.links
            && b.classes == plan.bundle.classes && b.rules == Map(TruncatedRule, plan.bundle.rules)
    ensures Truncated(now) <= now + MAX_CLOCK_SKEW
  {
    TruncatedTwice(now);
  }

  // ---------- the store along a run ----------

  datatype Tick = Tick(now: int, reachable: bool)

  datatype Standing = Standing(memory: Volatile, epoch: nat)

  const RESET := Standing(Volatile(None, NO_EPOCH, {}), 0)

  /** The number of the next publication. */
  function NextNumber(s: Standing): nat {
    s.epoch + 1
  }

  /** The store takes what the authority sent under the next epoch; a refusal would raise. */
  function Take(plan: Plan, s: Standing, data: Bytes, now: int): Result<Standing, StoreError> {
    var admitted := Admit(plan.p, plan.Trust(), s.memory.sequence, s.memory.nonces, true, data, now);
    if admitted.Err? then Err(admitted.error) else Ok(Standing(Installed(s.memory, admitted.value), NextNumber(s)))
  }

  /** What the authority sends in a step, if it is reachable. */
  function Issue(plan: Plan, epoch: nat, tick: Tick): Option<Bytes> {
    if tick.reachable then Some(Publish(plan, epoch, tick.now)) else None
  }

  function Receive(plan: Plan, s: Standing, sent: Option<Bytes>, now: int): Result<Standing, StoreError> {
    if sent.None? then Ok(s) else Take(plan, s, sent.value, now)
  }

  /** Publishes and accepts if the authority is reachable. */
  function Refresh(plan: Plan, s: Standing, tick: Tick): Result<Standing, StoreError> {
    Receive(plan, s, Issue(plan, NextNumber(s), tick), tick.now)
  }

  function RefreshAll(plan: Plan, ticks: seq<Tick>): Result<Standing, StoreError> {
    if ticks == [] then Ok(RESET)
    else
      var before :- RefreshAll(plan, ticks[..|ticks| - 1]);
      Refresh(plan, before, ticks[|ticks| - 1])
  }

  /** The bundle that a run leaves in the store. */
  function BundleAfter(plan: Plan, ticks: seq<Tick>): Option<PolicyBundle> {
    var r := RefreshAll(plan, ticks);
    if r.Err? then None else r.value.memory.bundle
  }

  function ReachableCount(ticks: seq<Tick>): nat {
    if ticks == [] then 0 else ReachableCount(ticks[..|ticks| - 1]) + if ticks[|ticks| - 1].reachable then 1 else 0
  }

  function LastPublication(ticks: seq<Tick>): Option<int> {
    if ticks == [] then None
    else if ticks[|ticks| - 1].reachable then Some(ticks[|ticks| - 1].now)
    else LastPublication(ticks[..|ticks| - 1])
  }

  /** What can be said of the store by counting alone. */
  ghost predicate Counted(plan: Plan, ticks: seq<Tick>, s: Standing) {
    var n := ReachableCount(ticks);
    && s.epoch == n
    && s.memory.sequence == (if n == 0 then NO_EPOCH else n)
    && (LastPublication(ticks).None? <==> n == 0)
    && s.memory.bundle == (if n == 0 then None
                           else Some(TruncatedBundle(Reissued(plan, n, LastPublication(ticks).value))))
    && NoncesUpTo(s.memory.nonces, n)
  }

  /** Every nonce is that of one of the first `n` publications. */
  ghost predicate NoncesUpTo(nonces: set<Bytes>, n: nat) {
    forall nonce | nonce in nonces :: exists k: nat :: k <= n && nonce == BigEndian(k, 16)
  }

  lemma NextNonceIsFresh(nonces: set<Bytes>, n: nat)
    requires NoncesUpTo(nonces, n) && n + 1 < TWO64
    ensures BigEndian(n + 1, 16) !in nonces && NoncesUpTo(nonces + {BigEndian(n + 1, 16)}, n + 1)
  {
    if BigEndian(n + 1, 16) in nonces {
      var k: nat :| k <= n && BigEndian(n + 1, 16) == BigEndian(k, 16);
      NoncesDistinct(k, n + 1);
    }
  }

  /** Whatever is published is of a size that the wire can carry. */
  ghost predicate Carriable(plan: Plan, ticks: seq<Tick>) {
    && plan.p.Sound() && |ticks| < TWO64
    && forall i, epoch: nat | 0 <= i < |ticks| && epoch <= |ticks| :: Issuable(plan, epoch, ticks[i].now)
  }

  /** Whatever is published is also taken. */
  ghost predicate Runnable(plan: Plan, ticks: seq<Tick>) {
    Carriable(plan, ticks) && forall i | 0 <= i < |ticks| && ticks[i].reachable :: Acceptable(plan, ticks[i].now)
  }

  lemma {:induction false} CountBound(ticks: seq<Tick>)
    ensures ReachableCount(ticks) <= |ticks|
  {
    if ticks != [] {
      CountBound(ticks[..|ticks| - 1]);
    }
  }

  lemma {:induction false} PowerGrows(k: nat, l: nat)
    requires k <= l
    ensures 0 < Power256(k) <= Power256(l)
    decreases l
  {
    if k < l {
      PowerGrows(k, l - 1);
    } else if k > 0 {
      PowerGrows(k - 1, k - 1);
    }
  }

  lemma NoncesDistinct(a: nat, b: nat)
    requires a < TWO64 && b < TWO64 && BigEndian(a, 16) == BigEndian(b, 16)
    ensures a == b
  {
    Powers();
    PowerGrows(8, 16);
    BigEndianRoundTrip(a, 16);
    BigEndianRoundTrip(b, 16);
  }

  /** Along any run of ticks every publication is accepted, and the store holds the last of them under
      the number of publications since the reset. */
  lemma {:induction false} PublicationsAreAccepted(plan: Plan, ticks: seq<Tick>)
    requires Runnable(plan, ticks)
    ensures RefreshAll(plan, ticks).Ok? && Counted(plan, ticks, RefreshAll(plan, ticks).value)
  {
    if ticks != [] {
      var n := |ticks| - 1;
      assert forall i | 0 <= i < n :: ticks[..n][i] == ticks[i];
      PublicationsAreAccepted(plan, ticks[..n]);
      RefreshIsCounted(plan, ticks, RefreshAll(plan, ticks[..n]).value);
    }
  }

  /** A run of ticks is refused nothing exactly when each publication names the authority and is unexpired
      on arrival. */
  lemma {:induction false} NothingRefusedIff(plan: Plan, ticks: seq<Tick>)
    requires Carriable(plan, ticks)
    ensures RefreshAll(plan, ticks).Ok? <==> Runnable(plan, ticks)
  {
    if ticks != [] {
      var n := |ticks| - 1;
      assert forall i | 0 <= i < n :: ticks[..n][i] == ticks[i];
      NothingRefusedIff(plan, ticks[..n]);
      if Runnable(plan, ticks[..n]) {
        LastRefusedIff(plan, ticks);
      }
    }
  }

  lemma LastRefusedIff(plan: Plan, ticks: seq<Tick>)
    requires Carriable(plan, ticks) && ticks != [] && Runnable(plan, ticks[..|ticks| - 1])
    ensures RefreshAll(plan, ticks).Ok? <==> Runnable(plan, ticks)
  {
    var n := |ticks| - 1;
    if ticks[n].reachable ==> Acceptable(plan, ticks[n].now) {
      assert forall i | 0 <= i < n :: ticks[..n][i] == ticks[i];
      PublicationsAreAccepted(plan, ticks);
    } else {
      PublicationsAreAccepted(plan, ticks[..n]);
      UnacceptableIsRefused(plan, ticks, RefreshAll(plan, ticks[..n]).value);
    }
  }

  lemma UnacceptableIsRefused(plan: Plan, ticks: seq<Tick>, before: Standing)
    requires Carriable(plan, ticks) && ticks != [] && Counted(plan, ticks[..|ticks| - 1], before)
    requires ticks[|ticks| - 1].reachable && !Acceptable(plan, ticks[|ticks| - 1].now)
    ensures Refresh(plan, before, ticks[|ticks| - 1]).Err?
  {
    var now := ticks[|ticks| - 1].now;
    CountBound(ticks[..|ticks| - 1]);
    assert Issuable(plan, NextNumber(before), now);
    NextNonceIsFresh(before.memory.nonces, before.epoch);
    PublishedIsAdmitted(plan, NextNumber(before), now, before.memory.sequence, before.memory.nonces);
  }

  /** What a publication leaves in the store. */
  function Renewed(plan: Plan, s: Standing, now: int): Standing {
    var epoch := NextNumber(s);
    var bundle := TruncatedBundle(Reissued(plan, epoch, now));
    Standing(Volatile(Some(bundle), epoch, s.memory.nonces + {BigEndian(epoch, 16)}), epoch)
  }

  lemma PublicationIsInstalled(plan: Plan, s: Standing, now: int)
    requires plan.p.Sound() && Issuable(plan, NextNumber(s), now) && Acceptable(plan, now)
    requires s.memory.sequence <= s.epoch && BigEndian(NextNumber(s), 16) !in s.memory.nonces
    ensures Refresh(plan, s, Tick(now, true)) == Ok(Renewed(plan, s, now))
  {
    var epoch := NextNumber(s);
    PublishedIsAdmitted(plan, epoch, now, s.memory.sequence, s.memory.nonces);
    PublishedDecodes(plan, epoch, now);
    var signed, bundle := SignedIssue(plan, epoch, now).value, TruncatedBundle(Reissued(plan, epoch, now));
    assert TruncatedEnvelope(signed).nonce == BigEndian(epoch, 16) && bundle.sequence == epoch;
  }

  lemma RefreshIsCounted(plan: Plan, ticks: seq<Tick>, before: Standing)
    requires Runnable(plan, ticks) && ticks != [] && Counted(plan, ticks[..|ticks| - 1], before)
    ensures var r := Refresh(plan, before, ticks[|ticks| - 1]); r.Ok? && Counted(plan, ticks, r.value)
  {
    if ticks[|ticks| - 1].reachable {
      PublicationIsTaken(plan, ticks, before);
    }
  }

  lemma PublicationIsTaken(plan: Plan, ticks: seq<Tick>, before: Standing)
    requires Runnable(plan, ticks) && ticks != [] && ticks[|ticks| - 1].reachable
    requires Counted(plan, ticks[..|ticks| - 1], before)
    ensures NoncesUpTo(before.memory.nonces + {BigEndian(NextNumber(before), 16)}, NextNumber(before))
    ensures Refresh(plan, before, ticks[|ticks| - 1]) == Ok(Renewed(plan, before, ticks[|ticks| - 1].now))
  {
    CountBound(ticks[..|ticks| - 1]);
    assert Issuable(plan, NextNumber(before), ticks[|ticks| - 1].now) && Acceptable(plan, ticks[|ticks| - 1].now);
    NextNonceIsFresh(before.memory.nonces, before.epoch);
    PublicationIsInstalled(plan, before, ticks[|ticks| - 1].now);
    assert ticks[|ticks| - 1] == Tick(ticks[|ticks| - 1].now, true);
  }

  /** Nothing was published, or the last publication has expired, by the whole second that the wire
      keeps of its expiry. */
  predicate Lapsed(plan: Plan, ticks: seq<Tick>)
    requires ticks != []
  {
    var last := LastPublication(ticks);
    last.None? || ticks[|ticks| - 1].now >= Truncated(last.value + plan.Validity())
  }

  /** The bundle in force after a run of ticks, and whether the site is degraded. */
  function InForceAfter(plan: Plan, ticks: seq<Tick>): (PolicyBundle, bool)
    requires ticks != []
  {
    CurrentOf(plan.Floor(), BundleAfter(plan, ticks), ticks[|ticks| - 1].now)
  }

  /** A step is degraded exactly when nothing was published or the last publication has expired: for
      any clock at all. */
  lemma DegradedExactlyWhenLapsed(plan: Plan, ticks: seq<Tick>)
    requires Runnable(plan, ticks) && ticks != []
    ensures InForceAfter(plan, ticks).1 <==> Lapsed(plan, ticks)
  {
    PublicationsAreAccepted(plan, ticks);
  }

  ghost predicate WholeTicks(ticks: seq<Tick>) {
    forall i | 0 <= i < |ticks| :: ticks[i].now % SECOND == 0
  }

  lemma {:induction false} LastPublicationIsATick(ticks: seq<Tick>)
    ensures LastPublication(ticks).Some? ==>
              exists i :: 0 <= i < |ticks| && ticks[i].now == LastPublication(ticks).value
  {
    if ticks != [] && !ticks[|ticks| - 1].reachable {
      LastPublicationIsATick(ticks[..|ticks| - 1]);
      if LastPublication(ticks).Some? {
        var i :| 0 <= i < |ticks| - 1 && ticks[..|ticks| - 1][i].now == LastPublication(ticks).value;
        assert ticks[i].now == LastPublication(ticks).value;
      }
    }
  }

  /** On a clock and a validity in whole seconds, that is when now minus the last publication is at
      least the validity. */
  lemma LapsedInWholeSeconds(plan: Plan, ticks: seq<Tick>)
    requires ticks != [] && WholeTicks(ticks) && plan.Validity() % SECOND == 0
    ensures var last := LastPublication(ticks);
            Lapsed(plan, ticks) <==> last.None? || ticks[|ticks| - 1].now - last.value >= plan.Validity()
  {
    LastPublicationIsATick(ticks);
    if LastPublication(ticks).Some? {
      WholeExpiry(LastPublication(ticks).value, plan.Validity());
    }
  }

  lemma WholeExpiry(published: int, validity: int)
    requires published % SECOND == 0 && validity % SECOND == 0
    ensures Truncated(published + validity) == published + validity
  {
    TruncatedTwice(published + validity);
  }

  // ---------- choosing ----------

  /** `NoopDataplane`: holds exactly what it was told; a later entry for a class replaces an earlier. */
  function NoopState(classes: seq<ClassEligibility>): State {
    if classes == [] then map[]
    else
      var last := classes[|classes| - 1];
      NoopState(classes[..|classes| - 1])[last.classId := last.permitted]
  }

  lemma {:induction false} NoopHolds(classes: seq<ClassEligibility>)
    requires forall i, j | 0 <= i < j < |classes| :: classes[i].classId != classes[j].classId
    ensures forall i | 0 <= i < |classes| :: InForce(NoopState(classes), classes[i].classId) == classes[i].permitted
  {
    if classes != [] {
      NoopHolds(classes[..|classes| - 1]);
    }
  }

  /** With distinct class ids the honest dataplane never violates the postcondition. */
  lemma NoopHonours(d: Decision)
    requires forall i, j | 0 <= i < j < |d.classes| :: d.classes[i].classId != d.classes[j].classId
    ensures TurnResult(d, Holds(NoopState(d.classes))) == Ok(d)
  {
    NoopHolds(d.classes);
    NoComplaintIffHonoured(d.classes, NoopState(d.classes));
  }

  /** The best of the class's permitted links; an empty set is replaced by that of the first class. */
  function ChoiceFor(p: Platform, evidence: Evidence, decided: seq<ClassEligibility>, classId: Text): Option<Text> {
    var permitted := Decide.Permitted(decided, classId);
    BestByRtt(p, evidence, if permitted == [] && decided != [] then decided[0].permitted else permitted)
  }

  /** This is the best live link of these: there is none exactly if none of them is observed up, and no
      other of them that is observed up is better. */
  ghost predicate IsBestOf(p: Platform, evidence: Evidence, ids: seq<Text>, choice: Option<Text>) {
    && (choice.None? <==> forall x | x in ids :: !ObservedUp(p, evidence, x))
    && (choice.Some? ==>
          choice.value in ids && ObservedUp(p, evidence, choice.value)
          && forall x | x in ids && ObservedUp(p, evidence, x) :: !Better(p, evidence, x, choice.value))
  }

  /** A class gets the best live link of its own permitted set, or of the first class's set if its own is
      empty. */
  lemma ChoiceIsBest(p: Platform, evidence: Evidence, decided: seq<ClassEligibility>, classId: Text)
    ensures var own := Decide.Permitted(decided, classId);
            && (own != [] ==> IsBestOf(p, evidence, own, ChoiceFor(p, evidence, decided, classId)))
            && (own == [] && decided != [] ==>
                  IsBestOf(p, evidence, decided[0].permitted, ChoiceFor(p, evidence, decided, classId)))
            && (decided == [] ==> ChoiceFor(p, evidence, decided, classId) == None)
  {
    BestIsBest(p, evidence, Decide.Permitted(decided, classId));
    if decided != [] {
      BestIsBest(p, evidence, decided[0].permitted);
    }
  }

  function ChoicesFor(p: Platform, evidence: Evidence, decided: seq<ClassEligibility>, classIds: seq<Text>): Choices {
    map c | c in classIds :: ChoiceFor(p, evidence, decided, c)
  }

  datatype CallError = Refused(why: StoreError) | TurnFailed(cause: CycleError)

  /** What the governed selector keeps from call to call: the store, and the log with its live head. */
  datatype Governance = Governance(standing: Standing, log: Agent)

  /** What the agent decides under the bundle in force. */
  function Deciding(plan: Plan, bundle: Option<PolicyBundle>, evidence: Evidence, now: int): Decision {
    var (inForce, degraded) := CurrentOf(plan.Floor(), bundle, now);
    DecisionFor(plan.p, inForce, evidence, now, plan.site, degraded)
  }

  function HonestReply(d: Decision): Reply {
    Holds(NoopState(d.classes))
  }

  /** The log after a turn on the honest dataplane. */
  function Turned(id: Identity, log: Agent, d: Decision, now: int): Agent {
    if log.live.None? then log else AfterTurn(id, log.raw, log.live.value, d, now, HonestReply(d))
  }

  /** A turn of the agent and the choice: the log it leaves, and the answer or what it raises. */
  function Serving(plan: Plan, key: Bytes, standing: Standing, log: Agent, ctx: Context, classIds: seq<Text>)
    : (Agent, Result<Answer, CallError>)
  {
    var d := Deciding(plan, standing.memory.bundle, ctx.evidence, ctx.now);
    var turn := TurnResult(d, HonestReply(d));
    (Turned(Identity(plan.p, plan.site, key), log, d, ctx.now),
     if turn.Err? then Err(TurnFailed(turn.error))
     else Ok(Answer(ChoicesFor(plan.p, ctx.evidence, d.classes, classIds), d.degraded)))
  }

  /** One call: what it leaves, and its answer or what it raises. */
  function Calling(plan: Plan, key: Bytes, s: Governance, ctx: Context, classIds: seq<Text>)
    : (Governance, Result<Answer, CallError>)
  {
    var refreshed := Refresh(plan, s.standing, Tick(ctx.now, ctx.reachable));
    if refreshed.Err? then (Governance(Missed(s.standing), s.log), Err(Refused(refreshed.error)))
    else
      var (log, answer) := Serving(plan, key, refreshed.value, s.log, ctx, classIds);
      (Governance(refreshed.value, log), answer)
  }

  /** The store after a publication that it refused: its number is spent. */
  function Missed(s: Standing): Standing {
    s.(epoch := NextNumber(s))
  }

  /** These bytes are genuine for the plan's own floor and for no other. */
  ghost predicate OnlyFloor(plan: Plan, signedFloor: Bytes) {
    forall f :: GenuineFloor(plan.p, plan.Trust(), signedFloor, None, f) <==> f == plan.Floor()
  }

  /** The floor that the selector signs for itself is the one it gets. */
  lemma FloorIsGenuine(plan: Plan, nonce: Bytes)
    requires plan.p.Sound()
    requires FloorEncodable(plan.p, plan.key, ISSUER, plan.site, plan.bundle.links, plan.bundle.classes,
                            plan.bundle.issuedAt, nonce)
    ensures var signed := SignFloor(plan.p, plan.key, ISSUER, plan.site, plan.bundle.links, plan.bundle.classes,
                                    plan.bundle.issuedAt, nonce);
            signed.Ok? && OnlyFloor(plan, signed.value)
  {
    SignedFloorInstalls(plan.p, plan.key, ISSUER, plan.site, plan.bundle.links, plan.bundle.classes,
                        plan.bundle.issuedAt, nonce, None);
    var signed := SignFloor(plan.p, plan.key, ISSUER, plan.site, plan.bundle.links, plan.bundle.classes,
                            plan.bundle.issuedAt, nonce);
    forall f ensures GenuineFloor(plan.p, plan.Trust(), signed.value, None, f) <==> f == plan.Floor() {
      InstallsExactly(plan.p, plan.Trust(), signed.value, None, f);
    }
  }

  class Governed {
    const plan: Plan
    const store: BundleStore
    const chain: ReceiptChain
    var epoch: nat
    var lastDegraded: bool

    ghost predicate Valid()
      reads this, store, store.epochs, chain
    {
      && plan.p.Sound()
      && store.p == plan.p && store.config == plan.Trust() && store.floor == plan.Floor()
      && chain.p == plan.p && chain.site == plan.site
      && !store.epochs.mark.Garbled?
    }

    function Kept(): Standing
      reads this, store
    {
      Standing(store.Memory(), epoch)
    }

    function Log(): Agent
      reads chain, chain.sink
    {
      Agent(chain.sink.raw, Some(chain.CurrentHead()), Idle)
    }

    function Where(): Governance
      reads this, store, chain, chain.sink
    {
      Governance(Kept(), Log())
    }

    function Who(): Identity {
      Identity(plan.p, plan.site, chain.key)
    }

    constructor (plan: Plan, store: BundleStore, chain: ReceiptChain)
      ensures this.plan == plan && this.store == store && this.chain == chain
      ensures epoch == 0 && lastDegraded
    {
      this.plan, this.store, this.chain := plan, store, chain;
      epoch, lastDegraded := 0, true;
    }

    /** `reset`: a store on a freshly signed floor, an empty log and a new chain. */
    static method Reset(plan: Plan, siteKey: Bytes, nonce: Bytes) returns (g: Governed)
      requires plan.p.Sound()
      requires FloorEncodable(plan.p, plan.key, ISSUER, plan.site, plan.bundle.links, plan.bundle.classes,
                              plan.bundle.issuedAt, nonce)
      ensures fresh(g) && fresh(g.store) && fresh(g.store.epochs) && fresh(g.chain) && fresh(g.chain.sink)
      ensures g.Valid() && g.plan == plan && g.chain.key == siteKey && g.Where() == STARTED
    {
      FloorIsGenuine(plan, nonce);
      var signed := SignFloor(plan.p, plan.key, ISSUER, plan.site, plan.bundle.links, plan.bundle.classes,
                              plan.bundle.issuedAt, nonce);
      var store := OpenStore(plan, signed.value);
      var sink := new FileReceiptSink([]);
      var chain := new ReceiptChain(plan.p, plan.site, sink, siteKey);
      g := new Governed(plan, store, chain);
    }

    /** A store on a genuine floor, with no mark on disk. */
    static method OpenStore(plan: Plan, signedFloor: Bytes) returns (store: BundleStore)
      requires OnlyFloor(plan, signedFloor)
      ensures fresh(store) && fresh(store.epochs) && store.epochs.mark == Absent
      ensures store.p == plan.p && store.config == plan.Trust() && store.floor == plan.Floor()
      ensures store.Memory() == RESET.memory
    {
      var epochs := new FileEpochStore(Absent);
      assert GenuineFloor(plan.p, plan.Trust(), signedFloor, None, plan.Floor());
      var started := BundleStore.Open(plan.p, plan.Trust(), signedFloor, epochs, None);
      store := started.value;
    }

    /** A result as the event loop takes it: the choices, and whether the selector was degraded. */
    function Said(r: Result<Choices, CallError>): Result<Answer, CallError>
      reads this
    {
      if r.Err? then Err(r.error) else Ok(Answer(r.value, lastDegraded))
    }

    /** Refreshes the bundle if the authority is reachable, runs the agent, and chooses. */
    method Call(ctx: Context, classIds: seq<Text>) returns (r: Result<Choices, CallError>)
      requires Valid()
      modifies this, store, store.epochs, chain, chain.sink
      ensures Valid()
      ensures (Where(), Said(r)) == Calling(plan, chain.key, old(Where()), ctx, classIds)
    {
      ghost var before := Log();
      var failed := TakePublication(Tick(ctx.now, ctx.reachable));
      assert Log() == before;
      if failed.Some? {
        return Err(Refused(failed.value));
      }
      ghost var kept := Kept();
      r := Serve(ctx, classIds);
      assert Kept() == kept;
    }

    /** The turn and the choice of one call. */
    method Serve(ctx: Context, classIds: seq<Text>) returns (r: Result<Choices, CallError>)
      requires Valid()
      modifies this`lastDegraded, chain, chain.sink
      ensures Valid()
      ensures (Log(), Said(r)) == Serving(plan, chain.key, Kept(), old(Log()), ctx, classIds)
    {
      var turn := RunAgent(ctx.evidence, ctx.now);
      ghost var log := Log();
      if turn.Err? {
        return Err(TurnFailed(turn.error));
      }
      lastDegraded := turn.value.degraded;
      assert Log() == log;
      var choices := Choose(plan.p, ctx.evidence, turn.value, classIds);
      return Ok(choices);
    }

    /** One turn of the real agent on the honest dataplane. */
    method RunAgent(evidence: Evidence, now: int) returns (turn: Result<Decision, CycleError>)
      requires Valid()
      modifies chain, chain.sink
      ensures Valid()
      ensures var d := Deciding(plan, store.bundle, evidence, now);
              turn == TurnResult(d, HonestReply(d)) && Log() == Turned(Who(), old(Log()), d, now)
    {
      var cycle := new AgentCycle(plan.site, store, chain);
      turn := cycle.RunOnce(evidence, now, (d: Decision) => HonestReply(d));
    }

    /** The authority's publication reaches the store, if the authority is reachable. */
    method TakePublication(tick: Tick) returns (failed: Option<StoreError>)
      requires Valid()
      modifies this, store, store.epochs
      ensures Valid()
      ensures var refreshed := Refresh(plan, old(Kept()), tick);
              if refreshed.Err? then failed == Some(refreshed.error) && Kept() == Missed(old(Kept()))
              else failed.None? && Kept() == refreshed.value
    {
      var kept := Kept();
      var sent := Issue(plan, NextNumber(kept), tick);
      failed := TakeSent(sent, tick.now);
    }

    method TakeSent(sent: Option<Bytes>, now: int) returns (failed: Option<StoreError>)
      requires Valid()
      modifies this, store, store.epochs
      ensures Valid()
      ensures var taken := Receive(plan, old(Kept()), sent, now);
              if taken.Err? then failed == Some(taken.error) && Kept() == Missed(old(Kept()))
              else failed.None? && Kept() == taken.value
    {
      failed := None;
      if sent.Some? {
        epoch := epoch + 1;
        var accepted := store.Accept(sent.value, now, true);
        failed := if accepted.Err? then Some(accepted.error) else None;
      }
    }
  }

  /** Where a selector stands after a reset. */
  const STARTED := Governance(RESET, Agent([], Some(GENESIS), Idle))

  /** The loop over the classes to be served. */
  method Choose(p: Platform, evidence: Evidence, d: Decision, classIds: seq<Text>) returns (choices: Choices)
    ensures choices == ChoicesFor(p, evidence, d.classes, classIds)
    ensures choices.Keys == set c | c in classIds
    ensures forall c | c in classIds && Decide.Permitted(d.classes, c) != [] ::
              IsBestOf(p, evidence, Decide.Permitted(d.classes, c), choices[c])
  {
    forall c ensures Decide.Permitted(d.classes, c) != [] ==>
                       IsBestOf(p, evidence, Decide.Permitted(d.classes, c), ChoiceFor(p, evidence, d.classes, c))
    {
      ChoiceIsBest(p, evidence, d.classes, c);
    }
    choices := map[];
    for i := 0 to |classIds|
      invariant choices == ChoicesFor(p, evidence, d.classes, classIds[..i])
    {
      var permitted := Decide.PermittedFor(d, classIds[i]);
      if permitted == [] && d.classes != [] {
        permitted := d.classes[0].permitted;
      }
      choices := choices[classIds[i] := BestByRtt(p, evidence, permitted)];
    }
    assert classIds[..|classIds|] == classIds;
  }

  // ---------- the choices against the oracle ----------

  /** The rules carry every constraint the class declares. */
  ghost predicate CoversClass(rules: seq<Rule>, c: TrafficClass) {
    && (!c.allowMetered ==> exists r | r in rules :: r.MeteredRule? && r.classId == c.id)
    && (c.allowedJurisdictions.Some? ==> exists r | r in rules :: r.JurisdictionRule? && r.classId == c.id)
    && (c.requiresEncryption ==> exists r | r in rules :: r.EncryptionRule? && r.classId == c.id)
    && (c.maxRtt.Some? ==> exists r | r in rules :: r.MaxRttRule? && r.classId == c.id)
  }

  /** Each link with a quota is of a type that a quota rule with a threshold of at most 100 watches. */
  ghost predicate CoversQuotas(p: Platform, rules: seq<Rule>, links: seq<Link>, models: Fleet) {
    forall link | link in links && link.id in models && HasQuota(models[link.id]) ::
      exists r | r in rules :: r.QuotaRule? && r.linkType == link.kind && p.Read(r.threshold) <= 100.0
  }

  lemma CoverSurvivesWire(p: Platform, rules: seq<Rule>, c: TrafficClass, links: seq<Link>, models: Fleet)
    ensures CoversClass(rules, c) ==> CoversClass(Map(TruncatedRule, rules), c)
    ensures CoversQuotas(p, rules, links, models) ==> CoversQuotas(p, Map(TruncatedRule, rules), links, models)
  {
    var wire := Map(TruncatedRule, rules);
    forall r | r in rules && !r.DirectiveRule? ensures r in wire {
      var i :| 0 <= i < |rules| && rules[i] == r;
      assert wire[i] == TruncatedRule(rules[i]) && wire[i] in wire;
    }
  }

  /** The oracle's world is the one the bundle declares. */
  ghost predicate WorldOf(w: World, links: seq<Link>, models: Fleet) {
    && w.models == models
    && forall link | link in links :: link.id in w.links && w.links[link.id] == link
  }

  /** What the choice for a class with a permitted set of its own is measured by: the oracle finds
      nothing but a latency missed by at most 5 ms, and in degraded mode a spent quota. */
  ghost predicate MeetsOracle(p: Platform, w: World, c: TrafficClass, id: Text, degraded: bool) {
    && id in w.links
    && !Breaks(p, w, c, w.links[id], id, ForbidsMetered)
    && !Breaks(p, w, c, w.links[id], id, LeftJurisdiction)
    && !Breaks(p, w, c, w.links[id], id, NotEncrypted)
    && (Breaks(p, w, c, w.links[id], id, SpentAllowance) ==> degraded)
    && (Breaks(p, w, c, w.links[id], id, LatencyMissed) ==> TrueRtt(w.models[id]) <= p.Read(c.maxRtt.value) + 5.0)
  }

  /** The latest reported latency of a link is at most 5 ms below the true one. */
  lemma LatestLatency(p: Platform, models: Fleet, order: seq<Text>, draws: map<Text, Draw>, now: int, id: Text)
    requires DrawsFit(p, models, draws)
    requires Latest(FleetEvidence(models, order, draws, now), id, RTT).Some?
    ensures id in models
    ensures var measured := Latest(FleetEvidence(models, order, draws, now), id, RTT).value.value;
            Plausible(models[id]) ==> TrueRtt(models[id]) <= p.Read(measured) + 5.0
  {
    var evidence := FleetEvidence(models, order, draws, now);
    LatestMember(evidence, id, RTT);
    EvidenceIsReported(p, models, order, draws, now, Latest(evidence, id, RTT).value);
  }

  /** The latest reported consumption of a link is the true one. */
  lemma LatestQuota(p: Platform, models: Fleet, order: seq<Text>, draws: map<Text, Draw>, now: int, id: Text)
    requires DrawsFit(p, models, draws)
    requires Latest(FleetEvidence(models, order, draws, now), id, QUOTA).Some?
    ensures id in models && HasQuota(models[id])
    ensures p.Read(Latest(FleetEvidence(models, order, draws, now), id, QUOTA).value.value) == QuotaUsedPct(models[id])
  {
    var evidence := FleetEvidence(models, order, draws, now);
    LatestMember(evidence, id, QUOTA);
    EvidenceIsReported(p, models, order, draws, now, Latest(evidence, id, QUOTA).value);
  }

  /** A link that no covering rule takes out breaks nothing the oracle knows, but for at most the
      5 ms by which a latency measurement may come out low. */
  lemma UnexcludedMeetsOracle(p: Platform, rules: seq<Rule>, links: seq<Link>, link: Link, c: TrafficClass, w: World,
                              models: Fleet, order: seq<Text>, draws: map<Text, Draw>, now: int)
    requires WorldOf(w, links, models) && link in links && DrawsFit(p, models, draws)
    requires link.id in models ==> Plausible(models[link.id])
    requires CoversClass(rules, c) && CoversQuotas(p, rules, links, models)
    requires !Excluded(p, rules, link, c, FleetEvidence(models, order, draws, now), now)
    ensures MeetsOracle(p, w, c, link.id, false)
  {
    var evidence := FleetEvidence(models, order, draws, now);
    if link.id in models && HasQuota(models[link.id]) {
      var r :| r in rules && r.QuotaRule? && r.linkType == link.kind && p.Read(r.threshold) <= 100.0;
      assert !Fires(p, r, link, c, evidence, now);
      LatestQuota(p, models, order, draws, now, link.id);
    }
    if c.maxRtt.Some? {
      var r :| r in rules && r.MaxRttRule? && r.classId == c.id;
      assert !Fires(p, r, link, c, evidence, now);
      LatestLatency(p, models, order, draws, now, link.id);
    }
  }

  /** A link that the floor admits breaks nothing but a quota. */
  lemma AdmittedMeetsOracle(p: Platform, links: seq<Link>, link: Link, c: TrafficClass, w: World, models: Fleet,
                            order: seq<Text>, draws: map<Text, Draw>, now: int)
    requires WorldOf(w, links, models) && link in links && DrawsFit(p, models, draws)
    requires link.id in models ==> Plausible(models[link.id])
    requires FloorAdmits(p, link, c, FleetEvidence(models, order, draws, now))
    ensures MeetsOracle(p, w, c, link.id, true)
  {
    if c.allowedJurisdictions.Some? {
      JurisdictionsCrossed(c, link);
    }
    if c.maxRtt.Some? {
      LatestLatency(p, models, order, draws, now, link.id);
    }
  }

  lemma EvidenceIsCurrent(p: Platform, models: Fleet, order: seq<Text>, draws: map<Text, Draw>, now: int)
    requires DrawsFit(p, models, draws)
    ensures AsOf(FleetEvidence(models, order, draws, now), now) == FleetEvidence(models, order, draws, now)
  {
    var evidence := FleetEvidence(models, order, draws, now);
    forall o | o in evidence ensures o.at == now {
      EvidenceIsReported(p, models, order, draws, now, o);
    }
    FilterAll(NotAfter(now + MAX_CLOCK_SKEW), evidence);
  }

  /** The choice for a class lies within the class's own permitted set exactly when that set is not empty
      or the first class has no live link to lend: the fallback is not limited to unnamed classes. */
  lemma ChoiceWithinOwnSet(p: Platform, evidence: Evidence, decided: seq<ClassEligibility>, classId: Text)
    requires decided != []
    ensures var own, choice := Decide.Permitted(decided, classId), ChoiceFor(p, evidence, decided, classId);
            (choice.None? || choice.value in own)
            <==> own != [] || forall x | x in decided[0].permitted :: !ObservedUp(p, evidence, x)
  {
    BestIsBest(p, evidence, Decide.Permitted(decided, classId));
    BestIsBest(p, evidence, decided[0].permitted);
  }

  // A site with one metered link that is up, and two classes of which the second forbids metered links.
  const METERED_LINK := Link([1], [2], true, true, [], [])
  const FIRST_CLASS := TrafficClass([1], None, true, None, false)
  const SECOND_CLASS := TrafficClass([2], None, false, None, false)
  const MIXED_BUNDLE := PolicyBundle([], [], 1, 0, 0, 0, [METERED_LINK], [FIRST_CLASS, SECOND_CLASS],
                                     [MeteredRule([1], [2])])
  const LIVE_EVIDENCE: Evidence := [Observation([1], UP, Whole(1), 0, [])]

  /** What the mixed bundle permits its classes. */
  function MixedSet(p: Platform, c: TrafficClass): seq<Text> {
    Eligibility(p, MIXED_BUNDLE.links, MIXED_BUNDLE.rules, LIVE_EVIDENCE, 0)(c).permitted
  }

  lemma OnlyFirstPermits(p: Platform)
    ensures [1] in MixedSet(p, FIRST_CLASS) && forall x | x in MixedSet(p, FIRST_CLASS) :: x == [1]
    ensures MixedSet(p, SECOND_CLASS) == []
  {
    var links, rules, forbids := MIXED_BUNDLE.links, MIXED_BUNDLE.rules, MeteredRule([1], [2]);
    PermittedMembers(p, links, rules, FIRST_CLASS, LIVE_EVIDENCE, 0);
    PermittedMembers(p, links, rules, SECOND_CLASS, LIVE_EVIDENCE, 0);
    assert METERED_LINK in links && forbids in rules;
    assert !Excluded(p, rules, METERED_LINK, FIRST_CLASS, LIVE_EVIDENCE, 0);
    assert Fires(p, forbids, METERED_LINK, SECOND_CLASS, LIVE_EVIDENCE, 0);
    HeadIsMember(MixedSet(p, SECOND_CLASS));
  }

  lemma MixedResults(p: Platform)
    ensures var decided := ClassResults(p, MIXED_BUNDLE, LIVE_EVIDENCE, 0);
            decided != [] && decided[0].permitted == MixedSet(p, FIRST_CLASS)
            && Decide.Permitted(decided, [2]) == MixedSet(p, SECOND_CLASS)
  {
    ByPreorder(ClassKey);
    assert By(ClassKey)(FIRST_CLASS, SECOND_CLASS);
    SortPair(By(ClassKey), FIRST_CLASS, SECOND_CLASS);
    PermittedOfClass(p, MIXED_BUNDLE, LIVE_EVIDENCE, 0, SECOND_CLASS);
  }

  lemma MeteredLinkIsUp(p: Platform)
    ensures ObservedUp(p, LIVE_EVIDENCE, [1])
  {
    LatestIsFirstNewest(LIVE_EVIDENCE, [1], UP);
    assert Measures(LIVE_EVIDENCE[0], [1], UP);
  }

  /** The second class has an empty permitted set of its own, and is sent over the metered link that it
      forbids, because the first class may use it. */
  lemma FallbackCanBreak(p: Platform, models: Fleet)
    ensures var decided := ClassResults(p, MIXED_BUNDLE, LIVE_EVIDENCE, 0);
            var w := World(map[[1] := METERED_LINK], map[[1] := FIRST_CLASS, [2] := SECOND_CLASS], models);
            && Decide.Permitted(decided, [2]) == [] && ChoiceFor(p, LIVE_EVIDENCE, decided, [2]) == Some([1])
            && Breaks(p, w, SECOND_CLASS, METERED_LINK, [1], ForbidsMetered)
  {
    MixedResults(p);
    OnlyFirstPermits(p);
    MeteredLinkIsUp(p);
    BestIsBest(p, LIVE_EVIDENCE, MixedSet(p, FIRST_CLASS));
  }

  /** The choice is a permitted link that no rule of the bundle in force excludes. */
  lemma ChoiceIsUnexcluded(p: Platform, b: PolicyBundle, evidence: Evidence, now: int, c: TrafficClass, x: Text)
    returns (link: Link)
    requires DistinctClasses(b.classes) && c in b.classes
    requires Decide.Permitted(ClassResults(p, b, evidence, now), c.id) != []
    requires ChoiceFor(p, evidence, ClassResults(p, b, evidence, now), c.id) == Some(x)
    ensures link in b.links && link.id == x && !Excluded(p, b.rules, link, c, evidence, now)
    ensures ObservedUp(p, evidence, x)
  {
    PermittedOfClass(p, b, evidence, now, c);
    PermittedMembers(p, b.links, b.rules, c, evidence, now);
    BestIsBest(p, evidence, Decide.Permitted(ClassResults(p, b, evidence, now), c.id));
    link :| link in b.links && link.id == x && !Excluded(p, b.rules, link, c, evidence, now);
  }

  /** The bundle and the link models are fit for the oracle's questions about a class. */
  ghost predicate Covered(plan: Plan, c: TrafficClass, models: Fleet) {
    && DistinctClasses(plan.bundle.classes) && c in plan.bundle.classes
    && CoversClass(plan.bundle.rules, c) && CoversQuotas(plan.p, plan.bundle.rules, plan.bundle.links, models)
    && forall id | id in models :: Plausible(models[id])
  }

  /** Governed choices refine the oracle. In any step of any run, for a class whose own permitted set is
      not empty, the independent oracle finds no metered, jurisdiction or encryption violation, and a
      true latency above the bound exceeds it by at most the 5 ms of downward jitter, in degraded mode
      too; outside it, it finds no spent quota either. */
  lemma GovernedMeetsOracle(plan: Plan, ticks: seq<Tick>, c: TrafficClass, w: World, models: Fleet,
                            order: seq<Text>, draws: map<Text, Draw>, x: Text)
    requires Runnable(plan, ticks) && ticks != [] && Covered(plan, c, models)
    requires WorldOf(w, plan.bundle.links, models) && DrawsFit(plan.p, models, draws)
    requires var now := ticks[|ticks| - 1].now;
             var evidence := FleetEvidence(models, order, draws, now);
             var d := Deciding(plan, BundleAfter(plan, ticks), evidence, now);
             Decide.Permitted(d.classes, c.id) != [] && ChoiceFor(plan.p, evidence, d.classes, c.id) == Some(x)
    ensures MeetsOracle(plan.p, w, c, x, InForceAfter(plan, ticks).1)
  {
    var p, now := plan.p, ticks[|ticks| - 1].now;
    var evidence := FleetEvidence(models, order, draws, now);
    EvidenceIsCurrent(p, models, order, draws, now);
    PublicationsAreAccepted(plan, ticks);
    var (b, degraded) := InForceAfter(plan, ticks);
    FloorSurvivesTruncation(plan.bundle.links, Some(plan.bundle.issuedAt), ISSUER, plan.bundle.classes);
    var link := ChoiceIsUnexcluded(p, b, evidence, now, c, x);
    if degraded {
      FloorRulesAdmit(p, FloorClasses(plan.bundle.classes), link, c, evidence, now);
      AdmittedMeetsOracle(p, b.links, link, c, w, models, order, draws, now);
    } else {
      CoverSurvivesWire(p, plan.bundle.rules, c, plan.bundle.links, models);
      UnexcludedMeetsOracle(p, b.rules, b.links, link, c, w, models, order, draws, now);
    }
  }

  /** What the oracle may list against a class with a permitted set of its own. */
  ghost predicate Excused(p: Platform, w: World, v: Violation, degraded: bool)
    requires v.classId in w.classes
  {
    if v.requirement.LatencyMissed? then
      v.link in w.models && w.classes[v.classId].maxRtt.Some?
      && TrueRtt(w.models[v.link]) <= p.Read(w.classes[v.classId].maxRtt.value) + 5.0
    else v.requirement.SpentAllowance? && degraded
  }

  lemma ListedAgainstChoice(p: Platform, w: World, at: int, classIds: seq<Text>, choices: Choices, v: Violation,
                            degraded: bool)
    requires v.classId in w.classes && ChoicesKnown(w, classIds, choices)
    requires v in FlatMap(Findings(p, w, at, choices), classIds)
    ensures v.classId in choices && choices[v.classId] == Some(v.link)
    ensures MeetsOracle(p, w, w.classes[v.classId], v.link, degraded) ==> Excused(p, w, v, degraded)
  {
    ViolationReported(p, w, at, classIds, choices, v);
  }

  /** Whatever `check_violations` lists in a step against a class with a permitted set of its own is a
      latency missed by at most 5 ms or, in degraded mode, a spent quota. */
  lemma ListedIsExcused(plan: Plan, ticks: seq<Tick>, w: World, models: Fleet, order: seq<Text>,
                        draws: map<Text, Draw>, at: int, classIds: seq<Text>, v: Violation)
    requires Runnable(plan, ticks) && ticks != []
    requires WorldOf(w, plan.bundle.links, models) && DrawsFit(plan.p, models, draws)
    requires v.classId in w.classes && w.classes[v.classId].id == v.classId
    requires Covered(plan, w.classes[v.classId], models)
    requires var now := ticks[|ticks| - 1].now;
             var evidence := FleetEvidence(models, order, draws, now);
             var d := Deciding(plan, BundleAfter(plan, ticks), evidence, now);
             var choices := ChoicesFor(plan.p, evidence, d.classes, classIds);
             && Decide.Permitted(d.classes, v.classId) != []
             && ChoicesKnown(w, classIds, choices) && v in FlatMap(Findings(plan.p, w, at, choices), classIds)
    ensures Excused(plan.p, w, v, InForceAfter(plan, ticks).1)
  {
    var now := ticks[|ticks| - 1].now;
    var evidence := FleetEvidence(models, order, draws, now);
    var d := Deciding(plan, BundleAfter(plan, ticks), evidence, now);
    ListedAgainstChoice(plan.p, w, at, classIds, ChoicesFor(plan.p, evidence, d.classes, classIds), v,
                        InForceAfter(plan, ticks).1);
    GovernedMeetsOracle(plan, ticks, w.classes[v.classId], w, models, order, draws, v.link);
  }
}
