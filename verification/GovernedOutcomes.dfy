/** What a governed run comes to: what the oracle lists, and what the log holds (sim/run.py, sim/metrics.py). */
module GovernedOutcomes {
  import opened Prelude
  import opened Models
  import opened Policy
  import opened Cbor
  import opened Decide
  import opened Receipts
  import opened Cycle
  import opened Selectors
  import opened Links
  import opened Simulation
  import opened Runs
  import opened GovernedSelector
  import opened GovernedRuns

  // ---------- what a run does not change about its links ----------

  /** Neither events nor traffic change what kind of link it is. */
  predicate SameKind(a: LinkModel, b: LinkModel) {
    && HasQuota(a) == HasQuota(b) && a.baseRtt == b.baseRtt
    && a.Lte? == b.Lte? && (a.Lte? ==> a.congestion == b.congestion)
  }

  ghost predicate SameKinds(a: Fleet, b: Fleet) {
    a.Keys == b.Keys && forall id | id in a :: SameKind(a[id], b[id])
  }

  lemma {:induction false} EventsKeepKinds(models: Fleet, events: seq<Event>)
    ensures SameKinds(models, ApplyAll(models, events))
  {
    if events != [] {
      EventsKeepKinds(models, events[..|events| - 1]);
    }
  }

  lemma {:induction false} BookingKeepsKinds(l: Ledger, order: seq<Text>, choices: Choices, traffic: map<Text, int>,
                                             step: int)
    ensures SameKinds(l.models, BookAll(l, order, choices, traffic, step).models)
  {
    if order != [] {
      BookingKeepsKinds(l, order[..|order| - 1], choices, traffic, step);
    }
  }

  lemma {:induction false} RunKeepsKinds(p: Platform, sc: Scenario, models: Fleet, answers: seq<Answer>)
    ensures SameKinds(models, RunAll(p, sc, models, answers).ledger.models)
    ensures SameKinds(models, Played(sc, RunAll(p, sc, models, answers)).ledger.models)
  {
    if answers != [] {
      var n := |answers| - 1;
      RunKeepsKinds(p, sc, models, answers[..n]);
      var before := Played(sc, RunAll(p, sc, models, answers[..n]));
      BookingKeepsKinds(before.ledger, sc.order, answers[n].choices, sc.traffic, sc.step);
    }
    var after := RunAll(p, sc, models, answers);
    EventsKeepKinds(after.ledger.models, Due(sc, after));
  }

  // ---------- what the oracle lists ----------

  /** The oracle's world in the step after these answers. */
  function WorldIn(p: Platform, sc: Scenario, models: Fleet, answers: seq<Answer>): World {
    World(sc.links, sc.classes, Played(sc, RunAll(p, sc, models, answers)).ledger.models)
  }

  /** Step `i` lists the violation. */
  ghost predicate ListedIn(p: Platform, sc: Scenario, models: Fleet, answers: seq<Answer>, i: nat, v: Violation)
    requires i < |answers|
  {
    v in FlatMap(Findings(p, WorldIn(p, sc, models, answers[..i]), i * sc.step, answers[i].choices), sc.order)
  }

  /** The violations of a run are exactly those that its steps list, whatever the selector. */
  lemma {:induction false} ViolationsAreListed(p: Platform, sc: Scenario, models: Fleet, answers: seq<Answer>,
                                               v: Violation)
    ensures v in RunAll(p, sc, models, answers).violations
            <==> exists i: nat :: i < |answers| && ListedIn(p, sc, models, answers, i, v)
  {
    if answers != [] {
      var n := |answers| - 1;
      var front := answers[..n];
      ViolationsAreListed(p, sc, models, front, v);
      StepsOfRun(p, sc, models, front);
      assert v in RunAll(p, sc, models, answers).violations
             <==> v in RunAll(p, sc, models, front).violations || ListedIn(p, sc, models, answers, n, v);
      forall i: nat | i < n ensures ListedIn(p, sc, models, answers, i, v) <==> ListedIn(p, sc, models, front, i, v) {
        assert answers[..i] == front[..i] && answers[i] == front[i];
      }
    }
  }

  /** The draws of every step fit the models as the step finds them. */
  ghost predicate AllFit(t: Trial, answers: seq<Answer>, draws: seq<Draws>) {
    |answers| == |draws| && forall i | 0 <= i < |draws| :: DrawsFit(t.p, ModelsIn(t, answers[..i]), draws[i])
  }

  /** The plan's rules cover its classes and the quotas of the fleet, and its links are told apart. */
  ghost predicate Fit(t: Trial, plan: Plan) {
    && Plays(t, plan) && DistinctLinks(plan.bundle.links) && DistinctClasses(plan.bundle.classes)
    && (forall c | c in plan.bundle.classes :: Covered(plan, c, t.models))
  }

  /** In step `i` the violation is of a class without a permitted set of its own, or it is a latency
      missed by at most 5 ms, or a spent quota while the last publication has lapsed. */
  ghost predicate Excusable(t: Trial, plan: Plan, s: Progress<Governance>, i: nat, v: Violation)
    requires i < |s.met| && i < |s.answers|
  {
    var w := WorldIn(t.p, t.Site(), t.models, s.answers[..i]);
    && v.at == i * t.step && v.classId in w.classes
    && (Decide.Permitted(DecidingIn(t, plan, i, s.met[i].evidence).classes, v.classId) == []
        || Excused(t.p, w, v, LapsedIn(t, plan, i)))
  }

  lemma CoverKept(t: Trial, plan: Plan, answers: seq<Answer>, c: TrafficClass)
    requires Fit(t, plan) && c in plan.bundle.classes
    ensures Covered(plan, c, ModelsIn(t, answers))
  {
    RunKeepsKinds(t.p, t.Site(), t.models, answers);
    assert Covered(plan, c, t.models);
  }

  lemma WorldIsDeclared(t: Trial, plan: Plan, answers: seq<Answer>)
    requires Fit(t, plan)
    ensures var w := WorldIn(t.p, t.Site(), t.models, answers);
            && WorldOf(w, plan.bundle.links, ModelsIn(t, answers))
            && (forall id | id in w.classes :: w.classes[id].id == id && w.classes[id] in plan.bundle.classes)
  {
    LinkTableHolds(t.bundle.links);
    ClassTableHolds(t.bundle.classes);
  }

  /** What step `i` of a governed run lists is excusable. */
  lemma ListedIsExcusable(t: Trial, plan: Plan, s: Progress<Governance>, draws: seq<Draws>, i: nat, v: Violation)
    requires Fit(t, plan) && RunnableFor(t, plan, |draws|) && i < |draws|
    requires History(t, s, draws) && AnswersByTicks(t, plan, s, |draws|) && AllFit(t, s.answers, draws)
    requires ListedIn(t.p, t.Site(), t.models, s.answers, i, v)
    ensures Excusable(t, plan, s, i, v)
  {
    var ticks, answers := TicksOf(t, i + 1), s.answers[..i];
    var w, models := WorldIn(t.p, t.Site(), t.models, answers), ModelsIn(t, answers);
    RunnablePrefix(t, plan, |draws|, i + 1);
    WorldIsDeclared(t, plan, answers);
    var evidence := FleetEvidence(models, t.order, draws[i], ticks[i].now);
    assert s.met[i] == ContextIn(t, answers, draws[i]) && s.met[i].evidence == evidence;
    assert s.answers[i] == AnswerIn(t, plan, i, evidence);
    GovernedAnswerIsKnown(t, plan, ticks, models, draws[i]);
    ViolationReported(t.p, w, i * t.step, t.Site().order, s.answers[i].choices, v);
    CoverKept(t, plan, answers, w.classes[v.classId]);
    StepIsExcused(t, plan, ticks, w, models, draws[i], i, v);
  }

  lemma StepIsExcused(t: Trial, plan: Plan, ticks: seq<Tick>, w: World, models: Fleet, draws: Draws, i: nat,
                      v: Violation)
    requires Plays(t, plan) && Runnable(plan, ticks) && ticks != []
    requires WorldOf(w, plan.bundle.links, models) && DrawsFit(plan.p, models, draws)
    requires v.classId in w.classes && w.classes[v.classId].id == v.classId
    requires Covered(plan, w.classes[v.classId], models)
    requires var evidence := FleetEvidence(models, t.order, draws, ticks[|ticks| - 1].now);
             var choices := AnswerAfter(plan, ticks, evidence, t.Site().order).choices;
             && ChoicesKnown(w, t.Site().order, choices)
             && v in FlatMap(Findings(plan.p, w, i * t.step, choices), t.Site().order)
    ensures var evidence := FleetEvidence(models, t.order, draws, ticks[|ticks| - 1].now);
            Decide.Permitted(DecidingAfter(plan, ticks, evidence).classes, v.classId) == []
            || Excused(plan.p, w, v, Lapsed(plan, ticks))
  {
    var evidence := FleetEvidence(models, t.order, draws, ticks[|ticks| - 1].now);
    DegradedExactlyWhenLapsed(plan, ticks);
    if Decide.Permitted(DecidingAfter(plan, ticks, evidence).classes, v.classId) != [] {
      ListedIsExcused(plan, ticks, w, models, t.order, draws, i * t.step, t.Site().order, v);
    }
  }

  /** Over every governed run, on any scenario, fleet and draws within the jitter ranges, the oracle lists
      against a class with a permitted set of its own nothing but latencies missed by at most 5 ms and,
      while the last publication has lapsed, spent quotas. */
  lemma GovernedRunMeetsOracle(t: Trial, plan: Plan, key: Bytes, draws: seq<Draws>, v: Violation)
    requires Fit(t, plan) && RunnableFor(t, plan, |draws|)
    requires var run := GovernedRun(t, plan, key, draws);
             run.Ok? ==> AllFit(t, run.value.answers, draws) && v in run.value.outcome.violations
    ensures var run := GovernedRun(t, plan, key, draws);
            run.Ok? && |run.value.met| == |run.value.answers|
            && exists i: nat :: i < |run.value.met| && Excusable(t, plan, run.value, i, v)
  {
    GovernedRunNeverRaises(t, plan, key, draws);
    PlayIsRun(t, Governing(t, plan, key), STARTED, draws);
    var s := GovernedRun(t, plan, key, draws).value;
    ViolationsAreListed(t.p, t.Site(), t.models, s.answers, v);
    var i: nat :| i < |s.answers| && ListedIn(t.p, t.Site(), t.models, s.answers, i, v);
    ListedIsExcusable(t, plan, s, draws, i, v);
  }

  // ---------- what the log holds ----------

  /** What the agent decided in each step, given what it was shown. */
  function Decisions(t: Trial, plan: Plan, met: seq<Context>): seq<Decision> {
    if met == [] then []
    else
      var n := |met| - 1;
      Decisions(t, plan, met[..n]) + [DecidingIn(t, plan, n, met[n].evidence)]
  }

  /** The decisions of a run are of a size that a receipt can carry. */
  ghost predicate TurnsSized(t: Trial, plan: Plan, met: seq<Context>) {
    met == [] ||
    var n := |met| - 1;
    TurnsSized(t, plan, met[..n]) && Sized(DecidingIn(t, plan, n, met[n].evidence), t.Now(n), [])
  }

  /** Three receipts a decision: what was authorised, what was attempted, and that the dataplane holds it. */
  ghost predicate LogTells(p: Platform, ds: seq<Decision>, rs: seq<Receipt>) {
    if ds == [] then rs == []
    else
      |rs| >= 3
      && LogTells(p, ds[..|ds| - 1], rs[..|rs| - 3]) && TurnTold(p, ds[|ds| - 1], rs[|rs| - 3..])
  }

  ghost predicate TurnTold(p: Platform, d: Decision, more: seq<Receipt>) {
    WritesTurn(p, more, d, HonestReply(d)) && more[2].outcome == OUTCOME_ENFORCED
  }

  lemma HonestTurnIsTold(p: Platform, d: Decision, more: seq<Receipt>)
    requires WritesTurn(p, more, d, HonestReply(d)) && TurnResult(d, HonestReply(d)) == Ok(d)
    ensures TurnTold(p, d, more)
  {
    NoComplaintIffHonoured(d.classes, NoopState(d.classes));
  }

  lemma OneMoreTurn(p: Platform, ds: seq<Decision>, d: Decision, rs: seq<Receipt>, more: seq<Receipt>)
    requires LogTells(p, ds, rs) && |more| == 3 && TurnTold(p, d, more)
    ensures LogTells(p, ds + [d], rs + more)
  {
    var all, log := ds + [d], rs + more;
    assert all[..|all| - 1] == ds && log[..|log| - 3] == rs && log[|log| - 3..] == more;
  }

  /** The log reads as these receipts, and tells of these decisions. */
  ghost predicate LogHolds(id: Identity, log: Agent, ds: seq<Decision>, rs: seq<Receipt>) {
    Cycle.Sound(id, log, rs) && log.live.Some? && log.phase.Idle? && LogTells(id.p, ds, rs)
  }

  lemma {:induction false} LogLength(p: Platform, ds: seq<Decision>, rs: seq<Receipt>)
    requires LogTells(p, ds, rs)
    ensures |rs| == 3 * |ds|
  {
    if ds != [] {
      LogLength(p, ds[..|ds| - 1], rs[..|rs| - 3]);
    }
  }

  lemma TurnKeepsLog(id: Identity, log: Agent, ds: seq<Decision>, rs: seq<Receipt>, d: Decision, now: int)
    returns (after: seq<Receipt>)
    requires id.p.Sound() && LogHolds(id, log, ds, rs) && |id.site| < SIZE && 3 * |ds| + 3 < TWO64
    requires Sized(d, now, []) && TurnResult(d, HonestReply(d)) == Ok(d)
    ensures LogHolds(id, Turned(id, log, d, now), ds + [d], after)
  {
    LogLength(id.p, ds, rs);
    var more := TurnIsKept(id, log, rs, d, now);
    HonestTurnIsTold(id.p, d, more);
    OneMoreTurn(id.p, ds, d, rs, more);
    after := rs + more;
  }

  lemma TurnIsKept(id: Identity, log: Agent, rs: seq<Receipt>, d: Decision, now: int) returns (more: seq<Receipt>)
    requires id.p.Sound() && Cycle.Sound(id, log, rs) && log.live.Some? && log.phase.Idle? && |id.site| < SIZE
    requires Sized(d, now, []) && ReplySized(id.p, d, HonestReply(d)) && |rs| + 3 < TWO64
    ensures var after := Turned(id, log, d, now);
            Cycle.Sound(id, after, rs + more) && after.live.Some? && after.phase.Idle?
    ensures WritesTurn(id.p, more, d, HonestReply(d)) && |more| == 3
  {
    more := TurnWritesReceipts(id, log, rs, d, now, HonestReply(d));
  }

  lemma SizesOfOne(t: Trial, plan: Plan, met: seq<Context>, ctx: Context, d: Decision)
    requires d == DecidingIn(t, plan, |met|, ctx.evidence) && TurnsSized(t, plan, met + [ctx])
    ensures TurnsSized(t, plan, met) && Sized(d, t.Now(|met|), [])
  {
    var n, all := |met|, met + [ctx];
    assert all != [] && |all| - 1 == n && all[..n] == met && all[n] == ctx;
  }

  lemma {:induction false} DecisionsLength(t: Trial, plan: Plan, met: seq<Context>)
    ensures |Decisions(t, plan, met)| == |met|
  {
    if met != [] {
      DecisionsLength(t, plan, met[..|met| - 1]);
    }
  }

  /** The log that a run has left holds the receipts of its decisions, if these are of a size that receipts
      can carry. */
  ghost predicate LogIsSound(t: Trial, plan: Plan, key: Bytes, s: Progress<Governance>) {
    TurnsSized(t, plan, s.met) ==>
      exists rs :: LogHolds(Identity(plan.p, plan.site, key), s.selector.log, Decisions(t, plan, s.met), rs)
  }

  lemma BeginsSound(t: Trial, plan: Plan, key: Bytes)
    ensures LogIsSound(t, plan, key, Begin(t, STARTED))
  {
    var id := Identity(plan.p, plan.site, key);
    FreshAgentIsSound(id);
    var empty: seq<Receipt> := [];
    assert HeadOf(plan.p, empty) == GENESIS;
    assert LogHolds(id, STARTED.log, Decisions(t, plan, []), empty);
  }

  /** A turn that is put on a sound log leaves it sound. */
  lemma TurnKeepsSoundness(t: Trial, plan: Plan, key: Bytes, s: Progress<Governance>, next: Progress<Governance>,
                           ctx: Context, n: nat)
    requires plan.p.Sound() && |plan.site| < SIZE && 3 * n + 3 < TWO64 && |s.met| == n && LogIsSound(t, plan, key, s)
    requires next.met == s.met + [ctx]
    requires var d := DecidingIn(t, plan, n, ctx.evidence);
             && TurnResult(d, HonestReply(d)) == Ok(d)
             && next.selector.log == Turned(Identity(plan.p, plan.site, key), s.selector.log, d, t.Now(n))
    ensures LogIsSound(t, plan, key, next)
  {
    DecisionsLength(t, plan, s.met);
    if TurnsSized(t, plan, next.met) {
      var id, ds, d := Identity(plan.p, plan.site, key), Decisions(t, plan, s.met), DecidingIn(t, plan, n,
              ctx.evidence);
      SizesOfOne(t, plan, s.met, ctx, d);
      var rs :| LogHolds(id, s.selector.log, ds, rs);
      var after := TurnKeepsLog(id, s.selector.log, ds, rs, d, t.Now(n));
      assert LogHolds(id, next.selector.log, Decisions(t, plan, next.met), after);
    }
  }

  ghost predicate SoundSoFar(t: Trial, plan: Plan, key: Bytes, s: Progress<Governance>, n: nat) {
    OnCourse(t, plan, s, n) && |s.met| == n && LogIsSound(t, plan, key, s)
  }

  lemma StepStaysSound(t: Trial, plan: Plan, key: Bytes, select: Selector, s: Progress<Governance>, n: nat,
                       draws: Draws)
    requires Governs(select, t, plan, key) && SoundSoFar(t, plan, key, s, n)
    requires RunnableFor(t, plan, n + 1) && DistinctClasses(plan.bundle.classes)
    requires |plan.site| < SIZE && 3 * n + 3 < TWO64
    ensures var next := Advance(t, select, s, draws); next.Ok? && SoundSoFar(t, plan, key, next.value, n + 1)
  {
    var ctx := Shown(t, s.outcome, s.reachable, draws);
    StepNeverRaises(t, plan, n, ctx.evidence);
    NothingRefusedIff(plan, TicksOf(t, n + 1));
    StepOnCourse(t, plan, key, select, s, n, draws);
    TurnKeepsSoundness(t, plan, key, s, Advance(t, select, s, draws).value, ctx, n);
  }

  ghost function Soundness(t: Trial, plan: Plan, key: Bytes): (Progress<Governance>, nat) -> bool {
    (s: Progress<Governance>, i: nat) => SoundSoFar(t, plan, key, s, i)
  }

  lemma StepKeepsSoundness(t: Trial, plan: Plan, key: Bytes, select: Selector, draws: seq<Draws>,
                           s: Progress<Governance>, i: nat)
    requires Governs(select, t, plan, key) && DistinctClasses(plan.bundle.classes)
    requires RunnableFor(t, plan, |draws|) && |plan.site| < SIZE && 3 * |draws| < TWO64
    requires i < |draws| && Soundness(t, plan, key)(s, i)
    ensures MovesOn(t, select, draws, Soundness(t, plan, key), s, i)
  {
    RunnablePrefix(t, plan, |draws|, i + 1);
    StepStaysSound(t, plan, key, select, s, i, draws[i]);
  }

  lemma EveryStepKeepsSoundness(t: Trial, plan: Plan, key: Bytes, select: Selector, draws: seq<Draws>)
    requires Governs(select, t, plan, key) && DistinctClasses(plan.bundle.classes)
    requires RunnableFor(t, plan, |draws|) && |plan.site| < SIZE && 3 * |draws| < TWO64
    ensures forall s, i: nat | i < |draws| && Soundness(t, plan, key)(s, i) ::
              MovesOn(t, select, draws, Soundness(t, plan, key), s, i)
  {
    forall s, i: nat | i < |draws| && Soundness(t, plan, key)(s, i)
      ensures MovesOn(t, select, draws, Soundness(t, plan, key), s, i)
    {
      StepKeepsSoundness(t, plan, key, select, draws, s, i);
    }
  }

  lemma LogStaysSound(t: Trial, plan: Plan, key: Bytes, select: Selector, draws: seq<Draws>)
    requires Governs(select, t, plan, key) && DistinctClasses(plan.bundle.classes)
    requires RunnableFor(t, plan, |draws|) && |plan.site| < SIZE && 3 * |draws| < TWO64
    ensures var run := Play(t, select, STARTED, draws); run.Ok? && Soundness(t, plan, key)(run.value, |draws|)
  {
    BeginsSound(t, plan, key);
    EveryStepKeepsSoundness(t, plan, key, select, draws);
    PlayKeeps(t, select, STARTED, draws, Soundness(t, plan, key), |draws|);
  }

  /** The log of a governed run reads back, verifies as one chain that ends in the live head, and holds
      exactly the three receipts of each step's decision, all of them ENFORCED. */
  lemma GovernedLogIsSound(t: Trial, plan: Plan, key: Bytes, draws: seq<Draws>)
    requires DistinctClasses(plan.bundle.classes) && RunnableFor(t, plan, |draws|)
    requires |plan.site| < SIZE && 3 * |draws| < TWO64
    ensures var run := GovernedRun(t, plan, key, draws);
            run.Ok? && |run.value.met| == |draws| && LogIsSound(t, plan, key, run.value)
  {
    LogStaysSound(t, plan, key, Governing(t, plan, key), draws);
  }
}
