/** Runs of the simulator under the governed selector (sim/run.py, sim/selectors.py). */
module GovernedRuns {
  import opened Prelude
  import opened Models
  import opened Policy
  import opened Decide
  import opened BundleStores
  import opened Cycle
  import opened Selectors
  import opened Links
  import opened Simulation
  import opened Runs
  import opened GovernedSelector

  // ---------- the governed selector as a function ----------

  /** A selector: what it keeps, what it is shown, and what it answers or raises. */
  type Selector = (Governance, Context) -> Result<(Governance, Answer), CallError>

  function Judged(called: (Governance, Result<Answer, CallError>)): Result<(Governance, Answer), CallError> {
    if called.1.Err? then Err(called.1.error) else Ok((called.0, called.1.value))
  }

  function Governing(t: Trial, plan: Plan, key: Bytes): Selector {
    (s: Governance, ctx: Context) => Judged(Calling(plan, key, s, ctx, t.Site().order))
  }

  /** The selector answers as the governed one does. */
  ghost predicate Governs(select: Selector, t: Trial, plan: Plan, key: Bytes) {
    forall s, ctx {:trigger Calling(plan, key, s, ctx, t.Site().order)} ::
      select(s, ctx) == Judged(Calling(plan, key, s, ctx, t.Site().order))
  }

  function GovernedRun(t: Trial, plan: Plan, key: Bytes, draws: seq<Draws>): Result<Progress<Governance>, CallError> {
    Play(t, Governing(t, plan, key), STARTED, draws)
  }

  /** The trial plays the plan's own bundle on the plan's platform. */
  ghost predicate Plays(t: Trial, plan: Plan) {
    t.bundle == plan.bundle && t.p == plan.p
  }

  // ---------- the ticks of a run ----------

  /** The ticks of a run's first steps: a matter of the clock and the events alone. */
  function TicksOf(t: Trial, n: nat): (ticks: seq<Tick>)
    ensures |ticks| == n
  {
    if n == 0 then [] else TicksOf(t, n - 1) + [Tick(t.Now(n - 1), ReachableIn(t.Site(), n - 1))]
  }

  lemma {:induction false} TicksPrefix(t: Trial, n: nat, k: nat)
    requires k <= n
    ensures TicksOf(t, n)[..k] == TicksOf(t, k)
    decreases n
  {
    if k < n {
      TicksPrefix(t, n - 1, k);
      assert TicksOf(t, n)[..k] == TicksOf(t, n - 1)[..k];
    }
  }

  /** The publications of the first `n` steps are of a size that the wire can carry. */
  ghost predicate CarriableFor(t: Trial, plan: Plan, n: nat) {
    Carriable(plan, TicksOf(t, n))
  }

  /** And each names the store's authority and is unexpired on arrival. */
  ghost predicate RunnableFor(t: Trial, plan: Plan, n: nat) {
    Runnable(plan, TicksOf(t, n))
  }

  lemma CarriablePrefix(t: Trial, plan: Plan, n: nat, k: nat)
    requires CarriableFor(t, plan, n) && k <= n
    ensures CarriableFor(t, plan, k)
  {
    TicksPrefix(t, n, k);
    assert forall i | 0 <= i < k :: TicksOf(t, k)[i] == TicksOf(t, n)[i];
  }

  lemma RunnablePrefix(t: Trial, plan: Plan, n: nat, k: nat)
    requires RunnableFor(t, plan, n) && k <= n
    ensures RunnableFor(t, plan, k)
  {
    TicksPrefix(t, n, k);
    assert forall i | 0 <= i < k :: TicksOf(t, k)[i] == TicksOf(t, n)[i];
  }

  /** What the agent decides after these ticks, when this is observed. */
  function DecidingAfter(plan: Plan, ticks: seq<Tick>, evidence: Evidence): Decision
    requires ticks != []
  {
    Deciding(plan, BundleAfter(plan, ticks), evidence, ticks[|ticks| - 1].now)
  }

  /** The answer after these ticks. */
  function AnswerAfter(plan: Plan, ticks: seq<Tick>, evidence: Evidence, classIds: seq<Text>): Answer
    requires ticks != []
  {
    var d := DecidingAfter(plan, ticks, evidence);
    Answer(ChoicesFor(plan.p, evidence, d.classes, classIds), d.degraded)
  }

  /** What the agent decides in step `i`, when this is observed. */
  function DecidingIn(t: Trial, plan: Plan, i: nat, evidence: Evidence): Decision {
    DecidingAfter(plan, TicksOf(t, i + 1), evidence)
  }

  function AnswerIn(t: Trial, plan: Plan, i: nat, evidence: Evidence): Answer {
    AnswerAfter(plan, TicksOf(t, i + 1), evidence, t.Site().order)
  }

  /** In step `i` nothing had been published, or the last publication had expired. */
  predicate LapsedIn(t: Trial, plan: Plan, i: nat) {
    Lapsed(plan, TicksOf(t, i + 1))
  }

  // ---------- a run never raises ----------

  /** What is in force has the plan's links, and the plan's classes or the floor's. */
  lemma InForceIsPlans(plan: Plan, ticks: seq<Tick>, now: int)
    requires Runnable(plan, ticks)
    ensures var b := CurrentOf(plan.Floor(), BundleAfter(plan, ticks), now).0;
            b.links == plan.bundle.links && (DistinctClasses(plan.bundle.classes) ==> DistinctClasses(b.classes))
  {
    PublicationsAreAccepted(plan, ticks);
  }

  /** No turn on the honest dataplane under what is in force raises. */
  lemma TurnNeverRaises(plan: Plan, ticks: seq<Tick>, evidence: Evidence)
    requires Runnable(plan, ticks) && ticks != [] && DistinctClasses(plan.bundle.classes)
    ensures var d := DecidingAfter(plan, ticks, evidence); TurnResult(d, HonestReply(d)) == Ok(d)
  {
    var now := ticks[|ticks| - 1].now;
    InForceIsPlans(plan, ticks, now);
    ClassResultsDistinct(plan.p, CurrentOf(plan.Floor(), BundleAfter(plan, ticks), now).0, AsOf(evidence, now), now);
    NoopHonours(DecidingAfter(plan, ticks, evidence));
  }

  lemma StepNeverRaises(t: Trial, plan: Plan, i: nat, evidence: Evidence)
    requires RunnableFor(t, plan, i + 1) && DistinctClasses(plan.bundle.classes)
    ensures var d := DecidingIn(t, plan, i, evidence); TurnResult(d, HonestReply(d)) == Ok(d)
  {
    TurnNeverRaises(plan, TicksOf(t, i + 1), evidence);
  }

  /** The store stands where the ticks so far have brought it. */
  ghost predicate OnCourse(t: Trial, plan: Plan, s: Progress<Governance>, n: nat) {
    && s.outcome.steps == n
    && s.reachable == (if n == 0 then true else ReachableIn(t.Site(), n - 1))
    && RefreshAll(plan, TicksOf(t, n)) == Ok(s.selector.standing)
  }

  lemma ShownIsTick(t: Trial, plan: Plan, s: Progress<Governance>, n: nat, draws: Draws)
    requires OnCourse(t, plan, s, n)
    ensures var ctx := Shown(t, s.outcome, s.reachable, draws);
            Tick(ctx.now, ctx.reachable) == TicksOf(t, n + 1)[n]
            && Refresh(plan, s.selector.standing, Tick(ctx.now, ctx.reachable)) == RefreshAll(plan, TicksOf(t, n + 1))
  {
    assert TicksOf(t, n + 1)[..n] == TicksOf(t, n);
  }

  /** What a call on course comes to: it raises exactly if the turn does, and leaves the store on course,
      the turn on the log, and the answer of the step. */
  ghost predicate CallsIn(t: Trial, plan: Plan, key: Bytes, s: Progress<Governance>, n: nat, ctx: Context,
                          called: (Governance, Result<Answer, CallError>)) {
    var d := DecidingIn(t, plan, n, ctx.evidence);
    && RefreshAll(plan, TicksOf(t, n + 1)) == Ok(called.0.standing)
    && called.0.log == Turned(Identity(plan.p, plan.site, key), s.selector.log, d, t.Now(n))
    && (called.1.Ok? <==> TurnResult(d, HonestReply(d)).Ok?)
    && (called.1.Ok? ==> called.1.value == AnswerIn(t, plan, n, ctx.evidence))
  }

  lemma CallOnCourse(t: Trial, plan: Plan, key: Bytes, s: Progress<Governance>, n: nat, draws: Draws)
    requires OnCourse(t, plan, s, n) && RefreshAll(plan, TicksOf(t, n + 1)).Ok?
    ensures var ctx := Shown(t, s.outcome, s.reachable, draws);
            CallsIn(t, plan, key, s, n, ctx, Calling(plan, key, s.selector, ctx, t.Site().order))
  {
    ShownIsTick(t, plan, s, n, draws);
  }

  /** The step as a whole, for whatever selector governs. */
  ghost predicate StepsIn(t: Trial, plan: Plan, key: Bytes, select: Selector, s: Progress<Governance>, n: nat,
                          draws: Draws) {
    var ctx, next := Shown(t, s.outcome, s.reachable, draws), Advance(t, select, s, draws);
    var d := DecidingIn(t, plan, n, ctx.evidence);
    && (next.Ok? <==> TurnResult(d, HonestReply(d)).Ok?)
    && (next.Ok? ==>
          && OnCourse(t, plan, next.value, n + 1)
          && next.value.selector.log == Turned(Identity(plan.p, plan.site, key), s.selector.log, d, t.Now(n))
          && next.value.met == s.met + [ctx]
          && next.value.answers == s.answers + [AnswerIn(t, plan, n, ctx.evidence)])
  }

  lemma StepOnCourse(t: Trial, plan: Plan, key: Bytes, select: Selector, s: Progress<Governance>, n: nat, draws: Draws)
    requires Governs(select, t, plan, key) && OnCourse(t, plan, s, n) && RefreshAll(plan, TicksOf(t, n + 1)).Ok?
    ensures StepsIn(t, plan, key, select, s, n, draws)
  {
    var ctx := Shown(t, s.outcome, s.reachable, draws);
    CallOnCourse(t, plan, key, s, n, draws);
    CalledSteps(t, plan, key, select, s, n, draws, Calling(plan, key, s.selector, ctx, t.Site().order));
  }

  /** A step whose publication is refused raises. */
  lemma RefusedStepRaises(t: Trial, plan: Plan, key: Bytes, select: Selector, s: Progress<Governance>, n: nat,
                          draws: Draws)
    requires Governs(select, t, plan, key) && OnCourse(t, plan, s, n) && RefreshAll(plan, TicksOf(t, n + 1)).Err?
    ensures Advance(t, select, s, draws).Err?
  {
    var ctx := Shown(t, s.outcome, s.reachable, draws);
    ShownIsTick(t, plan, s, n, draws);
    assert Calling(plan, key, s.selector, ctx, t.Site().order).1.Err?;
  }

  lemma CalledSteps(t: Trial, plan: Plan, key: Bytes, select: Selector, s: Progress<Governance>, n: nat, draws: Draws,
                    called: (Governance, Result<Answer, CallError>))
    requires OnCourse(t, plan, s, n)
    requires var ctx := Shown(t, s.outcome, s.reachable, draws);
             select(s.selector, ctx) == Judged(called) && CallsIn(t, plan, key, s, n, ctx, called)
    ensures StepsIn(t, plan, key, select, s, n, draws)
  {
  }

  /** Each answer is what this function says of what was shown. */
  ghost predicate Follow(answer: (nat, Context) -> Answer, met: seq<Context>, answers: seq<Answer>) {
    |met| == |answers| && forall i | 0 <= i < |answers| :: answers[i] == answer(i, met[i])
  }

  function ByTicks(t: Trial, plan: Plan): (nat, Context) -> Answer {
    (i: nat, ctx: Context) => AnswerIn(t, plan, i, ctx.evidence)
  }

  /** Each answer is that of the decision under what the ticks so far have put in force. */
  ghost predicate AnswersByTicks(t: Trial, plan: Plan, s: Progress<Governance>, n: nat) {
    |s.answers| == n && Follow(ByTicks(t, plan), s.met, s.answers)
  }

  ghost predicate Steady(t: Trial, plan: Plan, s: Progress<Governance>, n: nat) {
    OnCourse(t, plan, s, n) && AnswersByTicks(t, plan, s, n)
  }

  lemma OneMoreAnswer(answer: (nat, Context) -> Answer, met: seq<Context>, answers: seq<Answer>, ctx: Context)
    requires Follow(answer, met, answers)
    ensures Follow(answer, met + [ctx], answers + [answer(|met|, ctx)])
  {
  }

  lemma StepStaysSteady(t: Trial, plan: Plan, key: Bytes, select: Selector, s: Progress<Governance>, n: nat,
                        draws: Draws)
    requires Governs(select, t, plan, key) && Steady(t, plan, s, n)
    requires RunnableFor(t, plan, n + 1) && DistinctClasses(plan.bundle.classes)
    ensures var next := Advance(t, select, s, draws); next.Ok? && Steady(t, plan, next.value, n + 1)
  {
    var ctx := Shown(t, s.outcome, s.reachable, draws);
    StepNeverRaises(t, plan, n, ctx.evidence);
    NothingRefusedIff(plan, TicksOf(t, n + 1));
    StepOnCourse(t, plan, key, select, s, n, draws);
    OneMoreAnswer(ByTicks(t, plan), s.met, s.answers, ctx);
  }

  /** Steadiness as an invariant of runs. */
  ghost function Steadiness(t: Trial, plan: Plan): (Progress<Governance>, nat) -> bool {
    (s: Progress<Governance>, i: nat) => Steady(t, plan, s, i)
  }

  lemma SteadyMovesOn(t: Trial, plan: Plan, key: Bytes, select: Selector, draws: seq<Draws>, s: Progress<Governance>,
                      i: nat)
    requires Governs(select, t, plan, key) && i < |draws| && Steadiness(t, plan)(s, i)
    requires RunnableFor(t, plan, |draws|) && DistinctClasses(plan.bundle.classes)
    ensures MovesOn(t, select, draws, Steadiness(t, plan), s, i)
  {
    RunnablePrefix(t, plan, |draws|, i + 1);
    StepStaysSteady(t, plan, key, select, s, i, draws[i]);
  }

  lemma EveryStepMovesOn(t: Trial, plan: Plan, key: Bytes, select: Selector, draws: seq<Draws>)
    requires Governs(select, t, plan, key)
    requires RunnableFor(t, plan, |draws|) && DistinctClasses(plan.bundle.classes)
    ensures forall s, i: nat | i < |draws| && Steadiness(t, plan)(s, i) ::
              MovesOn(t, select, draws, Steadiness(t, plan), s, i)
  {
    forall s, i: nat | i < |draws| && Steadiness(t, plan)(s, i)
      ensures MovesOn(t, select, draws, Steadiness(t, plan), s, i)
    {
      SteadyMovesOn(t, plan, key, select, draws, s, i);
    }
  }

  lemma NeverRaises(t: Trial, plan: Plan, key: Bytes, select: Selector, draws: seq<Draws>)
    requires Governs(select, t, plan, key)
    requires RunnableFor(t, plan, |draws|) && DistinctClasses(plan.bundle.classes)
    ensures var run := Play(t, select, STARTED, draws); run.Ok? && Steadiness(t, plan)(run.value, |draws|)
  {
    EveryStepMovesOn(t, plan, key, select, draws);
    PlayKeeps(t, select, STARTED, draws, Steadiness(t, plan), |draws|);
  }

  /** With distinct class ids a governed run on which nothing is refused never raises, on any scenario, fleet
      and draws: every publication is accepted and every turn honoured. */
  lemma GovernedRunNeverRaises(t: Trial, plan: Plan, key: Bytes, draws: seq<Draws>)
    requires RunnableFor(t, plan, |draws|) && DistinctClasses(plan.bundle.classes)
    ensures GovernedRun(t, plan, key, draws).Ok?
    ensures Steady(t, plan, GovernedRun(t, plan, key, draws).value, |draws|)
  {
    NeverRaises(t, plan, key, Governing(t, plan, key), draws);
  }

  /** A run that has not raised is on course, and nothing was refused on it. */
  lemma {:induction false} UnraisedIsOnCourse(t: Trial, plan: Plan, key: Bytes, select: Selector, draws: seq<Draws>)
    requires Governs(select, t, plan, key) && Play(t, select, STARTED, draws).Ok?
    ensures OnCourse(t, plan, Play(t, select, STARTED, draws).value, |draws|)
  {
    if draws != [] {
      var n := |draws| - 1;
      var s := Play(t, select, STARTED, draws[..n]).value;
      UnraisedIsOnCourse(t, plan, key, select, draws[..n]);
      if RefreshAll(plan, TicksOf(t, n + 1)).Err? {
        RefusedStepRaises(t, plan, key, select, s, n, draws[n]);
      } else {
        StepOnCourse(t, plan, key, select, s, n, draws[n]);
      }
    }
  }

  /** With distinct class ids a governed run raises if and only if the authority is reachable in some step
      whose publication names another authority than the store trusts, or has expired once it is cut to
      whole seconds. */
  lemma GovernedRunRaisesIff(t: Trial, plan: Plan, key: Bytes, draws: seq<Draws>)
    requires CarriableFor(t, plan, |draws|) && DistinctClasses(plan.bundle.classes)
    ensures GovernedRun(t, plan, key, draws).Err?
            <==> exists i: nat :: i < |draws| && ReachableIn(t.Site(), i) && !Acceptable(plan, t.Now(i))
  {
    TicksAreTimed(t, |draws|);
    if RunnableFor(t, plan, |draws|) {
      GovernedRunNeverRaises(t, plan, key, draws);
    } else {
      NothingRefusedIff(plan, TicksOf(t, |draws|));
      if GovernedRun(t, plan, key, draws).Ok? {
        UnraisedIsOnCourse(t, plan, key, Governing(t, plan, key), draws);
      }
    }
  }

  lemma {:induction false} TicksAreTimed(t: Trial, n: nat)
    ensures forall i: nat | i < n :: TicksOf(t, n)[i] == Tick(t.Now(i), ReachableIn(t.Site(), i))
  {
    if n > 0 {
      TicksAreTimed(t, n - 1);
    }
  }

  // ---------- degraded time ----------

  /** The answers say degraded by the clock alone. */
  ghost predicate SayLapsed(t: Trial, plan: Plan, answers: seq<Answer>) {
    forall i | 0 <= i < |answers| :: answers[i].degraded <==> LapsedIn(t, plan, i)
  }

  lemma AnswerSaysLapsed(t: Trial, plan: Plan, i: nat, evidence: Evidence)
    requires RunnableFor(t, plan, i + 1)
    ensures AnswerIn(t, plan, i, evidence).degraded <==> LapsedIn(t, plan, i)
  {
    DegradedExactlyWhenLapsed(plan, TicksOf(t, i + 1));
  }

  lemma AnswersSayLapsed(t: Trial, plan: Plan, s: Progress<Governance>, n: nat)
    requires AnswersByTicks(t, plan, s, n) && RunnableFor(t, plan, n)
    ensures SayLapsed(t, plan, s.answers)
  {
    forall i | 0 <= i < n ensures s.answers[i].degraded <==> LapsedIn(t, plan, i) {
      AnswerOfStepSaysLapsed(t, plan, s, n, i);
    }
  }

  lemma AnswerOfStepSaysLapsed(t: Trial, plan: Plan, s: Progress<Governance>, n: nat, i: nat)
    requires AnswersByTicks(t, plan, s, n) && RunnableFor(t, plan, n) && i < n
    ensures s.answers[i].degraded <==> LapsedIn(t, plan, i)
  {
    RunnablePrefix(t, plan, n, i + 1);
    AnswerSaysLapsed(t, plan, i, s.met[i].evidence);
    assert s.answers[i] == AnswerIn(t, plan, i, s.met[i].evidence);
  }

  /** In how many of the first `n` steps this holds. */
  function StepsWhere(holds: nat -> bool, n: nat): nat {
    if n == 0 then 0 else StepsWhere(holds, n - 1) + if holds(n - 1) then 1 else 0
  }

  /** The steps of a run that are degraded, by the clock alone. */
  function LapsedSteps(t: Trial, plan: Plan, n: nat): nat {
    StepsWhere((i: nat) => LapsedIn(t, plan, i), n)
  }

  lemma {:induction false} DegradedAnswersCount(answers: seq<Answer>, holds: nat -> bool)
    requires forall i: nat | i < |answers| :: answers[i].degraded <==> holds(i)
    ensures DegradedCount(answers) == StepsWhere(holds, |answers|)
  {
    if answers != [] {
      var n := |answers| - 1;
      assert forall i: nat | i < n :: answers[..n][i] == answers[i];
      DegradedAnswersCount(answers[..n], holds);
    }
  }

  /** The closed form of degraded time, for every scenario, fleet and draws: the step length times the
      steps in which nothing had been published or the last publication had lapsed. */
  lemma GovernedDegradedTime(t: Trial, plan: Plan, key: Bytes, draws: seq<Draws>)
    requires RunnableFor(t, plan, |draws|) && DistinctClasses(plan.bundle.classes)
    ensures GovernedRun(t, plan, key, draws).Ok?
    ensures GovernedRun(t, plan, key, draws).value.outcome.degraded == t.step * LapsedSteps(t, plan, |draws|)
  {
    GovernedRunNeverRaises(t, plan, key, draws);
    PlayIsRun(t, Governing(t, plan, key), STARTED, draws);
    SteadyDegradedTime(t, plan, GovernedRun(t, plan, key, draws).value, |draws|);
  }

  lemma SteadyDegradedTime(t: Trial, plan: Plan, s: Progress<Governance>, n: nat)
    requires Steady(t, plan, s, n) && RunnableFor(t, plan, n)
    requires s.outcome == RunAll(t.p, t.Site(), t.models, s.answers)
    ensures s.outcome.degraded == t.step * LapsedSteps(t, plan, n)
  {
    AnswersSayLapsed(t, plan, s, n);
    DegradedAnswersCount(s.answers, (i: nat) => LapsedIn(t, plan, i));
    DegradedSecondsCount(t.p, t.Site(), t.models, s.answers);
  }

  /** Every class-second of a governed run is served, refused or down. */
  lemma GovernedRunConserves(t: Trial, plan: Plan, key: Bytes, draws: seq<Draws>)
    requires GovernedRun(t, plan, key, draws).Ok?
    ensures ClassSeconds(GovernedRun(t, plan, key, draws).value.outcome.ledger)
            == |draws| * (|t.Site().order| * t.step)
  {
    PlayConserves(t, Governing(t, plan, key), STARTED, draws);
  }

  // ---------- what may be chosen ----------

  /** Whatever a class result permits is a link of the bundle. */
  lemma {:induction false} PermittedIsDeclared(classes: seq<ClassEligibility>, classId: Text, ids: set<Text>)
    requires forall i | 0 <= i < |classes| :: forall x | x in classes[i].permitted :: x in ids
    ensures forall x | x in Decide.Permitted(classes, classId) :: x in ids
  {
    if classes != [] {
      assert forall i | 0 <= i < |classes| - 1 :: classes[1..][i] == classes[i + 1];
      PermittedIsDeclared(classes[1..], classId, ids);
    }
  }

  lemma ResultsAreDeclared(p: Platform, b: PolicyBundle, evidence: Evidence, now: int)
    ensures var results := ClassResults(p, b, evidence, now);
            forall i | 0 <= i < |results| :: forall x | x in results[i].permitted :: x in LinkTable(b.links)
  {
    LinkTableHolds(b.links);
    var results := ClassResults(p, b, evidence, now);
    forall i, x | 0 <= i < |results| && x in results[i].permitted ensures x in LinkTable(b.links) {
      var c :| results[i] == Eligibility(p, b.links, b.rules, evidence, now)(c);
      PermittedMembers(p, b.links, b.rules, c, evidence, now);
    }
  }

  /** Every choice is of a declared link, and of one of the fleet. */
  ghost predicate AnswerFits(t: Trial, models: Fleet, a: Answer) {
    var sc := t.Site();
    ChoicesKnown(World(sc.links, sc.classes, models), sc.order, a.choices) && AnswerKnown(sc, models, a)
  }

  lemma DecidedIsDeclared(plan: Plan, ticks: seq<Tick>, evidence: Evidence)
    requires Runnable(plan, ticks) && ticks != []
    ensures var decided := DecidingAfter(plan, ticks, evidence).classes;
            forall i | 0 <= i < |decided| :: forall x | x in decided[i].permitted :: x in LinkTable(plan.bundle.links)
  {
    var now := ticks[|ticks| - 1].now;
    InForceIsPlans(plan, ticks, now);
    ResultsAreDeclared(plan.p, CurrentOf(plan.Floor(), BundleAfter(plan, ticks), now).0, AsOf(evidence, now), now);
  }

  lemma ChoiceIsKnown(p: Platform, models: Fleet, order: seq<Text>, draws: Draws, now: int,
                      decided: seq<ClassEligibility>, c: Text, ids: set<Text>)
    requires forall i | 0 <= i < |decided| :: forall x | x in decided[i].permitted :: x in ids
    ensures var x := ChoiceFor(p, FleetEvidence(models, order, draws, now), decided, c);
            x.Some? ==> x.value in ids && x.value in models
  {
    var evidence := FleetEvidence(models, order, draws, now);
    var own := Decide.Permitted(decided, c);
    var candidates := if own == [] && decided != [] then decided[0].permitted else own;
    PermittedIsDeclared(decided, c, ids);
    BestIsBest(p, evidence, candidates);
    var x := BestByRtt(p, evidence, candidates);
    if x.Some? {
      ObservedInFleet(p, models, order, draws, now, x.value);
    }
  }

  lemma ChoicesFit(t: Trial, models: Fleet, draws: Draws, now: int, decided: seq<ClassEligibility>, degraded: bool)
    requires forall i | 0 <= i < |decided| :: forall x | x in decided[i].permitted :: x in LinkTable(t.bundle.links)
    ensures var evidence := FleetEvidence(models, t.order, draws, now);
            AnswerFits(t, models, Answer(ChoicesFor(t.p, evidence, decided, t.Site().order), degraded))
  {
    ClassTableHolds(t.bundle.classes);
    forall c: Text
      ensures var x := ChoiceFor(t.p, FleetEvidence(models, t.order, draws, now), decided, c);
              x.Some? ==> x.value in LinkTable(t.bundle.links) && x.value in models
    {
      ChoiceIsKnown(t.p, models, t.order, draws, now, decided, c, LinkTable(t.bundle.links).Keys);
    }
  }

  lemma GovernedAnswerIsKnown(t: Trial, plan: Plan, ticks: seq<Tick>, models: Fleet, draws: Draws)
    requires Plays(t, plan) && Runnable(plan, ticks) && ticks != []
    ensures var evidence := FleetEvidence(models, t.order, draws, ticks[|ticks| - 1].now);
            AnswerFits(t, models, AnswerAfter(plan, ticks, evidence, t.Site().order))
  {
    var now := ticks[|ticks| - 1].now;
    var evidence := FleetEvidence(models, t.order, draws, now);
    var d := DecidingAfter(plan, ticks, evidence);
    DecidedIsDeclared(plan, ticks, evidence);
    ChoicesFit(t, models, draws, now, d.classes, d.degraded);
  }

  /** The answer of a step on course is of declared links and of the fleet's. */
  lemma StepAnswerFits(t: Trial, plan: Plan, s: Progress<Governance>, n: nat, draws: Draws)
    requires Plays(t, plan) && OnCourse(t, plan, s, n) && RunnableFor(t, plan, n + 1)
    ensures var ctx, models := Shown(t, s.outcome, s.reachable, draws), Played(t.Site(), s.outcome).ledger.models;
            AnswerFits(t, models, AnswerIn(t, plan, n, ctx.evidence))
  {
    GovernedAnswerIsKnown(t, plan, TicksOf(t, n + 1), Played(t.Site(), s.outcome).ledger.models, draws);
    ShownIsTick(t, plan, s, n, draws);
  }

  // ---------- the driver ----------

  /** A step from here does not leave the course, and its answer fits the fleet. */
  ghost predicate StepIsSafe(select: Selector, t: Trial, plan: Plan, s: Progress<Governance>, i: nat, draws: Draws) {
    var next := Advance(t, select, s, draws);
    next.Ok? ==>
      && OnCourse(t, plan, next.value, i + 1) && |next.value.answers| == |s.answers| + 1
      && AnswerFits(t, Played(t.Site(), s.outcome).ledger.models, next.value.answers[|s.answers|])
  }

  /** From on course, every one of the first `n` steps is safe. */
  ghost predicate StaysOnCourse(select: Selector, t: Trial, plan: Plan, n: nat) {
    forall s, i: nat, draws | i < n && OnCourse(t, plan, s, i) :: StepIsSafe(select, t, plan, s, i, draws)
  }

  lemma StepOnCourseIsSafe(t: Trial, plan: Plan, key: Bytes, select: Selector, n: nat, s: Progress<Governance>, i: nat,
                           draws: Draws)
    requires Governs(select, t, plan, key) && Plays(t, plan) && CarriableFor(t, plan, n)
    requires i < n && OnCourse(t, plan, s, i)
    ensures StepIsSafe(select, t, plan, s, i, draws)
  {
    CarriablePrefix(t, plan, n, i + 1);
    NothingRefusedIff(plan, TicksOf(t, i + 1));
    if RefreshAll(plan, TicksOf(t, i + 1)).Err? {
      RefusedStepRaises(t, plan, key, select, s, i, draws);
    } else {
      StepOnCourse(t, plan, key, select, s, i, draws);
      StepAnswerFits(t, plan, s, i, draws);
    }
  }

  lemma GovernorStaysOnCourse(t: Trial, plan: Plan, key: Bytes, select: Selector, n: nat)
    requires Governs(select, t, plan, key) && Plays(t, plan) && CarriableFor(t, plan, n)
    ensures StaysOnCourse(select, t, plan, n)
  {
    forall s, i: nat, draws | i < n && OnCourse(t, plan, s, i) ensures StepIsSafe(select, t, plan, s, i, draws) {
      StepOnCourseIsSafe(t, plan, key, select, n, s, i, draws);
    }
  }

  lemma SafeAnswerFits(select: Selector, t: Trial, plan: Plan, s: Progress<Governance>, i: nat, draws: Draws,
                       ctx: Context, selector: Governance, answer: Answer)
    requires StepIsSafe(select, t, plan, s, i, draws) && ctx == Shown(t, s.outcome, s.reachable, draws)
    requires select(s.selector, ctx) == Ok((selector, answer))
    ensures Advance(t, select, s, draws) == Ok(Moved(t, s, ctx, selector, answer))
    ensures AnswerFits(t, Played(t.Site(), s.outcome).ledger.models, answer)
  {
  }

  /** The selector's call. */
  method CallSelector(t: Trial, g: Governed, ctx: Context, ghost select: Selector)
    returns (called: Result<Answer, CallError>)
    requires g.Valid() && Governs(select, t, g.plan, g.chain.key)
    modifies g, g.store, g.store.epochs, g.chain, g.chain.sink
    ensures g.Valid() && Judged((g.Where(), called)) == select(old(g.Where()), ctx)
  {
    var choices := g.Call(ctx, t.Site().order);
    called := g.Said(choices);
  }

  /** The events act, the fleet reports, and the selector is called. */
  method Ask(t: Trial, g: Governed, result: RunResult, reachable: bool, draws: Draws, ghost select: Selector,
             ghost s: Progress<Governance>)
    returns (ctx: Context, called: Result<Answer, CallError>)
    requires g.Valid() && Governs(select, t, g.plan, g.chain.key)
    requires result.fleet.order == t.order && forall e | e in t.events :: EventKnown(result.fleet.models, e)
    requires result.State() == s.outcome && g.Where() == s.selector && reachable == s.reachable
    modifies g, g.store, g.store.epochs, g.chain, g.chain.sink, result.fleet
    ensures g.Valid() && Judged((g.Where(), called)) == select(s.selector, ctx)
    ensures ctx == Shown(t, s.outcome, s.reachable, draws) && result.State() == Played(t.Site(), s.outcome)
    ensures result.fleet.models.Keys == old(result.fleet.models).Keys
  {
    ctx := Show(t, result, reachable, draws);
    called := CallSelector(t, g, ctx, select);
  }

  /** One step of a governed run, from events to accounts; `s` is where the run stands. */
  method Govern(t: Trial, g: Governed, result: RunResult, reachable: bool, draws: Draws, ghost select: Selector,
                ghost s: Progress<Governance>, ghost i: nat)
    returns (r: Result<bool, CallError>)
    requires g.Valid() && Governs(select, t, g.plan, g.chain.key) && StepIsSafe(select, t, g.plan, s, i, draws)
    requires result.fleet.order == t.order && forall e | e in t.events :: EventKnown(result.fleet.models, e)
    requires result.State() == s.outcome && g.Where() == s.selector && reachable == s.reachable
    modifies g, g.store, g.store.epochs, g.chain, g.chain.sink, result, result.fleet
    ensures g.Valid() && result.fleet.models.Keys == old(result.fleet.models).Keys
    ensures var next := Advance(t, select, s, draws);
            if next.Err? then r == Err(next.error)
            else r == Ok(next.value.reachable)
                 && result.State() == next.value.outcome && g.Where() == next.value.selector
  {
    var ctx, called := Ask(t, g, result, reachable, draws, select, s);
    if called.Err? {
      return Err(called.error);
    }
    SafeAnswerFits(select, t, g.plan, s, i, draws, ctx, g.Where(), called.value);
    result.Settle(t.p, t.Site(), called.value);
    return Ok(ctx.reachable);
  }

  /** The loop of the run. */
  method GovernAll(t: Trial, g: Governed, fleet: LinkFleet, draws: seq<Draws>, ghost select: Selector)
    returns (r: Result<RunResult, CallError>)
    requires g.Valid() && g.Where() == STARTED && Governs(select, t, g.plan, g.chain.key)
    requires StaysOnCourse(select, t, g.plan, |draws|)
    requires fleet.order == t.order && fleet.models == t.models
    requires forall e | e in t.events :: EventKnown(fleet.models, e)
    modifies g, g.store, g.store.epochs, g.chain, g.chain.sink, fleet
    ensures g.Valid()
    ensures var run := Play(t, select, STARTED, draws);
            if run.Err? then r == Err(run.error)
            else r.Ok? && fresh(r.value) && r.value.fleet == fleet
                 && r.value.State() == run.value.outcome && g.Where() == run.value.selector
  {
    var result := new RunResult(fleet);
    var reachable := true;
    ghost var s := Begin(t, STARTED);
    for i := 0 to |draws|
      invariant fresh(result) && result.fleet == fleet && g.Valid()
      invariant fleet.models.Keys == old(fleet.models).Keys
      invariant Play(t, select, STARTED, draws[..i]) == Ok(s) && OnCourse(t, g.plan, s, i)
      invariant result.State() == s.outcome && g.Where() == s.selector && reachable == s.reachable
    {
      PlayOne(t, select, STARTED, draws, i, s);
      assert StepIsSafe(select, t, g.plan, s, i, draws[i]);
      var moved := Govern(t, g, result, reachable, draws[i], select, s, i);
      if moved.Err? {
        PlayStops(t, select, STARTED, draws, i + 1);
        return Err(moved.error);
      }
      reachable, s := moved.value, Advance(t, select, s, draws[i]).value;
    }
    assert draws[..|draws|] == draws;
    return Ok(result);
  }

  /** `run` under the governed selector: it raises what the selector raises. */
  method RunGoverned(t: Trial, g: Governed, fleet: LinkFleet, draws: seq<Draws>)
    returns (r: Result<RunResult, CallError>)
    requires g.Valid() && g.Where() == STARTED && Plays(t, g.plan) && CarriableFor(t, g.plan, |draws|)
    requires fleet.order == t.order && fleet.models == t.models
    requires forall e | e in t.events :: EventKnown(fleet.models, e)
    modifies g, g.store, g.store.epochs, g.chain, g.chain.sink, fleet
    ensures g.Valid()
    ensures var run := GovernedRun(t, g.plan, g.chain.key, draws);
            if run.Err? then r == Err(run.error)
            else r.Ok? && fresh(r.value) && r.value.fleet == fleet
                 && r.value.State() == run.value.outcome && g.Where() == run.value.selector
  {
    GovernorStaysOnCourse(t, g.plan, g.chain.key, Governing(t, g.plan, g.chain.key), |draws|);
    r := GovernAll(t, g, fleet, draws, Governing(t, g.plan, g.chain.key));
  }
}
