/** Whole runs of the simulator: a scenario, a fleet, the draws of each step, and a selector (sim/run.py). */
module Runs {
  import opened Prelude
  import opened Models
  import opened Rules
  import opened Policy
  import opened Selectors
  import opened Links
  import opened Simulation
  import opened Accounts

  // ---------- the declared links and classes ----------

  /** `{link.id: link for link in bundle.links}` */
  function LinkTable(links: seq<Link>): map<Text, Link> {
    if links == [] then map[] else LinkTable(links[..|links| - 1])[links[|links| - 1].id := links[|links| - 1]]
  }

  function ClassTable(classes: seq<TrafficClass>): map<Text, TrafficClass> {
    if classes == [] then map[]
    else ClassTable(classes[..|classes| - 1])[classes[|classes| - 1].id := classes[|classes| - 1]]
  }

  /** The order of a table's keys: that of their first occurrences. */
  function ClassIds(classes: seq<TrafficClass>): seq<Text> {
    Once(Map(ClassId, classes))
  }

  function ClassId(c: TrafficClass): Text {
    c.id
  }

  lemma {:induction false} LinkTableHolds(links: seq<Link>)
    ensures forall link | link in links :: link.id in LinkTable(links)
    ensures DistinctLinks(links) ==> forall link | link in links :: LinkTable(links)[link.id] == link
  {
    if links != [] {
      var n := |links| - 1;
      LinkTableHolds(links[..n]);
      assert links == links[..n] + [links[n]];
    }
  }

  lemma {:induction false} ClassTableHolds(classes: seq<TrafficClass>)
    ensures forall id :: id in ClassTable(classes) <==> id in ClassIds(classes)
    ensures forall c | c in classes :: c.id in ClassTable(classes)
    ensures forall id | id in ClassTable(classes) ::
              ClassTable(classes)[id].id == id && ClassTable(classes)[id] in classes
    ensures Distinct(ClassIds(classes))
  {
    if classes != [] {
      var n := |classes| - 1;
      ClassTableHolds(classes[..n]);
      assert classes == classes[..n] + [classes[n]];
      MapLast(ClassId, classes);
    }
  }

  // ---------- a run of any selector ----------

  /** A scenario with the fleet it starts from, the fleet's order, and the time of its first step. */
  datatype Trial = Trial(
    p: Platform, bundle: PolicyBundle, traffic: map<Text, int>, events: seq<Event>, step: int,
    models: Fleet, order: seq<Text>, start: int)
  {
    function Site(): Scenario {
      Scenario(ClassIds(bundle.classes), LinkTable(bundle.links), ClassTable(bundle.classes), traffic, events, step)
    }

    function Now(steps: nat): int {
      start + steps * step * SECOND
    }
  }

  type Draws = map<Text, Draw>

  /** Where a run stands; `met` and `answers` are the history of what the selector was shown and said. */
  datatype Progress<S> = Progress(
    outcome: Outcome, reachable: bool, selector: S, met: seq<Context>, answers: seq<Answer>)

  /** What the selector is shown next. */
  function Shown(t: Trial, outcome: Outcome, reachable: bool, draws: Draws): Context {
    var now := t.Now(outcome.steps);
    Context(FleetEvidence(Played(t.Site(), outcome).ledger.models, t.order, draws, now), now,
            ReachableAll(reachable, Due(t.Site(), outcome)))
  }

  /** Where a step leaves the run, given what the selector was shown, kept and answered. */
  function Moved<S>(t: Trial, s: Progress<S>, ctx: Context, selector: S, answer: Answer): Progress<S> {
    Progress(Settled(t.p, t.Site(), Played(t.Site(), s.outcome), answer), ctx.reachable, selector,
             s.met + [ctx], s.answers + [answer])
  }

  /** One step of the event loop; a selector may raise. */
  function Advance<S, E>(t: Trial, select: (S, Context) -> Result<(S, Answer), E>, s: Progress<S>, draws: Draws)
    : Result<Progress<S>, E>
  {
    var ctx := Shown(t, s.outcome, s.reachable, draws);
    var chosen :- select(s.selector, ctx);
    Ok(Moved(t, s, ctx, chosen.0, chosen.1))
  }

  function Begin<S>(t: Trial, selector: S): Progress<S> {
    Progress(Fresh(t.models), true, selector, [], [])
  }

  /** `run`: one step for each draw. */
  function Play<S, E>(t: Trial, select: (S, Context) -> Result<(S, Answer), E>, selector: S, draws: seq<Draws>)
    : Result<Progress<S>, E>
  {
    if draws == [] then Ok(Begin(t, selector))
    else
      var before :- Play(t, select, selector, draws[..|draws| - 1]);
      Advance(t, select, before, draws[|draws| - 1])
  }

  lemma PlayOne<S, E>(t: Trial, select: (S, Context) -> Result<(S, Answer), E>, selector: S, draws: seq<Draws>, i: nat,
                      s: Progress<S>)
    requires i < |draws| && Play(t, select, selector, draws[..i]) == Ok(s)
    ensures Play(t, select, selector, draws[..i + 1]) == Advance(t, select, s, draws[i])
  {
    assert draws[..i + 1][..i] == draws[..i];
  }

  /** A run that has raised stays raised. */
  lemma {:induction false} PlayStops<S, E>(t: Trial, select: (S, Context) -> Result<(S, Answer), E>, selector: S,
                                           draws: seq<Draws>, k: nat)
    requires k <= |draws| && Play(t, select, selector, draws[..k]).Err?
    ensures Play(t, select, selector, draws) == Play(t, select, selector, draws[..k])
    decreases |draws|
  {
    if k == |draws| {
      assert draws[..k] == draws;
    } else {
      var n := |draws| - 1;
      assert draws[..n][..k] == draws[..k];
      PlayStops(t, select, selector, draws[..n], k);
    }
  }

  /** From where the run stands before step `i`, the step does not raise and keeps the invariant. */
  ghost predicate MovesOn<S, E>(t: Trial, select: (S, Context) -> Result<(S, Answer), E>, draws: seq<Draws>,
                                inv: (Progress<S>, nat) -> bool, s: Progress<S>, i: nat)
    requires i < |draws|
  {
    var next := Advance(t, select, s, draws[i]);
    next.Ok? && inv(next.value, i + 1)
  }

  /** What holds at the start and is kept by every step holds at the end of a run, which does not raise. */
  lemma {:induction false} PlayKeeps<S(!new), E>(t: Trial, select: (S, Context) -> Result<(S, Answer), E>, selector: S,
                                                 draws: seq<Draws>, inv: (Progress<S>, nat) -> bool, n: nat)
    requires n <= |draws| && inv(Begin(t, selector), 0)
    requires forall s, i: nat | i < |draws| && inv(s, i) :: MovesOn(t, select, draws, inv, s, i)
    ensures var run := Play(t, select, selector, draws[..n]); run.Ok? && inv(run.value, n)
    ensures n == |draws| ==> draws[..n] == draws
  {
    if n > 0 {
      PlayKeeps(t, select, selector, draws, inv, n - 1);
      var s := Play(t, select, selector, draws[..n - 1]).value;
      PlayOne(t, select, selector, draws, n - 1, s);
      assert MovesOn(t, select, draws, inv, s, n - 1);
    }
  }

  /** Whether the authority is reachable in step `i`: a matter of the events alone. */
  function ReachableIn(sc: Scenario, i: nat): bool {
    ReachableAll(if i == 0 then true else ReachableIn(sc, i - 1), EventsAt(sc.events, i * sc.step))
  }

  /** The link models that step `i` sees, when the selector has answered this before. */
  function ModelsIn(t: Trial, answers: seq<Answer>): Fleet {
    Played(t.Site(), RunAll(t.p, t.Site(), t.models, answers)).ledger.models
  }

  /** What the selector is shown in step `i`, when it has answered this before. */
  function ContextIn(t: Trial, answers: seq<Answer>, draws: Draws): Context {
    Context(FleetEvidence(ModelsIn(t, answers), t.order, draws, t.Now(|answers|)), t.Now(|answers|),
            ReachableIn(t.Site(), |answers|))
  }

  /** The history of a run is true, and its outcome is that of its answers. */
  ghost predicate History<S>(t: Trial, s: Progress<S>, draws: seq<Draws>) {
    && |s.met| == |s.answers| == |draws|
    && s.outcome == RunAll(t.p, t.Site(), t.models, s.answers) && s.outcome.steps == |draws|
    && s.reachable == (if draws == [] then true else ReachableIn(t.Site(), |draws| - 1))
    && forall i | 0 <= i < |draws| :: s.met[i] == ContextIn(t, s.answers[..i], draws[i])
  }

  /** Whatever the selector, a run is the run of its answers, and each step shows the selector the time,
      the evidence of the fleet as the answers so far have left it, and the reachability that the
      events so far have left. */
  lemma {:induction false} PlayIsRun<S, E>(t: Trial, select: (S, Context) -> Result<(S, Answer), E>, selector: S,
                                           draws: seq<Draws>)
    requires Play(t, select, selector, draws).Ok?
    ensures History(t, Play(t, select, selector, draws).value, draws)
  {
    if draws != [] {
      var n := |draws| - 1;
      PlayIsRun(t, select, selector, draws[..n]);
      var before, after := Play(t, select, selector, draws[..n]).value, Play(t, select, selector, draws).value;
      AdvanceKeepsHistory(t, select, before, draws);
    }
  }

  lemma AdvanceKeepsHistory<S, E>(t: Trial, select: (S, Context) -> Result<(S, Answer), E>, s: Progress<S>,
                                  draws: seq<Draws>)
    requires draws != [] && History(t, s, draws[..|draws| - 1]) && Advance(t, select, s, draws[|draws| - 1]).Ok?
    ensures History(t, Advance(t, select, s, draws[|draws| - 1]).value, draws)
  {
    var n := |draws| - 1;
    var next := Advance(t, select, s, draws[n]).value;
    assert next.answers[..n] == s.answers;
    assert next.met[n] == ContextIn(t, s.answers, draws[n]);
    forall i | 0 <= i < |draws| ensures next.met[i] == ContextIn(t, next.answers[..i], draws[i]) {
      if i < n {
        assert next.answers[..i] == s.answers[..i] && draws[..n][i] == draws[i];
      }
    }
  }

  /** Step `i` shows the selector the time at which it falls: so many step lengths, in seconds, after the
      start. */
  lemma PlayOnTime<S, E>(t: Trial, select: (S, Context) -> Result<(S, Answer), E>, selector: S, draws: seq<Draws>,
                         i: nat)
    requires Play(t, select, selector, draws).Ok? && i < |draws|
    ensures var met := Play(t, select, selector, draws).value.met;
            i < |met| && met[i].now == t.start + i * t.step * SECOND
  {
    PlayIsRun(t, select, selector, draws);
  }

  /** The selector never leaves a class without an answer. */
  ghost predicate AlwaysAnswers<S(!new), E>(t: Trial, select: (S, Context) -> Result<(S, Answer), E>) {
    forall s, ctx :: select(s, ctx).Ok? ==> Answers(t.Site(), select(s, ctx).value.1)
  }

  lemma {:induction false} PlayAnswers<S(!new), E>(t: Trial, select: (S, Context) -> Result<(S, Answer), E>,
                                                   selector: S, draws: seq<Draws>)
    requires AlwaysAnswers(t, select) && Play(t, select, selector, draws).Ok?
    ensures var answers := Play(t, select, selector, draws).value.answers;
            forall i | 0 <= i < |answers| :: Answers(t.Site(), answers[i])
  {
    if draws != [] {
      PlayAnswers(t, select, selector, draws[..|draws| - 1]);
    }
  }

  /** Every class-second of a run is served, refused or down, whatever the selector. */
  lemma PlayConserves<S(!new), E>(t: Trial, select: (S, Context) -> Result<(S, Answer), E>, selector: S,
                                  draws: seq<Draws>)
    requires AlwaysAnswers(t, select) && Play(t, select, selector, draws).Ok?
    ensures ClassSeconds(Play(t, select, selector, draws).value.outcome.ledger)
            == |draws| * (|t.Site().order| * t.step)
  {
    PlayAnswers(t, select, selector, draws);
    PlayIsRun(t, select, selector, draws);
    ClassSecondsConserved(t.p, t.Site(), t.models, Play(t, select, selector, draws).value.answers);
  }

  /** The accounts of a run are those that its answers and the scenario call for, whatever the selector. */
  lemma PlayAccounts<S, E>(t: Trial, select: (S, Context) -> Result<(S, Answer), E>, selector: S, draws: seq<Draws>)
    requires Play(t, select, selector, draws).Ok?
    ensures var s := Play(t, select, selector, draws).value;
            AccountsAreRight(t.Site(), t.models, s.answers, s.outcome.ledger)
  {
    PlayIsRun(t, select, selector, draws);
    RunAccounts(t.p, t.Site(), t.models, Play(t, select, selector, draws).value.answers);
  }

  lemma {:induction false} ReachableConcat(reachable: bool, a: seq<Event>, b: seq<Event>)
    ensures ReachableAll(reachable, a + b) == ReachableAll(ReachableAll(reachable, a), b)
  {
    if b == [] {
      assert a + b == a;
    } else {
      assert (a + b)[..|a + b| - 1] == a + b[..|b| - 1];
      ReachableConcat(reachable, a, b[..|b| - 1]);
    }
  }

  lemma {:induction false} ReachableByActed(sc: Scenario, i: nat)
    ensures ReachableIn(sc, i) == ReachableAll(true, Acted(sc, i))
  {
    ReachableConcat(true, if i == 0 then [] else Acted(sc, i - 1), EventsAt(sc.events, i * sc.step));
    if i > 0 {
      ReachableByActed(sc, i - 1);
    }
  }

  /** The selector is told that the authority is reachable exactly if, of the events that have acted, one
      made it so and none cut it off since, or none ever cut it off. */
  lemma ReachableExactly(sc: Scenario, i: nat)
    ensures ReachableIn(sc, i)
            <==> Switched(Acted(sc, i), Is(AuthorityReachable), Is(AuthorityUnreachable), true)
  {
    ReachableByActed(sc, i);
    ReachableIffSwitched(Acted(sc, i), true);
  }

  // ---------- what every driver does ----------

  /** What is observed up is a link of the fleet. */
  lemma ObservedInFleet(p: Platform, models: Fleet, order: seq<Text>, draws: Draws, now: int, x: Text)
    requires ObservedUp(p, FleetEvidence(models, order, draws, now), x)
    ensures x in models
  {
    var evidence := FleetEvidence(models, order, draws, now);
    LatestMember(evidence, x, UP);
    var o := Latest(evidence, x, UP).value;
    FlatMapMembers(Reports(models, draws, now), order, o);
    var id :| id in order && o in Reports(models, draws, now)(id);
  }

  /** The events that are due act, and the fleet reports. */
  method Show(t: Trial, result: RunResult, reachable: bool, draws: Draws) returns (ctx: Context)
    requires result.fleet.order == t.order
    requires forall e | e in t.events :: EventKnown(result.fleet.models, e)
    modifies result.fleet
    ensures ctx == Shown(t, old(result.State()), reachable, draws)
    ensures result.State() == Played(t.Site(), old(result.State()))
    ensures result.fleet.models.Keys == old(result.fleet.models).Keys
  {
    var after := PlayEvents(result.fleet, t.events, result.steps * t.step, reachable);
    var now := t.Now(result.steps);
    var evidence := result.fleet.Step(now, draws);
    ctx := Context(evidence, now, after);
  }
}
