/** Runs of the simulator under the hysteresis selector (sim/run.py, sim/selectors.py). */
module HysteresisRuns {
  import opened Prelude
  import opened Ordering
  import opened Models
  import opened Selectors
  import opened Links
  import opened Simulation
  import opened Runs

  /** `sorted(ctx.links)` */
  function Candidates(t: Trial): seq<Text> {
    SortedKeys(LinkTable(t.bundle.links).Keys)
  }

  function Classes(t: Trial): set<Text> {
    set c | c in t.Site().order
  }

  /** Every class is given the link held. */
  function AnswerOf(t: Trial, held: Held): Answer {
    Answer(AllClasses(Classes(t), held.current), false)
  }

  /** The selector as a function: it never raises. */
  function Holding(t: Trial, dwell: int): (Held, Context) -> Result<(Held, Answer), ()> {
    (held: Held, ctx: Context) =>
      var next := Hold(t.p, Candidates(t), dwell, held, ctx);
      Ok((next, AnswerOf(t, next)))
  }

  function Flown(t: Trial, dwell: int, draws: seq<Draws>): Result<Progress<Held>, ()> {
    Play(t, Holding(t, dwell), NOTHING_HELD, draws)
  }

  // ---------- the driver ----------

  lemma HeldIsKnown(t: Trial, dwell: int, held: Held, models: Fleet, draws: Draws, now: int, reachable: bool)
    requires held.current.Some? ==> held.current.value in Candidates(t)
    ensures var ctx := Context(FleetEvidence(models, t.order, draws, now), now, reachable);
            var next := Hold(t.p, Candidates(t), dwell, held, ctx);
            next.current.Some? ==> next.current.value in Candidates(t) && next.current.value in models
  {
    var ctx := Context(FleetEvidence(models, t.order, draws, now), now, reachable);
    var next := Hold(t.p, Candidates(t), dwell, held, ctx);
    BestIsBest(t.p, ctx.evidence, Candidates(t));
    if next.current.Some? {
      ObservedInFleet(t.p, models, t.order, draws, now, next.current.value);
    }
  }

  lemma AnswerIsKnown(t: Trial, held: Held, models: Fleet)
    requires held.current.Some? ==> held.current.value in Candidates(t) && held.current.value in models
    ensures var sc, a := t.Site(), AnswerOf(t, held);
            ChoicesKnown(World(sc.links, sc.classes, models), sc.order, a.choices) && AnswerKnown(sc, models, a)
  {
    ClassTableHolds(t.bundle.classes);
  }

  /** Where a step leaves the run. */
  function Flies(t: Trial, dwell: int, s: Progress<Held>, ctx: Context): Progress<Held> {
    var held := Hold(t.p, Candidates(t), dwell, s.selector, ctx);
    Moved(t, s, ctx, held, AnswerOf(t, held))
  }

  lemma AdvanceFlies(t: Trial, dwell: int, s: Progress<Held>, draws: Draws)
    ensures Advance(t, Holding(t, dwell), s, draws)
            == Ok(Flies(t, dwell, s, Shown(t, s.outcome, s.reachable, draws)))
  {
  }

  /** One step of a run, from events to accounts; `s` is where the run stands. */
  method Fly(t: Trial, h: Hysteresis, result: RunResult, reachable: bool, draws: Draws, ghost s: Progress<Held>)
    returns (after: bool)
    requires h.p == t.p && result.fleet.order == t.order
    requires forall e | e in t.events :: EventKnown(result.fleet.models, e)
    requires result.State() == s.outcome && h.State() == s.selector && reachable == s.reachable
    requires h.current.Some? ==> h.current.value in Candidates(t)
    modifies h, result, result.fleet
    ensures var next := Advance(t, Holding(t, h.dwell), s, draws);
            next.Ok? && result.State() == next.value.outcome && h.State() == next.value.selector
            && after == next.value.reachable
    ensures h.current.Some? ==> h.current.value in Candidates(t)
    ensures result.fleet.models.Keys == old(result.fleet.models).Keys
  {
    AdvanceFlies(t, h.dwell, s, draws);
    var ctx := Show(t, result, reachable, draws);
    after := ctx.reachable;
    HeldIsKnown(t, h.dwell, h.State(), result.fleet.models, draws, ctx.now, ctx.reachable);
    var choice := h.Call(Candidates(t), ctx);
    AnswerIsKnown(t, h.State(), result.fleet.models);
    result.Settle(t.p, t.Site(), AnswerOf(t, h.State()));
  }

  /** `run` under the hysteresis selector. */
  method RunHysteresis(t: Trial, h: Hysteresis, fleet: LinkFleet, draws: seq<Draws>) returns (result: RunResult)
    requires h.p == t.p && fleet.order == t.order && fleet.models == t.models
    requires forall e | e in t.events :: EventKnown(fleet.models, e)
    modifies h, fleet
    ensures fresh(result) && result.fleet == fleet
    ensures var run := Flown(t, h.dwell, draws);
            run.Ok? && result.State() == run.value.outcome && h.State() == run.value.selector
  {
    h.Reset();
    result := new RunResult(fleet);
    var reachable := true;
    ghost var s := Begin(t, NOTHING_HELD);
    for i := 0 to |draws|
      invariant fresh(result) && result.fleet == fleet
      invariant fleet.models.Keys == old(fleet.models).Keys
      invariant Flown(t, h.dwell, draws[..i]) == Ok(s)
      invariant result.State() == s.outcome && h.State() == s.selector && reachable == s.reachable
      invariant h.current.Some? ==> h.current.value in Candidates(t)
    {
      assert draws[..i + 1][..i] == draws[..i];
      reachable := Fly(t, h, result, reachable, draws[i], s);
      s := Advance(t, Holding(t, h.dwell), s, draws[i]).value;
    }
    assert draws[..|draws|] == draws;
  }

  // ---------- what a run comes to ----------

  lemma {:induction false} HysteresisNeverRaises(t: Trial, dwell: int, draws: seq<Draws>)
    ensures Flown(t, dwell, draws).Ok?
  {
    if draws != [] {
      HysteresisNeverRaises(t, dwell, draws[..|draws| - 1]);
    }
  }

  /** A run's answers are those of the selector held against what it was shown. */
  lemma {:induction false} HysteresisHolds(t: Trial, dwell: int, draws: seq<Draws>)
    requires Flown(t, dwell, draws).Ok?
    ensures var s := Flown(t, dwell, draws).value;
            && s.selector == Looks(t.p, Candidates(t), dwell, s.met).held
            && ChoicesOf(s.answers) == HysteresisRun(t.p, Candidates(t), dwell, Classes(t), s.met)
  {
    if draws != [] {
      var n := |draws| - 1;
      HysteresisHolds(t, dwell, draws[..n]);
      HoldsOnce(t, dwell, Flown(t, dwell, draws[..n]).value, draws[n]);
    }
  }

  lemma HoldsOnce(t: Trial, dwell: int, s: Progress<Held>, draws: Draws)
    requires s.selector == Looks(t.p, Candidates(t), dwell, s.met).held
    requires ChoicesOf(s.answers) == HysteresisRun(t.p, Candidates(t), dwell, Classes(t), s.met)
    ensures var next := Advance(t, Holding(t, dwell), s, draws).value;
            && next.selector == Looks(t.p, Candidates(t), dwell, next.met).held
            && ChoicesOf(next.answers) == HysteresisRun(t.p, Candidates(t), dwell, Classes(t), next.met)
  {
    AdvanceFlies(t, dwell, s, draws);
    var ctx := Shown(t, s.outcome, s.reachable, draws);
    var next := Flies(t, dwell, s, ctx);
    assert next.met[..|s.met|] == s.met && next.met[|s.met|] == ctx;
    ChoicesOfAll(next.answers);
    assert next.answers[..|s.answers|] == s.answers;
  }

  lemma ClockIsMonotone(t: Trial, met: seq<Context>)
    requires t.step >= 0 && forall i | 0 <= i < |met| :: met[i].now == t.Now(i)
    ensures MonotoneLooks(met)
  {
    forall i, j | 0 <= i < j < |met| ensures met[i].now <= met[j].now {
      ProductMonotone(t.step, i, j);
    }
  }

  /** The time from the first of so many steps to the last. */
  function Elapsed(t: Trial, steps: nat): int {
    if steps == 0 then 0 else t.Now(steps - 1) - t.Now(0)
  }

  lemma MetOnTime(t: Trial, dwell: int, draws: seq<Draws>)
    requires t.step >= 0 && draws != [] && Flown(t, dwell, draws).Ok?
    ensures var met := Flown(t, dwell, draws).value.met;
            met != [] && MonotoneLooks(met) && Elapsed(t, |draws|) == met[|met| - 1].now - met[0].now
  {
    PlayIsRun(t, Holding(t, dwell), NOTHING_HELD, draws);
    var s := Flown(t, dwell, draws).value;
    forall i | 0 <= i < |s.met| ensures s.met[i].now == t.Now(i) {
      assert s.met[i] == ContextIn(t, s.answers[..i], draws[i]);
    }
    ClockIsMonotone(t, s.met);
  }

  /** The flaps of a whole run under the hysteresis selector: at most the classes times the forced moves
      plus the elapsed time divided by the dwell, for every scenario, fleet and draws. */
  lemma HysteresisRunFlaps(t: Trial, dwell: int, draws: seq<Draws>)
    requires t.step >= 0 && dwell > 0
    ensures Flown(t, dwell, draws).Ok?
    ensures var s := Flown(t, dwell, draws).value;
            s.outcome.flaps
            <= FlapBound(|Classes(t)|, Looks(t.p, Candidates(t), dwell, s.met).forced, Elapsed(t, |draws|), dwell)
  {
    HysteresisNeverRaises(t, dwell, draws);
    if draws != [] {
      PlayIsRun(t, Holding(t, dwell), NOTHING_HELD, draws);
      HysteresisHolds(t, dwell, draws);
      MetOnTime(t, dwell, draws);
      ProgressFlaps(t, dwell, Flown(t, dwell, draws).value, Elapsed(t, |draws|));
    }
  }

  lemma ProgressFlaps(t: Trial, dwell: int, s: Progress<Held>, elapsed: int)
    requires dwell > 0 && s.met != [] && MonotoneLooks(s.met) && elapsed == s.met[|s.met| - 1].now - s.met[0].now
    requires s.outcome == RunAll(t.p, t.Site(), t.models, s.answers)
    requires ChoicesOf(s.answers) == HysteresisRun(t.p, Candidates(t), dwell, Classes(t), s.met)
    ensures s.outcome.flaps <= FlapBound(|Classes(t)|, Looks(t.p, Candidates(t), dwell, s.met).forced, elapsed, dwell)
  {
    ClassTableHolds(t.bundle.classes);
    HoldingFlaps(t.p, t.Site(), t.models, s.answers, Candidates(t), dwell, Classes(t), s.met, elapsed);
  }

  /** Every class-second of a run under the hysteresis selector is served, refused or down. */
  lemma HysteresisRunConserves(t: Trial, dwell: int, draws: seq<Draws>)
    ensures Flown(t, dwell, draws).Ok?
    ensures ClassSeconds(Flown(t, dwell, draws).value.outcome.ledger) == |draws| * (|t.Site().order| * t.step)
  {
    HysteresisNeverRaises(t, dwell, draws);
    PlayConserves(t, Holding(t, dwell), NOTHING_HELD, draws);
  }

  /** A run under the hysteresis selector is never degraded. */
  lemma {:induction false} HysteresisNeverDegraded(t: Trial, dwell: int, draws: seq<Draws>)
    ensures Flown(t, dwell, draws).Ok? && Flown(t, dwell, draws).value.outcome.degraded == 0
  {
    if draws != [] {
      var n := |draws| - 1;
      HysteresisNeverDegraded(t, dwell, draws[..n]);
      AdvanceFlies(t, dwell, Flown(t, dwell, draws[..n]).value, draws[n]);
    }
  }

  lemma {:induction false} RunChoices(p: Platform, links: seq<Text>, dwell: int, classes: set<Text>,
                                      looks: seq<Context>, i: nat)
    requires i < |looks|
    ensures HysteresisRun(p, links, dwell, classes, looks)[i]
            == AllClasses(classes, HeldAfter(p, links, dwell, looks)[i])
  {
    if i < |looks| - 1 {
      RunChoices(p, links, dwell, classes, looks[..|looks| - 1], i);
    }
  }

  /** What every class was given in each step of a run. */
  function Given(t: Trial, dwell: int, met: seq<Context>): (run: seq<Option<Text>>)
    ensures |run| == |met|
  {
    HeldAfter(t.p, Candidates(t), dwell, met)
  }

  /** In the last step of any run under the hysteresis selector, every class is given one and the same link,
      and either no link observed up is better, or that link was first given less than the dwell ago. */
  lemma HysteresisRunMovesWhenDue(t: Trial, dwell: int, draws: seq<Draws>)
    requires draws != []
    ensures Flown(t, dwell, draws).Ok?
    ensures var s, n := Flown(t, dwell, draws).value, |draws| - 1;
            && |s.answers| == |s.met| == |draws|
            && var run := Given(t, dwell, s.met);
               && s.answers[n].choices == AllClasses(Classes(t), run[n])
               && (|| s.met[n].now - s.met[LastChange(run)].now < dwell
                   || (run[n].None? && forall x | x in Candidates(t) :: !ObservedUp(t.p, s.met[n].evidence, x))
                   || (run[n].Some? && forall x | x in Candidates(t) && ObservedUp(t.p, s.met[n].evidence, x) ::
                         !Better(t.p, s.met[n].evidence, x, run[n].value)))
  {
    HysteresisNeverRaises(t, dwell, draws);
    PlayIsRun(t, Holding(t, dwell), NOTHING_HELD, draws);
    HysteresisHolds(t, dwell, draws);
    var s, n := Flown(t, dwell, draws).value, |draws| - 1;
    assert ChoicesOf(s.answers)[n] == s.answers[n].choices;
    RunChoices(t.p, Candidates(t), dwell, Classes(t), s.met, n);
    MovesWhenDue(t.p, Candidates(t), dwell, s.met);
  }
}
