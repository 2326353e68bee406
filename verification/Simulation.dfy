/** The event loop and its accounting (sim/run.py). */
module Simulation {
  import opened Prelude
  import opened Models
  import opened Links
  import opened Selectors

  const FOG_VISIBILITY := 80.0
  const CLEAR_VISIBILITY := 8000.0

  datatype EventKind =
    | LinkDown | LinkUp | Fog | Clear | Obstruct | Unobstruct | SensorFail | SensorRecover
    | AuthorityUnreachable | AuthorityReachable

  datatype Event = Event(at: int, kind: EventKind, target: Text)

  /** What an event does to the model it names. An attribute that a kind of link does not read
      changes nothing about it. */
  function Affected(m: LinkModel, kind: EventKind): LinkModel {
    match kind
    case LinkDown => m.(up := false)
    case LinkUp => m.(up := true)
    case Fog => if m.Fso? then m.(visibility := FOG_VISIBILITY) else m
    case Clear => if m.Fso? then m.(visibility := CLEAR_VISIBILITY) else m
    case Obstruct => if m.Satellite? then m.(obstructed := true) else m
    case Unobstruct => if m.Satellite? then m.(obstructed := false) else m
    case SensorFail => m.(sensorFailed := true)
    case SensorRecover => m.(sensorFailed := false)
    case _ => m
  }

  function AffectedFleet(models: Fleet, e: Event): Fleet {
    if e.target in models then models[e.target := Affected(models[e.target], e.kind)] else models
  }

  /** Whether the authority is reachable after the event. */
  function ReachableAfter(e: Event, reachable: bool): bool {
    if e.kind.AuthorityUnreachable? then false else if e.kind.AuthorityReachable? then true else reachable
  }

  /** An event that acts on a link names one of the fleet. */
  ghost predicate EventKnown(models: Fleet, e: Event) {
    e.kind.AuthorityUnreachable? || e.kind.AuthorityReachable? || e.target in models
  }

  // ---------- the accounts ----------

  /** The run's accounts. `served`, `bytes` and `billed` are tallies that the source does not keep. */
  datatype Ledger = Ledger(
    models: Fleet, refused: int, downtime: int, cost: real, served: int, bytes: int, billed: map<Text, int>)

  function Billed(l: Ledger, id: Text): int {
    if id in l.billed then l.billed[id] else 0
  }

  /** The quota was spent before this chunk. */
  predicate OverQuota(m: LinkModel) {
    HasQuota(m) && QuotaUsedPct(m) >= 100.0
  }

  /** One class-step: refused without a link, down on a link that is not up, else carried and, over a
      spent quota, billed. */
  function Book(l: Ledger, choice: Option<Text>, chunk: int, step: int): Ledger {
    if choice.None? then l.(refused := l.refused + step)
    else if choice.value !in l.models || !Up(l.models[choice.value]) then l.(downtime := l.downtime + step)
    else
      var id := choice.value;
      var m := l.models[id];
      var over := OverQuota(m);
      Ledger(l.models[id := m.(carried := m.carried + chunk)], l.refused, l.downtime,
             l.cost + (if over then chunk as real / GB as real * m.costPerGbOver else 0.0),
             l.served + step, l.bytes + chunk,
             if over then l.billed[id := Billed(l, id) + chunk] else l.billed)
  }

  function ChunkOf(traffic: map<Text, int>, classId: Text, step: int): int {
    (if classId in traffic then traffic[classId] else 0) * step
  }

  function BookAll(l: Ledger, order: seq<Text>, choices: Choices, traffic: map<Text, int>, step: int): Ledger {
    if order == [] then l
    else
      var before := BookAll(l, order[..|order| - 1], choices, traffic, step);
      var classId := order[|order| - 1];
      if classId in choices then Book(before, choices[classId], ChunkOf(traffic, classId, step), step) else before
  }

  function FlapsOf(previous: Choices, choices: Choices, order: seq<Text>): nat {
    if order == [] then 0
    else
      var classId := order[|order| - 1];
      FlapsOf(previous, choices, order[..|order| - 1])
      + if classId in choices && classId in previous && previous[classId] != choices[classId] then 1 else 0
  }

  function EventsAt(events: seq<Event>, at: int): seq<Event> {
    Filter((e: Event) => e.at == at, events)
  }

  function ApplyAll(models: Fleet, events: seq<Event>): Fleet {
    if events == [] then models else AffectedFleet(ApplyAll(models, events[..|events| - 1]), events[|events| - 1])
  }

  function ReachableAll(reachable: bool, events: seq<Event>): bool {
    if events == [] then reachable
    else ReachableAfter(events[|events| - 1], ReachableAll(reachable, events[..|events| - 1]))
  }

  /** A site, its traffic and what goes wrong; `order` lists the class ids. */
  datatype Scenario = Scenario(
    order: seq<Text>, links: map<Text, Link>, classes: map<Text, TrafficClass>,
    traffic: map<Text, int>, events: seq<Event>, step: int)

  /** What the selector answers in a step, and whether it was degraded. */
  datatype Answer = Answer(choices: Choices, degraded: bool)

  datatype Outcome = Outcome(
    ledger: Ledger, previous: Choices, flaps: nat, degraded: int, steps: nat, violations: seq<Violation>)

  function Fresh(models: Fleet): Outcome {
    Outcome(Ledger(models, 0, 0, 0.0, 0, 0, map[]), map[], 0, 0, 0, [])
  }

  /** The events of the step that is next. */
  function Due(sc: Scenario, r: Outcome): seq<Event> {
    EventsAt(sc.events, r.steps * sc.step)
  }

  /** The outcome so far, the step's events having acted on the links. */
  function Played(sc: Scenario, r: Outcome): Outcome {
    r.(ledger := r.ledger.(models := ApplyAll(r.ledger.models, Due(sc, r))))
  }

  /** A step from the selector's answer on. */
  function Settled(p: Platform, sc: Scenario, r: Outcome, a: Answer): Outcome {
    var w := World(sc.links, sc.classes, r.ledger.models);
    Outcome(BookAll(r.ledger, sc.order, a.choices, sc.traffic, sc.step),
           a.choices,
           r.flaps + FlapsOf(r.previous, a.choices, sc.order),
           r.degraded + (if a.degraded then sc.step else 0),
           r.steps + 1,
           r.violations + FlatMap(Findings(p, w, r.steps * sc.step, a.choices), sc.order))
  }

  function RunStep(p: Platform, sc: Scenario, r: Outcome, a: Answer): Outcome {
    Settled(p, sc, Played(sc, r), a)
  }

  /** The outcome of a run in which the selector answered this. */
  function RunAll(p: Platform, sc: Scenario, models: Fleet, answers: seq<Answer>): Outcome {
    if answers == [] then Fresh(models)
    else RunStep(p, sc, RunAll(p, sc, models, answers[..|answers| - 1]), answers[|answers| - 1])
  }

  lemma {:induction false} StepsOfRun(p: Platform, sc: Scenario, models: Fleet, answers: seq<Answer>)
    ensures RunAll(p, sc, models, answers).steps == |answers|
  {
    if answers != [] {
      StepsOfRun(p, sc, models, answers[..|answers| - 1]);
    }
  }

  // ---------- the loops ----------

  /** Every choice is of a link of the fleet, and every class has one. */
  ghost predicate AnswerKnown(sc: Scenario, models: Fleet, a: Answer) {
    forall c | c in sc.order :: c in a.choices && (a.choices[c].Some? ==> a.choices[c].value in models)
  }

  method PlayEvents(fleet: LinkFleet, events: seq<Event>, at: int, reachable: bool) returns (after: bool)
    requires forall e | e in events :: EventKnown(fleet.models, e)
    modifies fleet
    ensures fleet.models == ApplyAll(old(fleet.models), EventsAt(events, at))
    ensures after == ReachableAll(reachable, EventsAt(events, at))
    ensures fleet.models.Keys == old(fleet.models).Keys
  {
    after := reachable;
    for i := 0 to |events|
      invariant fleet.models == ApplyAll(old(fleet.models), EventsAt(events[..i], at))
      invariant after == ReachableAll(reachable, EventsAt(events[..i], at))
      invariant fleet.models.Keys == old(fleet.models).Keys
    {
      EventsStepOn(old(fleet.models), reachable, events, i, at);
      if events[i].at == at {
        after := ReachableAfter(events[i], after);
        fleet.models := AffectedFleet(fleet.models, events[i]);
      }
    }
    assert events[..|events|] == events;
  }

  lemma EventsStepOn(models: Fleet, reachable: bool, events: seq<Event>, i: nat, at: int)
    requires i < |events|
    ensures var before, after, e := EventsAt(events[..i], at), EventsAt(events[..i + 1], at), events[i];
            && ApplyAll(models, after)
               == (if e.at == at then AffectedFleet(ApplyAll(models, before), e) else ApplyAll(models, before))
            && ReachableAll(reachable, after)
               == (if e.at == at then ReachableAfter(e, ReachableAll(reachable, before))
                   else ReachableAll(reachable, before))
  {
    var before, after := EventsAt(events[..i], at), EventsAt(events[..i + 1], at);
    assert events[..i + 1][..i] == events[..i];
    if events[i].at == at {
      assert after == before + [events[i]] && after[..|before|] == before;
    }
  }

  /** The result that the source fills in as it goes; the tallies are ghost. */
  class RunResult {
    const fleet: LinkFleet
    var refused: int
    var downtime: int
    var cost: real
    ghost var served: int
    ghost var bytes: int
    ghost var billed: map<Text, int>
    var previous: Choices
    var flaps: nat
    var degraded: int
    var steps: nat
    var violations: seq<Violation>

    constructor (fleet: LinkFleet)
      ensures this.fleet == fleet && State() == Fresh(fleet.models)
    {
      this.fleet := fleet;
      refused, downtime, cost := 0, 0, 0.0;
      served, bytes, billed := 0, 0, map[];
      previous, flaps, degraded, steps, violations := map[], 0, 0, 0, [];
    }

    ghost function Books(): Ledger
      reads this, fleet
    {
      Ledger(fleet.models, refused, downtime, cost, served, bytes, billed)
    }

    ghost function State(): Outcome
      reads this, fleet
    {
      Outcome(Books(), previous, flaps, degraded, steps, violations)
    }

    /** One step of the event loop from the selector's answer on. */
    method Settle(p: Platform, sc: Scenario, a: Answer)
      requires ChoicesKnown(World(sc.links, sc.classes, fleet.models), sc.order, a.choices)
      requires AnswerKnown(sc, fleet.models, a)
      modifies this, fleet
      ensures State() == Settled(p, sc, old(State()), a)
      ensures fleet.models.Keys == old(fleet.models).Keys
    {
      var found := CheckViolations(p, World(sc.links, sc.classes, fleet.models), steps * sc.step, sc.order, a.choices);
      BookStep(sc.order, a.choices, sc.traffic, sc.step);
      var more := CountFlaps(previous, a.choices, sc.order);
      violations := violations + found;
      flaps := flaps + more;
      previous := a.choices;
      if a.degraded {
        degraded := degraded + sc.step;
      }
      steps := steps + 1;
    }

    /** The loop over the choices of one step. */
    method BookStep(order: seq<Text>, choices: Choices, traffic: map<Text, int>, step: int)
      requires forall c | c in order :: c in choices && (choices[c].Some? ==> choices[c].value in fleet.models)
      modifies this, fleet
      ensures Books() == BookAll(old(Books()), order, choices, traffic, step)
      ensures unchanged(`previous, `flaps, `degraded, `steps, `violations)
      ensures fleet.models.Keys == old(fleet.models).Keys
    {
      for i := 0 to |order|
        invariant Books() == BookAll(old(Books()), order[..i], choices, traffic, step)
        invariant unchanged(`previous, `flaps, `degraded, `steps, `violations)
        invariant fleet.models.Keys == old(fleet.models).Keys
      {
        assert order[..i + 1][..i] == order[..i];
        BookOne(choices[order[i]], ChunkOf(traffic, order[i], step), step);
      }
      assert order[..|order|] == order;
    }

    method BookOne(choice: Option<Text>, chunk: int, step: int)
      requires choice.Some? ==> choice.value in fleet.models
      modifies this, fleet
      ensures Books() == Book(old(Books()), choice, chunk, step)
      ensures unchanged(`previous, `flaps, `degraded, `steps, `violations)
      ensures fleet.models.Keys == old(fleet.models).Keys
    {
      if choice.None? {
        refused := refused + step;
        return;
      }
      var id := choice.value;
      var m := fleet.models[id];
      if !Up(m) {
        downtime := downtime + step;
        return;
      }
      var spentBefore := HasQuota(m) && QuotaUsedPct(m) >= 100.0;
      fleet.models := fleet.models[id := m.(carried := m.carried + chunk)];
      if spentBefore {
        cost := cost + chunk as real / GB as real * m.costPerGbOver;
        billed := billed[id := (if id in billed then billed[id] else 0) + chunk];
      }
      served, bytes := served + step, bytes + chunk;
    }
  }

  method CountFlaps(previous: Choices, choices: Choices, order: seq<Text>) returns (flaps: nat)
    requires forall c | c in order :: c in choices
    ensures flaps == FlapsOf(previous, choices, order)
  {
    flaps := 0;
    for i := 0 to |order|
      invariant flaps == FlapsOf(previous, choices, order[..i])
    {
      assert order[..i + 1][..i] == order[..i];
      if order[i] in previous && previous[order[i]] != choices[order[i]] {
        flaps := flaps + 1;
      }
    }
    assert order[..|order|] == order;
  }

  // ---------- conservation ----------

  lemma {:induction false} BookAllConserves(l: Ledger, order: seq<Text>, choices: Choices, traffic: map<Text, int>,
                                            step: int)
    requires forall c | c in order :: c in choices
    ensures var after := BookAll(l, order, choices, traffic, step);
            after.served + after.refused + after.downtime == l.served + l.refused + l.downtime + |order| * step
  {
    if order != [] {
      var n := |order| - 1;
      assert order[n] in order;
      BookAllConserves(l, order[..n], choices, traffic, step);
      OneMore(n, step);
    }
  }

  /** The answer has a choice, or none, for every class. */
  ghost predicate Answers(sc: Scenario, a: Answer) {
    forall c | c in sc.order :: c in a.choices
  }

  function ClassSeconds(l: Ledger): int {
    l.served + l.refused + l.downtime
  }

  /** Every class-second of a run is served, refused or down, for any selector whatever. */
  lemma {:induction false} ClassSecondsConserved(p: Platform, sc: Scenario, models: Fleet, answers: seq<Answer>)
    requires forall i | 0 <= i < |answers| :: Answers(sc, answers[i])
    ensures var r := RunAll(p, sc, models, answers);
            r.steps == |answers| && ClassSeconds(r.ledger) == |answers| * (|sc.order| * sc.step)
  {
    if answers != [] {
      var n := |answers| - 1;
      assert Answers(sc, answers[n]);
      assert forall i | 0 <= i < n :: answers[..n][i] == answers[i];
      ClassSecondsConserved(p, sc, models, answers[..n]);
      var before := Played(sc, RunAll(p, sc, models, answers[..n]));
      BookAllConserves(before.ledger, sc.order, answers[n].choices, sc.traffic, sc.step);
      OneMore(n, |sc.order| * sc.step);
    }
  }

  /** The answers that were degraded. */
  function DegradedCount(answers: seq<Answer>): nat {
    if answers == [] then 0
    else DegradedCount(answers[..|answers| - 1]) + if answers[|answers| - 1].degraded then 1 else 0
  }

  lemma {:induction false} DegradedSecondsCount(p: Platform, sc: Scenario, models: Fleet, answers: seq<Answer>)
    ensures RunAll(p, sc, models, answers).degraded == sc.step * DegradedCount(answers)
  {
    if answers != [] {
      var n := |answers| - 1;
      DegradedSecondsCount(p, sc, models, answers[..n]);
      OneMore(DegradedCount(answers[..n]), sc.step);
    }
  }

  // ---------- flaps ----------

  ghost predicate Distinct(ids: seq<Text>) {
    forall i, j | 0 <= i < j < |ids| :: ids[i] != ids[j]
  }

  function FlappedIn(previous: Choices, choices: Choices, order: seq<Text>): set<Text> {
    set c | c in order && c in choices && c in previous && previous[c] != choices[c]
  }

  lemma {:induction false} FlapsOfCounts(previous: Choices, choices: Choices, order: seq<Text>)
    requires Distinct(order)
    ensures FlapsOf(previous, choices, order) == |FlappedIn(previous, choices, order)|
  {
    if order != [] {
      var n := |order| - 1;
      FlapsOfCounts(previous, choices, order[..n]);
      LastFlapped(previous, choices, order[..n], order[n]);
      assert order == order[..n] + [order[n]];
    }
  }

  lemma LastFlapped(previous: Choices, choices: Choices, front: seq<Text>, c: Text)
    requires c !in front
    ensures |FlappedIn(previous, choices, front + [c])|
            == |FlappedIn(previous, choices, front)|
               + if c in choices && c in previous && previous[c] != choices[c] then 1 else 0
  {
    var before, after := FlappedIn(previous, choices, front), FlappedIn(previous, choices, front + [c]);
    if c in after {
      assert after == before + {c} && c !in before;
    } else {
      assert after == before;
    }
  }

  function ChoicesOf(answers: seq<Answer>): seq<Choices> {
    Map((a: Answer) => a.choices, answers)
  }

  /** The run counts the flaps of its selector's choices, when each answer covers exactly the classes. */
  lemma {:induction false} RunCountsFlaps(p: Platform, sc: Scenario, models: Fleet, answers: seq<Answer>)
    requires Distinct(sc.order)
    requires forall i | 0 <= i < |answers| :: answers[i].choices.Keys == set c | c in sc.order
    ensures RunAll(p, sc, models, answers).flaps == Flaps(ChoicesOf(answers))
  {
    if answers != [] {
      var n := |answers| - 1;
      RunCountsFlaps(p, sc, models, answers[..n]);
      var previous := RunAll(p, sc, models, answers[..n]).previous;
      StepFlaps(previous, answers[n].choices, sc.order);
      PreviousChoices(p, sc, models, answers[..n]);
      FlapsAfter(ChoicesOf(answers[..n]), answers[n].choices);
      ChoicesOfAll(answers);
    }
  }

  lemma ChoicesOfAll(answers: seq<Answer>)
    requires answers != []
    ensures ChoicesOf(answers) == ChoicesOf(answers[..|answers| - 1]) + [answers[|answers| - 1].choices]
  {
  }

  /** The choices that the next ones are compared with. */
  function LastOf(run: seq<Choices>): Choices {
    if run == [] then map[] else run[|run| - 1]
  }

  lemma PreviousChoices(p: Platform, sc: Scenario, models: Fleet, answers: seq<Answer>)
    ensures RunAll(p, sc, models, answers).previous == LastOf(ChoicesOf(answers))
  {
  }

  lemma FlapsAfter(run: seq<Choices>, next: Choices)
    ensures Flaps(run + [next]) == Flaps(run) + |Flapped(LastOf(run), next)|
  {
    var all := run + [next];
    assert all[..|run|] == run;
    if run == [] {
      assert Flapped(LastOf(run), next) == {};
    }
  }

  lemma StepFlaps(previous: Choices, choices: Choices, order: seq<Text>)
    requires Distinct(order) && choices.Keys == set c | c in order
    ensures FlapsOf(previous, choices, order) == |Flapped(previous, choices)|
  {
    FlapsOfCounts(previous, choices, order);
    assert FlappedIn(previous, choices, order) == Flapped(previous, choices);
  }

  /** Answers that hold as the hysteresis selector does flap at most the classes times the forced moves
      plus the elapsed time divided by the dwell. */
  lemma HoldingFlaps(p: Platform, sc: Scenario, models: Fleet, answers: seq<Answer>, links: seq<Text>, dwell: int,
                     classes: set<Text>, looks: seq<Context>, elapsed: int)
    requires Distinct(sc.order) && looks != [] && MonotoneLooks(looks) && dwell > 0
    requires classes == set c | c in sc.order
    requires elapsed == looks[|looks| - 1].now - looks[0].now
    requires ChoicesOf(answers) == HysteresisRun(p, links, dwell, classes, looks)
    ensures RunAll(p, sc, models, answers).flaps
            <= FlapBound(|classes|, Looks(p, links, dwell, looks).forced, elapsed, dwell)
  {
    forall i | 0 <= i < |answers| ensures answers[i].choices.Keys == classes {
      assert ChoicesOf(answers)[i] == answers[i].choices;
      HysteresisCoversClasses(p, links, dwell, classes, looks, i);
    }
    RunCountsFlaps(p, sc, models, answers);
    HysteresisBound(p, links, dwell, classes, looks, elapsed);
  }

  lemma {:induction false} HysteresisCoversClasses(p: Platform, links: seq<Text>, dwell: int, classes: set<Text>,
                                                   looks: seq<Context>, i: nat)
    requires i < |looks|
    ensures HysteresisRun(p, links, dwell, classes, looks)[i].Keys == classes
  {
    if i < |looks| - 1 {
      HysteresisCoversClasses(p, links, dwell, classes, looks[..|looks| - 1], i);
    }
  }

  // ---------- bytes and overage ----------

  function Carried(models: Fleet, id: Text): int {
    if id in models then models[id].carried else 0
  }

  function CarriedBy(models: Fleet, ids: seq<Text>): int {
    if ids == [] then 0 else CarriedBy(models, ids[..|ids| - 1]) + Carried(models, ids[|ids| - 1])
  }

  /** What a link's billing depends on besides its bytes. */
  predicate SameTariff(a: LinkModel, b: LinkModel) {
    HasQuota(a) == HasQuota(b) && (HasQuota(a) ==> a.quotaGb == b.quotaGb && a.costPerGbOver == b.costPerGbOver)
  }

  /** Nothing but bytes carried, liveness and weather changes during a run. */
  ghost predicate SameFleet(a: Fleet, b: Fleet) {
    a.Keys == b.Keys && forall id | id in a :: SameTariff(a[id], b[id])
  }

  lemma {:induction false} EventsKeepBytes(models: Fleet, events: seq<Event>)
    ensures var after := ApplyAll(models, events);
            SameFleet(models, after) && forall id :: Carried(after, id) == Carried(models, id)
  {
    if events != [] {
      EventsKeepBytes(models, events[..|events| - 1]);
    }
  }

  /** The quota in bytes. */
  function QuotaBytes(m: LinkModel): real
    requires HasQuota(m)
  {
    m.quotaGb * GB as real
  }

  /** A positive quota is spent exactly when at least that many bytes were carried. */
  lemma OverQuotaIffBytes(m: LinkModel)
    requires HasQuota(m) && m.quotaGb > 0.0
    ensures OverQuota(m) <==> m.carried as real >= QuotaBytes(m)
  {
    SpentIffBytes(m);
  }

  /** How many of a link's bytes lie beyond its quota, counting from where the run found it. */
  function Overage(quota: real, start: int, carried: int): real {
    var base := if start as real > quota then start as real else quota;
    if carried as real > base then carried as real - base else 0.0
  }

  /** The billed bytes of a link never exceed its overage, and fall short of it by less than one chunk. */
  ghost predicate BilledRightly(quota: real, start: int, carried: int, billed: int, chunk: int) {
    && start <= carried && 0 <= billed
    && (carried as real < quota ==> billed == 0)
    && var shortfall := Overage(quota, start, carried) - billed as real;
       shortfall == 0.0 || 0.0 < shortfall < chunk as real
  }

  /** The link is billed rightly in this ledger, relative to the bytes it started with. */
  ghost predicate LinkBilled(l: Ledger, id: Text, start: LinkModel, chunk: int) {
    && id in l.models && HasQuota(start) && SameTariff(start, l.models[id])
    && BilledRightly(QuotaBytes(start), start.carried, l.models[id].carried, Billed(l, id), chunk)
  }

  lemma BookBillsRightly(l: Ledger, choice: Option<Text>, chunk: int, step: int, id: Text, start: LinkModel, most: int)
    requires HasQuota(start) && start.quotaGb > 0.0 && LinkBilled(l, id, start, most)
    requires 0 <= chunk <= most
    ensures LinkBilled(Book(l, choice, chunk, step), id, start, most)
  {
    OverQuotaIffBytes(l.models[id]);
  }

  ghost predicate ChunksAtMost(order: seq<Text>, traffic: map<Text, int>, step: int, most: int) {
    forall c | c in order :: 0 <= ChunkOf(traffic, c, step) <= most
  }

  lemma {:induction false} BookAllBillsRightly(l: Ledger, order: seq<Text>, choices: Choices, traffic: map<Text, int>,
                                               step: int, id: Text, start: LinkModel, most: int)
    requires HasQuota(start) && start.quotaGb > 0.0 && LinkBilled(l, id, start, most)
    requires ChunksAtMost(order, traffic, step, most)
    ensures LinkBilled(BookAll(l, order, choices, traffic, step), id, start, most)
  {
    if order != [] {
      var n := |order| - 1;
      assert order[n] in order;
      BookAllBillsRightly(l, order[..n], choices, traffic, step, id, start, most);
      if order[n] in choices {
        BookBillsRightly(BookAll(l, order[..n], choices, traffic, step), choices[order[n]],
                         ChunkOf(traffic, order[n], step), step, id, start, most);
      }
    }
  }

  /** Over every run, each link with a positive quota is billed at most its overage and short of it by
      less than the largest chunk: only the chunk that crosses the quota goes unbilled. */
  lemma {:induction false} OverageIsBilled(p: Platform, sc: Scenario, models: Fleet, answers: seq<Answer>, id: Text,
                                           most: int)
    requires id in models && HasQuota(models[id]) && models[id].quotaGb > 0.0
    requires ChunksAtMost(sc.order, sc.traffic, sc.step, most)
    ensures LinkBilled(RunAll(p, sc, models, answers).ledger, id, models[id], most)
  {
    if answers != [] {
      var n := |answers| - 1;
      OverageIsBilled(p, sc, models, answers[..n], id, most);
      var before := RunAll(p, sc, models, answers[..n]);
      var due := EventsAt(sc.events, before.steps * sc.step);
      EventsKeepBytes(before.ledger.models, due);
      var l := before.ledger.(models := ApplyAll(before.ledger.models, due));
      assert Carried(l.models, id) == Carried(before.ledger.models, id);
      BookAllBillsRightly(l, sc.order, answers[n].choices, sc.traffic, sc.step, id, models[id], most);
    }
  }

  /** The cost of a link's billed bytes at its tariff. */
  function LinkCost(models: Fleet, billed: map<Text, int>, id: Text): real {
    if id in models && id in billed && HasQuota(models[id])
    then billed[id] as real / GB as real * models[id].costPerGbOver else 0.0
  }

  function CostOf(models: Fleet, billed: map<Text, int>, ids: seq<Text>): real {
    if ids == [] then 0.0
    else CostOf(models, billed, ids[..|ids| - 1]) + LinkCost(models, billed, ids[|ids| - 1])
  }

  lemma {:induction false} CostElsewhere(models: Fleet, billed: map<Text, int>, ids: seq<Text>, id: Text, bytes: int)
    requires id !in ids
    ensures CostOf(models, billed[id := bytes], ids) == CostOf(models, billed, ids)
  {
    if ids != [] {
      CostElsewhere(models, billed, ids[..|ids| - 1], id, bytes);
      assert ids[|ids| - 1] in ids;
    }
  }

  /** The ledger's money and bytes are what its links carried and were billed for. */
  ghost predicate Balanced(l: Ledger, start: Fleet, ids: seq<Text>) {
    && SameFleet(start, l.models)
    && CarriedBy(l.models, ids) == CarriedBy(start, ids) + l.bytes
    && l.cost == CostOf(start, l.billed, ids)
  }

  lemma {:induction false} CarriedByUpdate(models: Fleet, ids: seq<Text>, id: Text, m: LinkModel)
    requires Distinct(ids) && id in models
    ensures CarriedBy(models[id := m], ids)
            == CarriedBy(models, ids) + if id in ids then m.carried - models[id].carried else 0
  {
    if ids != [] {
      CarriedByUpdate(models, ids[..|ids| - 1], id, m);
      assert ids == ids[..|ids| - 1] + [ids[|ids| - 1]];
    }
  }

  lemma LinkCostUpdate(models: Fleet, billed: map<Text, int>, id: Text, chunk: int)
    requires id in models && HasQuota(models[id])
    ensures LinkCost(models, billed[id := (if id in billed then billed[id] else 0) + chunk], id)
            == LinkCost(models, billed, id) + chunk as real / GB as real * models[id].costPerGbOver
  {
  }

  lemma {:induction false} CostUpdate(models: Fleet, billed: map<Text, int>, ids: seq<Text>, id: Text, chunk: int)
    requires Distinct(ids) && id in ids && id in models && HasQuota(models[id])
    ensures CostOf(models, billed[id := (if id in billed then billed[id] else 0) + chunk], ids)
            == CostOf(models, billed, ids) + chunk as real / GB as real * models[id].costPerGbOver
  {
    var n := |ids| - 1;
    assert ids == ids[..n] + [ids[n]];
    if ids[n] == id {
      CostElsewhere(models, billed, ids[..n], id, (if id in billed then billed[id] else 0) + chunk);
      LinkCostUpdate(models, billed, id, chunk);
    } else {
      CostUpdate(models, billed, ids[..n], id, chunk);
    }
  }

  lemma BookKeepsBalance(l: Ledger, choice: Option<Text>, chunk: int, step: int, start: Fleet, ids: seq<Text>)
    requires Distinct(ids) && (forall id | id in start :: id in ids) && Balanced(l, start, ids)
    ensures Balanced(Book(l, choice, chunk, step), start, ids)
  {
    if choice.Some? && choice.value in l.models && Up(l.models[choice.value]) {
      var id := choice.value;
      var more := l.models[id].(carried := l.models[id].carried + chunk);
      assert id in start && id in ids;
      CarriedByUpdate(l.models, ids, id, more);
      ServedCost(l, id, chunk, step, start, ids);
    }
  }

  lemma ServedCost(l: Ledger, id: Text, chunk: int, step: int, start: Fleet, ids: seq<Text>)
    requires Distinct(ids) && id in ids && id in l.models && Up(l.models[id]) && SameFleet(start, l.models)
    requires l.cost == CostOf(start, l.billed, ids)
    ensures var after := Book(l, Some(id), chunk, step); after.cost == CostOf(start, after.billed, ids)
  {
    if OverQuota(l.models[id]) {
      assert SameTariff(start[id], l.models[id]);
      CostUpdate(start, l.billed, ids, id, chunk);
      BookedCost(l, id, chunk, step);
    }
  }

  lemma BookedCost(l: Ledger, id: Text, chunk: int, step: int)
    requires id in l.models && Up(l.models[id]) && OverQuota(l.models[id])
    ensures var after := Book(l, Some(id), chunk, step);
            && after.cost == l.cost + chunk as real / GB as real * l.models[id].costPerGbOver
            && after.billed == l.billed[id := (if id in l.billed then l.billed[id] else 0) + chunk]
  {
  }

  lemma {:induction false} BookAllKeepsBalance(l: Ledger, order: seq<Text>, choices: Choices, traffic: map<Text, int>,
                                               step: int, start: Fleet, ids: seq<Text>)
    requires Distinct(ids) && (forall id | id in start :: id in ids) && Balanced(l, start, ids)
    ensures Balanced(BookAll(l, order, choices, traffic, step), start, ids)
  {
    if order != [] {
      var n := |order| - 1;
      BookAllKeepsBalance(l, order[..n], choices, traffic, step, start, ids);
      if order[n] in choices {
        BookKeepsBalance(BookAll(l, order[..n], choices, traffic, step), choices[order[n]],
                         ChunkOf(traffic, order[n], step), step, start, ids);
      }
    }
  }

  lemma {:induction false} SameBytesSameSum(a: Fleet, b: Fleet, ids: seq<Text>)
    requires forall id :: Carried(a, id) == Carried(b, id)
    ensures CarriedBy(a, ids) == CarriedBy(b, ids)
  {
    if ids != [] {
      SameBytesSameSum(a, b, ids[..|ids| - 1]);
    }
  }

  /** Over every run, the bytes on all links grow by exactly the bytes of the served class-steps, and
      the cost is exactly the billed bytes at each link's tariff. */
  lemma {:induction false} BytesAndCostBalance(p: Platform, sc: Scenario, models: Fleet, answers: seq<Answer>,
                                               ids: seq<Text>)
    requires Distinct(ids) && forall id | id in models :: id in ids
    ensures Balanced(RunAll(p, sc, models, answers).ledger, models, ids)
  {
    if answers == [] {
      NothingBilled(models, ids);
    } else {
      var n := |answers| - 1;
      BytesAndCostBalance(p, sc, models, answers[..n], ids);
      var before := RunAll(p, sc, models, answers[..n]);
      var due := EventsAt(sc.events, before.steps * sc.step);
      EventsKeepBytes(before.ledger.models, due);
      var l := before.ledger.(models := ApplyAll(before.ledger.models, due));
      SameBytesSameSum(before.ledger.models, l.models, ids);
      BookAllKeepsBalance(l, sc.order, answers[n].choices, sc.traffic, sc.step, models, ids);
    }
  }

  lemma {:induction false} NothingBilled(models: Fleet, ids: seq<Text>)
    ensures CostOf(models, map[], ids) == 0.0
  {
    if ids != [] {
      NothingBilled(models, ids[..|ids| - 1]);
    }
  }
}
