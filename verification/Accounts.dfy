/** What the accounts of a run and its events come to, counted from the answers and the scenario alone
    (sim/run.py). */
module Accounts {
  import opened Prelude
  import opened Models
  import opened Links
  import opened Selectors
  import opened Simulation

  // ---------- what the events have done ----------

  /** The events that have acted by step `i`, in the order in which they did. */
  function Acted(sc: Scenario, i: nat): seq<Event> {
    (if i == 0 then [] else Acted(sc, i - 1)) + EventsAt(sc.events, i * sc.step)
  }

  /** Exactly the events dated at this step or an earlier one have acted. */
  lemma {:induction false} ActedMembers(sc: Scenario, i: nat, e: Event)
    ensures e in Acted(sc, i) <==> e in sc.events && exists j: nat :: j <= i && e.at == j * sc.step
  {
    FilterMembers((x: Event) => x.at == i * sc.step, sc.events, e);
    if i > 0 {
      ActedMembers(sc, i - 1, e);
    }
  }

  /** The events are in the order of their dates, the last of which is at most this. */
  ghost predicate InOrderUpTo(events: seq<Event>, at: int) {
    && (forall k, l | 0 <= k < l < |events| :: events[k].at <= events[l].at)
    && (forall k | 0 <= k < |events| :: events[k].at <= at)
  }

  /** They have acted in the order of their dates. */
  lemma {:induction false} ActedInOrder(sc: Scenario, i: nat)
    requires sc.step >= 0
    ensures InOrderUpTo(Acted(sc, i), i * sc.step)
  {
    var now := EventsAt(sc.events, i * sc.step);
    forall e | e in now ensures e.at == i * sc.step {
      FilterMembers((x: Event) => x.at == i * sc.step, sc.events, e);
    }
    if i > 0 {
      ActedInOrder(sc, i - 1);
      ProductMonotone(sc.step, i - 1, i);
      DatesInOrder(Acted(sc, i - 1), now, i * sc.step);
    }
  }

  lemma DatesInOrder(before: seq<Event>, now: seq<Event>, at: int)
    requires InOrderUpTo(before, at) && forall e | e in now :: e.at == at
    ensures InOrderUpTo(before + now, at)
  {
    var all := before + now;
    forall k | |before| <= k < |all| ensures all[k].at == at {
      assert all[k] in now;
    }
  }

  /** Switched on at some time and not off since, or on from the start and never off. */
  ghost predicate Switched(events: seq<Event>, on: Event -> bool, off: Event -> bool, start: bool) {
    || (exists k :: 0 <= k < |events| && on(events[k]) && forall l | k < l < |events| :: !off(events[l]))
    || (start && forall k | 0 <= k < |events| :: !off(events[k]))
  }

  lemma SwitchedByLast(events: seq<Event>, on: Event -> bool, off: Event -> bool, start: bool)
    requires events != [] && !(on(events[|events| - 1]) && off(events[|events| - 1]))
    ensures var n := |events| - 1;
            Switched(events, on, off, start)
            <==> on(events[n]) || (!off(events[n]) && Switched(events[..n], on, off, start))
  {
    var n := |events| - 1;
    var front := events[..n];
    if Switched(events, on, off, start) && !on(events[n]) {
      if k :| 0 <= k < |events| && on(events[k]) && forall l | k < l < |events| :: !off(events[l]) {
        assert k < n && on(front[k]) && forall l | k < l < |front| :: !off(front[l]);
      }
    }
    if !off(events[n]) && Switched(front, on, off, start) {
      if k :| 0 <= k < |front| && on(front[k]) && forall l | k < l < |front| :: !off(front[l]) {
        assert on(events[k]) && forall l | k < l < |events| :: !off(events[l]);
      }
    }
  }

  function Is(kind: EventKind): Event -> bool {
    (e: Event) => e.kind == kind
  }

  function Hits(kind: EventKind, id: Text): Event -> bool {
    (e: Event) => e.kind == kind && e.target == id
  }

  /** The authority is reachable if it was made so and not cut off since, or never was cut off. */
  lemma {:induction false} ReachableIffSwitched(events: seq<Event>, start: bool)
    ensures ReachableAll(start, events) <==> Switched(events, Is(AuthorityReachable), Is(AuthorityUnreachable), start)
  {
    if events != [] {
      ReachableIffSwitched(events[..|events| - 1], start);
      SwitchedByLast(events, Is(AuthorityReachable), Is(AuthorityUnreachable), start);
    }
  }

  lemma {:induction false} EventsKeepKeys(models: Fleet, events: seq<Event>)
    ensures ApplyAll(models, events).Keys == models.Keys
  {
    if events != [] {
      EventsKeepKeys(models, events[..|events| - 1]);
    }
  }

  /** What the events have made of a model. */
  ghost predicate IsStruck(events: seq<Event>, id: Text, before: LinkModel, after: LinkModel) {
    && (after.up <==> Switched(events, Hits(LinkUp, id), Hits(LinkDown, id), before.up))
    && (after.sensorFailed <==> Switched(events, Hits(SensorFail, id), Hits(SensorRecover, id), before.sensorFailed))
    && (before.Satellite? ==> after.Satellite? && (after.obstructed <==> Covered(events, id, before.obstructed)))
    && (before.Fso? ==> after.Fso? && after.usable == before.usable
                        && after.visibility == Visibility(events, id, before.visibility))
  }

  ghost predicate Covered(events: seq<Event>, id: Text, before: bool) {
    Switched(events, Hits(Obstruct, id), Hits(Unobstruct, id), before)
  }

  /** Fog if it has come and not cleared since, a clear view if that has come last, else as it was. */
  ghost function Visibility(events: seq<Event>, id: Text, before: real): real {
    if Switched(events, Hits(Fog, id), Hits(Clear, id), false) then FOG_VISIBILITY
    else if Switched(events, Hits(Clear, id), Hits(Fog, id), false) then CLEAR_VISIBILITY
    else before
  }

  lemma {:induction false} LivenessStruck(models: Fleet, events: seq<Event>, id: Text)
    requires id in models
    ensures id in ApplyAll(models, events) && (ApplyAll(models, events)[id].up
            <==> Switched(events, Hits(LinkUp, id), Hits(LinkDown, id), models[id].up))
  {
    EventsKeepKeys(models, events);
    if events != [] {
      LivenessStruck(models, events[..|events| - 1], id);
      SwitchedByLast(events, Hits(LinkUp, id), Hits(LinkDown, id), models[id].up);
    }
  }

  lemma {:induction false} SensorStruck(models: Fleet, events: seq<Event>, id: Text)
    requires id in models
    ensures id in ApplyAll(models, events) && (ApplyAll(models, events)[id].sensorFailed
            <==> Switched(events, Hits(SensorFail, id), Hits(SensorRecover, id), models[id].sensorFailed))
  {
    EventsKeepKeys(models, events);
    if events != [] {
      SensorStruck(models, events[..|events| - 1], id);
      SwitchedByLast(events, Hits(SensorFail, id), Hits(SensorRecover, id), models[id].sensorFailed);
    }
  }

  lemma {:induction false} ViewStruck(models: Fleet, events: seq<Event>, id: Text)
    requires id in models && models[id].Satellite?
    ensures id in ApplyAll(models, events) && ApplyAll(models, events)[id].Satellite?
            && (ApplyAll(models, events)[id].obstructed <==> Covered(events, id, models[id].obstructed))
  {
    EventsKeepKeys(models, events);
    if events != [] {
      ViewStruck(models, events[..|events| - 1], id);
      SwitchedByLast(events, Hits(Obstruct, id), Hits(Unobstruct, id), models[id].obstructed);
    }
  }

  lemma {:induction false} WeatherStruck(models: Fleet, events: seq<Event>, id: Text)
    requires id in models && models[id].Fso?
    ensures id in ApplyAll(models, events) && ApplyAll(models, events)[id].Fso?
            && ApplyAll(models, events)[id].usable == models[id].usable
            && ApplyAll(models, events)[id].visibility == Visibility(events, id, models[id].visibility)
  {
    EventsKeepKeys(models, events);
    if events != [] {
      WeatherStruck(models, events[..|events| - 1], id);
      SwitchedByLast(events, Hits(Fog, id), Hits(Clear, id), false);
      SwitchedByLast(events, Hits(Clear, id), Hits(Fog, id), false);
    }
  }

  /** Each model is as its last events of each kind have left it, and no event on another link matters. */
  lemma EventsStrike(models: Fleet, events: seq<Event>, id: Text)
    requires id in models
    ensures id in ApplyAll(models, events) && IsStruck(events, id, models[id], ApplyAll(models, events)[id])
  {
    LivenessStruck(models, events, id);
    SensorStruck(models, events, id);
    if models[id].Satellite? {
      ViewStruck(models, events, id);
    }
    if models[id].Fso? {
      WeatherStruck(models, events, id);
    }
  }

  // ---------- the links of a run ----------

  /** The links in step `i` as the events alone have left them. */
  function FleetAt(sc: Scenario, models: Fleet, i: nat): Fleet {
    ApplyAll(models, Acted(sc, i))
  }

  /** The link is up in step `i`, and its view is clear enough if it is optical. */
  predicate LiveIn(sc: Scenario, models: Fleet, i: nat, id: Text) {
    id in FleetAt(sc, models, i)
    && var m := FleetAt(sc, models, i)[id]; m.up && (m.Fso? ==> m.visibility >= m.usable)
  }

  /** The two differ in nothing but the bytes they have carried. */
  ghost predicate SameButBytes(a: Fleet, b: Fleet) {
    a.Keys == b.Keys && forall id | id in a :: a[id].(carried := 0) == b[id].(carried := 0)
  }

  lemma {:induction false} EventsKeepSame(a: Fleet, b: Fleet, events: seq<Event>)
    requires SameButBytes(a, b)
    ensures SameButBytes(ApplyAll(a, events), ApplyAll(b, events))
  {
    if events != [] {
      var n := |events| - 1;
      EventsKeepSame(a, b, events[..n]);
      var x, y, id := ApplyAll(a, events[..n]), ApplyAll(b, events[..n]), events[n].target;
      if id in x {
        AffectedAlike(x[id], y[id], events[n].kind);
      }
    }
  }

  lemma AffectedAlike(a: LinkModel, b: LinkModel, kind: EventKind)
    requires a.(carried := 0) == b.(carried := 0)
    ensures Affected(a, kind).(carried := 0) == Affected(b, kind).(carried := 0)
  {
  }

  lemma {:induction false} ApplyConcat(models: Fleet, a: seq<Event>, b: seq<Event>)
    ensures ApplyAll(models, a + b) == ApplyAll(ApplyAll(models, a), b)
  {
    if b == [] {
      assert a + b == a;
    } else {
      assert (a + b)[..|a + b| - 1] == a + b[..|b| - 1];
      ApplyConcat(models, a, b[..|b| - 1]);
    }
  }

  lemma {:induction false} BookingKeepsSame(l: Ledger, order: seq<Text>, choices: Choices, traffic: map<Text, int>,
                                            step: int)
    ensures SameButBytes(l.models, BookAll(l, order, choices, traffic, step).models)
  {
    if order != [] {
      BookingKeepsSame(l, order[..|order| - 1], choices, traffic, step);
    }
  }

  /** But for bytes, a step of a run finds its links as the events so far have left them. */
  lemma {:induction false} RunFindsLinks(p: Platform, sc: Scenario, models: Fleet, answers: seq<Answer>)
    ensures SameButBytes(FleetAt(sc, models, |answers|), Played(sc, RunAll(p, sc, models, answers)).ledger.models)
  {
    StepsOfRun(p, sc, models, answers);
    var due := EventsAt(sc.events, |answers| * sc.step);
    if answers == [] {
      assert Acted(sc, 0) == due;
    } else {
      var n := |answers| - 1;
      var before := Played(sc, RunAll(p, sc, models, answers[..n]));
      RunFindsLinks(p, sc, models, answers[..n]);
      BookingKeepsSame(before.ledger, sc.order, answers[n].choices, sc.traffic, sc.step);
      EventsKeepSame(FleetAt(sc, models, n), RunAll(p, sc, models, answers).ledger.models, due);
      ApplyConcat(models, Acted(sc, n), due);
    }
  }

  // ---------- counting ----------

  function SumOver(order: seq<Text>, weight: Text -> int): int {
    if order == [] then 0 else SumOver(order[..|order| - 1], weight) + weight(order[|order| - 1])
  }

  /** The sum over the first `n` steps and all classes. */
  function SumAll(n: nat, order: seq<Text>, weight: (nat, Text) -> int): int {
    if n == 0 then 0 else SumAll(n - 1, order, weight) + SumOver(order, (c: Text) => weight(n - 1, c))
  }

  /** The number of pairs of a step and a class of which this holds. */
  function CountAll(n: nat, order: seq<Text>, holds: (nat, Text) -> bool): int {
    SumAll(n, order, (i: nat, c: Text) => if holds(i, c) then 1 else 0)
  }

  lemma {:induction false} SumsAgree(order: seq<Text>, v: Text -> int, w: Text -> int)
    requires forall c | c in order :: v(c) == w(c)
    ensures SumOver(order, v) == SumOver(order, w)
  {
    if order != [] {
      SumsAgree(order[..|order| - 1], v, w);
    }
  }

  lemma {:induction false} AllSumsAgree(n: nat, order: seq<Text>, v: (nat, Text) -> int, w: (nat, Text) -> int)
    requires forall i: nat, c | i < n && c in order :: v(i, c) == w(i, c)
    ensures SumAll(n, order, v) == SumAll(n, order, w)
  {
    if n > 0 {
      AllSumsAgree(n - 1, order, v, w);
      SumsAgree(order, (c: Text) => v(n - 1, c), (c: Text) => w(n - 1, c));
    }
  }

  lemma Distributes(a: int, b: int, c: int)
    ensures a * (b + c) == a * b + a * c
  {
  }

  // ---------- the accounts ----------

  /** The class has no link in that step. */
  function NoLink(answers: seq<Answer>): (nat, Text) -> bool {
    (i: nat, c: Text) => i < |answers| && c in answers[i].choices && answers[i].choices[c].None?
  }

  /** The class has a link in that step, and it is down. */
  function OnDeadLink(sc: Scenario, models: Fleet, answers: seq<Answer>): (nat, Text) -> bool {
    (i: nat, c: Text) =>
      i < |answers| && c in answers[i].choices && answers[i].choices[c].Some?
      && !LiveIn(sc, models, i, answers[i].choices[c].value)
  }

  /** The class has a link in that step, and it is up. */
  function OnLiveLink(sc: Scenario, models: Fleet, answers: seq<Answer>): (nat, Text) -> bool {
    (i: nat, c: Text) =>
      i < |answers| && c in answers[i].choices && answers[i].choices[c].Some?
      && LiveIn(sc, models, i, answers[i].choices[c].value)
  }

  /** What one class-step adds to the accounts. */
  ghost predicate Adds(models: Fleet, choices: Choices, traffic: map<Text, int>, step: int, c: Text, refused: int,
                       dead: int, live: int, bytes: int)
  {
    var up := c in choices && choices[c].Some? && UpAmong(models, choices[c].value);
    && refused == (if c in choices && choices[c].None? then step else 0)
    && dead == (if c in choices && choices[c].Some? && !up then step else 0)
    && live == (if up then step else 0)
    && bytes == if up then (if c in traffic then traffic[c] else 0) * step else 0
  }

  lemma {:induction false} StepAccounts(l: Ledger, order: seq<Text>, choices: Choices, traffic: map<Text, int>,
                                        step: int, refused: Text -> int, dead: Text -> int, live: Text -> int,
                                        bytes: Text -> int)
    requires forall c | c in order ::
               Adds(l.models, choices, traffic, step, c, refused(c), dead(c), live(c), bytes(c))
    ensures var after := BookAll(l, order, choices, traffic, step);
            && after.refused == l.refused + SumOver(order, refused)
            && after.downtime == l.downtime + SumOver(order, dead)
            && after.served == l.served + SumOver(order, live)
            && after.bytes == l.bytes + SumOver(order, bytes)
  {
    if order != [] {
      var n := |order| - 1;
      var c, before := order[n], BookAll(l, order[..n], choices, traffic, step);
      StepAccounts(l, order[..n], choices, traffic, step, refused, dead, live, bytes);
      BookingKeepsSame(l, order[..n], choices, traffic, step);
      if c in choices {
        if choices[c].Some? {
          UpAlike(l.models, before.models, choices[c].value);
        }
        ClassAccounts(before, choices, traffic, step, c, refused(c), dead(c), live(c), bytes(c));
      }
    }
  }

  lemma ClassAccounts(l: Ledger, choices: Choices, traffic: map<Text, int>, step: int, c: Text, refused: int,
                      dead: int, live: int, bytes: int)
    requires c in choices && Adds(l.models, choices, traffic, step, c, refused, dead, live, bytes)
    ensures var after := Book(l, choices[c], ChunkOf(traffic, c, step), step);
            && after.refused == l.refused + refused && after.downtime == l.downtime + dead
            && after.served == l.served + live && after.bytes == l.bytes + bytes
  {
  }

  predicate UpAmong(models: Fleet, id: Text) {
    id in models && Up(models[id])
  }

  function BytesServed(sc: Scenario, models: Fleet, answers: seq<Answer>): (nat, Text) -> int {
    (i: nat, c: Text) =>
      if OnLiveLink(sc, models, answers)(i, c) then (if c in sc.traffic then sc.traffic[c] else 0) * sc.step else 0
  }

  /** The accounts are right: refused time is the step length times the pairs of a step and a class without
      a link, down time that of the pairs on a link that is down, served time that of the rest, and the
      bytes carried are the traffic of the served pairs. */
  ghost predicate AccountsAreRight(sc: Scenario, models: Fleet, answers: seq<Answer>, l: Ledger) {
    var n := |answers|;
    && l.refused == sc.step * CountAll(n, sc.order, NoLink(answers))
    && l.downtime == sc.step * CountAll(n, sc.order, OnDeadLink(sc, models, answers))
    && l.served == sc.step * CountAll(n, sc.order, OnLiveLink(sc, models, answers))
    && l.bytes == SumAll(n, sc.order, BytesServed(sc, models, answers))
  }

  lemma SumStep(n: nat, order: seq<Text>, before: (nat, Text) -> int, after: (nat, Text) -> int, last: Text -> int)
    requires forall i: nat, c | i < n && c in order :: before(i, c) == after(i, c)
    requires forall c | c in order :: last(c) == after(n, c)
    ensures SumAll(n + 1, order, after) == SumAll(n, order, before) + SumOver(order, last)
  {
    AllSumsAgree(n, order, before, after);
    SumsAgree(order, last, (c: Text) => after(n, c));
  }

  /** A duration for each pair of which this holds. */
  function Lasting(holds: (nat, Text) -> bool, step: int): (nat, Text) -> int {
    (i: nat, c: Text) => if holds(i, c) then step else 0
  }

  lemma {:induction false} LastingOver(order: seq<Text>, holds: Text -> bool, step: int)
    ensures SumOver(order, (c: Text) => if holds(c) then step else 0)
            == step * SumOver(order, (c: Text) => if holds(c) then 1 else 0)
  {
    if order != [] {
      var n := |order| - 1;
      LastingOver(order[..n], holds, step);
      Distributes(step, SumOver(order[..n], (c: Text) => if holds(c) then 1 else 0), if holds(order[n]) then 1 else 0);
    }
  }

  /** The durations sum to the step length times the number of pairs. */
  lemma {:induction false} LastingIsCounted(n: nat, order: seq<Text>, holds: (nat, Text) -> bool, step: int)
    ensures SumAll(n, order, Lasting(holds, step)) == step * CountAll(n, order, holds)
  {
    if n > 0 {
      LastingIsCounted(n - 1, order, holds, step);
      var now := (c: Text) => holds(n - 1, c);
      LastingOver(order, now, step);
      SumsAgree(order, (c: Text) => Lasting(holds, step)(n - 1, c), (c: Text) => if now(c) then step else 0);
      var one := (i: nat, c: Text) => if holds(i, c) then 1 else 0;
      SumsAgree(order, (c: Text) => one(n - 1, c), (c: Text) => if now(c) then 1 else 0);
      Distributes(step, SumAll(n - 1, order, one), SumOver(order, (c: Text) => if now(c) then 1 else 0));
    }
  }

  /** The accounts as sums of durations. */
  ghost predicate Accounted(sc: Scenario, models: Fleet, answers: seq<Answer>, l: Ledger) {
    var n := |answers|;
    && l.refused == SumAll(n, sc.order, Lasting(NoLink(answers), sc.step))
    && l.downtime == SumAll(n, sc.order, Lasting(OnDeadLink(sc, models, answers), sc.step))
    && l.served == SumAll(n, sc.order, Lasting(OnLiveLink(sc, models, answers), sc.step))
    && l.bytes == SumAll(n, sc.order, BytesServed(sc, models, answers))
  }

  function InStep(weight: (nat, Text) -> int, i: nat): Text -> int {
    (c: Text) => weight(i, c)
  }

  lemma LastStepAccounts(p: Platform, sc: Scenario, models: Fleet, answers: seq<Answer>)
    requires answers != []
    requires Accounted(sc, models, answers[..|answers| - 1], RunAll(p, sc, models, answers[..|answers| - 1]).ledger)
    ensures Accounted(sc, models, answers, RunAll(p, sc, models, answers).ledger)
  {
    var n := |answers| - 1;
    var before := Played(sc, RunAll(p, sc, models, answers[..n])).ledger;
    WeightsFit(p, sc, models, answers);
    StepAccounts(before, sc.order, answers[n].choices, sc.traffic, sc.step,
                 InStep(Lasting(NoLink(answers), sc.step), n),
                 InStep(Lasting(OnDeadLink(sc, models, answers), sc.step), n),
                 InStep(Lasting(OnLiveLink(sc, models, answers), sc.step), n),
                 InStep(BytesServed(sc, models, answers), n));
    AccountsGrow(sc, models, answers, before, RunAll(p, sc, models, answers).ledger);
  }

  lemma AccountsGrow(sc: Scenario, models: Fleet, answers: seq<Answer>, before: Ledger, after: Ledger)
    requires answers != [] && Accounted(sc, models, answers[..|answers| - 1], before)
    requires var n := |answers| - 1;
             && after.refused == before.refused + SumOver(sc.order, InStep(Lasting(NoLink(answers), sc.step), n))
             && after.downtime
                == before.downtime + SumOver(sc.order, InStep(Lasting(OnDeadLink(sc, models, answers), sc.step), n))
             && after.served
                == before.served + SumOver(sc.order, InStep(Lasting(OnLiveLink(sc, models, answers), sc.step), n))
             && after.bytes == before.bytes + SumOver(sc.order, InStep(BytesServed(sc, models, answers), n))
    ensures Accounted(sc, models, answers, after)
  {
    var n := |answers| - 1;
    var front := answers[..n];
    SumStep(n, sc.order, Lasting(NoLink(front), sc.step), Lasting(NoLink(answers), sc.step),
            InStep(Lasting(NoLink(answers), sc.step), n));
    SumStep(n, sc.order, Lasting(OnDeadLink(sc, models, front), sc.step),
            Lasting(OnDeadLink(sc, models, answers), sc.step),
            InStep(Lasting(OnDeadLink(sc, models, answers), sc.step), n));
    SumStep(n, sc.order, Lasting(OnLiveLink(sc, models, front), sc.step),
            Lasting(OnLiveLink(sc, models, answers), sc.step),
            InStep(Lasting(OnLiveLink(sc, models, answers), sc.step), n));
    SumStep(n, sc.order, BytesServed(sc, models, front), BytesServed(sc, models, answers),
            InStep(BytesServed(sc, models, answers), n));
  }

  lemma WeightsFit(p: Platform, sc: Scenario, models: Fleet, answers: seq<Answer>)
    requires answers != []
    ensures var n := |answers| - 1;
            var found := Played(sc, RunAll(p, sc, models, answers[..n])).ledger.models;
            forall c :: Adds(found, answers[n].choices, sc.traffic, sc.step, c,
                             Lasting(NoLink(answers), sc.step)(n, c),
                             Lasting(OnDeadLink(sc, models, answers), sc.step)(n, c),
                             Lasting(OnLiveLink(sc, models, answers), sc.step)(n, c),
                             BytesServed(sc, models, answers)(n, c))
  {
    var n := |answers| - 1;
    var found := Played(sc, RunAll(p, sc, models, answers[..n])).ledger.models;
    RunFindsLinks(p, sc, models, answers[..n]);
    forall id ensures LiveIn(sc, models, n, id) <==> UpAmong(found, id) {
      UpAlike(FleetAt(sc, models, n), found, id);
    }
  }

  lemma UpAlike(a: Fleet, b: Fleet, id: Text)
    requires SameButBytes(a, b)
    ensures UpAmong(a, id) <==> UpAmong(b, id)
  {
  }

  lemma {:induction false} RunIsAccounted(p: Platform, sc: Scenario, models: Fleet, answers: seq<Answer>)
    ensures Accounted(sc, models, answers, RunAll(p, sc, models, answers).ledger)
  {
    if answers != [] {
      RunIsAccounted(p, sc, models, answers[..|answers| - 1]);
      LastStepAccounts(p, sc, models, answers);
    }
  }

  /** Over every run, whatever the selector answered. */
  lemma RunAccounts(p: Platform, sc: Scenario, models: Fleet, answers: seq<Answer>)
    ensures AccountsAreRight(sc, models, answers, RunAll(p, sc, models, answers).ledger)
  {
    RunIsAccounted(p, sc, models, answers);
    LastingIsCounted(|answers|, sc.order, NoLink(answers), sc.step);
    LastingIsCounted(|answers|, sc.order, OnDeadLink(sc, models, answers), sc.step);
    LastingIsCounted(|answers|, sc.order, OnLiveLink(sc, models, answers), sc.step);
  }
}
