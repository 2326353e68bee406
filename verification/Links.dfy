/** The simulator's link models and the oracle over their true state (sim/links.py, sim/metrics.py). */
module Links {
  import opened Prelude
  import opened Models
  import opened Rules
  import opened Selectors

  const GB := 1_000_000_000

  const VISIBILITY := Ascii("visibility_m")
  const AGENT := Ascii("agent")
  const OPERATOR := Ascii("operator")
  const MODEL := Ascii("model")

  datatype LinkModel =
    | Fiber(up: bool, sensorFailed: bool, carried: int, baseRtt: real)
    | Lte(up: bool, sensorFailed: bool, carried: int, baseRtt: real,
          quotaGb: real, costPerGbOver: real, congestion: real)
    | Satellite(up: bool, sensorFailed: bool, carried: int, baseRtt: real,
                quotaGb: real, costPerGbOver: real, obstructed: bool)
    | Fso(up: bool, sensorFailed: bool, carried: int, baseRtt: real, visibility: real, usable: real)

  type Fleet = map<Text, LinkModel>

  predicate HasQuota(m: LinkModel) {
    m.Lte? || m.Satellite?
  }

  function QuotaUsedPct(m: LinkModel): real
    requires HasQuota(m)
  {
    if m.quotaGb <= 0.0 then 100.0
    else
      var used := 100.0 * (m.carried as real / GB as real) / m.quotaGb;
      if used < 100.0 then used else 100.0
  }

  /** `LinkFleet.is_up` of one model. */
  predicate Up(m: LinkModel) {
    m.up && (m.Fso? ==> m.visibility >= m.usable)
  }

  /** The latency the oracle knows. */
  function TrueRtt(m: LinkModel): real {
    m.baseRtt + if m.Satellite? && m.obstructed then 400.0 else 0.0
  }

  /** What one step draws for one link: the tokens of the values it reports. */
  datatype Draw = Draw(live: Number, rtt: Number, quota: Number, visibility: Number)

  /** The tokens read as the model says, the latency within its jitter range. */
  ghost predicate DrawFits(p: Platform, m: LinkModel, d: Draw) {
    && p.Read(d.live) == (if Up(m) then 1.0 else 0.0)
    && (HasQuota(m) ==> p.Read(d.quota) == QuotaUsedPct(m))
    && (m.Fso? ==> p.Read(d.visibility) == m.visibility)
    && match m
       case Fiber(_, _, _, base) => base - 1.0 <= p.Read(d.rtt) <= base + 2.0
       case Lte(_, _, _, base, _, _, congestion) =>
         base * (1.0 + congestion) - 5.0 <= p.Read(d.rtt) <= base * (1.0 + congestion) + 15.0
       case Satellite(_, _, _, base, _, _, _) => TrueRtt(m) - 5.0 <= p.Read(d.rtt) <= TrueRtt(m) + 25.0
       case Fso(_, _, _, base, _, _) => base <= p.Read(d.rtt) <= base + 1.0
  }

  /** `step` of one model: nothing from a failed sensor, liveness alone from a link that is down. */
  function Observe(id: Text, m: LinkModel, t: int, d: Draw): seq<Observation> {
    var live := Observation(id, UP, d.live, t, AGENT);
    var rtt := Observation(id, RTT, d.rtt, t, AGENT);
    if m.sensorFailed then []
    else match m
      case Fiber(_, _, _, _) => if m.up then [live, rtt] else [live]
      case Lte(_, _, _, _, _, _, _) =>
        if m.up then [live, rtt, Observation(id, QUOTA, d.quota, t, OPERATOR)] else [live]
      case Satellite(_, _, _, _, _, _, _) =>
        if m.up then [live, rtt, Observation(id, QUOTA, d.quota, t, OPERATOR)] else [live]
      case Fso(_, _, _, _, _, _) =>
        [live, Observation(id, VISIBILITY, d.visibility, t, MODEL)] + if Up(m) then [rtt] else []
  }

  function Reports(models: Fleet, draws: map<Text, Draw>, t: int): Text -> seq<Observation> {
    (id: Text) => if id in models && id in draws then Observe(id, models[id], t, draws[id]) else []
  }

  /** `LinkFleet.step`: every model's observations, in the order of the fleet. */
  function FleetEvidence(models: Fleet, order: seq<Text>, draws: map<Text, Draw>, t: int): Evidence {
    FlatMap(Reports(models, draws, t), order)
  }

  ghost predicate DrawsFit(p: Platform, models: Fleet, draws: map<Text, Draw>) {
    forall id | id in models && id in draws :: DrawFits(p, models[id], draws[id])
  }

  /** Congestion slows a link down; base latencies are not negative. */
  ghost predicate Plausible(m: LinkModel) {
    m.baseRtt >= 0.0 && (m.Lte? ==> m.congestion >= 0.0)
  }

  /** Congestion only adds to a base latency. */
  lemma CongestionAdds(base: real, congestion: real)
    requires base >= 0.0 && congestion >= 0.0
    ensures base * (1.0 + congestion) >= base
  {
    assert base * congestion >= 0.0;
    assert base * (1.0 + congestion) == base + base * congestion;
  }

  /** A measured latency is at most 5 ms below the true one. */
  lemma JitterBound(p: Platform, m: LinkModel, d: Draw)
    requires DrawFits(p, m, d) && Plausible(m)
    ensures TrueRtt(m) <= p.Read(d.rtt) + 5.0
  {
    if m.Lte? {
      CongestionAdds(m.baseRtt, m.congestion);
    }
  }

  /** The evidence of a step says of a link only what its model says, dated at the step. */
  lemma EvidenceIsReported(p: Platform, models: Fleet, order: seq<Text>, draws: map<Text, Draw>, t: int, o: Observation)
    requires DrawsFit(p, models, draws) && o in FleetEvidence(models, order, draws, t)
    ensures o.at == t && o.link in models
    ensures o.quantity == QUOTA ==> HasQuota(models[o.link]) && p.Read(o.value) == QuotaUsedPct(models[o.link])
    ensures o.quantity == UP ==> p.Read(o.value) == (if Up(models[o.link]) then 1.0 else 0.0)
    ensures o.quantity == RTT && Plausible(models[o.link]) ==> TrueRtt(models[o.link]) <= p.Read(o.value) + 5.0
  {
    FlatMapMembers(Reports(models, draws, t), order, o);
    var id :| id in order && o in Reports(models, draws, t)(id);
    assert DrawFits(p, models[id], draws[id]);
    if Plausible(models[id]) {
      JitterBound(p, models[id], draws[id]);
    }
  }

  /** What a model reports in a step, told by its own state: nothing if its sensor has failed; else its
      liveness, its latency if it is up, its quota if it has one and is up, and the visibility of optics. */
  ghost predicate IsReport(m: LinkModel, d: Draw, t: int, o: Observation) {
    && !m.sensorFailed && o.at == t
    && (|| (o.quantity == UP && o.value == d.live && o.source == AGENT)
        || (o.quantity == RTT && o.value == d.rtt && o.source == AGENT && Up(m))
        || (o.quantity == QUOTA && o.value == d.quota && o.source == OPERATOR && HasQuota(m) && Up(m))
        || (o.quantity == VISIBILITY && o.value == d.visibility && o.source == MODEL && m.Fso?))
  }

  /** The evidence of a step is exactly what the models of the fleet report. */
  lemma ReportsExactly(models: Fleet, order: seq<Text>, draws: map<Text, Draw>, t: int, o: Observation)
    ensures o in FleetEvidence(models, order, draws, t)
            <==> o.link in order && o.link in models && o.link in draws
                 && IsReport(models[o.link], draws[o.link], t, o)
  {
    FlatMapMembers(Reports(models, draws, t), order, o);
    forall id | id in order && id in models && id in draws
      ensures o in Reports(models, draws, t)(id) <==> o.link == id && IsReport(models[id], draws[id], t, o)
    {
      ModelReports(id, models[id], t, draws[id], o);
    }
  }

  lemma ModelReports(id: Text, m: LinkModel, t: int, d: Draw, o: Observation)
    ensures o in Observe(id, m, t, d) <==> o.link == id && IsReport(m, d, t, o)
  {
  }

  class LinkFleet {
    /** The models in the order they were declared; the ids do not change during a run. */
    const order: seq<Text>
    var models: Fleet

    constructor (order: seq<Text>, models: Fleet)
      ensures this.order == order && this.models == models
    {
      this.order, this.models := order, models;
    }

    method Step(t: int, draws: map<Text, Draw>) returns (out: Evidence)
      ensures out == FleetEvidence(models, order, draws, t)
    {
      out := [];
      for i := 0 to |order|
        invariant out == FlatMap(Reports(models, draws, t), order[..i])
      {
        assert order[..i + 1][..i] == order[..i];
        if order[i] in models && order[i] in draws {
          out := out + Observe(order[i], models[order[i]], t, draws[order[i]]);
        }
      }
      assert order[..|order|] == order;
    }
  }

  // ---------- the oracle ----------

  datatype Requirement = ForbidsMetered | LeftJurisdiction | NotEncrypted | LatencyMissed | SpentAllowance

  const REQUIREMENTS := [ForbidsMetered, LeftJurisdiction, NotEncrypted, LatencyMissed, SpentAllowance]

  datatype Violation = Violation(at: int, classId: Text, link: Text, requirement: Requirement)

  /** What the oracle consults: the declared links and classes, and the true state of the links. */
  datatype World = World(links: map<Text, Link>, classes: map<Text, TrafficClass>, models: Fleet)

  /** The link, given what is true of it, breaks this requirement of the class. */
  predicate Breaks(p: Platform, w: World, c: TrafficClass, link: Link, id: Text, r: Requirement) {
    match r
    case ForbidsMetered => !c.allowMetered && link.metered
    case LeftJurisdiction =>
      c.allowedJurisdictions.Some?
      && (link.jurisdictions == [] || Filter(NotAmong(c.allowedJurisdictions.value), link.jurisdictions) != [])
    case NotEncrypted => c.requiresEncryption && !link.encryptedBelow
    case LatencyMissed => c.maxRtt.Some? && id in w.models && TrueRtt(w.models[id]) > p.Read(c.maxRtt.value)
    case SpentAllowance => id in w.models && HasQuota(w.models[id]) && QuotaUsedPct(w.models[id]) >= 100.0
  }

  function Finding(p: Platform, w: World, at: int, c: TrafficClass, link: Link, classId: Text, id: Text)
    : Requirement -> seq<Violation>
  {
    (r: Requirement) => if Breaks(p, w, c, link, id, r) then [Violation(at, classId, id, r)] else []
  }

  /** Every requirement that the choice of one class breaks; no choice breaks nothing. */
  function Findings(p: Platform, w: World, at: int, choices: Choices): Text -> seq<Violation> {
    (classId: Text) =>
      if classId in choices && choices[classId].Some? && classId in w.classes && choices[classId].value in w.links then
        var id := choices[classId].value;
        FlatMap(Finding(p, w, at, w.classes[classId], w.links[id], classId, id), REQUIREMENTS)
      else []
  }

  /** Every choice is of a declared class and of a declared link. */
  ghost predicate ChoicesKnown(w: World, order: seq<Text>, choices: Choices) {
    forall classId | classId in order ::
      classId in choices && classId in w.classes
      && (choices[classId].Some? ==> choices[classId].value in w.links)
  }

  lemma FiveFindings(f: Requirement -> seq<Violation>)
    ensures FlatMap(f, REQUIREMENTS)
            == f(ForbidsMetered) + f(LeftJurisdiction) + f(NotEncrypted) + f(LatencyMissed) + f(SpentAllowance)
  {
    var all := REQUIREMENTS;
    assert all[..5] == all && all[..4][..3] == all[..3] && all[..3][..2] == all[..2] && all[..2][..1] == all[..1];
    assert all[..1][..0] == [];
    assert FlatMap(f, all[..1]) == [] + f(ForbidsMetered);
    assert FlatMap(f, all[..2]) == f(ForbidsMetered) + f(LeftJurisdiction);
    assert FlatMap(f, all[..3]) == f(ForbidsMetered) + f(LeftJurisdiction) + f(NotEncrypted);
    assert FlatMap(f, all[..4]) == f(ForbidsMetered) + f(LeftJurisdiction) + f(NotEncrypted) + f(LatencyMissed);
  }

  /** `check_violations`: the ground truth about a step's choices. */
  method CheckViolations(p: Platform, w: World, at: int, order: seq<Text>, choices: Choices)
    returns (found: seq<Violation>)
    requires ChoicesKnown(w, order, choices)
    ensures found == FlatMap(Findings(p, w, at, choices), order)
  {
    found := [];
    for i := 0 to |order|
      invariant found == FlatMap(Findings(p, w, at, choices), order[..i])
    {
      var classId := order[i];
      assert order[..i + 1][..i] == order[..i];
      if choices[classId].Some? {
        var more := CheckChoice(p, w, at, classId, choices[classId].value);
        found := found + more;
      }
    }
    assert order[..|order|] == order;
  }

  /** The body of the loop: one class, one link. */
  method CheckChoice(p: Platform, w: World, at: int, classId: Text, id: Text) returns (found: seq<Violation>)
    requires classId in w.classes && id in w.links
    ensures found == FlatMap(Finding(p, w, at, w.classes[classId], w.links[id], classId, id), REQUIREMENTS)
  {
    var link, c := w.links[id], w.classes[classId];
    FiveFindings(Finding(p, w, at, c, link, classId, id));
    found := CheckDeclared(p, w, at, c, link, classId, id);
    if c.maxRtt.Some? {
      if id in w.models && TrueRtt(w.models[id]) > p.Read(c.maxRtt.value) {
        found := found + [Violation(at, classId, id, LatencyMissed)];
      }
    }
    if id in w.models && HasQuota(w.models[id]) && QuotaUsedPct(w.models[id]) >= 100.0 {
      found := found + [Violation(at, classId, id, SpentAllowance)];
    }
  }

  /** The three checks of what link and class declare. */
  method CheckDeclared(p: Platform, w: World, at: int, c: TrafficClass, link: Link, classId: Text, id: Text)
    returns (found: seq<Violation>)
    ensures var f := Finding(p, w, at, c, link, classId, id);
            found == f(ForbidsMetered) + f(LeftJurisdiction) + f(NotEncrypted)
  {
    ghost var f := Finding(p, w, at, c, link, classId, id);
    found := [];
    if !c.allowMetered && link.metered {
      found := found + [Violation(at, classId, id, ForbidsMetered)];
    }
    assert found == f(ForbidsMetered);
    if c.allowedJurisdictions.Some? {
      var outside := Filter(NotAmong(c.allowedJurisdictions.value), link.jurisdictions);
      if outside != [] || link.jurisdictions == [] {
        found := found + [Violation(at, classId, id, LeftJurisdiction)];
      }
    }
    assert found == f(ForbidsMetered) + f(LeftJurisdiction);
    if c.requiresEncryption && !link.encryptedBelow {
      found := found + [Violation(at, classId, id, NotEncrypted)];
    }
  }

  lemma RequirementListed(r: Requirement)
    ensures r in REQUIREMENTS
  {
    match r
    case ForbidsMetered => assert REQUIREMENTS[0] == r;
    case LeftJurisdiction => assert REQUIREMENTS[1] == r;
    case NotEncrypted => assert REQUIREMENTS[2] == r;
    case LatencyMissed => assert REQUIREMENTS[3] == r;
    case SpentAllowance => assert REQUIREMENTS[4] == r;
  }

  /** The oracle reports a violation exactly when a chosen link breaks that requirement of its class. */
  lemma ViolationReported(p: Platform, w: World, at: int, order: seq<Text>, choices: Choices, v: Violation)
    requires ChoicesKnown(w, order, choices)
    ensures v in FlatMap(Findings(p, w, at, choices), order) <==>
              v.at == at && v.classId in order && choices[v.classId] == Some(v.link)
              && Breaks(p, w, w.classes[v.classId], w.links[v.link], v.link, v.requirement)
  {
    FlatMapMembers(Findings(p, w, at, choices), order, v);
    RequirementListed(v.requirement);
    forall classId | classId in order && choices[classId].Some?
      ensures v in Findings(p, w, at, choices)(classId) <==>
                v.at == at && v.classId == classId && v.link == choices[classId].value
                && Breaks(p, w, w.classes[classId], w.links[v.link], v.link, v.requirement)
    {
      var id := choices[classId].value;
      FlatMapMembers(Finding(p, w, at, w.classes[classId], w.links[id], classId, id), REQUIREMENTS, v);
    }
  }

  /** What each violation says of the link that the class chose. */
  ghost predicate IsBroken(p: Platform, link: Link, c: TrafficClass, model: Option<LinkModel>, r: Requirement) {
    match r
    case ForbidsMetered => link.metered && !c.allowMetered
    case LeftJurisdiction =>
      c.allowedJurisdictions.Some?
      && (link.jurisdictions == [] || exists j | j in link.jurisdictions :: j !in c.allowedJurisdictions.value)
    case NotEncrypted => c.requiresEncryption && !link.encryptedBelow
    case LatencyMissed =>
      c.maxRtt.Some? && model.Some?
      && p.Read(c.maxRtt.value) < model.value.baseRtt
                                  + if model.value.Satellite? && model.value.obstructed then 400.0 else 0.0
    case SpentAllowance =>
      model.Some? && (model.value.Lte? || model.value.Satellite?)
      && (model.value.quotaGb <= 0.0 || model.value.carried as real >= model.value.quotaGb * GB as real)
  }

  /** The oracle reports exactly what is broken, by the links, the classes and the true state alone. */
  lemma ReportsBroken(p: Platform, w: World, at: int, order: seq<Text>, choices: Choices, v: Violation)
    requires ChoicesKnown(w, order, choices)
    ensures v in FlatMap(Findings(p, w, at, choices), order) <==>
              && v.at == at && v.classId in order && choices[v.classId] == Some(v.link)
              && IsBroken(p, w.links[v.link], w.classes[v.classId],
                          if v.link in w.models then Some(w.models[v.link]) else None, v.requirement)
  {
    ViolationReported(p, w, at, order, choices, v);
    if v.classId in order && choices[v.classId] == Some(v.link) {
      BreaksExactly(p, w, w.classes[v.classId], w.links[v.link], v.link, v.requirement);
    }
  }

  lemma BreaksExactly(p: Platform, w: World, c: TrafficClass, link: Link, id: Text, r: Requirement)
    ensures Breaks(p, w, c, link, id, r)
            <==> IsBroken(p, link, c, if id in w.models then Some(w.models[id]) else None, r)
  {
    match r
    case LeftJurisdiction =>
      if c.allowedJurisdictions.Some? {
        CrossesExactly(link, c.allowedJurisdictions.value);
      }
    case SpentAllowance =>
      if id in w.models && HasQuota(w.models[id]) && w.models[id].quotaGb > 0.0 {
        SpentIffBytes(w.models[id]);
      }
    case _ =>
  }

  lemma DivisionBound(x: real, q: real)
    requires q > 0.0
    ensures x / q >= 100.0 <==> x >= 100.0 * q
  {
    var r := x / q;
    assert x == r * q;
    if r >= 100.0 {
      assert r * q >= 100.0 * q;
    } else {
      assert r * q < 100.0 * q;
    }
  }

  /** A quota reads as the share of it that was carried, in percent, and as a hundred once that is all of
      it, or if there is none. */
  lemma QuotaReadsExactly(m: LinkModel)
    requires HasQuota(m)
    ensures QuotaUsedPct(m) == 100.0 <==> m.quotaGb <= 0.0 || m.carried as real >= m.quotaGb * GB as real
    ensures m.quotaGb > 0.0 && (m.carried as real) < m.quotaGb * GB as real ==>
              QuotaUsedPct(m) < 100.0 && QuotaUsedPct(m) * m.quotaGb == 100.0 * (m.carried as real / GB as real)
  {
    if m.quotaGb > 0.0 {
      SpentIffBytes(m);
    }
  }

  /** A positive quota is spent exactly when at least that many bytes were carried. */
  lemma SpentIffBytes(m: LinkModel)
    requires HasQuota(m) && m.quotaGb > 0.0
    ensures QuotaUsedPct(m) >= 100.0 <==> m.carried as real >= m.quotaGb * GB as real
  {
    var gb := m.carried as real / GB as real;
    assert m.carried as real == gb * GB as real;
    DivisionBound(100.0 * gb, m.quotaGb);
    if gb >= m.quotaGb {
      assert gb * GB as real >= m.quotaGb * GB as real;
    } else {
      assert gb * GB as real < m.quotaGb * GB as real;
    }
  }
}
