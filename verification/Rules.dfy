/** The nine exclusion rules (pilotfish/core/rules.py). */
module Rules {
  import opened Prelude
  import opened Ordering
  import opened Models

  datatype Rule =
    | LinkDownRule(ruleId: Text)
    | MaxRttRule(ruleId: Text, classId: Text)
    | MeteredRule(ruleId: Text, classId: Text)
    | QuotaRule(ruleId: Text, linkType: Text, threshold: Number)
    | FreshnessRule(ruleId: Text, linkType: Text, quantity: Text, maxAge: Number)
    | JurisdictionRule(ruleId: Text, classId: Text)
    | EncryptionRule(ruleId: Text, classId: Text)
    | LinkTypeRule(ruleId: Text, linkType: Text, text: Text)
    | DirectiveRule(ruleId: Text, linkId: Text, text: Text, notAfter: int)

  const UP := Ascii("up")
  const RTT := Ascii("rtt_ms")
  const QUOTA := Ascii("quota_used_pct")

  function NotAmong(allowed: seq<Text>): Text -> bool {
    (j: Text) => j !in allowed
  }

  /** The reason a rule excludes a link, if it does. */
  function Evaluate(p: Platform, rule: Rule, link: Link, tclass: TrafficClass, evidence: Evidence, now: int)
    : Option<Reason>
  {
    match rule
    case LinkDownRule(_) =>
      var o := Latest(evidence, link.id, UP);
      if o.None? then Some(NoLiveness)
      else if p.Read(o.value.value) < 1.0 then Some(ObservedDown)
      else None
    case MaxRttRule(_, classId) =>
      if tclass.id != classId || tclass.maxRtt.None? then None
      else
        var o := Latest(evidence, link.id, RTT);
        if o.None? then Some(NoLatency(tclass.maxRtt.value))
        else if p.Read(o.value.value) > p.Read(tclass.maxRtt.value) then
          Some(LatencyAbove(o.value.value, tclass.maxRtt.value))
        else None
    case MeteredRule(_, classId) =>
      if tclass.id != classId || tclass.allowMetered || !link.metered then None else Some(MeteredPath)
    case QuotaRule(_, linkType, threshold) =>
      if link.kind != linkType then None
      else
        var o := Latest(evidence, link.id, QUOTA);
        if o.None? then Some(QuotaUnknown)
        else if p.Read(o.value.value) >= p.Read(threshold) then Some(QuotaSpent(o.value.value))
        else None
    case FreshnessRule(_, linkType, quantity, maxAge) =>
      if link.kind != linkType then None
      else
        var o := Latest(evidence, link.id, quantity);
        if o.None? then Some(NoEvidence(quantity))
        else if Age(o.value, now) as real / SECOND as real > p.Read(maxAge) then
          Some(StaleEvidence(quantity, Age(o.value, now), maxAge))
        else None
    case JurisdictionRule(_, classId) =>
      if tclass.id != classId || tclass.allowedJurisdictions.None? then None
      else if link.jurisdictions == [] then Some(UndeclaredJurisdiction)
      else
        var crossed := Filter(NotAmong(tclass.allowedJurisdictions.value), link.jurisdictions);
        if crossed != [] then Some(DisallowedJurisdictions(Sort(TextLe, crossed))) else None
    case EncryptionRule(_, classId) =>
      if tclass.id != classId || !tclass.requiresEncryption || link.encryptedBelow then None else Some(Unencrypted)
    case LinkTypeRule(_, linkType, text) =>
      if link.kind != linkType then None else Some(Stated(text))
    case DirectiveRule(_, linkId, text, notAfter) =>
      if link.id != linkId || now >= notAfter then None else Some(Directed(text))
  }

  predicate Fires(p: Platform, rule: Rule, link: Link, tclass: TrafficClass, evidence: Evidence, now: int) {
    Evaluate(p, rule, link, tclass, evidence, now).Some?
  }

  // ---------- when a rule fires, and why ----------

  /** The measurement does not clear the link: there is none, or the newest one is condemned. */
  ghost predicate NotCleared(evidence: Evidence, link: Text, quantity: Text, condemned: Number -> bool) {
    forall o | Newest(evidence, link, quantity, o) :: condemned(o.value)
  }

  /** Older than the limit, which is in seconds. */
  predicate OlderThan(p: Platform, o: Observation, now: int, limit: Number) {
    (now - o.at) as real / SECOND as real > p.Read(limit)
  }

  /** When a rule takes a link out for a class, told by the link, the class and the observations. */
  ghost predicate TakesOut(p: Platform, rule: Rule, link: Link, c: TrafficClass, evidence: Evidence, now: int) {
    match rule
    case LinkDownRule(_) => NotCleared(evidence, link.id, UP, v => p.Read(v) < 1.0)
    case MaxRttRule(_, classId) =>
      c.id == classId && c.maxRtt.Some?
      && NotCleared(evidence, link.id, RTT, v => p.Read(v) > p.Read(c.maxRtt.value))
    case MeteredRule(_, classId) => c.id == classId && link.metered && !c.allowMetered
    case QuotaRule(_, linkType, threshold) =>
      link.kind == linkType && NotCleared(evidence, link.id, QUOTA, v => p.Read(v) >= p.Read(threshold))
    case FreshnessRule(_, linkType, quantity, maxAge) =>
      link.kind == linkType
      && (p.Read(maxAge) < 0.0
          || forall o | o in evidence && Measures(o, link.id, quantity) :: OlderThan(p, o, now, maxAge))
    case JurisdictionRule(_, classId) =>
      c.id == classId && c.allowedJurisdictions.Some?
      && (link.jurisdictions == [] || exists j | j in link.jurisdictions :: j !in c.allowedJurisdictions.value)
    case EncryptionRule(_, classId) => c.id == classId && c.requiresEncryption && !link.encryptedBelow
    case LinkTypeRule(_, linkType, _) => link.kind == linkType
    case DirectiveRule(_, linkId, _, notAfter) => link.id == linkId && now < notAfter
  }

  /** Every rule of every kind fires exactly when it should. */
  lemma FiresExactly(p: Platform, rule: Rule, link: Link, c: TrafficClass, evidence: Evidence, now: int)
    ensures Fires(p, rule, link, c, evidence, now) <==> TakesOut(p, rule, link, c, evidence, now)
  {
    forall q, o ensures Newest(evidence, link.id, q, o) <==> Latest(evidence, link.id, q) == Some(o) {
      NewestIsLatest(evidence, link.id, q, o);
    }
    match rule
    case FreshnessRule(_, _, quantity, maxAge) => StaleExactly(p, evidence, link.id, quantity, maxAge, now);
    case JurisdictionRule(_, _) =>
      if c.allowedJurisdictions.Some? {
        CrossesExactly(link, c.allowedJurisdictions.value);
      }
    case _ =>
  }

  /** Evidence is stale when no observation is recent enough. */
  lemma StaleExactly(p: Platform, evidence: Evidence, link: Text, quantity: Text, maxAge: Number, now: int)
    ensures var o := Latest(evidence, link, quantity);
            (o.None? || Age(o.value, now) as real / SECOND as real > p.Read(maxAge))
            <==> p.Read(maxAge) < 0.0
                 || forall x | x in evidence && Measures(x, link, quantity) :: OlderThan(p, x, now, maxAge)
  {
    LatestIsFirstNewest(evidence, link, quantity);
    LatestMember(evidence, link, quantity);
    var o := Latest(evidence, link, quantity);
    if o.Some? {
      forall x | x in evidence && Measures(x, link, quantity) && OlderThan(p, o.value, now, maxAge)
        ensures OlderThan(p, x, now, maxAge)
      {
        assert (now - o.value.at) as real / SECOND as real <= (now - x.at) as real / SECOND as real;
      }
    }
  }

  lemma CrossesExactly(link: Link, allowed: seq<Text>)
    ensures Filter(NotAmong(allowed), link.jurisdictions) != []
            <==> exists j | j in link.jurisdictions :: j !in allowed
  {
    var crossed := Filter(NotAmong(allowed), link.jurisdictions);
    forall j ensures j in crossed <==> j in link.jurisdictions && j !in allowed {
      FilterMembers(NotAmong(allowed), link.jurisdictions, j);
    }
    if crossed != [] {
      assert crossed[0] in crossed;
    }
  }

  ghost predicate Unmeasured(evidence: Evidence, link: Text, quantity: Text) {
    forall o | o in evidence :: !Measures(o, link, quantity)
  }

  ghost predicate MeasuredAs(evidence: Evidence, link: Text, quantity: Text, value: Number) {
    exists o :: Newest(evidence, link, quantity, o) && o.value == value
  }

  lemma UpIsMeasured(p: Platform, evidence: Evidence, link: Text)
    ensures var o := Latest(evidence, link, UP);
            (o.Some? && p.Read(o.value.value) >= 1.0)
            <==> exists v :: MeasuredAs(evidence, link, UP, v) && p.Read(v) >= 1.0
  {
    var o := Latest(evidence, link, UP);
    forall x ensures Newest(evidence, link, UP, x) <==> o == Some(x) {
      NewestIsLatest(evidence, link, UP, x);
    }
    if o.Some? {
      assert MeasuredAs(evidence, link, UP, o.value.value);
    }
  }

  /** What the reason says is so. */
  ghost predicate IsSo(p: Platform, reason: Reason, rule: Rule, link: Link, c: TrafficClass, evidence: Evidence,
                       now: int)
  {
    match reason
    case NoLiveness => rule.LinkDownRule? && Unmeasured(evidence, link.id, UP)
    case ObservedDown => rule.LinkDownRule? && exists v :: MeasuredAs(evidence, link.id, UP, v) && p.Read(v) < 1.0
    case NoLatency(bound) => rule.MaxRttRule? && c.maxRtt == Some(bound) && Unmeasured(evidence, link.id, RTT)
    case LatencyAbove(measured, bound) =>
      rule.MaxRttRule? && c.maxRtt == Some(bound) && MeasuredAs(evidence, link.id, RTT, measured)
      && p.Read(measured) > p.Read(bound)
    case MeteredPath => rule.MeteredRule? && link.metered && !c.allowMetered
    case QuotaUnknown => rule.QuotaRule? && Unmeasured(evidence, link.id, QUOTA)
    case QuotaSpent(used) =>
      rule.QuotaRule? && MeasuredAs(evidence, link.id, QUOTA, used) && p.Read(used) >= p.Read(rule.threshold)
    case NoEvidence(quantity) =>
      rule.FreshnessRule? && rule.quantity == quantity && Unmeasured(evidence, link.id, quantity)
    case StaleEvidence(quantity, age, limit) =>
      rule.FreshnessRule? && rule.quantity == quantity && rule.maxAge == limit
      && age as real / SECOND as real > p.Read(limit)
      && exists o :: Newest(evidence, link.id, quantity, o) && age == if o.at < now then now - o.at else 0
    case UndeclaredJurisdiction => rule.JurisdictionRule? && link.jurisdictions == []
    case DisallowedJurisdictions(crossed) =>
      rule.JurisdictionRule? && c.allowedJurisdictions.Some? && Sorted(TextLe, crossed)
      && forall j :: j in crossed <==> j in link.jurisdictions && j !in c.allowedJurisdictions.value
    case Unencrypted => rule.EncryptionRule? && c.requiresEncryption && !link.encryptedBelow
    case Stated(text) => rule.LinkTypeRule? && rule.text == text
    case Directed(text) => rule.DirectiveRule? && rule.text == text && now < rule.notAfter
  }

  /** The reason that a rule gives is true. */
  lemma ReasonIsSo(p: Platform, rule: Rule, link: Link, c: TrafficClass, evidence: Evidence, now: int)
    requires Fires(p, rule, link, c, evidence, now)
    ensures IsSo(p, Evaluate(p, rule, link, c, evidence, now).value, rule, link, c, evidence, now)
  {
    var quantity := match rule
      case LinkDownRule(_) => UP
      case MaxRttRule(_, _) => RTT
      case QuotaRule(_, _, _) => QUOTA
      case FreshnessRule(_, _, q, _) => q
      case _ => [];
    LatestIsFirstNewest(evidence, link.id, quantity);
    var o := Latest(evidence, link.id, quantity);
    if o.Some? {
      NewestIsLatest(evidence, link.id, quantity, o.value);
      assert MeasuredAs(evidence, link.id, quantity, o.value.value);
    }
    if rule.JurisdictionRule? {
      CrossedIsSo(link, c.allowedJurisdictions.value);
    }
  }

  lemma CrossedIsSo(link: Link, allowed: seq<Text>)
    ensures var crossed := Sort(TextLe, Filter(NotAmong(allowed), link.jurisdictions));
            Sorted(TextLe, crossed) && forall j :: j in crossed <==> j in link.jurisdictions && j !in allowed
  {
    var crossed := Filter(NotAmong(allowed), link.jurisdictions);
    TextOrder();
    SortSorts(TextLe, crossed);
    SortMembers(TextLe, crossed);
    forall j ensures j in crossed <==> j in link.jurisdictions && j !in allowed {
      FilterMembers(NotAmong(allowed), link.jurisdictions, j);
    }
  }

  /** The directive was in force for the link at `now` and has lapsed by `later`. */
  predicate Lapses(rule: Rule, link: Link, now: int, later: int) {
    rule.DirectiveRule? && rule.linkId == link.id && now < rule.notAfter <= later
  }

  /** Passing time silences a rule only by ending a directive. */
  lemma FiresLater(p: Platform, rule: Rule, link: Link, tclass: TrafficClass, evidence: Evidence, now: int, later: int)
    requires now <= later
    requires Fires(p, rule, link, tclass, evidence, now)
    ensures Fires(p, rule, link, tclass, evidence, later) <==> !Lapses(rule, link, now, later)
  {
    if rule.FreshnessRule? && link.kind == rule.linkType {
      var o := Latest(evidence, link.id, rule.quantity);
      if o.Some? {
        assert Age(o.value, now) <= Age(o.value, later);
      }
    }
  }

  function OtherThan(link: Text, quantity: Text): Observation -> bool {
    (o: Observation) => !Measures(o, link, quantity)
  }

  /** The evidence with every observation of one (link, quantity) deleted. */
  function Without(evidence: Evidence, link: Text, quantity: Text): Evidence {
    Filter(OtherThan(link, quantity), evidence)
  }

  lemma {:induction false} LatestWithout(evidence: Evidence, link: Text, quantity: Text, l: Text, q: Text)
    ensures Latest(Without(evidence, link, quantity), l, q)
            == if l == link && q == quantity then None else Latest(evidence, l, q)
  {
    if evidence != [] {
      var n := |evidence| - 1;
      LatestWithout(evidence[..n], link, quantity, l, q);
      var rest := Without(evidence[..n], link, quantity);
      if OtherThan(link, quantity)(evidence[n]) {
        assert (rest + [evidence[n]])[..|rest|] == rest;
      }
    }
  }

  /** A missing measurement never silences a rule. */
  lemma FiresWithout(p: Platform, rule: Rule, link: Link, tclass: TrafficClass, evidence: Evidence, now: int,
                     l: Text, q: Text)
    requires Fires(p, rule, link, tclass, evidence, now)
    ensures Fires(p, rule, link, tclass, Without(evidence, l, q), now)
  {
    LatestWithout(evidence, l, q, link.id, UP);
    LatestWithout(evidence, l, q, link.id, RTT);
    LatestWithout(evidence, l, q, link.id, QUOTA);
    if rule.FreshnessRule? {
      LatestWithout(evidence, l, q, link.id, rule.quantity);
    }
  }

  /** Evidence enters a rule only through `latest`. */
  lemma EvaluateReadsLatest(p: Platform, rule: Rule, link: Link, tclass: TrafficClass, a: Evidence, b: Evidence,
                            now: int)
    requires forall q :: Latest(a, link.id, q) == Latest(b, link.id, q)
    ensures Evaluate(p, rule, link, tclass, a, now) == Evaluate(p, rule, link, tclass, b, now)
  {
    assert Latest(a, link.id, UP) == Latest(b, link.id, UP);
    assert Latest(a, link.id, RTT) == Latest(b, link.id, RTT);
    assert Latest(a, link.id, QUOTA) == Latest(b, link.id, QUOTA);
    if rule.FreshnessRule? {
      assert Latest(a, link.id, rule.quantity) == Latest(b, link.id, rule.quantity);
    }
  }
}
