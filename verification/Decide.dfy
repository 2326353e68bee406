/** The decision function (pilotfish/core/decide.py). */
module Decide {
  import opened Prelude
  import opened Ordering
  import opened Cbor
  import opened Models
  import opened Rules
  import opened Policy
  import opened Messages

  // ---------- the decision as a function ----------

  /** The exclusion that one rule contributes for a link, if any. */
  function Ruling(p: Platform, link: Link, c: TrafficClass, evidence: Evidence, now: int): Rule -> seq<Exclusion> {
    (rule: Rule) =>
      var reason := Evaluate(p, rule, link, c, evidence, now);
      if reason.None? then [] else [Exclusion(link.id, rule.ruleId, p.Words(reason.value))]
  }

  function ReasonsFor(p: Platform, rules: seq<Rule>, c: TrafficClass, evidence: Evidence, now: int)
    : Link -> seq<Exclusion>
  {
    (link: Link) => FlatMap(Ruling(p, link, c, evidence, now), rules)
  }

  function Survivor(p: Platform, rules: seq<Rule>, c: TrafficClass, evidence: Evidence, now: int): Link -> seq<Text> {
    (link: Link) => if ReasonsFor(p, rules, c, evidence, now)(link) == [] then [link.id] else []
  }

  function LinkKey(link: Link): Row {
    [KText(link.id)]
  }

  function ClassKey(c: TrafficClass): Row {
    [KText(c.id)]
  }

  function ExclusionKey(e: Exclusion): Row {
    [KText(e.link), KText(e.rule)]
  }

  function Eligibility(p: Platform, links: seq<Link>, rules: seq<Rule>, evidence: Evidence, now: int)
    : TrafficClass -> ClassEligibility
  {
    (c: TrafficClass) =>
      var sorted := Sort(By(LinkKey), links);
      ClassEligibility(c.id,
                       FlatMap(Survivor(p, rules, c, evidence, now), sorted),
                       Sort(By(ExclusionKey), FlatMap(ReasonsFor(p, rules, c, evidence, now), sorted)))
  }

  function ClassResults(p: Platform, b: PolicyBundle, evidence: Evidence, now: int): seq<ClassEligibility> {
    Map(Eligibility(p, b.links, b.rules, evidence, now), Sort(By(ClassKey), b.classes))
  }

  function DecisionFor(p: Platform, b: PolicyBundle, evidence: Evidence, now: int, site: Text, degraded: bool)
    : Decision
  {
    var seen := AsOf(evidence, now);
    Decision(site, now, now + b.ttl * SECOND, BundleHash(p, b), EvidenceHash(p, seen), degraded,
             ClassResults(p, b, seen, now))
  }

  // ---------- the decision as the source's loops ----------

  method Decide(p: Platform, b: PolicyBundle, evidence: Evidence, now: int, site: Text, degraded: bool)
    returns (d: Decision)
    ensures d == DecisionFor(p, b, evidence, now, site, degraded)
    ensures IsDecisionOn(p, b, evidence, now, d)
  {
    var seen := AsOf(evidence, now);
    var results := DecideClasses(p, b, seen, now);
    d := Decision(site, now, now + b.ttl * SECOND, BundleHash(p, b), EvidenceHash(p, seen), degraded, results);
    DecisionIsRight(p, b, evidence, now, site, degraded);
  }

  /** The loop over classes. */
  method DecideClasses(p: Platform, b: PolicyBundle, evidence: Evidence, now: int)
    returns (results: seq<ClassEligibility>)
    ensures results == ClassResults(p, b, evidence, now)
  {
    results := [];
    var sortedClasses := Sort(By(ClassKey), b.classes);
    for i := 0 to |sortedClasses|
      invariant results == Map(Eligibility(p, b.links, b.rules, evidence, now), sortedClasses[..i])
    {
      var r := DecideClass(p, b, sortedClasses[i], evidence, now);
      results := results + [r];
    }
    assert sortedClasses[..|sortedClasses|] == sortedClasses;
  }

  /** The body of the loop over classes. */
  method DecideClass(p: Platform, b: PolicyBundle, c: TrafficClass, evidence: Evidence, now: int)
    returns (r: ClassEligibility)
    ensures r == Eligibility(p, b.links, b.rules, evidence, now)(c)
  {
    var permitted: seq<Text> := [];
    var exclusions: seq<Exclusion> := [];
    var sorted := Sort(By(LinkKey), b.links);
    for i := 0 to |sorted|
      invariant permitted == FlatMap(Survivor(p, b.rules, c, evidence, now), sorted[..i])
      invariant exclusions == FlatMap(ReasonsFor(p, b.rules, c, evidence, now), sorted[..i])
    {
      var link := sorted[i];
      assert sorted[..i + 1][..i] == sorted[..i];
      var reasons := FlatMap(Ruling(p, link, c, evidence, now), b.rules);
      if reasons != [] {
        exclusions := exclusions + reasons;
      } else {
        permitted := permitted + [link.id];
      }
    }
    assert sorted[..|sorted|] == sorted;
    r := ClassEligibility(c.id, permitted, Sort(By(ExclusionKey), exclusions));
  }

  /** `permitted_for`: the permitted set of the first entry for the class. */
  method PermittedFor(d: Decision, classId: Text) returns (permitted: seq<Text>)
    ensures permitted == Permitted(d.classes, classId)
  {
    for i := 0 to |d.classes|
      invariant Permitted(d.classes, classId) == Permitted(d.classes[i..], classId)
    {
      assert d.classes[i..][1..] == d.classes[i + 1..];
      if d.classes[i].classId == classId {
        return d.classes[i].permitted;
      }
    }
    return [];
  }

  function Permitted(classes: seq<ClassEligibility>, classId: Text): seq<Text> {
    if classes == [] then []
    else if classes[0].classId == classId then classes[0].permitted
    else Permitted(classes[1..], classId)
  }

  // ---------- what a class result contains ----------

  /** Some rule takes the link out for the class. */
  ghost predicate Excluded(p: Platform, rules: seq<Rule>, link: Link, c: TrafficClass, evidence: Evidence, now: int) {
    exists rule | rule in rules :: Fires(p, rule, link, c, evidence, now)
  }

  lemma ReasonMembers(p: Platform, rules: seq<Rule>, link: Link, c: TrafficClass, evidence: Evidence, now: int)
    ensures forall e :: e in ReasonsFor(p, rules, c, evidence, now)(link) <==>
              exists rule | rule in rules && Fires(p, rule, link, c, evidence, now) ::
                e == Exclusion(link.id, rule.ruleId, p.Words(Evaluate(p, rule, link, c, evidence, now).value))
    ensures ReasonsFor(p, rules, c, evidence, now)(link) == [] <==> !Excluded(p, rules, link, c, evidence, now)
  {
    var f := Ruling(p, link, c, evidence, now);
    var reasons := ReasonsFor(p, rules, c, evidence, now)(link);
    assert reasons == FlatMap(f, rules);
    forall e
      ensures e in reasons <==>
                exists rule | rule in rules && Fires(p, rule, link, c, evidence, now) ::
                  e == Exclusion(link.id, rule.ruleId, p.Words(Evaluate(p, rule, link, c, evidence, now).value))
    {
      FlatMapMembers(f, rules, e);
      if rule :| rule in rules && Fires(p, rule, link, c, evidence, now)
                 && e == Exclusion(link.id, rule.ruleId, p.Words(Evaluate(p, rule, link, c, evidence, now).value)) {
        assert e in f(rule);
      }
    }
    if reasons != [] {
      assert reasons[0] in reasons;
    }
    if rule :| rule in rules && Fires(p, rule, link, c, evidence, now) {
      assert Exclusion(link.id, rule.ruleId, p.Words(Evaluate(p, rule, link, c, evidence, now).value)) in reasons;
    }
  }

  /** A permitted id is the id of a link of the bundle that no rule excludes, and conversely. */
  lemma PermittedMembers(p: Platform, links: seq<Link>, rules: seq<Rule>, c: TrafficClass, evidence: Evidence, now: int)
    ensures forall x :: x in Eligibility(p, links, rules, evidence, now)(c).permitted <==>
              exists link | link in links :: link.id == x && !Excluded(p, rules, link, c, evidence, now)
  {
    ByPreorder(LinkKey);
    SortMembers(By(LinkKey), links);
    var f := Survivor(p, rules, c, evidence, now);
    var sorted := Sort(By(LinkKey), links);
    forall x
      ensures x in FlatMap(f, sorted) <==>
                exists link | link in links :: link.id == x && !Excluded(p, rules, link, c, evidence, now)
    {
      FlatMapMembers(f, sorted, x);
      forall link: Link ensures x in f(link) <==> link.id == x && !Excluded(p, rules, link, c, evidence, now) {
        ReasonMembers(p, rules, link, c, evidence, now);
      }
    }
  }

  /** The exclusions name exactly the (link, rule) pairs that fire, with the rule's own reason. */
  lemma ExclusionMembers(p: Platform, links: seq<Link>, rules: seq<Rule>, c: TrafficClass, evidence: Evidence, now: int)
    ensures forall e :: e in Eligibility(p, links, rules, evidence, now)(c).exclusions <==>
              exists link, rule | link in links && rule in rules && Fires(p, rule, link, c, evidence, now) ::
                e == Exclusion(link.id, rule.ruleId, p.Words(Evaluate(p, rule, link, c, evidence, now).value))
  {
    ByPreorder(LinkKey);
    SortMembers(By(LinkKey), links);
    var f := ReasonsFor(p, rules, c, evidence, now);
    var sorted := Sort(By(LinkKey), links);
    ByPreorder(ExclusionKey);
    SortMembers(By(ExclusionKey), FlatMap(f, sorted));
    forall e
      ensures e in FlatMap(f, sorted) <==>
                exists link, rule | link in links && rule in rules && Fires(p, rule, link, c, evidence, now) ::
                  e == Exclusion(link.id, rule.ruleId, p.Words(Evaluate(p, rule, link, c, evidence, now).value))
    {
      FlatMapMembers(f, sorted, e);
      forall link: Link
        ensures e in f(link) <==>
                  exists rule | rule in rules && Fires(p, rule, link, c, evidence, now) ::
                    e == Exclusion(link.id, rule.ruleId, p.Words(Evaluate(p, rule, link, c, evidence, now).value))
      {
        ReasonMembers(p, rules, link, c, evidence, now);
      }
    }
  }

  // ---------- what a decision says ----------

  /** No rule takes the link out for the class. */
  ghost predicate Clear(p: Platform, rules: seq<Rule>, link: Link, c: TrafficClass, evidence: Evidence, now: int) {
    forall rule | rule in rules :: !TakesOut(p, rule, link, c, evidence, now)
  }

  /** The exclusion names a link and a rule that takes it out, and words a reason that is so. */
  ghost predicate IsRightExclusion(p: Platform, links: seq<Link>, rules: seq<Rule>, c: TrafficClass,
                                   evidence: Evidence, now: int, e: Exclusion)
  {
    exists link, rule, reason | link in links && rule in rules ::
      && TakesOut(p, rule, link, c, evidence, now) && IsSo(p, reason, rule, link, c, evidence, now)
      && e == Exclusion(link.id, rule.ruleId, p.Words(reason))
  }

  /** The result is of this class: it permits exactly the links that no rule takes out, lists every pair of
      a link and a rule that takes it out, lists nothing else, and is in order. */
  ghost predicate IsResultFor(p: Platform, links: seq<Link>, rules: seq<Rule>, c: TrafficClass, evidence: Evidence,
                              now: int, r: ClassEligibility)
  {
    && r.classId == c.id
    && (forall x :: x in r.permitted <==>
          exists link | link in links :: link.id == x && Clear(p, rules, link, c, evidence, now))
    && (forall link, rule | link in links && rule in rules && TakesOut(p, rule, link, c, evidence, now) ::
          exists e | e in r.exclusions :: e.link == link.id && e.rule == rule.ruleId)
    && (forall e | e in r.exclusions :: IsRightExclusion(p, links, rules, c, evidence, now, e))
    && Sorted(TextLe, r.permitted) && Sorted(By(ExclusionKey), r.exclusions)
  }

  lemma ClearExactly(p: Platform, rules: seq<Rule>, link: Link, c: TrafficClass, evidence: Evidence, now: int)
    ensures Clear(p, rules, link, c, evidence, now) <==> !Excluded(p, rules, link, c, evidence, now)
  {
    forall rule ensures Fires(p, rule, link, c, evidence, now) <==> TakesOut(p, rule, link, c, evidence, now) {
      FiresExactly(p, rule, link, c, evidence, now);
    }
  }

  lemma PermittedExactly(p: Platform, links: seq<Link>, rules: seq<Rule>, c: TrafficClass, evidence: Evidence,
                         now: int)
    ensures forall x :: x in Eligibility(p, links, rules, evidence, now)(c).permitted <==>
              exists link | link in links :: link.id == x && Clear(p, rules, link, c, evidence, now)
  {
    PermittedMembers(p, links, rules, c, evidence, now);
    forall link: Link ensures Clear(p, rules, link, c, evidence, now) <==> !Excluded(p, rules, link, c, evidence, now) {
      ClearExactly(p, rules, link, c, evidence, now);
    }
  }

  lemma ExclusionsExactly(p: Platform, links: seq<Link>, rules: seq<Rule>, c: TrafficClass, evidence: Evidence,
                          now: int)
    ensures var r := Eligibility(p, links, rules, evidence, now)(c);
            && (forall link, rule | link in links && rule in rules && TakesOut(p, rule, link, c, evidence, now) ::
                  exists e | e in r.exclusions :: e.link == link.id && e.rule == rule.ruleId)
            && (forall e | e in r.exclusions :: IsRightExclusion(p, links, rules, c, evidence, now, e))
  {
    var r := Eligibility(p, links, rules, evidence, now)(c);
    ExclusionMembers(p, links, rules, c, evidence, now);
    forall link, rule | link in links && rule in rules && TakesOut(p, rule, link, c, evidence, now)
      ensures exists e | e in r.exclusions :: e.link == link.id && e.rule == rule.ruleId
    {
      FiresExactly(p, rule, link, c, evidence, now);
      var e := Exclusion(link.id, rule.ruleId, p.Words(Evaluate(p, rule, link, c, evidence, now).value));
      assert e in r.exclusions && e.link == link.id && e.rule == rule.ruleId;
    }
    forall e | e in r.exclusions ensures IsRightExclusion(p, links, rules, c, evidence, now, e) {
      var link, rule :| link in links && rule in rules && Fires(p, rule, link, c, evidence, now)
                        && e == Exclusion(link.id, rule.ruleId,
                                          p.Words(Evaluate(p, rule, link, c, evidence, now).value));
      FiresExactly(p, rule, link, c, evidence, now);
      ReasonIsSo(p, rule, link, c, evidence, now);
    }
  }

  lemma EligibilityInOrder(p: Platform, links: seq<Link>, rules: seq<Rule>, c: TrafficClass, evidence: Evidence,
                           now: int)
    ensures var r := Eligibility(p, links, rules, evidence, now)(c);
            Sorted(TextLe, r.permitted) && Sorted(By(ExclusionKey), r.exclusions)
  {
    ByPreorder(ExclusionKey);
    SortSorts(By(ExclusionKey), FlatMap(ReasonsFor(p, rules, c, evidence, now), Sort(By(LinkKey), links)));
    ByPreorder(LinkKey);
    SortSorts(By(LinkKey), links);
    SurvivorsInOrder(p, rules, c, evidence, now, Sort(By(LinkKey), links));
  }

  lemma {:induction false} SurvivorsInOrder(p: Platform, rules: seq<Rule>, c: TrafficClass, evidence: Evidence,
                                            now: int,
                                            links: seq<Link>)
    requires Sorted(By(LinkKey), links)
    ensures Sorted(TextLe, FlatMap(Survivor(p, rules, c, evidence, now), links))
    ensures forall x | x in FlatMap(Survivor(p, rules, c, evidence, now), links) ::
              exists link | link in links :: link.id == x
  {
    if links != [] {
      var n := |links| - 1;
      SurvivorsInOrder(p, rules, c, evidence, now, links[..n]);
      var front := FlatMap(Survivor(p, rules, c, evidence, now), links[..n]);
      forall x | x in front ensures TextLe(x, links[n].id) {
        var link :| link in links[..n] && link.id == x;
        var i :| 0 <= i < n && links[..n][i] == link;
        assert By(LinkKey)(links[i], links[n]);
        SameOrOrdered(link, links[n]);
      }
      SortedWithLast(front, Survivor(p, rules, c, evidence, now)(links[n]), links[n].id);
      assert links == links[..n] + [links[n]];
    }
  }

  lemma SortedWithLast(ids: seq<Text>, last: seq<Text>, id: Text)
    requires Sorted(TextLe, ids) && (last == [] || last == [id]) && forall x | x in ids :: TextLe(x, id)
    ensures Sorted(TextLe, ids + last)
  {
  }

  lemma SameOrOrdered(a: Link, b: Link)
    requires By(LinkKey)(a, b)
    ensures TextLe(a.id, b.id)
  {
    TextOrder();
    if a.id != b.id {
      IdsInOrder(a, b);
    }
  }

  lemma ResultIsRight(p: Platform, links: seq<Link>, rules: seq<Rule>, c: TrafficClass, evidence: Evidence, now: int)
    ensures IsResultFor(p, links, rules, c, evidence, now, Eligibility(p, links, rules, evidence, now)(c))
  {
    PermittedExactly(p, links, rules, c, evidence, now);
    ExclusionsExactly(p, links, rules, c, evidence, now);
    EligibilityInOrder(p, links, rules, c, evidence, now);
  }

  /** The decision is of this bundle on this evidence, good for the bundle's own lifetime, and has, in
      order of their ids, one right result for every class of the bundle and no others. */
  ghost predicate IsDecisionOn(p: Platform, b: PolicyBundle, evidence: Evidence, now: int, d: Decision) {
    var seen := AsOf(evidence, now);
    && d.decidedAt == now && d.validUntil - d.decidedAt == b.ttl * SECOND
    && d.bundleHash == BundleHash(p, b) && d.evidenceHash == EvidenceHash(p, seen)
    && |d.classes| == |b.classes|
    && (forall i, j | 0 <= i < j < |d.classes| :: TextLe(d.classes[i].classId, d.classes[j].classId))
    && (forall c | c in b.classes :: exists r | r in d.classes :: IsResultFor(p, b.links, b.rules, c, seen, now, r))
    && (forall r | r in d.classes :: exists c | c in b.classes :: IsResultFor(p, b.links, b.rules, c, seen, now, r))
  }

  /** Whatever the bundle, the evidence and the clock, the decision is right. */
  lemma DecisionIsRight(p: Platform, b: PolicyBundle, evidence: Evidence, now: int, site: Text, degraded: bool)
    ensures var d := DecisionFor(p, b, evidence, now, site, degraded);
            IsDecisionOn(p, b, evidence, now, d) && d.site == site && d.degraded == degraded
  {
    var d, seen := DecisionFor(p, b, evidence, now, site, degraded), AsOf(evidence, now);
    var sorted, f := Sort(By(ClassKey), b.classes), Eligibility(p, b.links, b.rules, seen, now);
    ByPreorder(ClassKey);
    SortMembers(By(ClassKey), b.classes);
    SortSorts(By(ClassKey), b.classes);
    forall c: TrafficClass ensures IsResultFor(p, b.links, b.rules, c, seen, now, f(c)) {
      ResultIsRight(p, b.links, b.rules, c, seen, now);
    }
    ResultsInOrder(p, b, seen, now);
    forall c | c in b.classes
      ensures exists r | r in d.classes :: IsResultFor(p, b.links, b.rules, c, seen, now, r)
    {
      assert c in sorted;
      var i :| 0 <= i < |sorted| && sorted[i] == c;
      assert d.classes[i] == f(c) && d.classes[i] in d.classes;
    }
    forall r | r in d.classes ensures exists c | c in b.classes :: IsResultFor(p, b.links, b.rules, c, seen, now, r) {
      var i :| 0 <= i < |d.classes| && d.classes[i] == r;
      assert r == f(sorted[i]) && sorted[i] in b.classes;
    }
  }

  lemma ResultsInOrder(p: Platform, b: PolicyBundle, evidence: Evidence, now: int)
    ensures var results := ClassResults(p, b, evidence, now);
            forall i, j | 0 <= i < j < |results| :: TextLe(results[i].classId, results[j].classId)
  {
    var sorted, results := Sort(By(ClassKey), b.classes), ClassResults(p, b, evidence, now);
    ByPreorder(ClassKey);
    SortSorts(By(ClassKey), b.classes);
    forall i, j | 0 <= i < j < |results| ensures TextLe(results[i].classId, results[j].classId) {
      assert By(ClassKey)(sorted[i], sorted[j]);
      ClassesOrdered(sorted[i], sorted[j]);
    }
  }

  lemma ClassesOrdered(a: TrafficClass, b: TrafficClass)
    requires By(ClassKey)(a, b)
    ensures TextLe(a.id, b.id)
  {
    TextOrder();
    assert RowLe(ClassKey(a), ClassKey(b));
    assert ClassKey(a)[0] == KText(a.id) && ClassKey(b)[0] == KText(b.id);
  }

  ghost predicate ExcludedIn(r: ClassEligibility, linkId: Text) {
    exists e | e in r.exclusions :: e.link == linkId
  }

  /** With distinct link ids, every link is either permitted or excluded with a reason, never both;
      both lists are sorted, and nothing outside the inventory appears. */
  lemma ClassResultPartitions(p: Platform, links: seq<Link>, rules: seq<Rule>, c: TrafficClass, evidence: Evidence,
                              now: int)
    requires DistinctLinks(links)
    ensures var r := Eligibility(p, links, rules, evidence, now)(c);
            && (forall link | link in links :: link.id in r.permitted <==> !ExcludedIn(r, link.id))
            && (forall x | x in r.permitted || ExcludedIn(r, x) :: exists link | link in links :: link.id == x)
            && Sorted(By(ExclusionKey), r.exclusions)
            && Sorted(TextLe, r.permitted) && NoDuplicates(r.permitted)
  {
    var r := Eligibility(p, links, rules, evidence, now)(c);
    PermittedMembers(p, links, rules, c, evidence, now);
    ExclusionMembers(p, links, rules, c, evidence, now);
    forall link | link in links ensures link.id in r.permitted <==> !ExcludedIn(r, link.id) {
      assert forall other | other in links && other.id == link.id :: other == link;
      if Excluded(p, rules, link, c, evidence, now) {
        var rule :| rule in rules && Fires(p, rule, link, c, evidence, now);
        var e := Exclusion(link.id, rule.ruleId, p.Words(Evaluate(p, rule, link, c, evidence, now).value));
        assert e in r.exclusions && e.link == link.id;
      }
    }
    ByPreorder(ExclusionKey);
    SortSorts(By(ExclusionKey), FlatMap(ReasonsFor(p, rules, c, evidence, now), Sort(By(LinkKey), links)));
    SortedLinksDistinct(links);
    SurvivorsSorted(p, rules, c, evidence, now, Sort(By(LinkKey), links));
  }

  ghost predicate StrictlyIncreasing(links: seq<Link>) {
    forall i, j | 0 <= i < j < |links| :: TextLe(links[i].id, links[j].id) && links[i].id != links[j].id
  }

  lemma SortedLinksDistinct(links: seq<Link>)
    requires DistinctLinks(links)
    ensures StrictlyIncreasing(Sort(By(LinkKey), links))
  {
    ByPreorder(LinkKey);
    var s := Sort(By(LinkKey), links);
    SortSorts(By(LinkKey), links);
    SortMembers(By(LinkKey), links);
    MultisetNoDuplicates(links, s);
    forall i, j | 0 <= i < j < |s| ensures TextLe(s[i].id, s[j].id) && s[i].id != s[j].id {
      assert s[i] != s[j] && s[i] in links && s[j] in links;
      assert By(LinkKey)(s[i], s[j]);
      IdsInOrder(s[i], s[j]);
    }
  }

  lemma IdsInOrder(a: Link, b: Link)
    requires By(LinkKey)(a, b) && a.id != b.id
    ensures TextLe(a.id, b.id)
  {
    assert RowLe(LinkKey(a), LinkKey(b));
    assert LinkKey(a)[0] == KText(a.id) && LinkKey(b)[0] == KText(b.id);
  }

  lemma {:induction false} SurvivorsSorted(p: Platform, rules: seq<Rule>, c: TrafficClass, evidence: Evidence, now: int,
                                           links: seq<Link>)
    requires StrictlyIncreasing(links)
    ensures var ids := FlatMap(Survivor(p, rules, c, evidence, now), links);
            Sorted(TextLe, ids) && NoDuplicates(ids) && forall x | x in ids :: exists l | l in links :: l.id == x
  {
    if links != [] {
      var n := |links| - 1;
      var f := Survivor(p, rules, c, evidence, now);
      SurvivorsSorted(p, rules, c, evidence, now, links[..n]);
      var before := FlatMap(f, links[..n]);
      forall x | x in before ensures TextLe(x, links[n].id) && x != links[n].id {
        var l :| l in links[..n] && l.id == x;
        var i :| 0 <= i < n && links[i] == l;
      }
      var ids := FlatMap(f, links);
      forall i, j | 0 <= i < j < |ids| ensures TextLe(ids[i], ids[j]) && ids[i] != ids[j] {
        assert ids[i] in before;
        if j < |before| {
          assert ids[i] == before[i] && ids[j] == before[j];
        }
      }
      assert links[n] in links;
    }
  }

  /** Appending rules never permits a link that was refused. */
  lemma MoreRulesPermitLess(p: Platform, links: seq<Link>, rules: seq<Rule>, extra: seq<Rule>, c: TrafficClass,
                            evidence: Evidence, now: int)
    ensures forall x | x in Eligibility(p, links, rules + extra, evidence, now)(c).permitted ::
              x in Eligibility(p, links, rules, evidence, now)(c).permitted
  {
    PermittedMembers(p, links, rules, c, evidence, now);
    PermittedMembers(p, links, rules + extra, c, evidence, now);
    forall link: Link | Excluded(p, rules, link, c, evidence, now)
      ensures Excluded(p, rules + extra, link, c, evidence, now)
    {
      var rule :| rule in rules && Fires(p, rule, link, c, evidence, now);
      assert rule in rules + extra;
    }
  }

  /** With distinct class ids, `permitted_for` finds the class's own permitted set. */
  lemma PermittedOfClass(p: Platform, b: PolicyBundle, evidence: Evidence, now: int, c: TrafficClass)
    requires DistinctClasses(b.classes) && c in b.classes
    ensures Permitted(ClassResults(p, b, evidence, now), c.id)
            == Eligibility(p, b.links, b.rules, evidence, now)(c).permitted
  {
    ByPreorder(ClassKey);
    SortMembers(By(ClassKey), b.classes);
    EntryOfClass(Eligibility(p, b.links, b.rules, evidence, now), Sort(By(ClassKey), b.classes), c);
  }

  /** With distinct class ids, what is permitted for a class is what no rule takes out, on the evidence of
      the moment. */
  lemma DecidedExactly(p: Platform, b: PolicyBundle, evidence: Evidence, now: int, site: Text, degraded: bool,
                       c: TrafficClass)
    requires DistinctClasses(b.classes) && c in b.classes
    ensures var permitted := Permitted(DecisionFor(p, b, evidence, now, site, degraded).classes, c.id);
            forall x :: x in permitted <==>
              exists link | link in b.links :: link.id == x && Clear(p, b.rules, link, c, AsOf(evidence, now), now)
  {
    PermittedOfClass(p, b, AsOf(evidence, now), now, c);
    PermittedExactly(p, b.links, b.rules, c, AsOf(evidence, now), now);
  }

  /** The first result under a class's id is that of the class. */
  lemma {:induction false} EntryOfClass(f: TrafficClass -> ClassEligibility, classes: seq<TrafficClass>,
                                        c: TrafficClass)
    requires c in classes && forall x | x in classes :: f(x).classId == x.id && (x.id == c.id ==> x == c)
    ensures Permitted(Map(f, classes), c.id) == f(c).permitted
  {
    if classes[0] != c {
      assert Map(f, classes)[1..] == Map(f, classes[1..]);
      EntryOfClass(f, classes[1..], c);
    }
  }

  lemma ClassResultsDistinct(p: Platform, b: PolicyBundle, evidence: Evidence, now: int)
    requires DistinctClasses(b.classes)
    ensures forall i, j | 0 <= i < j < |ClassResults(p, b, evidence, now)| ::
              ClassResults(p, b, evidence, now)[i].classId != ClassResults(p, b, evidence, now)[j].classId
  {
    ByPreorder(ClassKey);
    SortSorts(By(ClassKey), b.classes);
    SortMembers(By(ClassKey), b.classes);
    var sorted := Sort(By(ClassKey), b.classes);
    MultisetNoDuplicates(b.classes, sorted);
    forall i, j | 0 <= i < j < |sorted| ensures sorted[i].id != sorted[j].id {
      assert sorted[i] in b.classes && sorted[j] in b.classes && sorted[i] != sorted[j];
    }
  }

  // ---------- independence of order ----------

  ghost predicate DistinctRules(rules: seq<Rule>) {
    forall i, j | 0 <= i < j < |rules| :: rules[i].ruleId != rules[j].ruleId
  }

  lemma SortedLinksCanonical(a: seq<Link>, b: seq<Link>)
    requires multiset(a) == multiset(b) && DistinctLinks(a)
    ensures Sort(By(LinkKey), a) == Sort(By(LinkKey), b)
  {
    forall x, y | x in a && y in a && LinkKey(x) == LinkKey(y) ensures x == y {
      assert LinkKey(x)[0] == LinkKey(y)[0];
    }
    SortByKeyIffMultiset(LinkKey, a, b);
  }

  lemma SortedClassesCanonical(a: seq<TrafficClass>, b: seq<TrafficClass>)
    requires multiset(a) == multiset(b) && DistinctClasses(a)
    ensures Sort(By(ClassKey), a) == Sort(By(ClassKey), b)
  {
    forall x, y | x in a && y in a && ClassKey(x) == ClassKey(y) ensures x == y {
      assert ClassKey(x)[0] == ClassKey(y)[0];
    }
    SortByKeyIffMultiset(ClassKey, a, b);
  }

  /** Permuting the rules leaves the class result as it is when rule ids are distinct. */
  lemma RuleOrderIrrelevant(p: Platform, links: seq<Link>, a: seq<Rule>, b: seq<Rule>, c: TrafficClass,
                            evidence: Evidence, now: int)
    requires multiset(a) == multiset(b)
    requires DistinctLinks(links) && DistinctRules(a)
    ensures Eligibility(p, links, a, evidence, now)(c) == Eligibility(p, links, b, evidence, now)(c)
  {
    var sorted := Sort(By(LinkKey), links);
    var fa, fb := ReasonsFor(p, a, c, evidence, now), ReasonsFor(p, b, c, evidence, now);
    forall link: Link ensures multiset(fa(link)) == multiset(fb(link)) && (fa(link) == [] <==> fb(link) == []) {
      FlatMapPermutes(Ruling(p, link, c, evidence, now), a, b);
      assert |multiset(fa(link))| == |multiset(fb(link))|;
    }
    FlatMapPointwise(fa, fb, sorted);
    FlatMapEqual(Survivor(p, a, c, evidence, now), Survivor(p, b, c, evidence, now), sorted);
    ExclusionKeysSeparate(p, links, a, c, evidence, now);
    SortByKeyIffMultiset(ExclusionKey, FlatMap(fa, sorted), FlatMap(fb, sorted));
  }

  /** One link and one rule give at most one exclusion. */
  lemma ExclusionKeysSeparate(p: Platform, links: seq<Link>, rules: seq<Rule>, c: TrafficClass, evidence: Evidence,
                              now: int)
    requires DistinctLinks(links) && DistinctRules(rules)
    ensures var all := FlatMap(ReasonsFor(p, rules, c, evidence, now), Sort(By(LinkKey), links));
            forall x, y | x in all && y in all && ExclusionKey(x) == ExclusionKey(y) :: x == y
  {
    var all := FlatMap(ReasonsFor(p, rules, c, evidence, now), Sort(By(LinkKey), links));
    ByPreorder(ExclusionKey);
    SortMembers(By(ExclusionKey), all);
    ExclusionMembers(p, links, rules, c, evidence, now);
    forall x, y | x in all && y in all && ExclusionKey(x) == ExclusionKey(y) ensures x == y {
      assert ExclusionKey(x)[0] == ExclusionKey(y)[0] && ExclusionKey(x)[1] == ExclusionKey(y)[1];
      assert x in Eligibility(p, links, rules, evidence, now)(c).exclusions;
      assert y in Eligibility(p, links, rules, evidence, now)(c).exclusions;
      var l, r :| l in links && r in rules && Fires(p, r, l, c, evidence, now)
                  && x == Exclusion(l.id, r.ruleId, p.Words(Evaluate(p, r, l, c, evidence, now).value));
      var m, s :| m in links && s in rules && Fires(p, s, m, c, evidence, now)
                  && y == Exclusion(m.id, s.ruleId, p.Words(Evaluate(p, s, m, c, evidence, now).value));
      assert l == m && r == s;
    }
  }

  lemma {:induction false} FlatMapPointwise<A, B>(f: A -> seq<B>, g: A -> seq<B>, xs: seq<A>)
    requires forall x | x in xs :: multiset(f(x)) == multiset(g(x))
    ensures multiset(FlatMap(f, xs)) == multiset(FlatMap(g, xs))
  {
    if xs != [] {
      FlatMapPointwise(f, g, xs[..|xs| - 1]);
    }
  }

  lemma {:induction false} FlatMapEqual<A, B>(f: A -> seq<B>, g: A -> seq<B>, xs: seq<A>)
    requires forall x | x in xs :: f(x) == g(x)
    ensures FlatMap(f, xs) == FlatMap(g, xs)
  {
    if xs != [] {
      FlatMapEqual(f, g, xs[..|xs| - 1]);
    }
  }

  /** The class results are a function of the sets of links, classes and rules. */
  lemma DecisionIgnoresOrder(p: Platform, a: PolicyBundle, b: PolicyBundle, evidence: Evidence, now: int)
    requires multiset(a.links) == multiset(b.links) && DistinctLinks(a.links)
    requires multiset(a.classes) == multiset(b.classes) && DistinctClasses(a.classes)
    requires multiset(a.rules) == multiset(b.rules) && DistinctRules(a.rules)
    ensures ClassResults(p, a, evidence, now) == ClassResults(p, b, evidence, now)
  {
    SortedLinksCanonical(a.links, b.links);
    SortedClassesCanonical(a.classes, b.classes);
    var sorted := Sort(By(ClassKey), a.classes);
    forall i | 0 <= i < |sorted|
      ensures Eligibility(p, a.links, a.rules, evidence, now)(sorted[i])
              == Eligibility(p, b.links, b.rules, evidence, now)(sorted[i])
    {
      RuleOrderIrrelevant(p, a.links, a.rules, b.rules, sorted[i], evidence, now);
    }
    assert ClassResults(p, a, evidence, now) == ClassResults(p, b, evidence, now);
  }

  // ---------- reproducibility from hashes ----------

  lemma ClassResultsReadLatest(p: Platform, b: PolicyBundle, x: Evidence, y: Evidence, now: int)
    requires forall l, q :: Latest(x, l, q) == Latest(y, l, q)
    ensures ClassResults(p, b, x, now) == ClassResults(p, b, y, now)
  {
    forall c: TrafficClass
      ensures Eligibility(p, b.links, b.rules, x, now)(c) == Eligibility(p, b.links, b.rules, y, now)(c)
    {
      forall link: Link ensures ReasonsFor(p, b.rules, c, x, now)(link) == ReasonsFor(p, b.rules, c, y, now)(link) {
        forall rule: Rule ensures Ruling(p, link, c, x, now)(rule) == Ruling(p, link, c, y, now)(rule) {
          EvaluateReadsLatest(p, rule, link, c, x, y, now);
        }
        FlatMapEqual(Ruling(p, link, c, x, now), Ruling(p, link, c, y, now), b.rules);
      }
      var sorted := Sort(By(LinkKey), b.links);
      FlatMapEqual(ReasonsFor(p, b.rules, c, x, now), ReasonsFor(p, b.rules, c, y, now), sorted);
      FlatMapEqual(Survivor(p, b.rules, c, x, now), Survivor(p, b.rules, c, y, now), sorted);
    }
    assert ClassResults(p, b, x, now) == ClassResults(p, b, y, now);
  }

  /** A decision is reproducible from the hashes it carries: equal bundle and evidence hashes at one
      site, clock and mode mean the same decision, for bundles in whole seconds and evidence in
      which a link, a quantity and a time name one observation. */
  lemma HashesReproduceDecision(p: Platform, a: PolicyBundle, b: PolicyBundle, x: Evidence, y: Evidence,
                                now: int, site: Text, degraded: bool)
    requires WholeSeconds(a) && WholeSeconds(b)
    requires Encodable(BundleValue(a)) && Encodable(BundleValue(b))
    requires p.Distinguishes(EncodeBundle(a), EncodeBundle(b))
    requires var s, t := AsOf(x, now), AsOf(y, now);
             && Encodable(EvidenceValue(p, s)) && Encodable(EvidenceValue(p, t))
             && p.Distinguishes(Dumps(EvidenceValue(p, s)), Dumps(EvidenceValue(p, t)))
             && StampsSeparate(p, s, t) && Unambiguous(s)
    requires BundleHash(p, a) == BundleHash(p, b)
    requires EvidenceHash(p, AsOf(x, now)) == EvidenceHash(p, AsOf(y, now))
    ensures DecisionFor(p, a, x, now, site, degraded) == DecisionFor(p, b, y, now, site, degraded)
  {
    BundleHashMeansBundle(p, a, b);
    TruncatedFixpoint(a);
    TruncatedFixpoint(b);
    var s, t := AsOf(x, now), AsOf(y, now);
    EvidenceHashMeansMultiset(p, s, t);
    forall l, q ensures Latest(s, l, q) == Latest(t, l, q) {
      LatestOfPermutation(s, t, l, q);
    }
    ClassResultsReadLatest(p, a, s, t, now);
  }

  /** No directive against a link of the bundle changes force between its expiry and the whole second
      that the wire keeps of it. */
  ghost predicate ExpiriesAgree(b: PolicyBundle, now: int) {
    forall link, r | link in b.links && r in b.rules :: ExpiryAgrees(link, r, now)
  }

  ghost predicate ExpiryAgrees(link: Link, r: Rule, now: int) {
    r.DirectiveRule? && r.linkId == link.id ==> (now < r.notAfter <==> now < Truncated(r.notAfter))
  }

  /** A bundle decides after the wire as it did before, hash included. */
  lemma WireKeepsDecision(p: Platform, b: PolicyBundle, evidence: Evidence, now: int, site: Text, degraded: bool)
    requires ExpiriesAgree(b, now)
    ensures DecisionFor(p, TruncatedBundle(b), evidence, now, site, degraded)
            == DecisionFor(p, b, evidence, now, site, degraded)
  {
    EncodeBundleOfTruncated(p, b);
    var seen, rules := AsOf(evidence, now), Map(TruncatedRule, b.rules);
    forall c: TrafficClass
      ensures Eligibility(p, b.links, rules, seen, now)(c) == Eligibility(p, b.links, b.rules, seen, now)(c)
    {
      WireKeepsEligibility(p, b, seen, now, c);
    }
    assert ClassResults(p, TruncatedBundle(b), seen, now) == ClassResults(p, b, seen, now);
  }

  lemma WireKeepsEligibility(p: Platform, b: PolicyBundle, seen: Evidence, now: int, c: TrafficClass)
    requires ExpiriesAgree(b, now)
    ensures Eligibility(p, b.links, Map(TruncatedRule, b.rules), seen, now)(c)
            == Eligibility(p, b.links, b.rules, seen, now)(c)
  {
    var rules := Map(TruncatedRule, b.rules);
    forall link | link in b.links
      ensures ReasonsFor(p, rules, c, seen, now)(link) == ReasonsFor(p, b.rules, c, seen, now)(link)
    {
      forall r | r in b.rules
        ensures Ruling(p, link, c, seen, now)(TruncatedRule(r)) == Ruling(p, link, c, seen, now)(r)
      {
        assert ExpiryAgrees(link, r, now);
      }
      FlatMapOfMap(Ruling(p, link, c, seen, now), TruncatedRule, b.rules);
    }
    var sorted := Sort(By(LinkKey), b.links);
    ByPreorder(LinkKey);
    SortMembers(By(LinkKey), b.links);
    FlatMapEqual(ReasonsFor(p, rules, c, seen, now), ReasonsFor(p, b.rules, c, seen, now), sorted);
    FlatMapEqual(Survivor(p, rules, c, seen, now), Survivor(p, b.rules, c, seen, now), sorted);
  }

  /** The result excludes the link by the rule. */
  ghost predicate Names(result: ClassEligibility, link: Text, rule: Text) {
    exists e | e in result.exclusions :: e.link == link && e.rule == rule
  }

  /** With distinct ids, an exclusion of the link by the rule's id is there exactly when the rule fires. */
  lemma ExclusionNamesRule(p: Platform, links: seq<Link>, rules: seq<Rule>, link: Link, rule: Rule, c: TrafficClass,
                           evidence: Evidence, now: int)
    requires DistinctLinks(links) && DistinctRules(rules) && link in links && rule in rules
    ensures Names(Eligibility(p, links, rules, evidence, now)(c), link.id, rule.ruleId)
            <==> Fires(p, rule, link, c, evidence, now)
  {
    ExclusionMembers(p, links, rules, c, evidence, now);
    var exclusions := Eligibility(p, links, rules, evidence, now)(c).exclusions;
    if e :| e in exclusions && e.link == link.id && e.rule == rule.ruleId {
      var l, r :| l in links && r in rules && Fires(p, r, l, c, evidence, now)
                  && e == Exclusion(l.id, r.ruleId, p.Words(Evaluate(p, r, l, c, evidence, now).value));
      assert l == link && r == rule;
    }
    if Fires(p, rule, link, c, evidence, now) {
      var e := Exclusion(link.id, rule.ruleId, p.Words(Evaluate(p, rule, link, c, evidence, now).value));
      assert e in exclusions && e.link == link.id && e.rule == rule.ruleId;
    }
  }

  /** An expiry that the wire moves across the clock changes what the rule excludes. */
  lemma WireTellsExpiry(p: Platform, b: PolicyBundle, seen: Evidence, now: int, c: TrafficClass, link: Link, r: Rule)
    requires DistinctLinks(b.links) && DistinctRules(b.rules)
    requires link in b.links && r in b.rules && !ExpiryAgrees(link, r, now)
    ensures Names(Eligibility(p, b.links, Map(TruncatedRule, b.rules), seen, now)(c), link.id, r.ruleId)
            != Names(Eligibility(p, b.links, b.rules, seen, now)(c), link.id, r.ruleId)
  {
    ExclusionNamesRule(p, b.links, b.rules, link, r, c, seen, now);
    TruncatedRulesDistinct(b.rules, r);
    ExclusionNamesRule(p, b.links, Map(TruncatedRule, b.rules), link, TruncatedRule(r), c, seen, now);
  }

  /** With distinct ids the wire keeps a class's result exactly when no directive against one of the
      links falls between its expiry and the whole second kept of it. */
  lemma WireKeepsEligibilityIff(p: Platform, b: PolicyBundle, seen: Evidence, now: int, c: TrafficClass)
    requires DistinctLinks(b.links) && DistinctRules(b.rules)
    ensures Eligibility(p, b.links, Map(TruncatedRule, b.rules), seen, now)(c)
            == Eligibility(p, b.links, b.rules, seen, now)(c)
            <==> ExpiriesAgree(b, now)
  {
    if ExpiriesAgree(b, now) {
      WireKeepsEligibility(p, b, seen, now, c);
    } else {
      var link, r :| link in b.links && r in b.rules && !ExpiryAgrees(link, r, now);
      WireTellsExpiry(p, b, seen, now, c, link, r);
    }
  }

  lemma TruncatedRulesDistinct(rules: seq<Rule>, rule: Rule)
    requires DistinctRules(rules) && rule in rules
    ensures DistinctRules(Map(TruncatedRule, rules)) && TruncatedRule(rule) in Map(TruncatedRule, rules)
  {
    var i :| 0 <= i < |rules| && rules[i] == rule;
    assert Map(TruncatedRule, rules)[i] == TruncatedRule(rule);
  }

  lemma {:induction false} FlatMapOfMap<A, B>(f: A -> seq<B>, g: A -> A, xs: seq<A>)
    requires forall x | x in xs :: f(g(x)) == f(x)
    ensures FlatMap(f, Map(g, xs)) == FlatMap(f, xs)
  {
    if xs != [] {
      var n := |xs| - 1;
      FlatMapOfMap(f, g, xs[..n]);
      assert Map(g, xs)[..n] == Map(g, xs[..n]);
      assert xs[n] in xs;
    }
  }

  // ---------- contraction ----------

  /** As time passes over the same evidence a class gains a link only by the lapse of a directive. */
  lemma PermittedContracts(p: Platform, b: PolicyBundle, evidence: Evidence, c: TrafficClass, now: int, later: int)
    requires now <= later
    requires forall o | o in evidence :: o.at <= now + MAX_CLOCK_SKEW
    ensures AsOf(evidence, now) == AsOf(evidence, later) == evidence
    ensures forall x | x in Eligibility(p, b.links, b.rules, AsOf(evidence, later), later)(c).permitted ::
              x in Eligibility(p, b.links, b.rules, AsOf(evidence, now), now)(c).permitted
              || exists link, rule | link in b.links && rule in b.rules ::
                   link.id == x && Lapses(rule, link, now, later)
  {
    FilterAll(NotAfter(now + MAX_CLOCK_SKEW), evidence);
    FilterAll(NotAfter(later + MAX_CLOCK_SKEW), evidence);
    PermittedMembers(p, b.links, b.rules, c, evidence, now);
    PermittedMembers(p, b.links, b.rules, c, evidence, later);
    forall link | link in b.links && Excluded(p, b.rules, link, c, evidence, now)
      ensures Excluded(p, b.rules, link, c, evidence, later)
              || exists rule | rule in b.rules :: Lapses(rule, link, now, later)
    {
      var rule :| rule in b.rules && Fires(p, rule, link, c, evidence, now);
      FiresLater(p, rule, link, c, evidence, now, later);
    }
  }

  /** Losing every observation of one link's quantity never permits a link. */
  lemma MissingEvidencePermitsLess(p: Platform, b: PolicyBundle, evidence: Evidence, c: TrafficClass, now: int,
                                   l: Text, q: Text)
    ensures forall x | x in Eligibility(p, b.links, b.rules, AsOf(Without(evidence, l, q), now), now)(c).permitted ::
              x in Eligibility(p, b.links, b.rules, AsOf(evidence, now), now)(c).permitted
  {
    FilterCommutes(NotAfter(now + MAX_CLOCK_SKEW), OtherThan(l, q), evidence);
    var seen := AsOf(evidence, now);
    PermittedMembers(p, b.links, b.rules, c, seen, now);
    PermittedMembers(p, b.links, b.rules, c, Without(seen, l, q), now);
    forall link: Link | Excluded(p, b.rules, link, c, seen, now)
      ensures Excluded(p, b.rules, link, c, Without(seen, l, q), now)
    {
      var rule :| rule in b.rules && Fires(p, rule, link, c, seen, now);
      FiresWithout(p, rule, link, c, seen, now, l, q);
    }
  }

  lemma {:induction false} FilterCommutes<A>(f: A -> bool, g: A -> bool, xs: seq<A>)
    ensures Filter(f, Filter(g, xs)) == Filter(g, Filter(f, xs))
  {
    if xs != [] {
      var front, x := xs[..|xs| - 1], xs[|xs| - 1];
      FilterCommutes(f, g, front);
      FilterConcat(f, Filter(g, front), [x]);
      FilterConcat(g, Filter(f, front), [x]);
      assert [x][..0] == [];
    }
  }

  /** The evidence at the marked positions. */
  function Marked(evidence: Evidence, marks: seq<bool>): Evidence
    requires |marks| == |evidence|
  {
    if evidence == [] then []
    else
      var n := |evidence| - 1;
      Marked(evidence[..n], marks[..n]) + if marks[n] then [evidence[n]] else []
  }

  lemma {:induction false} MarkedAsOf(evidence: Evidence, marks: seq<bool>, now: int)
    requires |marks| == |evidence|
    requires forall i | 0 <= i < |evidence| && !marks[i] :: evidence[i].at > now + MAX_CLOCK_SKEW
    ensures AsOf(Marked(evidence, marks), now) == AsOf(evidence, now)
  {
    if evidence != [] {
      var n := |evidence| - 1;
      MarkedAsOf(evidence[..n], marks[..n], now);
      if marks[n] {
        FilterConcat(NotAfter(now + MAX_CLOCK_SKEW), Marked(evidence[..n], marks[..n]), [evidence[n]]);
        FilterConcat(NotAfter(now + MAX_CLOCK_SKEW), evidence[..n], [evidence[n]]);
        assert evidence[..n] + [evidence[n]] == evidence;
      } else {
        assert Marked(evidence[..n], marks[..n]) + [] == Marked(evidence[..n], marks[..n]);
      }
    }
  }

  /** Observations from beyond the skew horizon, wherever they stand in the evidence, change nothing, not
      even the evidence hash. */
  lemma FutureEvidenceIgnored(p: Platform, b: PolicyBundle, evidence: Evidence, marks: seq<bool>, now: int, site: Text,
                              degraded: bool)
    requires |marks| == |evidence|
    requires forall i | 0 <= i < |evidence| && !marks[i] :: evidence[i].at > now + MAX_CLOCK_SKEW
    ensures DecisionFor(p, b, Marked(evidence, marks), now, site, degraded)
            == DecisionFor(p, b, evidence, now, site, degraded)
  {
    MarkedAsOf(evidence, marks, now);
  }
}
