/** Policy bundles and eligibility decisions (pilotfish/core/bundle.py, pilotfish/core/decide.py). */
module Policy {
  import opened Prelude
  import opened Models
  import opened Rules

  datatype PolicyBundle = PolicyBundle(
    bundleId: Text, authorityId: Text, sequence: int, issuedAt: int, notAfter: int, ttl: int,
    links: seq<Link>, classes: seq<TrafficClass>, rules: seq<Rule>)

  datatype Exclusion = Exclusion(link: Text, rule: Text, reason: Text)

  datatype ClassEligibility = ClassEligibility(classId: Text, permitted: seq<Text>, exclusions: seq<Exclusion>)

  datatype Decision = Decision(
    site: Text, decidedAt: int, validUntil: int, bundleHash: Text, evidenceHash: Text, degraded: bool,
    classes: seq<ClassEligibility>)

  // ---------- whole seconds ----------

  /** `int(value.timestamp())` truncates toward zero. */
  function ToSeconds(t: int): int {
    if t >= 0 then t / SECOND else -(-t / SECOND)
  }

  function FromSeconds(s: int): int {
    s * SECOND
  }

  /** A time as it comes back from the wire. */
  function Truncated(t: int): int {
    FromSeconds(ToSeconds(t))
  }

  lemma TruncatedTwice(t: int)
    ensures ToSeconds(Truncated(t)) == ToSeconds(t)
    ensures Truncated(t) == t <==> t % SECOND == 0
    ensures t >= 0 ==> Truncated(t) <= t < Truncated(t) + SECOND
    ensures t < 0 ==> Truncated(t) - SECOND < t <= Truncated(t) <= 0
  {
    if t < 0 {
      assert -t == SECOND * (-t / SECOND) + -t % SECOND;
    }
  }

  function TruncatedRule(rule: Rule): Rule {
    if rule.DirectiveRule? then rule.(notAfter := Truncated(rule.notAfter)) else rule
  }

  function TruncatedBundle(b: PolicyBundle): PolicyBundle {
    b.(issuedAt := Truncated(b.issuedAt), notAfter := Truncated(b.notAfter), rules := Map(TruncatedRule, b.rules))
  }

  function TruncatedDecision(d: Decision): Decision {
    d.(decidedAt := Truncated(d.decidedAt), validUntil := Truncated(d.validUntil))
  }

  /** Every time in the bundle is a whole number of seconds. */
  ghost predicate WholeSeconds(b: PolicyBundle) {
    && b.issuedAt % SECOND == 0
    && b.notAfter % SECOND == 0
    && forall r | r in b.rules && r.DirectiveRule? :: r.notAfter % SECOND == 0
  }

  lemma TruncatedFixpoint(b: PolicyBundle)
    ensures TruncatedBundle(b) == b <==> WholeSeconds(b)
  {
    TruncatedTwice(b.issuedAt);
    TruncatedTwice(b.notAfter);
    forall r | r in b.rules ensures TruncatedRule(r) == r <==> (r.DirectiveRule? ==> r.notAfter % SECOND == 0) {
      if r.DirectiveRule? {
        TruncatedTwice(r.notAfter);
      }
    }
    if WholeSeconds(b) {
      assert Map(TruncatedRule, b.rules) == b.rules;
    }
    if TruncatedBundle(b) == b {
      forall r | r in b.rules && r.DirectiveRule? ensures r.notAfter % SECOND == 0 {
        var i :| 0 <= i < |b.rules| && b.rules[i] == r;
        assert Map(TruncatedRule, b.rules)[i] == TruncatedRule(r);
      }
    }
  }
}
