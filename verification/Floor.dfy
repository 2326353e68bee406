/** The inventory hash and the floor policy (pilotfish/core/bundle.py). */
module Floor {
  import opened Prelude
  import opened Ordering
  import opened Cbor
  import opened Models
  import opened Rules
  import opened Policy
  import opened Messages

  // ---------- link_inventory_hash ----------

  /** The owner is no part of the inventory. */
  function Unowned(link: Link): Link {
    link.(owner := [])
  }

  function InventoryKey(link: Link): Row {
    [KText(link.id), KText(link.kind), KNumber(if link.metered then 1.0 else 0.0),
     KNumber(if link.encryptedBelow then 1.0 else 0.0), KTexts(link.jurisdictions)]
  }

  function InventoryRow(link: Link): Value {
    VArray([VText(link.id), VText(link.kind), VBool(link.metered), VBool(link.encryptedBelow),
            TextsValue(link.jurisdictions)])
  }

  function InventoryValue(links: seq<Link>): Value {
    VArray(Map(InventoryRow, Sort(By(InventoryKey), Map(Unowned, links))))
  }

  function InventoryHash(p: Platform, links: seq<Link>): Text {
    p.HexDigest(Dumps(InventoryValue(links)))
  }

  lemma InventoryRowSeparates(x: Link, y: Link)
    requires InventoryRow(x) == InventoryRow(y) && x.owner == y.owner
    ensures x == y
  {
    var a, b := InventoryRow(x).items, InventoryRow(y).items;
    assert a[0] == b[0] && a[1] == b[1] && a[2] == b[2] && a[3] == b[3] && a[4] == b[4];
    var f, g := Map(TextValue, x.jurisdictions), Map(TextValue, y.jurisdictions);
    assert f == g && |f| == |x.jurisdictions| && |g| == |y.jurisdictions|;
    forall i | 0 <= i < |f| ensures x.jurisdictions[i] == y.jurisdictions[i] {
      assert f[i] == g[i] && f[i] == TextValue(x.jurisdictions[i]) && g[i] == TextValue(y.jurisdictions[i]);
    }
  }

  lemma UnownedRows(links: seq<Link>)
    ensures forall x | x in Map(Unowned, links) :: x.owner == []
    ensures forall x | x in Sort(By(InventoryKey), Map(Unowned, links)) :: x.owner == []
  {
    ByPreorder(InventoryKey);
    SortMembers(By(InventoryKey), Map(Unowned, links));
  }

  /** Undisputed inventory hashes agree exactly when the inventories are equal as multisets of
      links, owners aside. */
  lemma InventoryHashDecidesInventory(p: Platform, a: seq<Link>, b: seq<Link>)
    requires Encodable(InventoryValue(a)) && Encodable(InventoryValue(b))
    requires p.Distinguishes(Dumps(InventoryValue(a)), Dumps(InventoryValue(b)))
    ensures InventoryHash(p, a) == InventoryHash(p, b) <==> multiset(Map(Unowned, a)) == multiset(Map(Unowned, b))
  {
    DigestSeparates(p, Dumps(InventoryValue(a)), Dumps(InventoryValue(b)));
    UnownedRows(a);
    UnownedRows(b);
    assert forall x, y | x in Map(Unowned, a) && y in Map(Unowned, a) && InventoryKey(x) == InventoryKey(y) :: x == y;
    SortByKeyIffMultiset(InventoryKey, Map(Unowned, a), Map(Unowned, b));
    if InventoryHash(p, a) == InventoryHash(p, b) {
      EncodeInjective(InventoryValue(a), InventoryValue(b));
      var sa, sb := Sort(By(InventoryKey), Map(Unowned, a)), Sort(By(InventoryKey), Map(Unowned, b));
      assert Map(InventoryRow, sa) == Map(InventoryRow, sb) && |Map(InventoryRow, sa)| == |sa|;
      forall i | 0 <= i < |sa| ensures sa[i] == sb[i] {
        assert Map(InventoryRow, sa)[i] == Map(InventoryRow, sb)[i];
        InventoryRowSeparates(sa[i], sb[i]);
      }
    }
  }

  // ---------- floor_bundle ----------

  const FLOOR_BUNDLE_ID := Ascii("floor")
  const FSO := Ascii("fso")
  const FLOOR_VALIDITY := 3650 * 86400 * SECOND

  /** Every constraint one class declares. */
  function ClassConstraints(c: TrafficClass): seq<Rule> {
    [MeteredRule(Ascii("FLOOR-METER-") + c.id, c.id)]
    + (if c.maxRtt.Some? then [MaxRttRule(Ascii("FLOOR-RTT-") + c.id, c.id)] else [])
    + (if c.allowedJurisdictions.Some? then [JurisdictionRule(Ascii("FLOOR-JUR-") + c.id, c.id)] else [])
    + (if c.requiresEncryption then [EncryptionRule(Ascii("FLOOR-ENC-") + c.id, c.id)] else [])
  }

  /** `_floor_class_rules`: the loop that appends each class's constraints. */
  method FloorClassRules(classes: seq<TrafficClass>) returns (rules: seq<Rule>)
    ensures rules == FlatMap(ClassConstraints, classes)
  {
    rules := [];
    for i := 0 to |classes|
      invariant rules == FlatMap(ClassConstraints, classes[..i])
    {
      var c := classes[i];
      assert classes[..i + 1][..i] == classes[..i];
      ghost var before := rules;
      rules := rules + [MeteredRule(Ascii("FLOOR-METER-") + c.id, c.id)];
      if c.maxRtt.Some? {
        rules := rules + [MaxRttRule(Ascii("FLOOR-RTT-") + c.id, c.id)];
      }
      if c.allowedJurisdictions.Some? {
        rules := rules + [JurisdictionRule(Ascii("FLOOR-JUR-") + c.id, c.id)];
      }
      if c.requiresEncryption {
        rules := rules + [EncryptionRule(Ascii("FLOOR-ENC-") + c.id, c.id)];
      }
      assert rules == before + ClassConstraints(c);
    }
    assert classes[..|classes|] == classes;
  }

  const DEFAULT_CLASS := TrafficClass(Ascii("default"), None, false, None, false)

  /** No class list, or an empty one, stands for the single default class. */
  function FloorClasses(classes: seq<TrafficClass>): seq<TrafficClass> {
    if classes == [] then [DEFAULT_CLASS] else classes
  }

  function FloorRules(classes: seq<TrafficClass>): seq<Rule> {
    [LinkDownRule(Ascii("FLOOR-DOWN")),
     LinkTypeRule(Ascii("FLOOR-FSO"), FSO, Ascii("floor policy refuses free-space optics without an authority"))]
    + FlatMap(ClassConstraints, classes)
  }

  function FloorBundle(links: seq<Link>, now: Option<int>, authority: Text, classes: seq<TrafficClass>): PolicyBundle {
    var issued := if now.Some? then now.value else 0;
    PolicyBundle(FLOOR_BUNDLE_ID, authority, 0, issued, issued + FLOOR_VALIDITY, 60, links,
                 FloorClasses(classes), FloorRules(FloorClasses(classes)))
  }

  /** The rule binds the class to a constraint that the class declares. */
  predicate Declares(c: TrafficClass, rule: Rule) {
    || rule == MeteredRule(Ascii("FLOOR-METER-") + c.id, c.id)
    || (c.maxRtt.Some? && rule == MaxRttRule(Ascii("FLOOR-RTT-") + c.id, c.id))
    || (c.allowedJurisdictions.Some? && rule == JurisdictionRule(Ascii("FLOOR-JUR-") + c.id, c.id))
    || (c.requiresEncryption && rule == EncryptionRule(Ascii("FLOOR-ENC-") + c.id, c.id))
  }

  /** The floor is of its own making in everything but links, classes, authority and time: it has the rule
      of liveness, the refusal of free-space optics, every constraint that its classes declare, and no
      other rule, and is good for ten years of 365 days. */
  lemma FloorHasExactly(links: seq<Link>, now: Option<int>, authority: Text, classes: seq<TrafficClass>, rule: Rule)
    ensures var b := FloorBundle(links, now, authority, classes);
            && b.links == links && b.authorityId == authority && b.sequence == 0
            && b.classes == (if classes == [] then [DEFAULT_CLASS] else classes)
            && b.issuedAt == (if now.Some? then now.value else 0)
            && b.notAfter - b.issuedAt == 10 * 365 * 24 * 3600 * SECOND
            && (rule in b.rules <==>
                  rule == LinkDownRule(Ascii("FLOOR-DOWN"))
                  || (rule.LinkTypeRule? && rule.ruleId == Ascii("FLOOR-FSO") && rule.linkType == Ascii("fso")
                      && rule.text == Ascii("floor policy refuses free-space optics without an authority"))
                  || exists c | c in b.classes :: Declares(c, rule))
  {
    var all := FloorClasses(classes);
    FlatMapMembers(ClassConstraints, all, rule);
    forall c: TrafficClass ensures rule in ClassConstraints(c) <==> Declares(c, rule) {
    }
  }

  // ---------- what the floor lets through ----------

  /** The promise of the floor, in terms of the link, the class and the evidence alone. */
  ghost predicate FloorAdmits(p: Platform, link: Link, c: TrafficClass, evidence: Evidence) {
    var up, rtt := Latest(evidence, link.id, UP), Latest(evidence, link.id, RTT);
    && up.Some? && p.Read(up.value.value) >= 1.0
    && link.kind != FSO
    && (link.metered ==> c.allowMetered)
    && (c.maxRtt.Some? ==> rtt.Some? && p.Read(rtt.value.value) <= p.Read(c.maxRtt.value))
    && (c.allowedJurisdictions.Some? ==>
          link.jurisdictions != [] && forall j | j in link.jurisdictions :: j in c.allowedJurisdictions.value)
    && (c.requiresEncryption ==> link.encryptedBelow)
  }

  lemma JurisdictionsCrossed(c: TrafficClass, link: Link)
    requires c.allowedJurisdictions.Some?
    ensures Filter(NotAmong(c.allowedJurisdictions.value), link.jurisdictions) == []
            <==> forall j | j in link.jurisdictions :: j in c.allowedJurisdictions.value
  {
    var keep := NotAmong(c.allowedJurisdictions.value);
    var crossed := Filter(keep, link.jurisdictions);
    forall j ensures j in crossed <==> j in link.jurisdictions && keep(j) {
      FilterMembers(keep, link.jurisdictions, j);
    }
    if crossed != [] {
      assert crossed[0] in crossed;
    }
  }

  /** A rule that the floor writes fires only against a link it must refuse. */
  lemma FloorRuleFiresRightly(p: Platform, classes: seq<TrafficClass>, rule: Rule, link: Link, c: TrafficClass,
                              evidence: Evidence, now: int)
    requires rule in FloorRules(classes)
    requires FloorAdmits(p, link, c, evidence)
    ensures !Fires(p, rule, link, c, evidence, now)
  {
    FlatMapMembers(ClassConstraints, classes, rule);
    if c.allowedJurisdictions.Some? {
      JurisdictionsCrossed(c, link);
    }
  }

  lemma FloorHasConstraint(classes: seq<TrafficClass>, c: TrafficClass, rule: Rule)
    requires c in classes && rule in ClassConstraints(c)
    ensures rule in FloorRules(classes)
  {
    FlatMapMembers(ClassConstraints, classes, rule);
  }

  /** No floor rule fires for a declared class exactly when the link meets all that the class
      declares, is observed up, and is not free-space optics. */
  lemma FloorRulesAdmit(p: Platform, classes: seq<TrafficClass>, link: Link, c: TrafficClass, evidence: Evidence,
                        now: int)
    requires c in classes
    ensures (forall rule | rule in FloorRules(classes) :: !Fires(p, rule, link, c, evidence, now))
            <==> FloorAdmits(p, link, c, evidence)
  {
    if FloorAdmits(p, link, c, evidence) {
      forall rule | rule in FloorRules(classes) ensures !Fires(p, rule, link, c, evidence, now) {
        FloorRuleFiresRightly(p, classes, rule, link, c, evidence, now);
      }
    }
    if forall rule | rule in FloorRules(classes) :: !Fires(p, rule, link, c, evidence, now) {
      SilentFloorAdmits(p, classes, link, c, evidence, now);
    }
  }

  lemma SilentFloorAdmits(p: Platform, classes: seq<TrafficClass>, link: Link, c: TrafficClass, evidence: Evidence,
                          now: int)
    requires c in classes
    requires forall rule | rule in FloorRules(classes) :: !Fires(p, rule, link, c, evidence, now)
    ensures FloorAdmits(p, link, c, evidence)
  {
    var down, fso := FloorRules(classes)[0], FloorRules(classes)[1];
    assert down in FloorRules(classes) && fso in FloorRules(classes);
    assert !Fires(p, down, link, c, evidence, now) && !Fires(p, fso, link, c, evidence, now);
    SilentConstraints(p, classes, link, c, evidence, now);
  }

  lemma SilentConstraints(p: Platform, classes: seq<TrafficClass>, link: Link, c: TrafficClass, evidence: Evidence,
                          now: int)
    requires c in classes
    requires forall rule | rule in FloorRules(classes) :: !Fires(p, rule, link, c, evidence, now)
    ensures link.metered ==> c.allowMetered
    ensures var rtt := Latest(evidence, link.id, RTT);
            c.maxRtt.Some? ==> rtt.Some? && p.Read(rtt.value.value) <= p.Read(c.maxRtt.value)
    ensures c.allowedJurisdictions.Some? ==>
              link.jurisdictions != [] && forall j | j in link.jurisdictions :: j in c.allowedJurisdictions.value
    ensures c.requiresEncryption ==> link.encryptedBelow
  {
    FloorHasConstraint(classes, c, MeteredRule(Ascii("FLOOR-METER-") + c.id, c.id));
    if c.maxRtt.Some? {
      FloorHasConstraint(classes, c, MaxRttRule(Ascii("FLOOR-RTT-") + c.id, c.id));
    }
    if c.allowedJurisdictions.Some? {
      JurisdictionsCrossed(c, link);
      FloorHasConstraint(classes, c, JurisdictionRule(Ascii("FLOOR-JUR-") + c.id, c.id));
    }
    if c.requiresEncryption {
      FloorHasConstraint(classes, c, EncryptionRule(Ascii("FLOOR-ENC-") + c.id, c.id));
    }
  }

  /** The floor has no directive, so the wire changes nothing but its validity window. */
  lemma FloorSurvivesTruncation(links: seq<Link>, now: Option<int>, authority: Text, classes: seq<TrafficClass>)
    ensures var floor := FloorBundle(links, now, authority, classes);
            var back := TruncatedBundle(floor);
            back.rules == floor.rules && back.classes == floor.classes && back.links == floor.links
  {
    var rules := FloorRules(FloorClasses(classes));
    forall i | 0 <= i < |rules| ensures TruncatedRule(rules[i]) == rules[i] {
      assert rules[i] in rules;
      FlatMapMembers(ClassConstraints, FloorClasses(classes), rules[i]);
    }
    assert Map(TruncatedRule, rules) == rules;
  }
}
