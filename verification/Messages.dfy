/** Codecs for bundles, decisions and the floor configuration (pilotfish/protocol/messages.py). */
module Messages {
  import opened Prelude
  import opened Cbor
  import opened Models
  import opened Rules
  import opened Policy

  const MSG_POLICY_BUNDLE := Ascii("POLICY_BUNDLE")
  const MSG_DECISION_RECEIPT := Ascii("DECISION_RECEIPT")
  const MSG_FLOOR_CONFIG := Ascii("FLOOR_CONFIG")

  datatype CodecError = Malformed | UnknownRuleKind(kind: Text)

  // ---------- reading fields ----------

  function ItemsOf(v: Value): Result<seq<Value>, CodecError> {
    if v.VArray? then Ok(v.items) else Err(Malformed)
  }

  function At(f: seq<Value>, i: nat): Result<Value, CodecError> {
    if i < |f| then Ok(f[i]) else Err(Malformed)
  }

  function AsText(v: Value): Result<Text, CodecError> {
    if v.VText? then Ok(v.text) else Err(Malformed)
  }

  function AsBytes(v: Value): Result<Bytes, CodecError> {
    if v.VBytes? then Ok(v.bytes) else Err(Malformed)
  }

  function AsBool(v: Value): Result<bool, CodecError> {
    if v.VBool? then Ok(v.flag) else Err(Malformed)
  }

  function AsInt(v: Value): Result<int, CodecError> {
    if v.VInt? then Ok(v.n) else Err(Malformed)
  }

  function AsNumber(v: Value): Result<Number, CodecError> {
    if v.VInt? then Ok(Whole(v.n)) else if v.VFloat? then Ok(Float(v.bits)) else Err(Malformed)
  }

  function TextAt(f: seq<Value>, i: nat): Result<Text, CodecError> {
    var v :- At(f, i);
    AsText(v)
  }

  function BytesAt(f: seq<Value>, i: nat): Result<Bytes, CodecError> {
    var v :- At(f, i);
    AsBytes(v)
  }

  function BoolAt(f: seq<Value>, i: nat): Result<bool, CodecError> {
    var v :- At(f, i);
    AsBool(v)
  }

  function IntAt(f: seq<Value>, i: nat): Result<int, CodecError> {
    var v :- At(f, i);
    AsInt(v)
  }

  function NumberAt(f: seq<Value>, i: nat): Result<Number, CodecError> {
    var v :- At(f, i);
    AsNumber(v)
  }

  function ListAt<T>(read: Value -> Result<T, CodecError>, f: seq<Value>, i: nat): Result<seq<T>, CodecError> {
    var v :- At(f, i);
    var items :- ItemsOf(v);
    ReadEach(read, items)
  }

  /** Reads a list element by element; the first failure is the failure of the whole. */
  function ReadEach<T>(read: Value -> Result<T, CodecError>, vs: seq<Value>): Result<seq<T>, CodecError> {
    if vs == [] then Ok([])
    else
      var x :- read(vs[0]);
      var xs :- ReadEach(read, vs[1..]);
      Ok([x] + xs)
  }

  lemma {:induction false} ReadEachReads<T>(read: Value -> Result<T, CodecError>, vs: seq<Value>)
    ensures ReadEach(read, vs).Ok? <==> forall i | 0 <= i < |vs| :: read(vs[i]).Ok?
    ensures ReadEach(read, vs).Ok? ==>
              |ReadEach(read, vs).value| == |vs|
              && forall i | 0 <= i < |vs| :: read(vs[i]) == Ok(ReadEach(read, vs).value[i])
  {
    if vs != [] {
      ReadEachReads(read, vs[1..]);
      assert forall i | 1 <= i < |vs| :: vs[i] == vs[1..][i - 1];
    }
  }

  lemma ReadEachOfMap<T>(write: T -> Value, read: Value -> Result<T, CodecError>, normal: T -> T, xs: seq<T>)
    requires forall x | x in xs :: read(write(x)) == Ok(normal(x))
    ensures ReadEach(read, Map(write, xs)) == Ok(Map(normal, xs))
  {
    ReadEachReads(read, Map(write, xs));
    assert forall i | 0 <= i < |xs| :: xs[i] in xs;
    assert ReadEach(read, Map(write, xs)).value == Map(normal, xs);
  }

  /** The value is a list in which these stand, in order. */
  predicate ListStands<T(!new)>(stands: (Value, T) -> bool, v: Value, xs: seq<T>) {
    v.VArray? && |v.items| == |xs| && forall i | 0 <= i < |xs| :: stands(v.items[i], xs[i])
  }

  lemma ListDecodesExactly<T(!new)>(read: Value -> Result<T, CodecError>, stands: (Value, T) -> bool, f: seq<Value>,
                                    i: nat, xs: seq<T>)
    requires forall v, x :: read(v) == Ok(x) <==> stands(v, x)
    ensures ListAt(read, f, i) == Ok(xs) <==> i < |f| && ListStands(stands, f[i], xs)
  {
    if i < |f| && f[i].VArray? {
      var vs := f[i].items;
      ReadEachReads(read, vs);
      if ListStands(stands, f[i], xs) {
        assert forall k | 0 <= k < |vs| :: read(vs[k]) == Ok(xs[k]);
        assert ReadEach(read, vs).value == xs;
      }
    }
  }

  predicate TextStands(v: Value, t: Text) {
    v == VText(t)
  }

  lemma TextsDecodeExactly(f: seq<Value>, i: nat, ts: seq<Text>)
    ensures ListAt(AsText, f, i) == Ok(ts) <==> i < |f| && ListStands(TextStands, f[i], ts)
  {
    ListDecodesExactly(AsText, TextStands, f, i, ts);
  }

  function TextValue(t: Text): Value {
    VText(t)
  }

  function TextsValue(ts: seq<Text>): Value {
    VArray(Map(TextValue, ts))
  }

  lemma ReadTexts(ts: seq<Text>)
    ensures ReadEach(AsText, Map(TextValue, ts)) == Ok(ts)
  {
    ReadEachOfMap(TextValue, AsText, (t: Text) => t, ts);
    assert Map((t: Text) => t, ts) == ts;
  }

  // ---------- rules ----------

  datatype Kind = Down | MaxRtt | Metered | Quota | Freshness | Jurisdiction | Encryption | LinkType | Directive

  /** The tag that names a kind on the wire. */
  function Tag(kind: Kind): Text {
    match kind
    case Down => Ascii("down")
    case MaxRtt => Ascii("max_rtt")
    case Metered => Ascii("metered")
    case Quota => Ascii("quota")
    case Freshness => Ascii("freshness")
    case Jurisdiction => Ascii("jurisdiction")
    case Encryption => Ascii("encryption")
    case LinkType => Ascii("link_type")
    case Directive => Ascii("directive")
  }

  /** The decoder table's lookup. */
  function KindOf(tag: Text): Option<Kind> {
    if tag == Tag(Down) then Some(Down)
    else if tag == Tag(MaxRtt) then Some(MaxRtt)
    else if tag == Tag(Metered) then Some(Metered)
    else if tag == Tag(Quota) then Some(Quota)
    else if tag == Tag(Freshness) then Some(Freshness)
    else if tag == Tag(Jurisdiction) then Some(Jurisdiction)
    else if tag == Tag(Encryption) then Some(Encryption)
    else if tag == Tag(LinkType) then Some(LinkType)
    else if tag == Tag(Directive) then Some(Directive)
    else None
  }

  lemma KindOfTag(kind: Kind)
    ensures KindOf(Tag(kind)) == Some(kind)
  {
    assert Tag(MaxRtt)[1] != Tag(Metered)[1];
    assert Tag(Freshness)[0] != Tag(LinkType)[0] && Tag(Freshness)[0] != Tag(Directive)[0];
    assert Tag(LinkType)[0] != Tag(Directive)[0];
  }

  function KindOfRule(rule: Rule): Kind {
    match rule
    case LinkDownRule(_) => Down
    case MaxRttRule(_, _) => MaxRtt
    case MeteredRule(_, _) => Metered
    case QuotaRule(_, _, _) => Quota
    case FreshnessRule(_, _, _, _) => Freshness
    case JurisdictionRule(_, _) => Jurisdiction
    case EncryptionRule(_, _) => Encryption
    case LinkTypeRule(_, _, _) => LinkType
    case DirectiveRule(_, _, _, _) => Directive
  }

  function RuleFields(rule: Rule): seq<Value> {
    match rule
    case LinkDownRule(id) => [VText(id)]
    case MaxRttRule(id, c) => [VText(id), VText(c)]
    case MeteredRule(id, c) => [VText(id), VText(c)]
    case QuotaRule(id, linkType, threshold) => [VText(id), VText(linkType), NumberValue(threshold)]
    case FreshnessRule(id, linkType, quantity, maxAge) =>
      [VText(id), VText(linkType), VText(quantity), NumberValue(maxAge)]
    case JurisdictionRule(id, c) => [VText(id), VText(c)]
    case EncryptionRule(id, c) => [VText(id), VText(c)]
    case LinkTypeRule(id, linkType, text) => [VText(id), VText(linkType), VText(text)]
    case DirectiveRule(id, link, text, notAfter) => [VText(id), VText(link), VText(text), VInt(ToSeconds(notAfter))]
  }

  function RuleValue(rule: Rule): Value {
    VArray([VText(Tag(KindOfRule(rule)))] + RuleFields(rule))
  }

  /** An unknown kind is an error, never a rule that is skipped. */
  function ReadRule(v: Value): Result<Rule, CodecError> {
    var f :- ItemsOf(v);
    var tag :- TextAt(f, 0);
    var kind := KindOf(tag);
    if kind.None? then Err(UnknownRuleKind(tag)) else ReadRuleFields(kind.value, f[1..])
  }

  function ReadRuleFields(kind: Kind, f: seq<Value>): Result<Rule, CodecError> {
    var id :- TextAt(f, 0);
    match kind
    case Down => Ok(LinkDownRule(id))
    case MaxRtt =>
      var c :- TextAt(f, 1);
      Ok(MaxRttRule(id, c))
    case Metered =>
      var c :- TextAt(f, 1);
      Ok(MeteredRule(id, c))
    case Quota =>
      var linkType :- TextAt(f, 1);
      var threshold :- NumberAt(f, 2);
      Ok(QuotaRule(id, linkType, threshold))
    case Freshness =>
      var linkType :- TextAt(f, 1);
      var quantity :- TextAt(f, 2);
      var maxAge :- NumberAt(f, 3);
      Ok(FreshnessRule(id, linkType, quantity, maxAge))
    case Jurisdiction =>
      var c :- TextAt(f, 1);
      Ok(JurisdictionRule(id, c))
    case Encryption =>
      var c :- TextAt(f, 1);
      Ok(EncryptionRule(id, c))
    case LinkType =>
      var linkType :- TextAt(f, 1);
      var text :- TextAt(f, 2);
      Ok(LinkTypeRule(id, linkType, text))
    case Directive =>
      var link :- TextAt(f, 1);
      var text :- TextAt(f, 2);
      var notAfter :- IntAt(f, 3);
      Ok(DirectiveRule(id, link, text, FromSeconds(notAfter)))
  }

  lemma ReadRuleOfValue(rule: Rule)
    ensures ReadRule(RuleValue(rule)) == Ok(TruncatedRule(rule))
  {
    var kind := KindOfRule(rule);
    KindOfTag(kind);
    var f := [VText(Tag(kind))] + RuleFields(rule);
    assert f[1..] == RuleFields(rule);
    assert ItemsOf(RuleValue(rule)) == Ok(f) && TextAt(f, 0) == Ok(Tag(kind));
  }

  /** The number stands in the value as an integer or as a float. */
  predicate Holds(v: Value, x: Number) {
    if x.Whole? then v == VInt(x.n) else v == VFloat(x.bits)
  }

  /** The fields of a rule stand behind its tag, in this order. */
  predicate RuleStands(f: seq<Value>, rule: Rule) {
    match rule
    case LinkDownRule(id) => |f| >= 2 && f[0] == VText(Ascii("down")) && f[1] == VText(id)
    case MaxRttRule(id, c) =>
      |f| >= 3 && f[0] == VText(Ascii("max_rtt")) && f[1] == VText(id) && f[2] == VText(c)
    case MeteredRule(id, c) =>
      |f| >= 3 && f[0] == VText(Ascii("metered")) && f[1] == VText(id) && f[2] == VText(c)
    case QuotaRule(id, linkType, threshold) =>
      |f| >= 4 && f[0] == VText(Ascii("quota")) && f[1] == VText(id) && f[2] == VText(linkType)
      && Holds(f[3], threshold)
    case FreshnessRule(id, linkType, quantity, maxAge) =>
      |f| >= 5 && f[0] == VText(Ascii("freshness")) && f[1] == VText(id) && f[2] == VText(linkType)
      && f[3] == VText(quantity) && Holds(f[4], maxAge)
    case JurisdictionRule(id, c) =>
      |f| >= 3 && f[0] == VText(Ascii("jurisdiction")) && f[1] == VText(id) && f[2] == VText(c)
    case EncryptionRule(id, c) =>
      |f| >= 3 && f[0] == VText(Ascii("encryption")) && f[1] == VText(id) && f[2] == VText(c)
    case LinkTypeRule(id, linkType, text) =>
      |f| >= 4 && f[0] == VText(Ascii("link_type")) && f[1] == VText(id) && f[2] == VText(linkType)
      && f[3] == VText(text)
    case DirectiveRule(id, link, text, notAfter) =>
      |f| >= 5 && f[0] == VText(Ascii("directive")) && f[1] == VText(id) && f[2] == VText(link)
      && f[3] == VText(text) && f[4].VInt? && notAfter == f[4].n * SECOND
  }

  /** A value decodes to a rule exactly if its fields stand where they should. */
  lemma RuleDecodesExactly(v: Value, rule: Rule)
    ensures ReadRule(v) == Ok(rule) <==> v.VArray? && RuleStands(v.items, rule)
  {
    if v.VArray? && |v.items| > 0 && v.items[0].VText? {
      KindOfTag(KindOfRule(rule));
      if KindOf(v.items[0].text).Some? {
        RuleFieldsExactly(KindOf(v.items[0].text).value, v.items, rule);
      }
    }
  }

  lemma RuleFieldsExactly(kind: Kind, f: seq<Value>, rule: Rule)
    requires |f| > 0 && f[0] == VText(Tag(kind))
    ensures ReadRuleFields(kind, f[1..]) == Ok(rule) <==> RuleStands(f, rule)
  {
    KindOfTag(kind);
    KindOfTag(KindOfRule(rule));
  }

  /** The element is an array whose first element is a text that names no kind. */
  predicate HasUnknownKind(v: Value) {
    v.VArray? && |v.items| > 0 && v.items[0].VText? && KindOf(v.items[0].text).None?
  }

  /** A rule decodes only under the kind it was sent as, with the identifier it was sent with. */
  lemma ReadRuleKeepsKind(v: Value)
    ensures ReadRule(v).Ok? ==>
              v.VArray? && |v.items| >= 2 && v.items[0] == VText(Tag(KindOfRule(ReadRule(v).value)))
              && v.items[1] == VText(ReadRule(v).value.ruleId)
    ensures HasUnknownKind(v) ==> ReadRule(v) == Err(UnknownRuleKind(v.items[0].text))
  {
    if ReadRule(v).Ok? {
      ReadFieldsKeepKind(KindOf(v.items[0].text).value, v.items[1..]);
    }
  }

  lemma ReadFieldsKeepKind(kind: Kind, f: seq<Value>)
    requires ReadRuleFields(kind, f).Ok?
    ensures var rule := ReadRuleFields(kind, f).value;
            KindOfRule(rule) == kind && |f| >= 1 && f[0] == VText(rule.ruleId)
  {
  }

  // ---------- links and classes ----------

  function LinkValue(link: Link): Value {
    VArray([VText(link.id), VText(link.kind), VBool(link.metered), VBool(link.encryptedBelow),
            TextsValue(link.jurisdictions), VText(link.owner)])
  }

  function ReadLink(v: Value): Result<Link, CodecError> {
    var f :- ItemsOf(v);
    var id :- TextAt(f, 0);
    var kind :- TextAt(f, 1);
    var metered :- BoolAt(f, 2);
    var encryptedBelow :- BoolAt(f, 3);
    var jurisdictions :- ListAt(AsText, f, 4);
    var owner :- TextAt(f, 5);
    Ok(Link(id, kind, metered, encryptedBelow, jurisdictions, owner))
  }

  lemma ReadLinkOfValue(link: Link)
    ensures ReadLink(LinkValue(link)) == Ok(link)
  {
    ReadTexts(link.jurisdictions);
  }

  predicate LinkStands(v: Value, link: Link) {
    v.VArray? && |v.items| >= 6 && v.items[0] == VText(link.id) && v.items[1] == VText(link.kind)
    && v.items[2] == VBool(link.metered) && v.items[3] == VBool(link.encryptedBelow)
    && ListStands(TextStands, v.items[4], link.jurisdictions) && v.items[5] == VText(link.owner)
  }

  lemma LinkDecodesExactly(v: Value, link: Link)
    ensures ReadLink(v) == Ok(link) <==> LinkStands(v, link)
  {
    if v.VArray? {
      TextsDecodeExactly(v.items, 4, link.jurisdictions);
    }
  }

  function ClassValue(c: TrafficClass): Value {
    VArray([VText(c.id),
            if c.maxRtt.None? then VNull else NumberValue(c.maxRtt.value),
            VBool(c.allowMetered),
            if c.allowedJurisdictions.None? then VNull else TextsValue(c.allowedJurisdictions.value),
            VBool(c.requiresEncryption)])
  }

  function ReadClass(v: Value): Result<TrafficClass, CodecError> {
    var f :- ItemsOf(v);
    var id :- TextAt(f, 0);
    var rtt :- At(f, 1);
    var maxRtt :- if rtt.VNull? then Ok(None) else ReadSome(AsNumber(rtt));
    var allowMetered :- BoolAt(f, 2);
    var allowed :- At(f, 3);
    var allowedJurisdictions :- if allowed.VNull? then Ok(None) else ReadSome(ListAt(AsText, f, 3));
    var requiresEncryption :- BoolAt(f, 4);
    Ok(TrafficClass(id, maxRtt, allowMetered, allowedJurisdictions, requiresEncryption))
  }

  function ReadSome<T>(r: Result<T, CodecError>): Result<Option<T>, CodecError> {
    var x :- r;
    Ok(Some(x))
  }

  lemma ReadClassOfValue(c: TrafficClass)
    ensures ReadClass(ClassValue(c)) == Ok(c)
  {
    if c.allowedJurisdictions.Some? {
      ReadTexts(c.allowedJurisdictions.value);
    }
  }

  predicate ClassStands(v: Value, c: TrafficClass) {
    v.VArray? && |v.items| >= 5 && v.items[0] == VText(c.id)
    && (if c.maxRtt.None? then v.items[1].VNull? else Holds(v.items[1], c.maxRtt.value))
    && v.items[2] == VBool(c.allowMetered)
    && (if c.allowedJurisdictions.None? then v.items[3].VNull?
        else ListStands(TextStands, v.items[3], c.allowedJurisdictions.value))
    && v.items[4] == VBool(c.requiresEncryption)
  }

  lemma ClassDecodesExactly(v: Value, c: TrafficClass)
    ensures ReadClass(v) == Ok(c) <==> ClassStands(v, c)
  {
    if v.VArray? && c.allowedJurisdictions.Some? {
      TextsDecodeExactly(v.items, 3, c.allowedJurisdictions.value);
    }
  }

  // ---------- POLICY_BUNDLE ----------

  function BundleValue(b: PolicyBundle): Value {
    VArray([VText(b.bundleId), VText(b.authorityId), VInt(b.sequence), VInt(ToSeconds(b.issuedAt)),
            VInt(ToSeconds(b.notAfter)), VInt(b.ttl), VArray(Map(LinkValue, b.links)),
            VArray(Map(ClassValue, b.classes)), VArray(Map(RuleValue, b.rules))])
  }

  function EncodeBundle(b: PolicyBundle): Bytes {
    Dumps(BundleValue(b))
  }

  function BundleHash(p: Platform, b: PolicyBundle): Text {
    p.HexDigest(EncodeBundle(b))
  }

  function ReadBundle(v: Value): Result<PolicyBundle, CodecError> {
    var f :- ItemsOf(v);
    var bundleId :- TextAt(f, 0);
    var authorityId :- TextAt(f, 1);
    var sequence :- IntAt(f, 2);
    var issuedAt :- IntAt(f, 3);
    var notAfter :- IntAt(f, 4);
    var ttl :- IntAt(f, 5);
    var links :- ListAt(ReadLink, f, 6);
    var classes :- ListAt(ReadClass, f, 7);
    var rules :- ListAt(ReadRule, f, 8);
    Ok(PolicyBundle(bundleId, authorityId, sequence, FromSeconds(issuedAt), FromSeconds(notAfter), ttl,
                    links, classes, rules))
  }

  /** A rule stands in the value. */
  predicate RuleStandsIn(v: Value, rule: Rule) {
    v.VArray? && RuleStands(v.items, rule)
  }

  predicate BundleStands(v: Value, b: PolicyBundle) {
    v.VArray? && |v.items| >= 9 && v.items[0] == VText(b.bundleId) && v.items[1] == VText(b.authorityId)
    && v.items[2] == VInt(b.sequence) && v.items[3].VInt? && b.issuedAt == v.items[3].n * SECOND
    && v.items[4].VInt? && b.notAfter == v.items[4].n * SECOND && v.items[5] == VInt(b.ttl)
    && ListStands(LinkStands, v.items[6], b.links) && ListStands(ClassStands, v.items[7], b.classes)
    && ListStands(RuleStandsIn, v.items[8], b.rules)
  }

  /** A payload decodes to a bundle exactly if it begins with a value in which the bundle's fields stand
      where they should. */
  lemma BundleDecodesExactly(payload: Bytes, b: PolicyBundle)
    ensures DecodeBundle(payload) == Ok(b) <==> Loads(payload).Some? && BundleStands(Loads(payload).value, b)
  {
    if Loads(payload).Some? && Loads(payload).value.VArray? {
      var f := Loads(payload).value.items;
      ListsDecodeExactly(f, b);
    }
  }

  lemma ListsDecodeExactly(f: seq<Value>, b: PolicyBundle)
    ensures ListAt(ReadLink, f, 6) == Ok(b.links) <==> 6 < |f| && ListStands(LinkStands, f[6], b.links)
    ensures ListAt(ReadClass, f, 7) == Ok(b.classes) <==> 7 < |f| && ListStands(ClassStands, f[7], b.classes)
    ensures ListAt(ReadRule, f, 8) == Ok(b.rules) <==> 8 < |f| && ListStands(RuleStandsIn, f[8], b.rules)
  {
    forall v, x ensures ReadLink(v) == Ok(x) <==> LinkStands(v, x) {
      LinkDecodesExactly(v, x);
    }
    forall v, x ensures ReadClass(v) == Ok(x) <==> ClassStands(v, x) {
      ClassDecodesExactly(v, x);
    }
    forall v, x ensures ReadRule(v) == Ok(x) <==> RuleStandsIn(v, x) {
      RuleDecodesExactly(v, x);
    }
    ListDecodesExactly(ReadLink, LinkStands, f, 6, b.links);
    ListDecodesExactly(ReadClass, ClassStands, f, 7, b.classes);
    ListDecodesExactly(ReadRule, RuleStandsIn, f, 8, b.rules);
  }

  function DecodeBundle(payload: Bytes): Result<PolicyBundle, CodecError> {
    var v := Loads(payload);
    if v.None? then Err(Malformed) else ReadBundle(v.value)
  }

  lemma ReadListsOfBundle(b: PolicyBundle)
    ensures ReadEach(ReadLink, Map(LinkValue, b.links)) == Ok(b.links)
    ensures ReadEach(ReadClass, Map(ClassValue, b.classes)) == Ok(b.classes)
    ensures ReadEach(ReadRule, Map(RuleValue, b.rules)) == Ok(Map(TruncatedRule, b.rules))
  {
    forall x: Link ensures ReadLink(LinkValue(x)) == Ok(x) {
      ReadLinkOfValue(x);
    }
    ReadEachOfMap(LinkValue, ReadLink, (x: Link) => x, b.links);
    assert Map((x: Link) => x, b.links) == b.links;
    forall x: TrafficClass ensures ReadClass(ClassValue(x)) == Ok(x) {
      ReadClassOfValue(x);
    }
    ReadEachOfMap(ClassValue, ReadClass, (x: TrafficClass) => x, b.classes);
    assert Map((x: TrafficClass) => x, b.classes) == b.classes;
    forall x: Rule ensures ReadRule(RuleValue(x)) == Ok(TruncatedRule(x)) {
      ReadRuleOfValue(x);
    }
    ReadEachOfMap(RuleValue, ReadRule, TruncatedRule, b.rules);
  }

  lemma ReadBundleOfValue(b: PolicyBundle)
    ensures ReadBundle(BundleValue(b)) == Ok(TruncatedBundle(b))
  {
    ReadListsOfBundle(b);
  }

  /** A bundle comes back with its times cut to whole seconds and nothing else changed. */
  lemma DecodeBundleOfEncode(b: PolicyBundle)
    requires Encodable(BundleValue(b))
    ensures DecodeBundle(EncodeBundle(b)) == Ok(TruncatedBundle(b))
  {
    LoadsOfDumps(BundleValue(b));
    ReadBundleOfValue(b);
  }

  /** Sub-second times never reach the wire, so the bytes and the hash survive the trip. */
  lemma EncodeBundleOfTruncated(p: Platform, b: PolicyBundle)
    ensures BundleValue(TruncatedBundle(b)) == BundleValue(b)
    ensures BundleHash(p, TruncatedBundle(b)) == BundleHash(p, b)
  {
    TruncatedTwice(b.issuedAt);
    TruncatedTwice(b.notAfter);
    forall i | 0 <= i < |b.rules| ensures RuleValue(TruncatedRule(b.rules[i])) == RuleValue(b.rules[i]) {
      if b.rules[i].DirectiveRule? {
        TruncatedTwice(b.rules[i].notAfter);
      }
    }
    assert Map(RuleValue, Map(TruncatedRule, b.rules)) == Map(RuleValue, b.rules);
  }

  /** Equal undisputed bundle hashes mean bundles that agree up to sub-second times. */
  lemma BundleHashMeansBundle(p: Platform, a: PolicyBundle, b: PolicyBundle)
    requires Encodable(BundleValue(a)) && Encodable(BundleValue(b))
    requires p.Distinguishes(EncodeBundle(a), EncodeBundle(b))
    ensures BundleHash(p, a) == BundleHash(p, b) <==> TruncatedBundle(a) == TruncatedBundle(b)
  {
    DigestSeparates(p, EncodeBundle(a), EncodeBundle(b));
    DecodeBundleOfEncode(a);
    DecodeBundleOfEncode(b);
    EncodeBundleOfTruncated(p, a);
    EncodeBundleOfTruncated(p, b);
  }

  /** The rules a payload carries, in wire form, when it has the shape of a bundle. */
  function WireRules(payload: Bytes): Option<seq<Value>> {
    var v := Loads(payload);
    if v.Some? && v.value.VArray? && |v.value.items| > 8 && v.value.items[8].VArray?
    then Some(v.value.items[8].items) else None
  }

  /** A decoded bundle has exactly the rules that were sent, each of the kind it was sent as and in
      order; one unknown kind anywhere fails the whole decode. */
  lemma DecodeBundleDropsNoRule(payload: Bytes)
    ensures DecodeBundle(payload).Ok? ==>
              var rules, wire := DecodeBundle(payload).value.rules, WireRules(payload);
              wire.Some? && |rules| == |wire.value|
              && forall i | 0 <= i < |rules| ::
                   wire.value[i].VArray? && |wire.value[i].items| >= 2
                   && wire.value[i].items[0] == VText(Tag(KindOfRule(rules[i])))
                   && wire.value[i].items[1] == VText(rules[i].ruleId)
    ensures WireRules(payload).Some? && (exists w | w in WireRules(payload).value :: HasUnknownKind(w))
            ==> DecodeBundle(payload).Err?
  {
    if DecodeBundle(payload).Ok? {
      var rules, wire := DecodeBundle(payload).value.rules, WireRules(payload).value;
      ReadEachReads(ReadRule, wire);
      forall i | 0 <= i < |rules|
        ensures wire[i].VArray? && |wire[i].items| >= 2 && wire[i].items[0] == VText(Tag(KindOfRule(rules[i])))
        ensures wire[i].items[1] == VText(rules[i].ruleId) && !HasUnknownKind(wire[i])
      {
        ReadRuleKeepsKind(wire[i]);
      }
    }
  }

  // ---------- DECISION_RECEIPT payload ----------

  function ExclusionValue(e: Exclusion): Value {
    VArray([VText(e.link), VText(e.rule), VText(e.reason)])
  }

  function ReadExclusion(v: Value): Result<Exclusion, CodecError> {
    var f :- ItemsOf(v);
    var link :- TextAt(f, 0);
    var rule :- TextAt(f, 1);
    var reason :- TextAt(f, 2);
    Ok(Exclusion(link, rule, reason))
  }

  function EligibilityValue(c: ClassEligibility): Value {
    VArray([VText(c.classId), TextsValue(c.permitted), VArray(Map(ExclusionValue, c.exclusions))])
  }

  function ReadEligibility(v: Value): Result<ClassEligibility, CodecError> {
    var f :- ItemsOf(v);
    var classId :- TextAt(f, 0);
    var permitted :- ListAt(AsText, f, 1);
    var exclusions :- ListAt(ReadExclusion, f, 2);
    Ok(ClassEligibility(classId, permitted, exclusions))
  }

  lemma ReadEligibilityOfValue(c: ClassEligibility)
    ensures ReadEligibility(EligibilityValue(c)) == Ok(c)
  {
    ReadTexts(c.permitted);
    ReadEachOfMap(ExclusionValue, ReadExclusion, (e: Exclusion) => e, c.exclusions);
    assert Map((e: Exclusion) => e, c.exclusions) == c.exclusions;
  }

  predicate ExclusionStands(v: Value, e: Exclusion) {
    v.VArray? && |v.items| >= 3 && v.items[0] == VText(e.link) && v.items[1] == VText(e.rule)
    && v.items[2] == VText(e.reason)
  }

  predicate EligibilityStands(v: Value, c: ClassEligibility) {
    v.VArray? && |v.items| >= 3 && v.items[0] == VText(c.classId)
    && ListStands(TextStands, v.items[1], c.permitted) && ListStands(ExclusionStands, v.items[2], c.exclusions)
  }

  lemma EligibilityDecodesExactly(v: Value, c: ClassEligibility)
    ensures ReadEligibility(v) == Ok(c) <==> EligibilityStands(v, c)
  {
    if v.VArray? {
      TextsDecodeExactly(v.items, 1, c.permitted);
      ListDecodesExactly(ReadExclusion, ExclusionStands, v.items, 2, c.exclusions);
    }
  }

  predicate DecisionStands(v: Value, d: Decision) {
    v.VArray? && |v.items| >= 7 && v.items[0] == VText(d.site)
    && v.items[1].VInt? && d.decidedAt == v.items[1].n * SECOND
    && v.items[2].VInt? && d.validUntil == v.items[2].n * SECOND
    && v.items[3] == VText(d.bundleHash) && v.items[4] == VText(d.evidenceHash) && v.items[5] == VBool(d.degraded)
    && ListStands(EligibilityStands, v.items[6], d.classes)
  }

  function DecisionValue(d: Decision): Value {
    VArray([VText(d.site), VInt(ToSeconds(d.decidedAt)), VInt(ToSeconds(d.validUntil)), VText(d.bundleHash),
            VText(d.evidenceHash), VBool(d.degraded), VArray(Map(EligibilityValue, d.classes))])
  }

  function EncodeDecision(d: Decision): Bytes {
    Dumps(DecisionValue(d))
  }

  function ReadDecision(v: Value): Result<Decision, CodecError> {
    var f :- ItemsOf(v);
    var site :- TextAt(f, 0);
    var decidedAt :- IntAt(f, 1);
    var validUntil :- IntAt(f, 2);
    var bundleHash :- TextAt(f, 3);
    var evidenceHash :- TextAt(f, 4);
    var degraded :- BoolAt(f, 5);
    var classes :- ListAt(ReadEligibility, f, 6);
    Ok(Decision(site, FromSeconds(decidedAt), FromSeconds(validUntil), bundleHash, evidenceHash, degraded, classes))
  }

  function DecodeDecision(payload: Bytes): Result<Decision, CodecError> {
    var v := Loads(payload);
    if v.None? then Err(Malformed) else ReadDecision(v.value)
  }

  /** A payload decodes to a decision exactly if the decision's fields stand where they should. */
  lemma DecisionDecodesExactly(payload: Bytes, d: Decision)
    ensures DecodeDecision(payload) == Ok(d) <==> Loads(payload).Some? && DecisionStands(Loads(payload).value, d)
  {
    if Loads(payload).Some? && Loads(payload).value.VArray? {
      forall v, x ensures ReadEligibility(v) == Ok(x) <==> EligibilityStands(v, x) {
        EligibilityDecodesExactly(v, x);
      }
      ListDecodesExactly(ReadEligibility, EligibilityStands, Loads(payload).value.items, 6, d.classes);
    }
  }

  lemma DecodeDecisionOfEncode(d: Decision)
    requires Encodable(DecisionValue(d))
    ensures DecodeDecision(EncodeDecision(d)) == Ok(TruncatedDecision(d))
  {
    LoadsOfDumps(DecisionValue(d));
    forall x | x in d.classes ensures ReadEligibility(EligibilityValue(x)) == Ok(x) {
      ReadEligibilityOfValue(x);
    }
    ReadEachOfMap(EligibilityValue, ReadEligibility, (x: ClassEligibility) => x, d.classes);
    assert Map((x: ClassEligibility) => x, d.classes) == d.classes;
  }

  lemma EncodeDecisionOfTruncated(d: Decision)
    ensures DecisionValue(TruncatedDecision(d)) == DecisionValue(d)
  {
    TruncatedTwice(d.decidedAt);
    TruncatedTwice(d.validUntil);
  }

  // ---------- FLOOR_CONFIG ----------

  function FloorConfigValue(site: Text, inventoryHash: Text, floor: PolicyBundle): Value {
    VArray([VText(site), VText(inventoryHash), VBytes(EncodeBundle(floor))])
  }

  function EncodeFloorConfig(site: Text, inventoryHash: Text, floor: PolicyBundle): Bytes {
    Dumps(FloorConfigValue(site, inventoryHash, floor))
  }

  function DecodeFloorConfig(payload: Bytes): Result<(Text, Text, PolicyBundle), CodecError> {
    var v := Loads(payload);
    if v.None? then Err(Malformed)
    else
      var f :- ItemsOf(v.value);
      var site :- TextAt(f, 0);
      var inventoryHash :- TextAt(f, 1);
      var bytes :- BytesAt(f, 2);
      var floor :- DecodeBundle(bytes);
      Ok((site, inventoryHash, floor))
  }

  /** A floor configuration decodes exactly to what stands in its three fields. */
  lemma FloorConfigDecodesExactly(payload: Bytes, site: Text, inventoryHash: Text, floor: PolicyBundle)
    ensures DecodeFloorConfig(payload) == Ok((site, inventoryHash, floor))
            <==> Loads(payload).Some? && Loads(payload).value.VArray?
                 && var f := Loads(payload).value.items;
                    && |f| >= 3 && f[0] == VText(site) && f[1] == VText(inventoryHash) && f[2].VBytes?
                    && Loads(f[2].bytes).Some? && BundleStands(Loads(f[2].bytes).value, floor)
  {
    if Loads(payload).Some? && Loads(payload).value.VArray? {
      var f := Loads(payload).value.items;
      if |f| >= 3 && f[2].VBytes? {
        BundleDecodesExactly(f[2].bytes, floor);
      }
    }
  }

  lemma DecodeFloorConfigOfEncode(site: Text, inventoryHash: Text, floor: PolicyBundle)
    requires Encodable(BundleValue(floor)) && Encodable(FloorConfigValue(site, inventoryHash, floor))
    ensures DecodeFloorConfig(EncodeFloorConfig(site, inventoryHash, floor))
            == Ok((site, inventoryHash, TruncatedBundle(floor)))
  {
    LoadsOfDumps(FloorConfigValue(site, inventoryHash, floor));
    DecodeBundleOfEncode(floor);
  }
}
