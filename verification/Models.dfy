/** Links, traffic classes, observations and evidence (pilotfish/core/models.py). */
module Models {
  import opened Prelude
  import opened Ordering
  import opened Cbor

  /** A measured or configured quantity: an integer, or a finite float as its wire token. */
  datatype Number = Whole(n: int) | Float(bits: Bytes)

  /** Why a rule excludes a link; the source formats these as strings. */
  datatype Reason =
    | NoLiveness
    | ObservedDown
    | NoLatency(bound: Number)
    | LatencyAbove(measured: Number, bound: Number)
    | MeteredPath
    | QuotaUnknown
    | QuotaSpent(used: Number)
    | NoEvidence(quantity: Text)
    | StaleEvidence(quantity: Text, age: int, limit: Number)
    | UndeclaredJurisdiction
    | DisallowedJurisdictions(crossed: seq<Text>)
    | Unencrypted
    | Stated(text: Text)
    | Directed(text: Text)

  /** How the dataplane can differ from a decision; the source formats these as strings. */
  datatype Complaint =
    | Surplus(classId: Text, links: seq<Text>)
    | HoldsNothing(classId: Text, permitted: seq<Text>)

  /** What the runtime and its libraries supply: a digest, signatures, the reading of a float
      token, the float token of a time, and the wording of reasons and complaints. */
  datatype Platform = Platform(
    sha256: Bytes -> Bytes,
    ieee: Bytes -> real,
    stamp: int -> Bytes,
    wording: Reason -> Text,
    complaint: Complaint -> Text,
    sign: (Bytes, Bytes) -> Bytes,
    publicKey: Bytes -> Bytes,
    verifies: (Bytes, Bytes, Bytes) -> bool)
  {
    /** Digests have 32 bytes, signatures 64, and a signature verifies under its own key. */
    ghost predicate Sound() {
      && (forall m :: |sha256(m)| == 32)
      && (forall k, m :: |sign(k, m)| == 64 && verifies(publicKey(k), sign(k, m), m))
    }

    /** No SHA-256 collision between these two byte strings. */
    ghost predicate Distinguishes(x: Bytes, y: Bytes) {
      sha256(x) == sha256(y) ==> x == y
    }

    function Read(x: Number): real {
      match x
      case Whole(n) => n as real
      case Float(bits) => ieee(bits)
    }

    function Words(r: Reason): Text {
      match r
      case Stated(text) => text
      case _ => wording(r)
    }

    /** `hashlib.sha256(data).hexdigest()` */
    function HexDigest(data: Bytes): Text {
      Hex(sha256(data))
    }
  }

  // ---------- hexadecimal ----------

  function HexDigit(n: nat): byte
    requires n < 16
  {
    if n < 10 then 48 + n else 87 + n
  }

  function HexValue(c: byte): nat {
    if 48 <= c < 58 then c - 48 else if 97 <= c < 103 then c - 87 else 0
  }

  function Hex(b: Bytes): (h: Text)
    ensures |h| == 2 * |b|
  {
    if b == [] then [] else [HexDigit(b[0] / 16), HexDigit(b[0] % 16)] + Hex(b[1..])
  }

  /** `bytes.fromhex` on an even number of lower-case digits. */
  function FromHex(h: Text): (b: Bytes)
    ensures |b| == |h| / 2
  {
    if |h| < 2 then [] else [HexValue(h[0]) % 16 * 16 + HexValue(h[1]) % 16] + FromHex(h[2..])
  }

  lemma {:induction false} FromHexOfHex(b: Bytes)
    ensures FromHex(Hex(b)) == b
  {
    if b != [] {
      FromHexOfHex(b[1..]);
      assert Hex(b)[2..] == Hex(b[1..]);
      assert b == [b[0]] + b[1..];
    }
  }

  /** Equal hex digests of distinguished strings mean equal strings. */
  lemma DigestSeparates(p: Platform, x: Bytes, y: Bytes)
    requires p.Distinguishes(x, y)
    ensures p.HexDigest(x) == p.HexDigest(y) <==> x == y
  {
    FromHexOfHex(p.sha256(x));
    FromHexOfHex(p.sha256(y));
  }

  // ---------- links and classes ----------

  datatype Link = Link(
    id: Text, kind: Text, metered: bool, encryptedBelow: bool, jurisdictions: seq<Text>, owner: Text)

  datatype TrafficClass = TrafficClass(
    id: Text, maxRtt: Option<Number>, allowMetered: bool,
    allowedJurisdictions: Option<seq<Text>>, requiresEncryption: bool)

  ghost predicate DistinctLinks(links: seq<Link>) {
    forall i, j | 0 <= i < j < |links| :: links[i].id != links[j].id
  }

  ghost predicate DistinctClasses(classes: seq<TrafficClass>) {
    forall i, j | 0 <= i < j < |classes| :: classes[i].id != classes[j].id
  }

  // ---------- evidence ----------

  datatype Observation = Observation(link: Text, quantity: Text, value: Number, at: int, source: Text)

  type Evidence = seq<Observation>

  const MAX_CLOCK_SKEW := 120 * SECOND

  function NotAfter(horizon: int): Observation -> bool {
    (o: Observation) => o.at <= horizon
  }

  /** Evidence without what is dated past the skew allowance. */
  function AsOf(evidence: Evidence, now: int): Evidence {
    Filter(NotAfter(now + MAX_CLOCK_SKEW), evidence)
  }

  predicate Measures(o: Observation, link: Text, quantity: Text) {
    o.link == link && o.quantity == quantity
  }

  /** Python's `max` by time over the matching observations: the first newest one. */
  function Latest(evidence: Evidence, link: Text, quantity: Text): Option<Observation> {
    if evidence == [] then None
    else
      var best := Latest(evidence[..|evidence| - 1], link, quantity);
      var o := evidence[|evidence| - 1];
      if Measures(o, link, quantity) && (best.None? || o.at > best.value.at) then Some(o) else best
  }

  function Age(o: Observation, now: int): (age: int)
    ensures age >= 0
  {
    if now - o.at > 0 then now - o.at else 0
  }

  ghost predicate IsFirstNewest(evidence: Evidence, link: Text, quantity: Text, i: nat) {
    && i < |evidence|
    && Measures(evidence[i], link, quantity)
    && (forall j | 0 <= j < |evidence| && Measures(evidence[j], link, quantity) :: evidence[j].at <= evidence[i].at)
    && (forall j | 0 <= j < i && Measures(evidence[j], link, quantity) :: evidence[j].at < evidence[i].at)
  }

  /** `latest` finds nothing exactly when nothing matches, and otherwise the first newest match. */
  lemma {:induction false} LatestIsFirstNewest(evidence: Evidence, link: Text, quantity: Text)
    ensures Latest(evidence, link, quantity).None? <==> forall o | o in evidence :: !Measures(o, link, quantity)
    ensures Latest(evidence, link, quantity).Some? ==>
              exists i: nat :: IsFirstNewest(evidence, link, quantity, i)
                               && evidence[i] == Latest(evidence, link, quantity).value
  {
    if evidence != [] {
      var n := |evidence| - 1;
      var front := evidence[..n];
      LatestIsFirstNewest(front, link, quantity);
      assert evidence == front + [evidence[n]];
      var best := Latest(front, link, quantity);
      if Measures(evidence[n], link, quantity) && (best.None? || evidence[n].at > best.value.at) {
        assert IsFirstNewest(evidence, link, quantity, n);
      } else if best.Some? {
        var i: nat :| IsFirstNewest(front, link, quantity, i) && front[i] == best.value;
        assert IsFirstNewest(evidence, link, quantity, i);
      }
    }
  }

  /** The observation is the first of the newest ones of the quantity. */
  ghost predicate Newest(evidence: Evidence, link: Text, quantity: Text, o: Observation) {
    exists i: nat :: IsFirstNewest(evidence, link, quantity, i) && evidence[i] == o
  }

  lemma NewestIsLatest(evidence: Evidence, link: Text, quantity: Text, o: Observation)
    ensures Newest(evidence, link, quantity, o) <==> Latest(evidence, link, quantity) == Some(o)
  {
    LatestIsFirstNewest(evidence, link, quantity);
    if i: nat :| IsFirstNewest(evidence, link, quantity, i) && evidence[i] == o {
      assert evidence[i] in evidence;
      var k: nat :| IsFirstNewest(evidence, link, quantity, k)
                    && evidence[k] == Latest(evidence, link, quantity).value;
      assert k == i;
    }
  }

  /** What counts as evidence at a moment: all that is dated within the skew allowance, and nothing else. */
  lemma AsOfMembers(evidence: Evidence, now: int, o: Observation)
    ensures o in AsOf(evidence, now) <==> o in evidence && o.at <= now + MAX_CLOCK_SKEW
  {
    FilterMembers(NotAfter(now + MAX_CLOCK_SKEW), evidence, o);
  }

  lemma LatestMember(evidence: Evidence, link: Text, quantity: Text)
    ensures var r := Latest(evidence, link, quantity);
            r.Some? ==> r.value in evidence && Measures(r.value, link, quantity)
                        && forall o | o in evidence && Measures(o, link, quantity) :: o.at <= r.value.at
  {
    LatestIsFirstNewest(evidence, link, quantity);
  }

  /** All newest matches are one and the same observation. */
  ghost predicate TieFree(evidence: Evidence, link: Text, quantity: Text) {
    forall x, y | x in evidence && y in evidence && Measures(x, link, quantity) && Measures(y, link, quantity) ::
      (forall o | o in evidence && Measures(o, link, quantity) :: o.at <= x.at) && x.at == y.at ==> x == y
  }

  lemma LatestOfPermutation(a: Evidence, b: Evidence, link: Text, quantity: Text)
    requires multiset(a) == multiset(b)
    requires TieFree(a, link, quantity)
    ensures Latest(a, link, quantity) == Latest(b, link, quantity)
  {
    forall o ensures o in a <==> o in b {
      assert o in a <==> o in multiset(a);
      assert o in b <==> o in multiset(b);
    }
    LatestIsFirstNewest(a, link, quantity);
    LatestIsFirstNewest(b, link, quantity);
    LatestMember(a, link, quantity);
    LatestMember(b, link, quantity);
    var x, y := Latest(a, link, quantity), Latest(b, link, quantity);
    if x.Some? && y.Some? {
      assert x.value.at == y.value.at;
    }
  }

  /** `latest` ignores the order of the evidence exactly when the newest matches do not differ. */
  lemma LatestOrderFreeIffTieFree(evidence: Evidence, link: Text, quantity: Text)
    ensures (forall other: Evidence | multiset(other) == multiset(evidence) ::
               Latest(other, link, quantity) == Latest(evidence, link, quantity))
            <==> TieFree(evidence, link, quantity)
  {
    if TieFree(evidence, link, quantity) {
      forall other: Evidence | multiset(other) == multiset(evidence)
        ensures Latest(other, link, quantity) == Latest(evidence, link, quantity)
      {
        LatestOfPermutation(evidence, other, link, quantity);
      }
    } else {
      var x, y :| x in evidence && y in evidence && Measures(x, link, quantity) && Measures(y, link, quantity)
                  && (forall o | o in evidence && Measures(o, link, quantity) :: o.at <= x.at)
                  && x.at == y.at && x != y;
      var ex := ToFront(evidence, x, link, quantity);
      var ey := ToFront(evidence, y, link, quantity);
    }
  }

  /** Any newest match can be made the one that `latest` keeps. */
  lemma ToFront(evidence: Evidence, x: Observation, link: Text, quantity: Text) returns (other: Evidence)
    requires x in evidence && Measures(x, link, quantity)
    requires forall o | o in evidence && Measures(o, link, quantity) :: o.at <= x.at
    ensures multiset(other) == multiset(evidence)
    ensures Latest(other, link, quantity) == Some(x)
  {
    var i :| 0 <= i < |evidence| && evidence[i] == x;
    other := [x] + (evidence[..i] + evidence[i + 1..]);
    assert evidence == evidence[..i] + [x] + evidence[i + 1..];
    LatestIsFirstNewest(other, link, quantity);
    assert Measures(other[0], link, quantity);
    var k: nat :| IsFirstNewest(other, link, quantity, k) && other[k] == Latest(other, link, quantity).value;
    assert other[k] in evidence;
  }

  /** Equal link, quantity and time mean one observation: the condition for order independence. */
  ghost predicate Unambiguous(evidence: Evidence) {
    forall x, y | x in evidence && y in evidence && x.link == y.link && x.quantity == y.quantity && x.at == y.at ::
      x == y
  }

  // ---------- the evidence hash ----------

  function ObservationKey(p: Platform): Observation -> Row {
    (o: Observation) =>
      [KText(o.link), KText(o.quantity), KNumber(o.at as real), KText(o.source), KNumber(p.Read(o.value))]
  }

  function NumberValue(x: Number): Value {
    match x
    case Whole(n) => VInt(n)
    case Float(bits) => VFloat(bits)
  }

  function ObservationValue(p: Platform): Observation -> Value {
    (o: Observation) =>
      VArray([VText(o.link), VText(o.quantity), VFloat(p.stamp(o.at)), VText(o.source), NumberValue(o.value)])
  }

  function EvidenceValue(p: Platform, evidence: Evidence): Value {
    VArray(Map(ObservationValue(p), Sort(By(ObservationKey(p)), evidence)))
  }

  function EvidenceHash(p: Platform, evidence: Evidence): Text {
    p.HexDigest(Dumps(EvidenceValue(p, evidence)))
  }

  /** Observations that differ only in how one number is written (1 and 1.0) tie in the sort. */
  ghost predicate ValuesSeparated(p: Platform, evidence: Evidence) {
    forall x, y | x in evidence && y in evidence && x.(value := y.value) == y && p.Read(x.value) == p.Read(y.value) ::
      x == y
  }

  lemma ObservationValueInjective(p: Platform, x: Observation, y: Observation)
    requires ObservationValue(p)(x) == ObservationValue(p)(y)
    requires p.stamp(x.at) == p.stamp(y.at) ==> x.at == y.at
    ensures x == y
  {
    var a, b := ObservationValue(p)(x).items, ObservationValue(p)(y).items;
    assert a[0] == b[0] && a[1] == b[1] && a[2] == b[2] && a[3] == b[3] && a[4] == b[4];
  }

  ghost predicate StampsSeparate(p: Platform, a: Evidence, b: Evidence) {
    forall x, y | x in a && y in b && p.stamp(x.at) == p.stamp(y.at) :: x.at == y.at
  }

  /** Equal evidence hashes of undisputed digests: the same observations, whatever their order. */
  lemma EvidenceHashMeansMultiset(p: Platform, a: Evidence, b: Evidence)
    requires Encodable(EvidenceValue(p, a)) && Encodable(EvidenceValue(p, b))
    requires p.Distinguishes(Dumps(EvidenceValue(p, a)), Dumps(EvidenceValue(p, b)))
    requires StampsSeparate(p, a, b)
    requires EvidenceHash(p, a) == EvidenceHash(p, b)
    ensures multiset(a) == multiset(b)
  {
    DigestSeparates(p, Dumps(EvidenceValue(p, a)), Dumps(EvidenceValue(p, b)));
    EncodeInjective(EvidenceValue(p, a), EvidenceValue(p, b));
    var key, f := By(ObservationKey(p)), ObservationValue(p);
    ByPreorder(ObservationKey(p));
    var sa, sb := Sort(key, a), Sort(key, b);
    SortMembers(key, a);
    SortMembers(key, b);
    assert Map(f, sa) == Map(f, sb) && |sa| == |sb|;
    forall i | 0 <= i < |sa| ensures sa[i] == sb[i] {
      assert Map(f, sa)[i] == Map(f, sb)[i];
      assert sa[i] in a && sb[i] in b;
      ObservationValueInjective(p, sa[i], sb[i]);
    }
    assert sa == sb;
    SortSorts(key, a);
    SortSorts(key, b);
  }

  /** The hash ignores order when no two observations differ only in how a number is written. */
  lemma EvidenceHashIgnoresOrder(p: Platform, a: Evidence, b: Evidence)
    requires multiset(a) == multiset(b)
    requires ValuesSeparated(p, a)
    ensures EvidenceHash(p, a) == EvidenceHash(p, b)
  {
    SortByKeyIffMultiset(ObservationKey(p), a, b);
  }

  /** Inserting two ties in the other order leaves them in the other order. */
  lemma {:induction false} TiesKeepOrder<T(!new)>(le: (T, T) -> bool, x: T, y: T, s: seq<T>) returns (i: nat)
    requires TotalPreorder(le) && le(x, y) && le(y, x)
    ensures var a, b := Insert(le, x, Insert(le, y, s)), Insert(le, y, Insert(le, x, s));
            i < |a| && i < |b| && a[i] == x && b[i] == y
  {
    if s == [] || le(x, s[0]) {
      assert s != [] ==> le(y, s[0]);
      assert Insert(le, x, [y] + s) == [x] + ([y] + s) && Insert(le, y, [x] + s) == [y] + ([x] + s);
      i := 0;
    } else {
      assert !le(y, s[0]);
      i := TiesKeepOrder(le, x, y, s[1..]);
      var c, d := Insert(le, x, Insert(le, y, s[1..])), Insert(le, y, Insert(le, x, s[1..]));
      assert Insert(le, x, Insert(le, y, s)) == [s[0]] + c && Insert(le, y, Insert(le, x, s)) == [s[0]] + d;
      i := i + 1;
    }
  }

  /** Two observations that differ only in how one number is written make two arrangements that are
      hashed differently. */
  lemma TiesDivide(p: Platform, evidence: Evidence, x: Observation, y: Observation) returns (a: Evidence, b: Evidence)
    requires x in evidence && y in evidence && x != y && x.(value := y.value) == y && p.Read(x.value) == p.Read(y.value)
    ensures multiset(a) == multiset(evidence) == multiset(b)
    ensures EvidenceValue(p, a) != EvidenceValue(p, b)
  {
    var rest;
    a, b, rest := BroughtForward(evidence, x, y);
    var key, f := By(ObservationKey(p)), ObservationValue(p);
    ByPreorder(ObservationKey(p));
    assert ObservationKey(p)(x) == ObservationKey(p)(y);
    SortOfTwoMore(key, x, y, rest);
    SortOfTwoMore(key, y, x, rest);
    var i := TiesKeepOrder(key, x, y, Sort(key, rest));
    var sa, sb := Sort(key, a), Sort(key, b);
    assert Map(f, sa)[i] == f(x) && Map(f, sb)[i] == f(y);
    assert f(x).items[4] != f(y).items[4];
  }

  lemma SortOfTwoMore<T>(le: (T, T) -> bool, x: T, y: T, rest: seq<T>)
    ensures Sort(le, [x] + ([y] + rest)) == Insert(le, x, Insert(le, y, Sort(le, rest)))
  {
    assert ([x] + ([y] + rest))[1..] == [y] + rest && ([y] + rest)[1..] == rest;
  }

  /** Two elements brought to the front, in either order. */
  lemma BroughtForward<T>(s: seq<T>, x: T, y: T) returns (a: seq<T>, b: seq<T>, rest: seq<T>)
    requires x in s && y in s && x != y
    ensures a == [x] + ([y] + rest) && b == [y] + ([x] + rest)
    ensures multiset(a) == multiset(s) == multiset(b)
  {
    var left, right := Around(s, x);
    MultisetOfThree(left, [x], right);
    assert y in left + right;
    var front, back := Around(left + right, y);
    MultisetOfThree(front, [y], back);
    rest := front + back;
    a, b := [x] + ([y] + rest), [y] + ([x] + rest);
    assert multiset(a) == multiset([x]) + (multiset([y]) + multiset(rest));
    assert multiset(b) == multiset([y]) + (multiset([x]) + multiset(rest));
  }

  /** No arrangement of the evidence is too large for the wire or collides with it. */
  ghost predicate ArrangementsDistinguished(p: Platform, evidence: Evidence) {
    forall other: Evidence | multiset(other) == multiset(evidence) ::
      && Encodable(EvidenceValue(p, other))
      && p.Distinguishes(Dumps(EvidenceValue(p, other)), Dumps(EvidenceValue(p, evidence)))
  }

  /** The evidence hash is independent of order exactly when no two observations differ only in how
      one number is written. */
  lemma EvidenceHashOrderFreeIff(p: Platform, evidence: Evidence)
    requires ArrangementsDistinguished(p, evidence)
    ensures (forall other: Evidence | multiset(other) == multiset(evidence) ::
               EvidenceHash(p, other) == EvidenceHash(p, evidence))
            <==> ValuesSeparated(p, evidence)
  {
    if ValuesSeparated(p, evidence) {
      forall other: Evidence | multiset(other) == multiset(evidence)
        ensures EvidenceHash(p, other) == EvidenceHash(p, evidence)
      {
        EvidenceHashIgnoresOrder(p, evidence, other);
      }
    } else {
      var x, y :| x in evidence && y in evidence && x.(value := y.value) == y
                  && p.Read(x.value) == p.Read(y.value) && x != y;
      var a, b := TiesDivide(p, evidence, x, y);
      HashesDivide(p, evidence, a);
      HashesDivide(p, evidence, b);
    }
  }

  lemma HashesDivide(p: Platform, evidence: Evidence, other: Evidence)
    requires ArrangementsDistinguished(p, evidence) && multiset(other) == multiset(evidence)
    ensures EvidenceHash(p, other) == EvidenceHash(p, evidence)
            <==> EvidenceValue(p, other) == EvidenceValue(p, evidence)
  {
    DigestSeparates(p, Dumps(EvidenceValue(p, other)), Dumps(EvidenceValue(p, evidence)));
    assert multiset(evidence) == multiset(evidence) && Encodable(EvidenceValue(p, evidence));
    if EvidenceHash(p, other) == EvidenceHash(p, evidence) {
      EncodeInjective(EvidenceValue(p, other), EvidenceValue(p, evidence));
    }
  }

  /** Two readings written 1 and 1.0: the hash then does depend on order. */
  lemma EvidenceHashOrderCounterexample(p: Platform, float: Bytes)
    requires p.ieee(float) == 1.0 && |float| == 8
    ensures var x := Observation([], [], Whole(1), 0, []);
            var y := x.(value := Float(float));
            multiset([x, y]) == multiset([y, x]) && EvidenceValue(p, [x, y]) != EvidenceValue(p, [y, x])
  {
    var x := Observation([], [], Whole(1), 0, []);
    var y := x.(value := Float(float));
    var key, f := By(ObservationKey(p)), ObservationValue(p);
    assert multiset([x, y]) == multiset{x, y} == multiset([y, x]);
    assert ObservationKey(p)(x) == ObservationKey(p)(y);
    ByPreorder(ObservationKey(p));
    SortPair(key, x, y);
    SortPair(key, y, x);
    assert Map(f, [x, y])[0] == f(x) && Map(f, [y, x])[0] == f(y);
    assert f(x).items[4] == VInt(1) && f(y).items[4] == VFloat(float);
  }

  lemma SortPair<T(!new)>(le: (T, T) -> bool, x: T, y: T)
    requires le(x, y)
    ensures Sort(le, [x, y]) == [x, y]
  {
    assert [x, y][1..] == [y] && [y][1..] == [];
    assert Sort(le, [y]) == [y];
  }
}
