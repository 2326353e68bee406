/** The bundle store: what policy a site is under (pilotfish/agent/bundle_store.py). */
module BundleStores {
  import opened Prelude
  import opened Cbor
  import opened Ordering
  import opened Models
  import opened Rules
  import opened Policy
  import opened Messages
  import opened Envelopes
  import opened Epoch
  import opened Floor
  import opened Decide

  /** Whom the site answers to, and which site it is. */
  datatype Config = Config(trustedKey: Bytes, issuer: Text, site: Text)

  datatype StoreError =
    | Undecodable
    | WrongType
    | WrongIssuer
    | FromTheFuture
    | Unverified(why: EnvelopeError)
    | NonceSeen
    | BadPayload(cause: CodecError)
    | WrongAuthority
    | RollbackRefused
    | Expired
    | MarkFailed(fault: EpochError)
    | WrongSite
    | WrongInventory

  // ---------- accepting ----------

  datatype Admission = Admission(envelope: Envelope, bundle: PolicyBundle)

  /** The checks before a bundle is installed, in their order. `useNonces` is true in the source;
      without it the nonce set is not consulted. */
  function Admit(p: Platform, config: Config, sequence: int, nonces: set<Bytes>, useNonces: bool, data: Bytes, now: int)
    : Result<Admission, StoreError>
  {
    var decoded := DecodeEnvelope(data);
    if decoded.Err? then Err(Undecodable)
    else
      var e := decoded.value;
      if e.msgType != MSG_POLICY_BUNDLE then Err(WrongType)
      else if e.issuer != config.issuer then Err(WrongIssuer)
      else if e.issuedAt > now + MAX_CLOCK_SKEW then Err(FromTheFuture)
      else
        var verified := Verify(p, e, config.trustedKey);
        if verified.Err? then Err(Unverified(verified.error))
        else if useNonces && e.nonce in nonces then Err(NonceSeen)
        else
          var bundle := DecodeBundle(e.payload);
          if bundle.Err? then Err(BadPayload(bundle.error))
          else if bundle.value.authorityId != config.issuer then Err(WrongAuthority)
          else if bundle.value.sequence <= sequence then Err(RollbackRefused)
          else if now >= bundle.value.notAfter then Err(Expired)
          else Ok(Admission(e, bundle.value))
  }

  /** The envelope is the trusted issuer's, of the right type, verifies under the trusted key, and carries
      this bundle, which names the same issuer. */
  ghost predicate Genuine(p: Platform, config: Config, a: Admission) {
    && a.envelope.msgType == MSG_POLICY_BUNDLE && a.envelope.issuer == config.issuer
    && Verify(p, a.envelope, config.trustedKey) == Ok(())
    && DecodeBundle(a.envelope.payload) == Ok(a.bundle) && a.bundle.authorityId == config.issuer
  }

  /** Genuine, stamped within the skew allowance, with a nonce not seen, above the last sequence, and
      unexpired. */
  ghost predicate Admissible(p: Platform, config: Config, sequence: int, nonces: set<Bytes>, data: Bytes, now: int,
                             a: Admission)
  {
    && DecodeEnvelope(data) == Ok(a.envelope) && Genuine(p, config, a)
    && a.envelope.issuedAt <= now + MAX_CLOCK_SKEW && a.envelope.nonce !in nonces
    && sequence < a.bundle.sequence && now < a.bundle.notAfter
  }

  /** The checks admit exactly what is admissible. */
  lemma AdmitsExactly(p: Platform, config: Config, sequence: int, nonces: set<Bytes>, useNonces: bool, data: Bytes,
                      now: int, a: Admission)
    ensures Admit(p, config, sequence, nonces, useNonces, data, now) == Ok(a)
            <==> Admissible(p, config, sequence, if useNonces then nonces else {}, data, now, a)
  {
  }

  /** The envelope passes the checks of type, issuer and time. */
  predicate Addressed(config: Config, e: Result<Envelope, EnvelopeError>, now: int) {
    e.Ok? && e.value.msgType == MSG_POLICY_BUNDLE && e.value.issuer == config.issuer
    && e.value.issuedAt <= now + MAX_CLOCK_SKEW
  }

  /** Each refusal names the first check that failed: after the signature holds, a nonce seen before, then a
      payload that is no bundle, another authority, a sequence that is not higher, and an expiry that
      has come. */
  lemma RefusesForFirst(p: Platform, config: Config, sequence: int, nonces: set<Bytes>, data: Bytes, now: int)
    ensures var e, r := DecodeEnvelope(data), Admit(p, config, sequence, nonces, true, data, now);
            var signed := Addressed(config, e, now) && Verify(p, e.value, config.trustedKey) == Ok(());
            var unseen := signed && e.value.nonce !in nonces;
            var b := if e.Ok? then DecodeBundle(e.value.payload) else Err(Malformed);
            var ours := unseen && b.Ok? && b.value.authorityId == config.issuer;
            && (r == Err(Undecodable) <==> e.Err?)
            && (r == Err(WrongType) <==> e.Ok? && e.value.msgType != MSG_POLICY_BUNDLE)
            && (r == Err(WrongIssuer) <==>
                  e.Ok? && e.value.msgType == MSG_POLICY_BUNDLE && e.value.issuer != config.issuer)
            && (r == Err(FromTheFuture) <==>
                  e.Ok? && e.value.msgType == MSG_POLICY_BUNDLE && e.value.issuer == config.issuer
                  && e.value.issuedAt > now + MAX_CLOCK_SKEW)
            && (r.Err? && r.error.Unverified? <==> Addressed(config, e, now) && !signed)
            && (r == Err(NonceSeen) <==> signed && !unseen)
            && (r.Err? && r.error.BadPayload? <==> unseen && b.Err?)
            && (r == Err(WrongAuthority) <==> unseen && b.Ok? && !ours)
            && (r == Err(RollbackRefused) <==> ours && b.value.sequence <= sequence)
            && (r == Err(Expired) <==> ours && sequence < b.value.sequence && b.value.notAfter <= now)
  {
  }

  /** What the process holds in memory. */
  datatype Volatile = Volatile(bundle: Option<PolicyBundle>, sequence: int, nonces: set<Bytes>)

  function Installed(v: Volatile, a: Admission): Volatile {
    Volatile(Some(a.bundle), a.bundle.sequence, v.nonces + {a.envelope.nonce})
  }

  /** `accept`: memory, mark and result, given whether the mark's writes succeed. A refusal or a failed
      commit changes nothing. */
  function Accepting(p: Platform, config: Config, v: Volatile, mark: Mark, data: Bytes, now: int, writes: bool)
    : (Volatile, Mark, Result<PolicyBundle, StoreError>)
  {
    var admitted := Admit(p, config, v.sequence, v.nonces, true, data, now);
    if admitted.Err? then (v, mark, Err(admitted.error))
    else
      var a := admitted.value;
      if ReadMark(mark).Err? then (v, mark, Err(MarkFailed(EpochUnreadable)))
      else if a.bundle.sequence > ReadMark(mark).value && !writes then (v, mark, Err(MarkFailed(WriteFailed)))
      else (Installed(v, a), Committed(mark, a.bundle.sequence), Ok(a.bundle))
  }

  /** The mark is readable, and a higher sequence can be written to it. */
  predicate Recordable(mark: Mark, sequence: int, writes: bool) {
    ReadMark(mark).Ok? && (sequence > ReadMark(mark).value ==> writes)
  }

  /** An offer is accepted exactly when it is admissible and its sequence can be recorded. Then it is in
      force, under its own sequence and with its nonce remembered, and the mark is no lower than it;
      otherwise nothing has changed. */
  lemma AcceptsExactly(p: Platform, config: Config, v: Volatile, mark: Mark, data: Bytes, now: int, writes: bool)
    ensures var (memory, after, r) := Accepting(p, config, v, mark, data, now, writes);
            && (r.Ok? <==> exists a :: Admissible(p, config, v.sequence, v.nonces, data, now, a)
                                       && Recordable(mark, a.bundle.sequence, writes))
            && (forall a | Admissible(p, config, v.sequence, v.nonces, data, now, a) && r.Ok? ::
                  && r.value == a.bundle
                  && memory == Volatile(Some(a.bundle), a.bundle.sequence, v.nonces + {a.envelope.nonce})
                  && ReadMark(after).Ok? && ReadMark(mark).Ok? && ReadMark(after).value
                     == if a.bundle.sequence > ReadMark(mark).value then a.bundle.sequence else ReadMark(mark).value)
            && (r.Err? ==> memory == v && after == mark)
  {
    var admitted := Admit(p, config, v.sequence, v.nonces, true, data, now);
    if admitted.Ok? {
      AdmitsExactly(p, config, v.sequence, v.nonces, true, data, now, admitted.value);
    }
    forall a | Admissible(p, config, v.sequence, v.nonces, data, now, a) ensures admitted == Ok(a) {
      AdmitsExactly(p, config, v.sequence, v.nonces, true, data, now, a);
    }
  }

  /** The bundle in force and whether the site is degraded. */
  function CurrentOf(floor: PolicyBundle, bundle: Option<PolicyBundle>, now: int): (PolicyBundle, bool) {
    if bundle.None? || now >= bundle.value.notAfter then (floor, true) else (bundle.value, false)
  }

  /** `_install_floor`: the floor must be genuine, for this site and for the inventory it presents. */
  function InstallFloor(p: Platform, config: Config, signedFloor: Bytes, presented: Option<seq<Link>>)
    : Result<PolicyBundle, StoreError>
  {
    var decoded := DecodeEnvelope(signedFloor);
    if decoded.Err? then Err(Undecodable)
    else
      var e := decoded.value;
      if e.msgType != MSG_FLOOR_CONFIG then Err(WrongType)
      else if e.issuer != config.issuer then Err(WrongIssuer)
      else
        var verified := Verify(p, e, config.trustedKey);
        if verified.Err? then Err(Unverified(verified.error))
        else
          var content := DecodeFloorConfig(e.payload);
          if content.Err? then Err(BadPayload(content.error))
          else
            var (site, inventoryHash, floor) := content.value;
            var actual := if presented.Some? then presented.value else floor.links;
            if site != config.site then Err(WrongSite)
            else if InventoryHash(p, actual) != inventoryHash then Err(WrongInventory)
            else Ok(floor)
  }

  /** The bytes are the trusted issuer's floor configuration, verify under the trusted key, and bind this
      floor to this site and to the inventory that is presented, or to the floor's own links. */
  ghost predicate GenuineFloor(p: Platform, config: Config, signedFloor: Bytes, presented: Option<seq<Link>>,
                               floor: PolicyBundle)
  {
    var e, actual := DecodeEnvelope(signedFloor), if presented.Some? then presented.value else floor.links;
    && e.Ok? && e.value.msgType == MSG_FLOOR_CONFIG && e.value.issuer == config.issuer
    && Verify(p, e.value, config.trustedKey) == Ok(())
    && DecodeFloorConfig(e.value.payload) == Ok((config.site, InventoryHash(p, actual), floor))
  }

  /** Exactly the genuine floor is installed, whatever the bytes. */
  lemma InstallsExactly(p: Platform, config: Config, signedFloor: Bytes, presented: Option<seq<Link>>,
                        floor: PolicyBundle)
    ensures InstallFloor(p, config, signedFloor, presented) == Ok(floor)
            <==> GenuineFloor(p, config, signedFloor, presented, floor)
  {
  }

  /** Each refusal of a floor names the first check that failed. */
  lemma FloorRefusedForFirst(p: Platform, config: Config, signedFloor: Bytes, presented: Option<seq<Link>>)
    ensures var e, r := DecodeEnvelope(signedFloor), InstallFloor(p, config, signedFloor, presented);
            var addressed := e.Ok? && e.value.msgType == MSG_FLOOR_CONFIG && e.value.issuer == config.issuer;
            var signed := addressed && Verify(p, e.value, config.trustedKey) == Ok(());
            var content := if e.Ok? then DecodeFloorConfig(e.value.payload) else Err(Malformed);
            && (r == Err(Undecodable) <==> e.Err?)
            && (r == Err(WrongType) <==> e.Ok? && e.value.msgType != MSG_FLOOR_CONFIG)
            && (r == Err(WrongIssuer) <==>
                  e.Ok? && e.value.msgType == MSG_FLOOR_CONFIG && e.value.issuer != config.issuer)
            && (r.Err? && r.error.Unverified? <==> addressed && !signed)
            && (r.Err? && r.error.BadPayload? <==> signed && content.Err?)
            && (r == Err(WrongSite) <==> signed && content.Ok? && content.value.0 != config.site)
            && (r == Err(WrongInventory) <==>
                  signed && content.Ok? && content.value.0 == config.site
                  && content.value.1
                     != InventoryHash(p, if presented.Some? then presented.value else content.value.2.links))
  {
  }

  class BundleStore {
    const p: Platform
    const config: Config
    const floor: PolicyBundle
    const epochs: FileEpochStore
    var bundle: Option<PolicyBundle>
    var sequence: int
    var nonces: set<Bytes>

    constructor (p: Platform, config: Config, floor: PolicyBundle, epochs: FileEpochStore, sequence: int)
      ensures this.p == p && this.config == config && this.floor == floor && this.epochs == epochs
      ensures Memory() == Volatile(None, sequence, {})
    {
      this.p, this.config, this.floor, this.epochs := p, config, floor, epochs;
      this.bundle, this.sequence, this.nonces := None, sequence, {};
    }

    function Memory(): Volatile
      reads this
    {
      Volatile(bundle, sequence, nonces)
    }

    /** Opens a store, or refuses to start on a doubtful floor or an unreadable mark. */
    static method Open(p: Platform, config: Config, signedFloor: Bytes, epochs: FileEpochStore,
                       presented: Option<seq<Link>>)
      returns (r: Result<BundleStore, StoreError>)
      ensures r.Ok? <==> ReadMark(epochs.mark).Ok?
                         && exists floor :: GenuineFloor(p, config, signedFloor, presented, floor)
      ensures r.Ok? ==>
                && fresh(r.value) && r.value.p == p && r.value.config == config && r.value.epochs == epochs
                && GenuineFloor(p, config, signedFloor, presented, r.value.floor)
                && r.value.Memory() == Volatile(None, ReadMark(epochs.mark).value, {})
      ensures var floor, mark := InstallFloor(p, config, signedFloor, presented), ReadMark(epochs.mark);
              r.Err? ==> r.error == if floor.Err? then floor.error else MarkFailed(EpochUnreadable)
    {
      var floor := InstallFloor(p, config, signedFloor, presented);
      forall f ensures floor == Ok(f) <==> GenuineFloor(p, config, signedFloor, presented, f) {
        InstallsExactly(p, config, signedFloor, presented, f);
      }
      if floor.Err? {
        return Err(floor.error);
      }
      var mark := ReadMark(epochs.mark);
      if mark.Err? {
        return Err(MarkFailed(mark.error));
      }
      var store := new BundleStore(p, config, floor.value, epochs, mark.value);
      return Ok(store);
    }

    /** Verifies and installs a bundle, the mark first and then the bundle. */
    method Accept(data: Bytes, now: int, writes: bool) returns (r: Result<PolicyBundle, StoreError>)
      modifies this, epochs
      ensures (Memory(), epochs.mark, r) == Accepting(p, config, old(Memory()), old(epochs.mark), data, now, writes)
    {
      var admitted := Admit(p, config, sequence, nonces, true, data, now);
      if admitted.Err? {
        return Err(admitted.error);
      }
      var accepted := admitted.value.bundle;
      var committed := epochs.Commit(accepted.sequence, writes);
      if committed.Err? {
        return Err(MarkFailed(committed.error));
      }
      nonces := nonces + {admitted.value.envelope.nonce};
      bundle := Some(accepted);
      sequence := accepted.sequence;
      return Ok(accepted);
    }

    function Current(now: int): (PolicyBundle, bool)
      reads this
    {
      CurrentOf(floor, bundle, now)
    }
  }

  // ---------- the floor, from signing to installation ----------

  /** `sign_floor` (pilotfish/authority/signer.py). */
  function SignFloor(p: Platform, key: Bytes, issuer: Text, site: Text, links: seq<Link>, classes: seq<TrafficClass>,
                     now: int, nonce: Bytes): Result<Bytes, EnvelopeError>
  {
    var floor := FloorBundle(links, Some(now), issuer, classes);
    var signed :- Sign(p, MSG_FLOOR_CONFIG, issuer, now, nonce,
                       EncodeFloorConfig(site, InventoryHash(p, links), floor), key);
    Ok(EncodeEnvelope(signed))
  }

  /** The floor that a site ends up with. */
  function WireFloor(issuer: Text, links: seq<Link>, classes: seq<TrafficClass>, now: int): PolicyBundle {
    TruncatedBundle(FloorBundle(links, Some(now), issuer, classes))
  }

  ghost predicate FloorEncodable(p: Platform, key: Bytes, issuer: Text, site: Text, links: seq<Link>,
                                 classes: seq<TrafficClass>, now: int, nonce: Bytes)
  {
    var floor := FloorBundle(links, Some(now), issuer, classes);
    var payload := EncodeFloorConfig(site, InventoryHash(p, links), floor);
    && |nonce| == NONCE_BYTES
    && Encodable(BundleValue(floor))
    && Encodable(FloorConfigValue(site, InventoryHash(p, links), floor))
    && |payload| < TWO64 && |issuer| < TWO64 && -TWO64 <= ToSeconds(now) < TWO64
  }

  /** A signed floor installs at its own site exactly when the inventory presented hashes to the one
      it was signed for, and it then has every link, class and rule it was signed with. */
  lemma SignedFloorInstalls(p: Platform, key: Bytes, issuer: Text, site: Text, links: seq<Link>,
                            classes: seq<TrafficClass>, now: int, nonce: Bytes, presented: Option<seq<Link>>)
    requires p.Sound() && FloorEncodable(p, key, issuer, site, links, classes, now, nonce)
    ensures var signed := SignFloor(p, key, issuer, site, links, classes, now, nonce);
            && signed.Ok?
            && InstallFloor(p, Config(p.publicKey(key), issuer, site), signed.value, presented) ==
               if presented.Some? && InventoryHash(p, presented.value) != InventoryHash(p, links)
               then Err(WrongInventory) else Ok(WireFloor(issuer, links, classes, now))
    ensures var floor := WireFloor(issuer, links, classes, now);
            floor.links == links && floor.classes == FloorClasses(classes)
            && floor.rules == FloorRules(FloorClasses(classes))
  {
    var floor := FloorBundle(links, Some(now), issuer, classes);
    var payload := EncodeFloorConfig(site, InventoryHash(p, links), floor);
    SignedVerifies(p, MSG_FLOOR_CONFIG, issuer, now, nonce, payload, key);
    var e := Sign(p, MSG_FLOOR_CONFIG, issuer, now, nonce, payload, key).value;
    DecodeEnvelopeOfEncode(p, e, p.publicKey(key));
    DecodeFloorConfigOfEncode(site, InventoryHash(p, links), floor);
    FloorSurvivesTruncation(links, Some(now), issuer, classes);
  }

  /** A store opens on a signed floor exactly when the inventory presented is the signed one, as a
      multiset of links, owners aside. */
  lemma FloorBindsInventory(p: Platform, key: Bytes, issuer: Text, site: Text, links: seq<Link>,
                            classes: seq<TrafficClass>, now: int, nonce: Bytes, presented: seq<Link>)
    requires p.Sound() && FloorEncodable(p, key, issuer, site, links, classes, now, nonce)
    requires Encodable(InventoryValue(links)) && Encodable(InventoryValue(presented))
    requires p.Distinguishes(Dumps(InventoryValue(presented)), Dumps(InventoryValue(links)))
    ensures var signed := SignFloor(p, key, issuer, site, links, classes, now, nonce);
            signed.Ok? &&
            (InstallFloor(p, Config(p.publicKey(key), issuer, site), signed.value, Some(presented)).Ok?
             <==> multiset(Map(Unowned, presented)) == multiset(Map(Unowned, links)))
  {
    SignedFloorInstalls(p, key, issuer, site, links, classes, now, nonce, Some(presented));
    InventoryHashDecidesInventory(p, presented, links);
  }

  /** Without declared classes the floor is for one class, which may use exactly the links that are observed
      up, are not metered, and are no free-space optics. */
  lemma DefaultFloorPermits(p: Platform, issuer: Text, links: seq<Link>, signedAt: int, evidence: Evidence, now: int)
    ensures var floor := WireFloor(issuer, links, [], signedAt);
            var d := DecisionFor(p, floor, evidence, now, [], true);
            && |d.classes| == 1 && d.classes[0].classId == Ascii("default")
            && forall x :: x in d.classes[0].permitted <==>
                 exists link | link in links ::
                   && link.id == x && !link.metered && link.kind != Ascii("fso")
                   && exists v :: MeasuredAs(AsOf(evidence, now), link.id, UP, v) && p.Read(v) >= 1.0
  {
    var floor, seen := WireFloor(issuer, links, [], signedAt), AsOf(evidence, now);
    FloorSurvivesTruncation(links, Some(signedAt), issuer, []);
    assert Sort(By(ClassKey), [DEFAULT_CLASS]) == [DEFAULT_CLASS];
    InstalledFloorPermits(p, issuer, links, [], signedAt, DEFAULT_CLASS, evidence, now);
    forall link: Link
      ensures FloorAdmits(p, link, DEFAULT_CLASS, seen)
              <==> !link.metered && link.kind != FSO
                   && exists v :: MeasuredAs(seen, link.id, UP, v) && p.Read(v) >= 1.0
    {
      UpIsMeasured(p, seen, link.id);
    }
  }

  /** Under the floor a site installed, a class may use exactly the links that meet every constraint
      the class declares, are observed up and are not free-space optics. */
  lemma InstalledFloorPermits(p: Platform, issuer: Text, links: seq<Link>, classes: seq<TrafficClass>, signedAt: int,
                              c: TrafficClass, evidence: Evidence, now: int)
    requires c in FloorClasses(classes)
    ensures var floor, seen := WireFloor(issuer, links, classes, signedAt), AsOf(evidence, now);
            forall x :: x in Eligibility(p, floor.links, floor.rules, seen, now)(c).permitted
                        <==> exists link | link in links :: link.id == x && FloorAdmits(p, link, c, seen)
  {
    FloorSurvivesTruncation(links, Some(signedAt), issuer, classes);
    var rules, seen := FloorRules(FloorClasses(classes)), AsOf(evidence, now);
    PermittedMembers(p, links, rules, c, seen, now);
    forall link: Link ensures Excluded(p, rules, link, c, seen, now) <==> !FloorAdmits(p, link, c, seen) {
      FloorRulesAdmit(p, FloorClasses(classes), link, c, seen, now);
    }
  }
}
