/** Runs of the bundle store with refusals, failed writes, crashes between any two effects and
    restarts (pilotfish/agent/bundle_store.py, pilotfish/agent/epoch.py). */
module StoreRuns {
  import opened Prelude
  import opened Models
  import opened Policy
  import opened Messages
  import opened Envelopes
  import opened Epoch
  import opened BundleStores

  /** How far the acceptance of a bundle has come. */
  datatype Progress = Resting | Admitted(a: Admission) | TempWritten(a: Admission) | MarkReplaced(a: Admission)

  /** One site: the mark survives a crash, the rest does not. `governed` is the history of the
      bundles that have ever been in force. */
  datatype Site = Site(mark: Mark, live: Option<Volatile>, progress: Progress, governed: seq<PolicyBundle>)

  datatype Action =
    | Offer(data: Bytes, now: int)  // an envelope arrives
    | WriteTemp                     // the temporary file is written
    | WriteFails                    // writing or replacing raises
    | Replace                       // the temporary file replaces the mark
    | Install                       // the bundle comes into force
    | Crash
    | Restart

  /** One action; an action that the state does not allow changes nothing. `useNonces` is true in the
      source; without it the nonce set is not consulted. */
  function Step(p: Platform, config: Config, useNonces: bool, s: Site, action: Action): Site {
    match action
    case Crash => s.(live := None, progress := Resting)
    case Restart =>
      if s.live.None? && ReadMark(s.mark).Ok? then s.(live := Some(Volatile(None, ReadMark(s.mark).value, {}))) else s
    case Offer(data, now) =>
      if s.live.None? || !s.progress.Resting? then s
      else
        var v := s.live.value;
        var admitted := Admit(p, config, v.sequence, v.nonces, useNonces, data, now);
        if admitted.Err? then s else s.(progress := Admitted(admitted.value))
    case WriteTemp =>
      if !s.progress.Admitted? then s
      else if ReadMark(s.mark).Err? then s.(progress := Resting)
      else if s.progress.a.bundle.sequence <= ReadMark(s.mark).value then s.(progress := MarkReplaced(s.progress.a))
      else s.(progress := TempWritten(s.progress.a))
    case WriteFails =>
      if s.progress.Admitted? || s.progress.TempWritten? then s.(progress := Resting) else s
    case Replace =>
      if s.progress.TempWritten?
      then s.(mark := Recorded(s.progress.a.bundle.sequence), progress := MarkReplaced(s.progress.a)) else s
    case Install =>
      if s.live.Some? && s.progress.MarkReplaced?
      then s.(live := Some(Installed(s.live.value, s.progress.a)), progress := Resting,
              governed := s.governed + [s.progress.a.bundle])
      else s
  }

  function Run(p: Platform, config: Config, useNonces: bool, s: Site, actions: seq<Action>): Site {
    if actions == [] then s
    else
      var n := |actions| - 1;
      Step(p, config, useNonces, Run(p, config, useNonces, s, actions[..n]), actions[n])
  }

  /** A site before it ever ran, whatever its mark file holds. */
  ghost predicate Initial(s: Site) {
    s.live.None? && s.progress.Resting? && s.governed == []
  }

  /** Each bundle has a higher sequence than all before it. */
  ghost predicate StrictlyIncreasing(bundles: seq<PolicyBundle>) {
    forall i, j | 0 <= i < j < |bundles| :: bundles[i].sequence < bundles[j].sequence
  }

  /** Every sequence that ever governed is at most `bound`. */
  ghost predicate AllAtMost(bundles: seq<PolicyBundle>, bound: int) {
    forall i | 0 <= i < |bundles| :: bundles[i].sequence <= bound
  }

  ghost predicate Safe(s: Site) {
    && StrictlyIncreasing(s.governed)
    && (s.governed != [] ==> ReadMark(s.mark).Ok? && AllAtMost(s.governed, ReadMark(s.mark).value))
    && (s.live.None? ==> s.progress.Resting?)
    && (s.live.Some? ==>
          var v := s.live.value;
          && ReadMark(s.mark).Ok?
          && AllAtMost(s.governed, v.sequence)
          && (!s.progress.MarkReplaced? ==> ReadMark(s.mark).value == v.sequence)
          && (!s.progress.Resting? ==> v.sequence < s.progress.a.bundle.sequence)
          && (s.progress.MarkReplaced? ==> s.mark == Recorded(s.progress.a.bundle.sequence))
          && (v.bundle.Some? ==> s.governed != [] && v.bundle.value == s.governed[|s.governed| - 1]))
  }

  lemma StepKeepsSafe(p: Platform, config: Config, useNonces: bool, s: Site, action: Action)
    requires Safe(s)
    ensures Safe(Step(p, config, useNonces, s, action))
    ensures MarkAtMost(s.mark, Step(p, config, useNonces, s, action).mark)
  {
  }

  lemma {:induction false} RunIsSafe(p: Platform, config: Config, useNonces: bool, s: Site, actions: seq<Action>)
    requires Initial(s)
    ensures Safe(Run(p, config, useNonces, s, actions))
  {
    if actions != [] {
      var n := |actions| - 1;
      RunIsSafe(p, config, useNonces, s, actions[..n]);
      StepKeepsSafe(p, config, useNonces, Run(p, config, useNonces, s, actions[..n]), actions[n]);
    }
  }

  /** The durable mark never goes down along a run. */
  lemma {:induction false} MarkNeverDecreases(p: Platform, config: Config, useNonces: bool, s: Site,
                                              actions: seq<Action>, k: nat)
    requires Initial(s) && k <= |actions|
    ensures MarkAtMost(Run(p, config, useNonces, s, actions[..k]).mark, Run(p, config, useNonces, s, actions).mark)
    decreases |actions|
  {
    if k == |actions| {
      assert actions[..k] == actions;
    } else {
      var n := |actions| - 1;
      assert actions[..n][..k] == actions[..k];
      MarkNeverDecreases(p, config, useNonces, s, actions[..n], k);
      RunIsSafe(p, config, useNonces, s, actions[..n]);
      StepKeepsSafe(p, config, useNonces, Run(p, config, useNonces, s, actions[..n]), actions[n]);
    }
  }

  /** Nothing new governs, or what does is already the mark on disk and above all that governed before. */
  ghost predicate OnDiskFirst(before: Site, after: Site) {
    var n := |before.governed|;
    after.governed == before.governed
    || (|after.governed| == n + 1 && after.governed == before.governed + [after.governed[n]]
        && after.mark == before.mark == Recorded(after.governed[n].sequence)
        && AllAtMost(before.governed, after.governed[n].sequence - 1))
  }

  lemma StepIsOnDiskFirst(p: Platform, config: Config, useNonces: bool, s: Site, action: Action)
    requires Safe(s)
    ensures OnDiskFirst(s, Step(p, config, useNonces, s, action))
  {
  }

  /** Rollback safety over every run: the sequences that ever govern strictly increase, so each
      governs at most once; whenever one comes into force the mark on disk already equals it; and
      what is current is the floor, or the last bundle that came into force while it is unexpired. */
  lemma RollbackSafety(p: Platform, config: Config, useNonces: bool, s: Site, actions: seq<Action>,
                       floor: PolicyBundle, now: int)
    requires Initial(s)
    ensures var end := Run(p, config, useNonces, s, actions);
            && StrictlyIncreasing(end.governed)
            && (end.governed != [] ==> ReadMark(end.mark).Ok? && AllAtMost(end.governed, ReadMark(end.mark).value))
            && (end.live.Some? ==>
                  var (bundle, degraded) := CurrentOf(floor, end.live.value.bundle, now);
                  var last := end.live.value.bundle;
                  && (degraded <==> last.None? || last.value.notAfter <= now)
                  && (last.Some? ==> end.governed != [] && last.value == end.governed[|end.governed| - 1])
                  && bundle == if degraded then floor else end.governed[|end.governed| - 1])
    ensures var end := Run(p, config, useNonces, s, actions);
            forall action :: OnDiskFirst(end, Step(p, config, useNonces, end, action))
  {
    RunIsSafe(p, config, useNonces, s, actions);
    var end := Run(p, config, useNonces, s, actions);
    forall action ensures OnDiskFirst(end, Step(p, config, useNonces, end, action)) {
      StepIsOnDiskFirst(p, config, useNonces, end, action);
    }
  }

  lemma RunOne(p: Platform, config: Config, useNonces: bool, s: Site, actions: seq<Action>, action: Action)
    ensures Run(p, config, useNonces, s, actions + [action])
            == Step(p, config, useNonces, Run(p, config, useNonces, s, actions), action)
  {
    assert (actions + [action])[..|actions|] == actions;
  }

  /** A crash forgets all but the mark; a restart brings the site up at the mark, with no bundle and no
      nonces, if the mark is readable, and not at all otherwise. */
  lemma RestartsExactly(p: Platform, config: Config, useNonces: bool, s: Site)
    ensures var down := Step(p, config, useNonces, s, Crash);
            down == Site(s.mark, None, Resting, s.governed)
            && Step(p, config, useNonces, down, Restart)
               == Site(s.mark, if ReadMark(s.mark).Ok? then Some(Volatile(None, ReadMark(s.mark).value, {})) else None,
                       Resting, s.governed)
  {
  }

  /** `accept` is a run of its effects: four of them when the writes succeed, and a failed write after
      the checks when they do not. */
  lemma AcceptIsARun(p: Platform, config: Config, s: Site, data: Bytes, now: int, writes: bool)
    requires Safe(s) && s.live.Some? && s.progress.Resting?
    ensures var actions := [Offer(data, now)] + if writes then [WriteTemp, Replace, Install] else [WriteFails];
            var end := Run(p, config, true, s, actions);
            var (memory, mark, r) := Accepting(p, config, s.live.value, s.mark, data, now, writes);
            end == Site(mark, Some(memory), Resting, if r.Ok? then s.governed + [r.value] else s.governed)
  {
    RunOne(p, config, true, s, [], Offer(data, now));
    assert [] + [Offer(data, now)] == [Offer(data, now)];
    var one := [Offer(data, now)];
    if writes {
      RunOne(p, config, true, s, one, WriteTemp);
      RunOne(p, config, true, s, one + [WriteTemp], Replace);
      RunOne(p, config, true, s, one + [WriteTemp] + [Replace], Install);
      assert one + [WriteTemp, Replace, Install] == one + [WriteTemp] + [Replace] + [Install];
    } else {
      RunOne(p, config, true, s, one, WriteFails);
    }
  }

  // ---------- the nonce set against the durable sequence ----------

  /** A bundle that is being installed is a genuine one. */
  lemma {:induction false} ProgressIsGenuine(p: Platform, config: Config, useNonces: bool, s: Site,
                                             actions: seq<Action>)
    requires Initial(s)
    ensures var end := Run(p, config, useNonces, s, actions);
            !end.progress.Resting? ==> Genuine(p, config, end.progress.a)
  {
    if actions != [] {
      ProgressIsGenuine(p, config, useNonces, s, actions[..|actions| - 1]);
    }
  }

  /** This action brought the bundle, in an envelope that passes every check but those of time, sequence
      and nonce. */
  ghost predicate BringsGenuine(p: Platform, config: Config, action: Action, bundle: PolicyBundle) {
    action.Offer? && DecodeEnvelope(action.data).Ok?
    && Genuine(p, config, Admission(DecodeEnvelope(action.data).value, bundle))
  }

  ghost predicate GenuinelyBrought(p: Platform, config: Config, actions: seq<Action>, bundle: PolicyBundle) {
    exists i :: 0 <= i < |actions| && BringsGenuine(p, config, actions[i], bundle)
  }

  ghost predicate AllBrought(p: Platform, config: Config, s: Site, actions: seq<Action>) {
    && (forall b | b in s.governed :: GenuinelyBrought(p, config, actions, b))
    && (!s.progress.Resting? ==> GenuinelyBrought(p, config, actions, s.progress.a.bundle))
  }

  lemma StaysBrought(p: Platform, config: Config, s: Site, actions: seq<Action>)
    requires actions != [] && AllBrought(p, config, s, actions[..|actions| - 1])
    ensures AllBrought(p, config, s, actions)
  {
    var n := |actions| - 1;
    forall b | GenuinelyBrought(p, config, actions[..n], b) ensures GenuinelyBrought(p, config, actions, b) {
      var i :| 0 <= i < n && BringsGenuine(p, config, actions[..n][i], b);
      assert BringsGenuine(p, config, actions[i], b);
    }
  }

  lemma StepKeepsBrought(p: Platform, config: Config, useNonces: bool, s: Site, actions: seq<Action>)
    requires actions != [] && AllBrought(p, config, s, actions[..|actions| - 1])
    ensures AllBrought(p, config, Step(p, config, useNonces, s, actions[|actions| - 1]), actions)
  {
    var action := actions[|actions| - 1];
    StaysBrought(p, config, s, actions);
    if action.Offer? {
      OfferBrings(p, config, useNonces, s, action);
    }
  }

  lemma OfferBrings(p: Platform, config: Config, useNonces: bool, s: Site, action: Action)
    requires action.Offer?
    ensures var next := Step(p, config, useNonces, s, action);
            next.governed == s.governed
            && (next == s || (next.progress.Admitted? && BringsGenuine(p, config, action, next.progress.a.bundle)))
  {
  }

  /** Whatever has governed was brought, at some time before, in an envelope of the trusted issuer that
      verifies under the trusted key. */
  lemma {:induction false} GovernedIsGenuine(p: Platform, config: Config, useNonces: bool, s: Site,
                                             actions: seq<Action>)
    requires Initial(s)
    ensures AllBrought(p, config, Run(p, config, useNonces, s, actions), actions)
  {
    if actions != [] {
      var n := |actions| - 1;
      GovernedIsGenuine(p, config, useNonces, s, actions[..n]);
      StepKeepsBrought(p, config, useNonces, Run(p, config, useNonces, s, actions[..n]), actions);
    }
  }

  /** What governed once stays in the history. */
  lemma {:induction false} HistoryGrows(p: Platform, config: Config, useNonces: bool, s: Site, actions: seq<Action>,
                                        k: nat)
    requires k <= |actions|
    ensures Run(p, config, useNonces, s, actions[..k]).governed <= Run(p, config, useNonces, s, actions).governed
    decreases |actions|
  {
    if k == |actions| {
      assert actions[..k] == actions;
    } else {
      var n := |actions| - 1;
      assert actions[..n][..k] == actions[..k];
      HistoryGrows(p, config, useNonces, s, actions[..n], k);
      StepGrowsHistory(p, config, useNonces, Run(p, config, useNonces, s, actions[..n]), actions[n]);
    }
  }

  lemma StepGrowsHistory(p: Platform, config: Config, useNonces: bool, s: Site, action: Action)
    ensures s.governed <= Step(p, config, useNonces, s, action).governed
  {
  }

  /** Once an envelope's bundle came into force, it is refused ever after: in whatever state failed
      writes, crashes and restarts lead to, at any time, and by the sequence alone. */
  lemma ReplayRefusedBySequence(p: Platform, config: Config, useNonces: bool, s: Site, actions: seq<Action>, k: nat,
                                data: Bytes, now: int)
    requires Initial(s) && k < |actions| && actions[k].Install?
    requires var before := Run(p, config, useNonces, s, actions[..k]);
             before.progress.MarkReplaced? && DecodeEnvelope(data) == Ok(before.progress.a.envelope)
    ensures var end := Run(p, config, useNonces, s, actions);
            end.live.Some? ==>
              var again := Admit(p, config, end.live.value.sequence, {}, false, data, now);
              again == Err(RollbackRefused) || again == Err(FromTheFuture)
  {
    var before, end := Run(p, config, useNonces, s, actions[..k]), Run(p, config, useNonces, s, actions);
    ProgressIsGenuine(p, config, useNonces, s, actions[..k]);
    RunIsSafe(p, config, useNonces, s, actions[..k]);
    RunIsSafe(p, config, useNonces, s, actions);
    assert actions[..k + 1][..k] == actions[..k];
    HistoryGrows(p, config, useNonces, s, actions, k + 1);
    var bundle := before.progress.a.bundle;
    assert Run(p, config, useNonces, s, actions[..k + 1]).governed == before.governed + [bundle];
    assert end.governed[|before.governed|] == bundle;
  }

  /** What is remembered is remembered until a crash. */
  lemma {:induction false} NonceStays(p: Platform, config: Config, useNonces: bool, s: Site, actions: seq<Action>,
                                      k: nat, nonce: Bytes)
    requires k <= |actions| && forall i | k <= i < |actions| :: !actions[i].Crash?
    requires var kept := Run(p, config, useNonces, s, actions[..k]);
             kept.live.Some? && nonce in kept.live.value.nonces
    ensures var end := Run(p, config, useNonces, s, actions); end.live.Some? && nonce in end.live.value.nonces
    decreases |actions|
  {
    if k == |actions| {
      assert actions[..k] == actions;
    } else {
      var n := |actions| - 1;
      assert actions[..n][..k] == actions[..k];
      NonceStays(p, config, useNonces, s, actions[..n], k, nonce);
    }
  }

  /** Until the next crash, an envelope with the nonce of one that came into force is refused for its nonce,
      if it passes the checks that come before. */
  lemma NonceRefusedUntilCrash(p: Platform, config: Config, s: Site, actions: seq<Action>, k: nat, data: Bytes,
                               now: int)
    requires k < |actions| && actions[k].Install? && forall i | k <= i < |actions| :: !actions[i].Crash?
    requires var before := Run(p, config, true, s, actions[..k]);
             && before.live.Some? && before.progress.MarkReplaced?
             && DecodeEnvelope(data).Ok? && DecodeEnvelope(data).value.nonce == before.progress.a.envelope.nonce
    requires var e := DecodeEnvelope(data).value;
             && e.msgType == MSG_POLICY_BUNDLE && e.issuer == config.issuer
             && e.issuedAt <= now + MAX_CLOCK_SKEW && Verify(p, e, config.trustedKey) == Ok(())
    ensures var end := Run(p, config, true, s, actions);
            && end.live.Some?
            && Admit(p, config, end.live.value.sequence, end.live.value.nonces, true, data, now) == Err(NonceSeen)
  {
    var before := Run(p, config, true, s, actions[..k]);
    assert actions[..k + 1][..k] == actions[..k];
    assert Run(p, config, true, s, actions[..k + 1]) == Step(p, config, true, before, Install);
    NonceStays(p, config, true, s, actions, k + 1, DecodeEnvelope(data).value.nonce);
  }

  /** The nonce and the sequence that an offered envelope carries, if it decodes. */
  function Carries(action: Action): Option<(Bytes, int)> {
    if !action.Offer? || DecodeEnvelope(action.data).Err? then None
    else
      var e := DecodeEnvelope(action.data).value;
      if DecodeBundle(e.payload).Err? then None else Some((e.nonce, DecodeBundle(e.payload).value.sequence))
  }

  /** No nonce comes back with a higher sequence. */
  ghost predicate NoncesDisciplined(actions: seq<Action>) {
    forall i, j | 0 <= i < j < |actions| && Carries(actions[i]).Some? && Carries(actions[j]).Some? ::
      Carries(actions[i]).value.0 == Carries(actions[j]).value.0 ==>
        Carries(actions[j]).value.1 <= Carries(actions[i]).value.1
  }

  /** The action brought this nonce, with a sequence that is no higher than the given one. */
  ghost predicate Brought(action: Action, nonce: Bytes, sequence: int) {
    Carries(action).Some? && Carries(action).value.0 == nonce && Carries(action).value.1 <= sequence
  }

  ghost predicate BroughtBefore(actions: seq<Action>, nonce: Bytes, sequence: int) {
    exists i | 0 <= i < |actions| :: Brought(actions[i], nonce, sequence)
  }

  /** Every nonce in the set came with a sequence no higher than the store's, and what is being
      installed was offered. */
  ghost predicate Explained(s: Site, actions: seq<Action>) {
    && (s.live.Some? ==> forall n | n in s.live.value.nonces :: BroughtBefore(actions, n, s.live.value.sequence))
    && (!s.progress.Resting? ==>
          BroughtBefore(actions, s.progress.a.envelope.nonce, s.progress.a.bundle.sequence))
  }

  lemma InstallKeepsExplained(s: Site, actions: seq<Action>)
    requires Safe(s) && Explained(s, actions) && s.live.Some? && s.progress.MarkReplaced?
    ensures var v := Installed(s.live.value, s.progress.a);
            forall n | n in v.nonces :: BroughtBefore(actions, n, v.sequence)
  {
    var v := Installed(s.live.value, s.progress.a);
    forall n | n in v.nonces ensures BroughtBefore(actions, n, v.sequence) {
      if n in s.live.value.nonces {
        var i :| 0 <= i < |actions| && Brought(actions[i], n, s.live.value.sequence);
        assert Brought(actions[i], n, v.sequence);
      }
    }
  }

  lemma StepKeepsExplained(p: Platform, config: Config, useNonces: bool, s: Site, actions: seq<Action>)
    requires Safe(s) && actions != [] && Explained(s, actions[..|actions| - 1])
    ensures Explained(Step(p, config, useNonces, s, actions[|actions| - 1]), actions)
  {
    var action := actions[|actions| - 1];
    var next := Step(p, config, useNonces, s, action);
    match action
    case Install =>
      if s.live.Some? && s.progress.MarkReplaced? {
        InstallKeepsExplained(s, actions);
      }
    case Offer(data, now) =>
      if next != s {
        assert Brought(action, next.progress.a.envelope.nonce, next.progress.a.bundle.sequence);
      }
    case _ =>
  }

  lemma {:induction false} RunIsExplained(p: Platform, config: Config, useNonces: bool, s: Site, actions: seq<Action>)
    requires Initial(s)
    ensures Explained(Run(p, config, useNonces, s, actions), actions)
  {
    if actions != [] {
      var n := |actions| - 1;
      RunIsExplained(p, config, useNonces, s, actions[..n]);
      RunIsSafe(p, config, useNonces, s, actions[..n]);
      StepKeepsExplained(p, config, useNonces, Run(p, config, useNonces, s, actions[..n]), actions);
    }
  }

  /** With and without the nonce set an envelope is decided alike, unless it passes every other check
      on a nonce already seen: then only the nonce set refuses it. */
  lemma NonceDecidesExactlyOnReuse(p: Platform, config: Config, sequence: int, nonces: set<Bytes>, data: Bytes,
                                   now: int)
    ensures var withSet := Admit(p, config, sequence, nonces, true, data, now);
            var without := Admit(p, config, sequence, nonces, false, data, now);
            && (withSet.Ok? ==> withSet == without)
            && (withSet.Ok? != without.Ok? <==>
                  without.Ok? && without.value.envelope.nonce in nonces && without.value.bundle.sequence > sequence)
  {
  }

  lemma DisciplinedStepAlike(p: Platform, config: Config, s: Site, actions: seq<Action>)
    requires actions != [] && NoncesDisciplined(actions) && Explained(s, actions[..|actions| - 1])
    ensures Step(p, config, true, s, actions[|actions| - 1]) == Step(p, config, false, s, actions[|actions| - 1])
  {
    var action := actions[|actions| - 1];
    if action.Offer? && s.live.Some? {
      var v := s.live.value;
      NonceDecidesExactlyOnReuse(p, config, v.sequence, v.nonces, action.data, action.now);
    }
  }

  /** On every run in which no nonce comes back with a higher sequence, with refusals, failed writes,
      crashes at any point and restarts, a site without the nonce set is at every step in the very
      state of a site with it. */
  lemma {:induction false} NonceSetIsRedundant(p: Platform, config: Config, s: Site, actions: seq<Action>)
    requires Initial(s) && NoncesDisciplined(actions)
    ensures Run(p, config, true, s, actions) == Run(p, config, false, s, actions)
  {
    if actions != [] {
      var n := |actions| - 1;
      assert forall i | 0 <= i < n :: actions[..n][i] == actions[i];
      NonceSetIsRedundant(p, config, s, actions[..n]);
      RunIsExplained(p, config, true, s, actions[..n]);
      DisciplinedStepAlike(p, config, Run(p, config, true, s, actions[..n]), actions);
    }
  }
}
