/** Selectors that choose on observed latency (sim/selectors.py). */
module Selectors {
  import opened Prelude
  import opened Ordering
  import opened Models
  import opened Rules

  /** What a selector is shown in a step: `SelectorContext` without the declared links and classes. */
  datatype Context = Context(evidence: Evidence, now: int, reachable: bool)

  predicate ObservedUp(p: Platform, evidence: Evidence, link: Text) {
    var o := Latest(evidence, link, UP);
    o.Some? && p.Read(o.value.value) >= 1.0
  }

  /** None stands for an infinite latency. */
  function ObservedRtt(p: Platform, evidence: Evidence, link: Text): Option<real> {
    var o := Latest(evidence, link, RTT);
    if o.None? then None else Some(p.Read(o.value.value))
  }

  /** `(rtt, id)` of `a` is strictly below that of `b`. */
  predicate Better(p: Platform, evidence: Evidence, a: Text, b: Text) {
    var x, y := ObservedRtt(p, evidence, a), ObservedRtt(p, evidence, b);
    if x == y then a != b && TextLe(a, b)
    else x.Some? && (y.None? || x.value < y.value)
  }

  function IsUp(p: Platform, evidence: Evidence): Text -> bool {
    (link: Text) => ObservedUp(p, evidence, link)
  }

  /** Python's `min`: the first of the least. */
  function Least(p: Platform, evidence: Evidence, live: seq<Text>): Option<Text> {
    if live == [] then None
    else
      var best := Least(p, evidence, live[..|live| - 1]);
      var x := live[|live| - 1];
      if best.None? || Better(p, evidence, x, best.value) then Some(x) else best
  }

  /** `_best_by_rtt` */
  function BestByRtt(p: Platform, evidence: Evidence, candidates: seq<Text>): Option<Text> {
    Least(p, evidence, Filter(IsUp(p, evidence), candidates))
  }

  lemma BetterTransitive(p: Platform, evidence: Evidence, a: Text, b: Text, c: Text)
    requires !Better(p, evidence, b, a) && !Better(p, evidence, c, b)
    ensures !Better(p, evidence, c, a)
  {
    TextOrder();
    assert TextLe(a, b) || TextLe(b, a);
    assert TextLe(b, c) || TextLe(c, b);
    assert TextLe(a, c) || TextLe(c, a);
  }

  lemma BetterAsymmetric(p: Platform, evidence: Evidence, a: Text, b: Text)
    requires Better(p, evidence, a, b)
    ensures !Better(p, evidence, b, a)
  {
    TextOrder();
  }

  lemma {:induction false} LeastIsLeast(p: Platform, evidence: Evidence, live: seq<Text>)
    ensures Least(p, evidence, live).None? <==> live == []
    ensures Least(p, evidence, live).Some? ==>
              Least(p, evidence, live).value in live
              && forall x | x in live :: !Better(p, evidence, x, Least(p, evidence, live).value)
  {
    if live != [] {
      var n := |live| - 1;
      LeastIsLeast(p, evidence, live[..n]);
      var before, best := Least(p, evidence, live[..n]), Least(p, evidence, live).value;
      forall x | x in live ensures !Better(p, evidence, x, best) {
        if before.Some? && best == live[n] && x in live[..n] {
          if Better(p, evidence, best, before.value) {
            BetterAsymmetric(p, evidence, best, before.value);
            BetterTransitive(p, evidence, best, before.value, x);
          }
        } else if x == live[n] && best == live[n] && Better(p, evidence, x, x) {
          BetterAsymmetric(p, evidence, x, x);
        }
      }
    }
  }

  /** The choice is an observed-up candidate that no observed-up candidate beats, and there is none
      exactly when no candidate is observed up. */
  lemma BestIsBest(p: Platform, evidence: Evidence, candidates: seq<Text>)
    ensures var best := BestByRtt(p, evidence, candidates);
            && (best.None? <==> forall x | x in candidates :: !ObservedUp(p, evidence, x))
            && (best.Some? ==>
                  best.value in candidates && ObservedUp(p, evidence, best.value)
                  && forall x | x in candidates && ObservedUp(p, evidence, x) :: !Better(p, evidence, x, best.value))
  {
    var live := Filter(IsUp(p, evidence), candidates);
    LeastIsLeast(p, evidence, live);
    forall x ensures x in live <==> x in candidates && ObservedUp(p, evidence, x) {
      FilterMembers(IsUp(p, evidence), candidates, x);
    }
    if live != [] {
      assert live[0] in live;
    }
  }

  /** A link is observed up exactly if the newest observation of its liveness says so. */
  lemma UpExactly(p: Platform, evidence: Evidence, link: Text)
    ensures ObservedUp(p, evidence, link) <==> exists v :: MeasuredAs(evidence, link, UP, v) && p.Read(v) >= 1.0
  {
    UpIsMeasured(p, evidence, link);
  }

  /** One link is better than another if its newest latency is lower, if it alone has one, or if neither
      differs from the other but in its id, which comes first. */
  lemma BetterExactly(p: Platform, evidence: Evidence, a: Text, b: Text)
    ensures Unmeasured(evidence, a, RTT) && Unmeasured(evidence, b, RTT) ==>
              (Better(p, evidence, a, b) <==> a != b && TextLe(a, b))
    ensures Unmeasured(evidence, a, RTT) && !Unmeasured(evidence, b, RTT) ==> !Better(p, evidence, a, b)
    ensures !Unmeasured(evidence, a, RTT) && Unmeasured(evidence, b, RTT) ==> Better(p, evidence, a, b)
    ensures forall x, y | MeasuredAs(evidence, a, RTT, x) && MeasuredAs(evidence, b, RTT, y) ::
              Better(p, evidence, a, b)
              <==> p.Read(x) < p.Read(y) || (p.Read(x) == p.Read(y) && a != b && TextLe(a, b))
  {
    LatestIsFirstNewest(evidence, a, RTT);
    LatestIsFirstNewest(evidence, b, RTT);
    forall link, o ensures Newest(evidence, link, RTT, o) <==> Latest(evidence, link, RTT) == Some(o) {
      NewestIsLatest(evidence, link, RTT, o);
    }
  }

  // ---------- hysteresis ----------

  /** The link held and since when. */
  datatype Held = Held(current: Option<Text>, since: Option<int>)

  const NOTHING_HELD := Held(None, None)

  predicate HeldIsLive(p: Platform, held: Held, evidence: Evidence) {
    held.current.Some? && ObservedUp(p, evidence, held.current.value)
  }

  /** Moves at once off a link that is gone, and off a live one only after the dwell. */
  function Hold(p: Platform, links: seq<Text>, dwell: int, held: Held, look: Context): Held {
    var best := BestByRtt(p, look.evidence, links);
    if !HeldIsLive(p, held, look.evidence) then Held(best, Some(look.now))
    else if best != held.current && (held.since.None? || look.now - held.since.value >= dwell) then
      Held(best, Some(look.now))
    else held
  }

  class Hysteresis {
    const p: Platform
    const dwell: int
    var current: Option<Text>
    var since: Option<int>

    constructor (p: Platform, dwell: int)
      ensures this.p == p && this.dwell == dwell && State() == NOTHING_HELD
    {
      this.p, this.dwell := p, dwell;
      this.current, this.since := None, None;
    }

    function State(): Held
      reads this
    {
      Held(current, since)
    }

    method Reset()
      modifies this
      ensures State() == NOTHING_HELD
    {
      current, since := None, None;
    }

    method Call(links: seq<Text>, look: Context) returns (choice: Option<Text>)
      modifies this
      ensures State() == Hold(p, links, dwell, old(State()), look)
      ensures choice == State().current
    {
      var best := BestByRtt(p, look.evidence, links);
      var heldIsLive := current.Some? && ObservedUp(p, look.evidence, current.value);
      if current.None? || !heldIsLive {
        current, since := best, Some(look.now);
      } else if best != current {
        if since.None? || look.now - since.value >= dwell {
          current, since := best, Some(look.now);
        }
      }
      choice := current;
    }
  }

  /** A run of looks: what is held, moves off a live link, and moves off a link that was gone. */
  datatype Tally = Tally(held: Held, voluntary: nat, forced: nat)

  function Count(p: Platform, links: seq<Text>, dwell: int, t: Tally, look: Context): Tally {
    var next := Hold(p, links, dwell, t.held, look);
    var moved := next.current != t.held.current;
    var live := HeldIsLive(p, t.held, look.evidence);
    Tally(next, t.voluntary + (if moved && live then 1 else 0), t.forced + (if moved && !live then 1 else 0))
  }

  function Looks(p: Platform, links: seq<Text>, dwell: int, looks: seq<Context>): Tally {
    if looks == [] then Tally(NOTHING_HELD, 0, 0)
    else Count(p, links, dwell, Looks(p, links, dwell, looks[..|looks| - 1]), looks[|looks| - 1])
  }

  ghost predicate MonotoneLooks(looks: seq<Context>) {
    forall i, j | 0 <= i < j < |looks| :: looks[i].now <= looks[j].now
  }

  /** After every look the choice is an observed-up link, or none exactly when no link is observed up. */
  lemma {:induction false} HysteresisChoosesLive(p: Platform, links: seq<Text>, dwell: int, looks: seq<Context>)
    requires looks != []
    ensures var choice, evidence := Looks(p, links, dwell, looks).held.current, looks[|looks| - 1].evidence;
            && (choice.Some? ==> choice.value in links && ObservedUp(p, evidence, choice.value))
            && (choice.None? <==> forall x | x in links :: !ObservedUp(p, evidence, x))
  {
    var n := |looks| - 1;
    BestIsBest(p, looks[n].evidence, links);
    if n > 0 {
      HysteresisChoosesLive(p, links, dwell, looks[..n]);
    }
  }

  /** On every run with a monotone clock, moves off a live link are rationed by the dwell. */
  lemma {:induction false} VoluntaryMovesAreRationed(p: Platform, links: seq<Text>, dwell: int, looks: seq<Context>)
    requires looks != [] && MonotoneLooks(looks)
    ensures var t := Looks(p, links, dwell, looks);
            t.held.since.Some? && t.voluntary * dwell <= t.held.since.value - looks[0].now
            && looks[0].now <= t.held.since.value <= looks[|looks| - 1].now
  {
    var n := |looks| - 1;
    if n == 0 {
      assert Looks(p, links, dwell, looks[..0]) == Tally(NOTHING_HELD, 0, 0);
    } else {
      VoluntaryMovesAreRationed(p, links, dwell, looks[..n]);
      assert looks[..n][0] == looks[0] && looks[n - 1].now <= looks[n].now;
      CountIsRationed(p, links, dwell, Looks(p, links, dwell, looks[..n]), looks[n], looks[0].now);
    }
  }

  lemma CountIsRationed(p: Platform, links: seq<Text>, dwell: int, t: Tally, look: Context, start: int)
    requires t.held.since.Some? && start <= t.held.since.value <= look.now
    requires t.voluntary * dwell <= t.held.since.value - start
    ensures var next := Count(p, links, dwell, t, look);
            next.held.since.Some? && next.voluntary * dwell <= next.held.since.value - start
            && start <= next.held.since.value <= look.now
  {
    OneMore(t.voluntary, dwell);
  }

  // ---------- moving when it pays ----------

  /** What was held after each look of a run. */
  function HeldAfter(p: Platform, links: seq<Text>, dwell: int, looks: seq<Context>): (run: seq<Option<Text>>)
    ensures |run| == |looks|
  {
    if looks == [] then []
    else HeldAfter(p, links, dwell, looks[..|looks| - 1]) + [Looks(p, links, dwell, looks).held.current]
  }

  /** The last look at which the choice became what it is now. */
  function LastChange(run: seq<Option<Text>>): (k: nat)
    requires run != []
    ensures k < |run| && (k == 0 || run[k - 1] != run[k])
    ensures forall i | k <= i < |run| :: run[i] == run[|run| - 1]
  {
    var n := |run| - 1;
    if n == 0 || run[n - 1] != run[n] then n else LastChange(run[..n])
  }

  /** What is held is held since the look at which the choice last changed. */
  lemma {:induction false} HeldSinceChange(p: Platform, links: seq<Text>, dwell: int, looks: seq<Context>)
    requires looks != []
    ensures var held := Looks(p, links, dwell, looks).held;
            held.current.Some? ==> held.since == Some(looks[LastChange(HeldAfter(p, links, dwell, looks))].now)
  {
    var n := |looks| - 1;
    var run := HeldAfter(p, links, dwell, looks);
    if n > 0 {
      HeldSinceChange(p, links, dwell, looks[..n]);
      assert run[..n] == HeldAfter(p, links, dwell, looks[..n]);
      assert run[n - 1] == Looks(p, links, dwell, looks[..n]).held.current;
      BestIsBest(p, looks[n].evidence, links);
    } else {
      assert Looks(p, links, dwell, looks[..0]) == Tally(NOTHING_HELD, 0, 0);
    }
  }

  /** The choice that the run so far and the next look call for: the best link, unless the one held is up
      and the choice last changed less than the dwell ago. */
  function CalledFor(p: Platform, links: seq<Text>, dwell: int, before: seq<Context>, run: seq<Option<Text>>,
                     look: Context): Option<Text>
    requires |run| == |before|
  {
    if run != [] && run[|run| - 1].Some? && ObservedUp(p, look.evidence, run[|run| - 1].value)
       && look.now - before[LastChange(run)].now < dwell
    then run[|run| - 1] else BestByRtt(p, look.evidence, links)
  }

  /** Every choice of every run is the one called for. */
  lemma HoldsAsCalledFor(p: Platform, links: seq<Text>, dwell: int, looks: seq<Context>)
    requires looks != []
    ensures var n, run := |looks| - 1, HeldAfter(p, links, dwell, looks);
            run[n] == CalledFor(p, links, dwell, looks[..n], run[..n], looks[n])
  {
    var n, run := |looks| - 1, HeldAfter(p, links, dwell, looks);
    assert run[..n] == HeldAfter(p, links, dwell, looks[..n]);
    if n > 0 {
      HeldSinceChange(p, links, dwell, looks[..n]);
      assert run[n - 1] == Looks(p, links, dwell, looks[..n]).held.current;
    } else {
      assert Looks(p, links, dwell, looks[..0]) == Tally(NOTHING_HELD, 0, 0);
    }
  }

  /** After every look, no link observed up is better than the choice, or the choice last changed less than
      the dwell ago. */
  lemma MovesWhenDue(p: Platform, links: seq<Text>, dwell: int, looks: seq<Context>)
    requires looks != []
    ensures var n, run := |looks| - 1, HeldAfter(p, links, dwell, looks);
            || looks[n].now - looks[LastChange(run)].now < dwell
            || (run[n].None? && forall x | x in links :: !ObservedUp(p, looks[n].evidence, x))
            || (run[n].Some? && forall x | x in links && ObservedUp(p, looks[n].evidence, x) ::
                  !Better(p, looks[n].evidence, x, run[n].value))
  {
    var n, run := |looks| - 1, HeldAfter(p, links, dwell, looks);
    HoldsAsCalledFor(p, links, dwell, looks);
    BestIsBest(p, looks[n].evidence, links);
    if n > 0 && run[n] == run[n - 1] {
      assert LastChange(run) == LastChange(run[..n]);
    }
  }

  // ---------- flaps ----------

  /** The choice of each class. */
  type Choices = map<Text, Option<Text>>

  /** The classes that had a choice before and have another one now. */
  function Flapped(previous: Choices, choices: Choices): set<Text> {
    set c | c in choices && c in previous && previous[c] != choices[c]
  }

  function Flaps(run: seq<Choices>): nat {
    if |run| < 2 then 0 else Flaps(run[..|run| - 1]) + |Flapped(run[|run| - 2], run[|run| - 1])|
  }

  function AllClasses(classes: set<Text>, choice: Option<Text>): Choices {
    map c | c in classes :: choice
  }

  function HysteresisRun(p: Platform, links: seq<Text>, dwell: int, classes: set<Text>, looks: seq<Context>)
    : (run: seq<Choices>)
    ensures |run| == |looks|
  {
    if looks == [] then []
    else HysteresisRun(p, links, dwell, classes, looks[..|looks| - 1])
         + [AllClasses(classes, Looks(p, links, dwell, looks).held.current)]
  }

  lemma FlappedTogether(classes: set<Text>, a: Option<Text>, b: Option<Text>)
    ensures |Flapped(AllClasses(classes, a), AllClasses(classes, b))| == if a == b then 0 else |classes|
  {
    var s := Flapped(AllClasses(classes, a), AllClasses(classes, b));
    if a == b {
      assert s == {};
    } else {
      assert s == classes;
    }
  }

  /** The moves of all classes. */
  function ClassMoves(classes: nat, t: Tally): nat {
    classes * (t.voluntary + t.forced)
  }

  /** All classes flap together, once for each move after the first look. */
  lemma {:induction false} FlapsAreMoves(p: Platform, links: seq<Text>, dwell: int, classes: set<Text>,
                                         looks: seq<Context>)
    requires looks != []
    ensures var t, first := Looks(p, links, dwell, looks), Looks(p, links, dwell, looks[..1]);
            Flaps(HysteresisRun(p, links, dwell, classes, looks)) + ClassMoves(|classes|, first)
            == ClassMoves(|classes|, t)
  {
    var n := |looks| - 1;
    if n == 0 {
      assert looks[..1] == looks;
    } else {
      FlapsAreMoves(p, links, dwell, classes, looks[..n]);
      assert looks[..n][..1] == looks[..1];
      LastFlap(p, links, dwell, classes, looks);
      MoveCounts(|classes|, Looks(p, links, dwell, looks[..n]), Looks(p, links, dwell, looks));
    }
  }

  lemma MoveCounts(classes: nat, before: Tally, after: Tally)
    requires before.voluntary + before.forced <= after.voluntary + after.forced
                                              <= before.voluntary + before.forced + 1
    ensures ClassMoves(classes, after) == ClassMoves(classes, before)
            + if after.voluntary + after.forced == before.voluntary + before.forced then 0 else classes
  {
    OneMore(before.voluntary + before.forced, classes);
  }

  lemma LastFlap(p: Platform, links: seq<Text>, dwell: int, classes: set<Text>, looks: seq<Context>)
    requires |looks| >= 2
    ensures var n := |looks| - 1;
            var before, after := Looks(p, links, dwell, looks[..n]), Looks(p, links, dwell, looks);
            Flaps(HysteresisRun(p, links, dwell, classes, looks))
            == Flaps(HysteresisRun(p, links, dwell, classes, looks[..n]))
               + (if after.voluntary + after.forced == before.voluntary + before.forced then 0 else |classes|)
  {
    var n := |looks| - 1;
    var run := HysteresisRun(p, links, dwell, classes, looks);
    var earlier := HysteresisRun(p, links, dwell, classes, looks[..n]);
    var before, after := Looks(p, links, dwell, looks[..n]), Looks(p, links, dwell, looks);
    assert run[..n] == earlier && run[n - 1] == AllClasses(classes, before.held.current);
    assert run[n] == AllClasses(classes, after.held.current);
    FlappedTogether(classes, before.held.current, after.held.current);
  }

  /** The classes times the forced moves plus the elapsed time divided by the dwell. */
  function FlapBound(classes: nat, forced: nat, elapsed: int, dwell: int): int
    requires dwell > 0
  {
    classes * (forced + elapsed / dwell)
  }

  /** The hysteresis bound: over every run with a monotone clock, the flaps are at most the number of
      classes times the forced moves plus the elapsed time divided by the dwell. */
  lemma HysteresisBound(p: Platform, links: seq<Text>, dwell: int, classes: set<Text>, looks: seq<Context>,
                        elapsed: int)
    requires looks != [] && MonotoneLooks(looks) && dwell > 0
    requires elapsed == looks[|looks| - 1].now - looks[0].now
    ensures var t := Looks(p, links, dwell, looks);
            && t.voluntary * dwell <= elapsed
            && Flaps(HysteresisRun(p, links, dwell, classes, looks)) <= FlapBound(|classes|, t.forced, elapsed, dwell)
  {
    VoluntaryMovesAreRationed(p, links, dwell, looks);
    FlapsAreMoves(p, links, dwell, classes, looks);
    FlapArithmetic(Flaps(HysteresisRun(p, links, dwell, classes, looks)), |classes|,
                   Looks(p, links, dwell, looks[..1]), Looks(p, links, dwell, looks), dwell, elapsed);
  }

  lemma FlapArithmetic(flaps: nat, classes: nat, first: Tally, t: Tally, dwell: int, elapsed: int)
    requires flaps + ClassMoves(classes, first) == ClassMoves(classes, t)
    requires dwell > 0 && t.voluntary * dwell <= elapsed
    ensures flaps <= FlapBound(classes, t.forced, elapsed, dwell)
  {
    QuotientBound(t.voluntary, dwell, elapsed);
    ProductMonotone(classes, t.voluntary + t.forced, t.forced + elapsed / dwell);
  }

  lemma QuotientBound(n: nat, d: int, e: int)
    requires d > 0 && n * d <= e
    ensures n <= e / d
  {
    var q := e / d;
    assert e == d * q + e % d && d * (q + 1) == d * q + d;
    if n > q {
      ProductMonotone(d, q + 1, n);
    }
  }
}
