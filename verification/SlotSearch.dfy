/** The slot search of a LocalCollector. The clock, the ticker and the moment of cancellation belong to
    the environment: they are the events the loop reads. Chia hash values, the quality formula and the
    difficulty rule are function parameters. */
module SlotSearch {
  import opened Common
  import opened PocSlots

  const ALLOW_AHEAD: nat := 10

  /** WorkSpaceQuality, as far as the search uses it. */
  datatype ChiaQuality = ChiaQuality(space: string, ksize: nat, quality: seq<nat>, failed: bool)

  /** `Done`: the outer select saw the cancellation. `Tick`: the ticker fired, the clock read `unix`, and
      the inner loop sees the cancellation at its `cancelAt`-th test, if it gets that far. */
  datatype Event = Done | Tick(unix: int, cancelAt: Option<nat>)

  datatype Report = Report(slot: Slot, qualities: seq<ChiaQuality>)

  type MassFunction = (ChiaQuality, nat, nat) -> nat
  type TargetFunction = nat -> nat

  /** uint64(unix)/pocSlot + allowAhead; the conversion wraps, the sum cannot. */
  function Limit(unix: int): (l: Slot)
    ensures l <= U64 / POC_SLOT + ALLOW_AHEAD
  {
    (unix % U64) / POC_SLOT + ALLOW_AHEAD
  }

  function FirstSlot(parentSlot: Slot): Slot {
    (parentSlot + 1) % U64
  }

  // The qualities of one slot

  /** Difficulty and quality rules for the block being mined. */
  datatype Rules = Rules(height: nat, mass: MassFunction, target: TargetFunction) {
    predicate Beats(q: ChiaQuality, slot: nat) {
      mass(q, slot, height) > target(slot)
    }
  }

  /** The qualities above the slot's target, in order. */
  function Above(qs: seq<ChiaQuality>, slot: nat, rules: Rules): seq<ChiaQuality> {
    if qs == [] then [] else
      var q := qs[|qs| - 1];
      Above(qs[..|qs| - 1], slot, rules) + if rules.Beats(q, slot) then [q] else []
  }

  ghost predicate Increasing(idx: seq<nat>) {
    forall k, l :: 0 <= k < l < |idx| ==> idx[k] < idx[l]
  }

  ghost predicate Picks(picked: seq<ChiaQuality>, idx: seq<nat>, qs: seq<ChiaQuality>) {
    |picked| == |idx| && forall k :: 0 <= k < |idx| ==> idx[k] < |qs| && picked[k] == qs[idx[k]]
  }

  /** A report keeps exactly the positions whose quality beats the target, each once and in order. */
  lemma {:induction false} AboveIsExact(qs: seq<ChiaQuality>, slot: nat, rules: Rules) returns (idx: seq<nat>)
    ensures Picks(Above(qs, slot, rules), idx, qs) && Increasing(idx)
    ensures forall j :: 0 <= j < |qs| ==> (j in idx <==> rules.Beats(qs[j], slot))
  {
    if qs == [] {
      idx := [];
    } else {
      var n := |qs| - 1;
      idx := AboveIsExact(qs[..n], slot, rules);
      if rules.Beats(qs[n], slot) {
        idx := idx + [n];
      }
    }
  }

  /** getValidChiaQualities */
  method ValidQualities(qs: seq<ChiaQuality>) returns (r: seq<ChiaQuality>, idx: seq<nat>)
    ensures Picks(r, idx, qs)
    ensures forall k, l :: 0 <= k < l < |idx| ==> idx[k] < idx[l]
    ensures forall j :: 0 <= j < |qs| ==> (j in idx <==> !qs[j].failed)
  {
    r, idx := [], [];
    for i := 0 to |qs|
      invariant Picks(r, idx, qs)
      invariant forall k, l :: 0 <= k < l < |idx| ==> idx[k] < idx[l]
      invariant forall k :: 0 <= k < |idx| ==> idx[k] < i
      invariant forall j :: 0 <= j < i ==> (j in idx <==> !qs[j].failed)
    {
      if !qs[i].failed {
        r, idx := r + [qs[i]], idx + [i];
      }
    }
  }

  /** getMASSQualities */
  method MassQualities(qs: seq<ChiaQuality>, slot: nat, rules: Rules) returns (r: seq<nat>)
    ensures |r| == |qs| && forall j :: 0 <= j < |qs| ==> r[j] == rules.mass(qs[j], slot, rules.height)
  {
    r := [];
    for i := 0 to |qs|
      invariant |r| == i && forall j :: 0 <= j < i ==> r[j] == rules.mass(qs[j], slot, rules.height)
    {
      r := r + [rules.mass(qs[i], slot, rules.height)];
    }
  }

  method Satisfied(qs: seq<ChiaQuality>, slot: Slot, rules: Rules) returns (r: seq<ChiaQuality>)
    ensures r == Above(qs, slot, rules)
  {
    var qualities := MassQualities(qs, slot, rules);
    r := [];
    for j := 0 to |qualities|
      invariant r == Above(qs[..j], slot, rules)
    {
      assert qs[..j + 1][..j] == qs[..j];
      if qualities[j] > rules.target(slot) {
        r := r + [qs[j]];
      }
    }
    assert qs[..|qs|] == qs;
  }

  // The search

  /** One report for each tried slot that has a quality above target, in the order of the slots. */
  function ReportsFor(tried: seq<Slot>, qs: seq<ChiaQuality>, rules: Rules): seq<Report> {
    if tried == [] then [] else
      var s := tried[|tried| - 1];
      ReportsFor(tried[..|tried| - 1], qs, rules) + ReportOf(s, Above(qs, s, rules))
  }

  /** reportQualities: an empty list is not reported. */
  function ReportOf(slot: Slot, found: seq<ChiaQuality>): seq<Report> {
    if found == [] then [] else [Report(slot, found)]
  }

  /** Slot `s` belongs to event `e`: the first tick whose reading allows it. */
  ghost predicate TriedDuring(events: seq<Event>, e: nat, s: nat) {
    && e < |events| && events[e].Tick? && s <= Limit(events[e].unix)
    && forall d :: 0 <= d < e ==> events[d].Tick? && Limit(events[d].unix) < s
  }

  /** The slots the loop has tried, the event during which each was tried, and the reports sent. */
  datatype Trace = Trace(tried: seq<Slot>, during: seq<nat>, reports: seq<Report>)

  ghost predicate Consecutive(tried: seq<Slot>, first: Slot) {
    forall j :: 0 <= j < |tried| ==> tried[j] == first + j
  }

  ghost predicate Paced(t: Trace, events: seq<Event>) {
    |t.during| == |t.tried| && forall j :: 0 <= j < |t.tried| ==> TriedDuring(events, t.during[j], t.tried[j])
  }

  ghost predicate TraceOk(t: Trace, first: Slot, events: seq<Event>, qs: seq<ChiaQuality>, rules: Rules) {
    Consecutive(t.tried, first) && Paced(t, events) && t.reports == ReportsFor(t.tried, qs, rules)
  }

  /** Every reading of the first `n` events has been caught up with: nothing allowed is left untried. */
  ghost predicate CaughtUp(events: seq<Event>, n: nat, work: nat) {
    forall d :: 0 <= d < n && d < |events| ==> events[d].Tick? && Limit(events[d].unix) < work
  }

  function Extend(t: Trace, s: Slot, e: nat, found: seq<ChiaQuality>): Trace {
    Trace(t.tried + [s], t.during + [e], t.reports + ReportOf(s, found))
  }

  lemma ExtendOk(t: Trace, s: Slot, e: nat, first: Slot, events: seq<Event>, qs: seq<ChiaQuality>, rules: Rules)
    requires TraceOk(t, first, events, qs, rules) && s == first + |t.tried| && TriedDuring(events, e, s)
    ensures TraceOk(Extend(t, s, e, Above(qs, s, rules)), first, events, qs, rules)
  {
    var t' := Extend(t, s, e, Above(qs, s, rules));
    assert t'.tried[..|t.tried|] == t.tried;
    hide TriedDuring, ReportsFor, Above;
    forall j | 0 <= j < |t'.tried| ensures TriedDuring(events, t'.during[j], t'.tried[j]) {
      if j < |t.tried| {
        assert TriedDuring(events, t.during[j], t.tried[j]);
      }
    }
  }

  /** The last `partial` slots, and no others, were tried during event `stop`. */
  ghost predicate EndsIn(t: Trace, stop: nat, partial: nat) {
    |t.during| == |t.tried| && partial <= |t.tried|
    && forall j :: 0 <= j < |t.tried| ==> t.during[j] <= stop && (t.during[j] == stop <==> |t.tried| - partial <= j)
  }

  /** trySlots. `stop` is the event at which it saw the cancellation, |events| if it saw none, and `partial`
      the number of slots tried during that event: all earlier readings have been caught up with, and the
      cancelled event got exactly as far as the cancellation let it. */
  method TrySlots(parentSlot: Slot, qs: seq<ChiaQuality>, events: seq<Event>, rules: Rules) returns (t: Trace, stop: nat, partial: nat)
    ensures Consecutive(t.tried, FirstSlot(parentSlot)) && Paced(t, events)
    ensures t.reports == ReportsFor(t.tried, qs, rules)
    ensures stop <= |events| && CaughtUp(events, stop, FirstSlot(parentSlot) + |t.tried|) && EndsIn(t, stop, partial)
    ensures stop < |events| ==> if events[stop].Done? then partial == 0 else events[stop].cancelAt == Some(partial)
    ensures stop == |events| ==> partial == 0
    ensures parentSlot + 1 < U64 && NormalReadings(events) ==> forall j :: 0 <= j < |t.tried| ==>
      t.during[j] < |events| && t.tried[j] <= events[t.during[j]].unix / 3 + 10
    ensures parentSlot + 1 < U64 && NormalReadings(events) && stop == |events| ==>
      forall s :: s in t.tried <==> parentSlot < s && AllowedBy(events, s)
  {
    hide Limit, ReportsFor, Above, Consecutive, Paced, ReportOf, EndsIn, NormalReadings, AllowedBy;
    var first := FirstSlot(parentSlot);
    var workSlot: Slot := first;
    t, stop, partial := Trace([], [], []), 0, 0;
    NothingTried(first, events, qs, rules);
    while stop < |events|
      invariant stop <= |events| && workSlot == first + |t.tried| && partial == 0
      invariant TraceOk(t, first, events, qs, rules) && CaughtUp(events, stop, workSlot) && EndsIn(t, stop, 0)
    {
      if events[stop].Done? {
        ReachesAllowed(parentSlot, events, t, stop);
        return;
      }
      var limit := Limit(events[stop].unix);
      if workSlot > limit {
        EndNext(t, stop, 0);
        stop := stop + 1;
        continue;
      }
      var i: nat := workSlot;
      while i <= limit
        invariant i == workSlot <= limit + 1 && workSlot == first + |t.tried|
        invariant TraceOk(t, first, events, qs, rules) && CaughtUp(events, stop, workSlot) && EndsIn(t, stop, partial)
      {
        if events[stop].cancelAt == Some(partial) {
          ReachesAllowed(parentSlot, events, t, stop);
          return;
        }
        var found := Satisfied(qs, workSlot, rules);
        ExtendOk(t, workSlot, stop, first, events, qs, rules);
        EndMore(t, workSlot, stop, partial, found);
        t := Extend(t, workSlot, stop, found);
        workSlot, i, partial := (workSlot + 1) % U64, i + 1, partial + 1;
      }
      EndNext(t, stop, partial);
      stop, partial := stop + 1, 0;
    }
    ReachesAllowed(parentSlot, events, t, stop);
  }

  /** Every event is a tick or the cancellation, with a clock that reads no earlier than 1970. */
  ghost predicate NormalReadings(events: seq<Event>) {
    forall e :: 0 <= e < |events| && events[e].Tick? ==> 0 <= events[e].unix < 0x8000_0000_0000_0000
  }

  /** Some reading lets slot `s` be tried: three seconds per slot, ten slots ahead. */
  ghost predicate AllowedBy(events: seq<Event>, s: int) {
    exists e :: 0 <= e < |events| && events[e].Tick? && s <= events[e].unix / 3 + 10
  }

  lemma LimitIs(unix: int)
    requires 0 <= unix < 0x8000_0000_0000_0000
    ensures Limit(unix) == unix / 3 + 10
  {
  }

  /** In numbers: no slot is tried more than ten slots ahead of the reading it is tried at, and once all
      readings have been caught up with, the slots tried are exactly those after the parent that some
      reading allows. */
  lemma ReachesAllowed(parentSlot: Slot, events: seq<Event>, t: Trace, stop: nat)
    requires Consecutive(t.tried, FirstSlot(parentSlot)) && Paced(t, events) && stop <= |events|
    requires CaughtUp(events, stop, FirstSlot(parentSlot) + |t.tried|)
    ensures parentSlot + 1 < U64 && NormalReadings(events) ==> forall j :: 0 <= j < |t.tried| ==>
      t.during[j] < |events| && t.tried[j] <= events[t.during[j]].unix / 3 + 10
    ensures parentSlot + 1 < U64 && NormalReadings(events) && stop == |events| ==>
      forall s :: s in t.tried <==> parentSlot < s && AllowedBy(events, s)
  {
    hide Limit;
    if parentSlot + 1 < U64 && NormalReadings(events) {
      forall e | 0 <= e < |events| && events[e].Tick? ensures Limit(events[e].unix) == events[e].unix / 3 + 10 {
        LimitIs(events[e].unix);
      }
      forall j | 0 <= j < |t.tried| ensures t.during[j] < |events| && t.tried[j] <= events[t.during[j]].unix / 3 + 10 {
        assert TriedDuring(events, t.during[j], t.tried[j]);
      }
      if stop == |events| {
        forall s: int ensures s in t.tried <==> parentSlot < s && AllowedBy(events, s) {
          TriedIff(parentSlot, events, t, s);
        }
      }
    }
  }

  lemma TriedIff(parentSlot: Slot, events: seq<Event>, t: Trace, s: int)
    requires parentSlot + 1 < U64 && Consecutive(t.tried, parentSlot + 1) && Paced(t, events)
    requires CaughtUp(events, |events|, parentSlot + 1 + |t.tried|)
    requires forall e :: 0 <= e < |events| && events[e].Tick? ==> Limit(events[e].unix) == events[e].unix / 3 + 10
    ensures s in t.tried <==> parentSlot < s && AllowedBy(events, s)
  {
    hide Limit;
    if s in t.tried {
      var j :| 0 <= j < |t.tried| && t.tried[j] == s;
      assert TriedDuring(events, t.during[j], t.tried[j]);
    }
    if parentSlot < s && AllowedBy(events, s) {
      var e :| 0 <= e < |events| && events[e].Tick? && s <= events[e].unix / 3 + 10;
      assert Limit(events[e].unix) < parentSlot + 1 + |t.tried|;
      assert t.tried[s - parentSlot - 1] == s;
    }
  }

  lemma EndNext(t: Trace, stop: nat, partial: nat)
    requires EndsIn(t, stop, partial)
    ensures EndsIn(t, stop + 1, 0)
  {
  }

  lemma EndMore(t: Trace, s: Slot, stop: nat, partial: nat, found: seq<ChiaQuality>)
    requires EndsIn(t, stop, partial)
    ensures EndsIn(Extend(t, s, stop, found), stop, partial + 1)
  {
  }

  lemma NothingTried(first: Slot, events: seq<Event>, qs: seq<ChiaQuality>, rules: Rules)
    ensures TraceOk(Trace([], [], []), first, events, qs, rules) && EndsIn(Trace([], [], []), 0, 0)
  {
  }

  // Consequences

  /** Starting below the wrap-around, the slots are ParentSlot+1, ParentSlot+2, … and none is tried twice. */
  lemma SlotsFollowParent(parentSlot: Slot, tried: seq<Slot>, j: nat, k: nat)
    requires parentSlot + 1 < U64 && Consecutive(tried, FirstSlot(parentSlot)) && j < |tried| && k < |tried|
    ensures tried[j] == parentSlot + 1 + j && (tried[j] == tried[k] ==> j == k)
  {
  }

  function Highest(events: seq<Event>, first: nat): nat {
    if events == [] then first else
      var h := Highest(events[..|events| - 1], first);
      var e := events[|events| - 1];
      if e.Tick? && Limit(e.unix) >= h then Limit(e.unix) + 1 else h
  }

  /** Without a cancellation the number of slots tried depends only on the largest clock reading, not on
      the order in which the clock went through its readings. */
  lemma {:induction false} HighestIsMaximum(events: seq<Event>, first: nat)
    ensures Highest(events, first) >= first
    ensures forall e :: e in events && e.Tick? ==> Limit(e.unix) < Highest(events, first)
    ensures Highest(events, first) == first || exists e :: e in events && e.Tick? && Limit(e.unix) + 1 == Highest(events, first)
  {
    if events != [] {
      HighestIsMaximum(events[..|events| - 1], first);
      assert events == events[..|events| - 1] + [events[|events| - 1]];
    }
  }

  lemma OnlyTheLargestReadingCounts(events: seq<Event>, t: Trace, first: Slot)
    requires Consecutive(t.tried, first) && Paced(t, events) && CaughtUp(events, |events|, first + |t.tried|)
    ensures first + |t.tried| == Highest(events, first)
  {
    HighestIsMaximum(events, first);
    var h := Highest(events, first);
    hide Highest, Limit;
    if h != first {
      var e :| e in events && e.Tick? && Limit(e.unix) + 1 == h;
      var d :| 0 <= d < |events| && events[d] == e;
      assert h <= first + |t.tried|;
    }
    if t.tried != [] {
      var j := |t.tried| - 1;
      assert TriedDuring(events, t.during[j], t.tried[j]);
      assert events[t.during[j]] in events;
    }
  }

  /** What reaches the superior for one slot: nothing, or one report with all its qualities above target. */
  lemma {:induction false} ReportedSlots(tried: seq<Slot>, qs: seq<ChiaQuality>, rules: Rules, s: Slot)
    ensures forall r :: r in ReportsFor(tried, qs, rules) && r.slot == s
                  <==> s in tried && Above(qs, s, rules) != [] && r == Report(s, Above(qs, s, rules))
  {
    if tried != [] {
      ReportedSlots(tried[..|tried| - 1], qs, rules, s);
      assert tried == tried[..|tried| - 1] + [tried[|tried| - 1]];
    }
  }

  /** Reports leave in slot order, so no slot is reported twice. */
  lemma {:induction false} ReportsInOrder(tried: seq<Slot>, qs: seq<ChiaQuality>, rules: Rules, first: Slot)
    requires Consecutive(tried, first)
    ensures var rs := ReportsFor(tried, qs, rules);
      && (forall r :: r in rs ==> r.slot < first + |tried|)
      && (forall k, l :: 0 <= k < l < |rs| ==> rs[k].slot < rs[l].slot)
  {
    if tried != [] {
      var init := tried[..|tried| - 1];
      ReportsInOrder(init, qs, rules, first);
      forall k | 0 <= k < |ReportsFor(init, qs, rules)| ensures ReportsFor(init, qs, rules)[k].slot < first + |init| {}
    }
  }

  /** In the terms of the quality and difficulty rules: a tried slot is reported exactly when some quality is
      strictly above its target, and its report holds exactly those qualities. */
  lemma ReportedIff(tried: seq<Slot>, qs: seq<ChiaQuality>, rules: Rules, s: Slot)
    ensures (exists r :: r in ReportsFor(tried, qs, rules) && r.slot == s)
      <==> s in tried && exists q :: q in qs && rules.mass(q, s, rules.height) > rules.target(s)
    ensures forall r :: r in ReportsFor(tried, qs, rules) && r.slot == s ==>
      forall q :: q in r.qualities <==> q in qs && rules.mass(q, s, rules.height) > rules.target(s)
  {
    ReportedSlots(tried, qs, rules, s);
    AboveMembers(qs, s, rules);
    hide ReportsFor, Above;
    if s in tried && Above(qs, s, rules) != [] {
      assert Report(s, Above(qs, s, rules)) in ReportsFor(tried, qs, rules);
      assert Above(qs, s, rules)[0] in Above(qs, s, rules);
    }
  }

  lemma {:induction false} AboveMembers(qs: seq<ChiaQuality>, slot: nat, rules: Rules)
    ensures forall q :: q in Above(qs, slot, rules) <==> q in qs && rules.mass(q, slot, rules.height) > rules.target(slot)
  {
    if qs != [] {
      AboveMembers(qs[..|qs| - 1], slot, rules);
      assert qs == qs[..|qs| - 1] + [qs[|qs| - 1]];
    }
  }
}
