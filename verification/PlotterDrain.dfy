/** Draining the plotter queue with complete plots and no API call in between: the result depends
    only on which entries are queued, not on the order in which priorities make them come out nor on
    duplicates. */
module PlotterDrain {
  import opened Common
  import opened Keeper
  import opened KeeperInvariant

  /** One turn of the plotter loop on the i-th queued entry. */
  function PlotOne(k: Keeper, i: nat): Keeper
    requires i < |k.queue|
  {
    PlotHeld(Pop(k.(phase := Checked), i))
  }

  /** What the documented Plot and Mine tables make of a workspace that an entry names. */
  function Settled(s: State, wouldMining: bool): State {
    match s
    case Registered => if wouldMining then Mining else Ready
    case Ready => if wouldMining then Mining else Ready
    case Plotting => Plotting
    case Mining => Mining
  }

  ghost predicate Queued(k: Keeper, r: Ref) {
    exists e :: e in k.queue && e.ws == r
  }

  ghost predicate QueuedForMining(k: Keeper, r: Ref) {
    exists e :: e in k.queue && e.ws == r && e.wouldMining
  }

  /** The state object `r` ends up in, read off the initial state alone. */
  ghost function FinalState(k: Keeper, r: Ref): State
    requires r in k.heap
  {
    var s := k.heap[r].state;
    if s == Mining || k.heap[r].sid !in k.all then s
    else if QueuedForMining(k, r) then Mining
    else if Queued(k, r) then Ready
    else s
  }

  /** What the plotter makes of the entry it holds, when nothing interrupts it and the plot completes. */
  function PlotHeld(k: Keeper): Keeper {
    var begun := BeginPlot(k);
    if begun.phase == Busy then EndPlot(begun, true) else begun
  }

  /** The held entry's workspace settles as the documented tables say; every other object is untouched. */
  ghost predicate SettlesHeld(k: Keeper, k': Keeper, e: Entry) {
    && Inv(k') && k'.phase == Idle && k'.queue == k.queue
    && k'.all == k.all && k'.list == k.list && k'.channel == k.channel && k'.heap.Keys == k.heap.Keys
    && forall r :: r in k.heap ==> k'.heap[r] == if r == e.ws && k.heap[r].sid in k.all
         then k.heap[r].(state := Settled(k.heap[r].state, e.wouldMining)) else k.heap[r]
  }

  lemma PlotHeldEffect(k: Keeper)
    requires Inv(k) && k.phase == Held
    ensures k.popped.Some? && SettlesHeld(k, PlotHeld(k), k.popped.value)
  {
    var e := k.popped.value;
    assert Pending(k, e) && Fresh(k, e);
    var begun := BeginPlot(k);
    BeginKeeps(k);
    var sid := k.heap[e.ws].sid;
    if sid in k.all {
      WhereItIs(k, sid);
    } else {
      NotIndexed(k, sid);
    }
    if begun.phase == Busy {
      EndKeeps(begun, true);
    }
  }

  lemma PlotOneEffect(k: Keeper, i: nat)
    requires Inv(k) && k.phase == Idle && i < |k.queue|
    ensures var k' := PlotOne(k, i); var e := k.queue[i];
      && Inv(k') && k'.phase == Idle && k'.queue == RemoveAt(k.queue, i)
      && k'.all == k.all && k'.list == k.list && k'.channel == k.channel && k'.heap.Keys == k.heap.Keys
      && Fresh(k, e)
      && forall r :: r in k.heap ==> k'.heap[r] == if r == e.ws && k.heap[r].sid in k.all
           then k.heap[r].(state := Settled(k.heap[r].state, e.wouldMining)) else k.heap[r]
  {
    var checked := k.(phase := Checked);
    var e := k.queue[i];
    assert Pending(k, e) && Fresh(k, e);
    FewerPendingKeeps(k, checked);
    PopKeeps(checked, i);
    PlotHeldEffect(Pop(checked, i));
  }

  /** Any workspace is where it would be after the remaining drain, before and after one turn. */
  lemma PlotOneKeepsFinal(k: Keeper, i: nat, r: Ref)
    requires Inv(k) && k.phase == Idle && i < |k.queue| && r in k.heap
    ensures r in PlotOne(k, i).heap && FinalState(PlotOne(k, i), r) == FinalState(k, r)
  {
    PlotOneEffect(k, i);
    hide Inv, PlotOne;
    var k', e0 := PlotOne(k, i), k.queue[i];
    assert forall e :: e in k.queue <==> e in k'.queue || e == e0 by {
      assert k.queue == k.queue[..i] + [e0] + k.queue[i + 1..];
    }
    assert Queued(k, r) <==> Queued(k', r) || e0.ws == r by {
      if e0.ws == r {
        assert e0 in k.queue;
      }
    }
    assert QueuedForMining(k, r) <==> QueuedForMining(k', r) || (e0.ws == r && e0.wouldMining) by {
      if e0.ws == r && e0.wouldMining {
        assert e0 in k.queue;
      }
    }
    if QueuedForMining(k', r) {
      assert Queued(k', r);
    }
    if k.heap[r].sid in k.all && e0.ws == r {
      PlotterIdle(k, r);
    }
  }

  lemma PlotterIdle(k: Keeper, r: Ref)
    requires Inv(k) && k.phase == Idle && r in k.heap && k.heap[r].sid in k.all && k.all[k.heap[r].sid] == r
    ensures k.heap[r].state != Plotting
  {
    WhereItIs(k, k.heap[r].sid);
  }

  /** `picks` says which queue position comes out at each turn. */
  ghost predicate ValidPicks(n: nat, picks: seq<nat>) {
    |picks| == n && forall j :: 0 <= j < n ==> picks[j] < n - j
  }

  function Drain(k: Keeper, picks: seq<nat>): Keeper
    requires ValidPicks(|k.queue|, picks) && Inv(k) && k.phase == Idle
    decreases picks
  {
    if picks == [] then k
    else
      PlotOneEffect(k, picks[0]);
      Drain(PlotOne(k, picks[0]), picks[1..])
  }

  /** The main result: whatever the picks, every object ends in the state FinalState predicts. */
  lemma {:induction false} DrainIsOrderIndependent(k: Keeper, picks: seq<nat>)
    requires ValidPicks(|k.queue|, picks) && Inv(k) && k.phase == Idle
    ensures var k' := Drain(k, picks);
      && k'.queue == [] && k'.all == k.all && k'.list == k.list && k'.heap.Keys == k.heap.Keys
      && forall r :: r in k.heap ==> k'.heap[r] == k.heap[r].(state := FinalState(k, r))
    decreases picks
  {
    var k' := Drain(k, picks);
    if picks != [] {
      var k1 := PlotOne(k, picks[0]);
      PlotOneEffect(k, picks[0]);
      DrainIsOrderIndependent(k1, picks[1..]);
      forall r | r in k.heap ensures k'.heap[r] == k.heap[r].(state := FinalState(k, r)) {
        PlotOneKeepsFinal(k, picks[0], r);
      }
    }
  }

  /** Two queues with the same entries, in any order and with any repetitions, drain to the same objects. */
  lemma DrainIgnoresDuplicates(k: Keeper, queue: seq<Entry>, picks: seq<nat>, picks': seq<nat>)
    requires ValidPicks(|k.queue|, picks) && Inv(k) && k.phase == Idle
    requires ValidPicks(|queue|, picks') && forall e :: e in queue <==> e in k.queue
    ensures Inv(k.(queue := queue)) && Drain(k.(queue := queue), picks').heap == Drain(k, picks).heap
  {
    var k2 := k.(queue := queue);
    assert Inv(k2) by {
      assert forall e :: Pending(k2, e) ==> Pending(k, e);
      FewerPendingKeeps(k, k2);
    }
    hide Inv, Drain, FinalState;
    DrainIsOrderIndependent(k, picks);
    DrainIsOrderIndependent(k2, picks');
    forall r | r in k.heap ensures FinalState(k2, r) == FinalState(k, r) {
      SameEntriesSameFinal(k, k2, r);
    }
  }

  lemma SameEntriesSameFinal(k: Keeper, k2: Keeper, r: Ref)
    requires r in k.heap && k2.heap == k.heap && k2.all == k.all && forall e :: e in k2.queue <==> e in k.queue
    ensures FinalState(k2, r) == FinalState(k, r)
  {
    assert Queued(k2, r) <==> Queued(k, r);
    assert QueuedForMining(k2, r) <==> QueuedForMining(k, r);
  }

  lemma NothingQueued(k: Keeper)
    requires k.queue == []
    ensures forall r :: r in k.heap ==> FinalState(k, r) == k.heap[r].state
  {
  }
}
