/** Every reachable state of the space keeper satisfies the index, list and plotter invariants,
    whatever API calls interleave with the plotter. */
module KeeperInvariant {
  import opened Common
  import opened Keeper

  // What each part of the invariant depends on

  ghost predicate SameObjects(h: map<Ref, WorkSpace>, h': map<Ref, WorkSpace>) {
    h.Keys == h'.Keys && forall r :: r in h ==> h'[r].sid == h[r].sid
  }

  lemma ListFrame(k: Keeper, k': Keeper)
    requires ListsUsed(k) && k'.list == k.list && k'.all == k.all && SameObjects(k.heap, k'.heap)
    requires forall r :: r in k.heap ==> k'.heap[r].using == k.heap[r].using
    ensures ListsUsed(k')
  {
    forall r ensures ListedIfUsed(k', r) {
      assert ListedIfUsed(k, r);
    }
  }

  lemma StaleFrame(k: Keeper, k': Keeper)
    requires NoStale(k) && SameObjects(k.heap, k'.heap)
    requires forall sid :: sid in k'.all ==> sid in k.all && k'.all[sid] == k.all[sid]
    requires forall e :: Pending(k', e) ==> Pending(k, e) || Fresh(k, e)
    ensures NoStale(k')
  {
    forall e | Pending(k', e) ensures Fresh(k', e) {
      assert Fresh(k, e);
    }
  }

  /** The state of an in-use workspace decides which of the four maps holds it. */
  lemma WhereItIs(k: Keeper, sid: Sid)
    requires Partitioned(k) && sid in k.all
    ensures k.all[sid] in k.heap && k.heap[k.all[sid]].sid == sid
    ensures var s := k.heap[k.all[sid]].state;
      && (sid in k.index.registered <==> s == Registered) && (sid in k.index.plotting <==> s == Plotting)
      && (sid in k.index.ready <==> s == Ready) && (sid in k.index.mining <==> s == Mining)
      && sid in k.index.At(s) && k.index.At(s)[sid] == k.all[sid]
  {
    assert Indexed(k, sid);
    assert Agrees(k, Registered, sid) && Agrees(k, Plotting, sid) && Agrees(k, Ready, sid) && Agrees(k, Mining, sid);
  }

  lemma NotIndexed(k: Keeper, sid: Sid)
    requires Partitioned(k) && sid !in k.all
    ensures sid !in k.index.registered && sid !in k.index.plotting && sid !in k.index.ready && sid !in k.index.mining
  {
    assert Agrees(k, Registered, sid) && Agrees(k, Plotting, sid) && Agrees(k, Ready, sid) && Agrees(k, Mining, sid);
  }

  // Moving between states

  lemma MovePartition(k: Keeper, sid: Sid, from: State, to: State)
    requires Partitioned(k) && sid in k.all && k.all[sid] in k.heap && k.heap[k.all[sid]].state == from != to
    ensures Partitioned(Move(k, sid, k.all[sid], from, to))
  {
    var k' := Move(k, sid, k.all[sid], from, to);
    forall x ensures Indexed(k', x) {
      assert Indexed(k, x);
    }
    forall s, x ensures Agrees(k', s, x) {
      assert Agrees(k, s, x) && Indexed(k, x) && Indexed(k, sid);
    }
  }

  lemma MoveKeeps(k: Keeper, sid: Sid, from: State, to: State)
    requires Partitioned(k) && ListsUsed(k) && sid in k.all && k.all[sid] in k.heap && k.heap[k.all[sid]].state == from != to
    ensures var k' := Move(k, sid, k.all[sid], from, to);
      Partitioned(k') && ListsUsed(k') && SameObjects(k.heap, k'.heap)
  {
    hide Partitioned, ListsUsed;
    MovePartition(k, sid, from, to);
    ListFrame(k, Move(k, sid, k.all[sid], from, to));
  }

  // API calls

  /** Plot, Mine and Stop of a plotting workspace find it as the popped item. */
  lemma OnPlottingKeeps(k: Keeper, sid: Sid, b: bool)
    requires Inv(k) && sid in k.index.plotting
    ensures OnPlotting(k, sid, b).1 == Done && Inv(OnPlotting(k, sid, b).0)
  {
    var k' := OnPlotting(k, sid, b).0;
    assert Agrees(k, Plotting, sid);
    ListFrame(k, k');
    forall e | Pending(k', e) ensures Pending(k, e) || Fresh(k, e) {
      assert Pending(k, k.popped.value);
    }
    StaleFrame(k, k');
    forall x ensures Indexed(k', x) {
      assert Indexed(k, x);
    }
    forall s, x ensures Agrees(k', s, x) {
      assert Agrees(k, s, x);
    }
  }

  lemma EnqueueKeeps(k: Keeper, sid: Sid, b: bool)
    requires Inv(k) && sid in k.index.registered
    ensures Inv(k.(channel := k.channel + [Entry(k.index.registered[sid], b)]))
  {
    var e0 := Entry(k.index.registered[sid], b);
    var k' := k.(channel := k.channel + [e0]);
    assert Agrees(k, Registered, sid) && Indexed(k, sid);
    ListFrame(k, k');
    assert forall e :: Pending(k', e) ==> Pending(k, e) || e == e0;
    StaleFrame(k, k');
    SamePartition(k, k');
  }

  lemma SamePartition(k: Keeper, k': Keeper)
    requires Partitioned(k) && k'.heap == k.heap && k'.all == k.all && k'.index == k.index
    ensures Partitioned(k')
  {
    forall x ensures Indexed(k', x) {
      assert Indexed(k, x);
    }
    forall s, x ensures Agrees(k', s, x) {
      assert Agrees(k, s, x);
    }
  }

  /** Dropping queue entries, or moving the plotter between phases in which it plots nothing. */
  lemma FewerPendingKeeps(k: Keeper, k': Keeper)
    requires Inv(k) && k'.heap == k.heap && k'.all == k.all && k'.index == k.index && k'.list == k.list
    requires k.phase == Busy <==> k'.phase == Busy
    requires k'.phase == Busy ==> k'.popped == k.popped
    requires k'.phase == Held ==> k'.popped.Some?
    requires forall e :: Pending(k', e) ==> Pending(k, e)
    ensures Inv(k')
  {
    hide Partitioned, ListsUsed, NoStale;
    SamePartition(k, k');
    ListFrame(k, k');
    StaleFrame(k, k');
  }

  lemma DequeueKeeps(k: Keeper, sid: Sid)
    requires Inv(k)
    ensures Inv(k.(queue := WithoutSid(k, k.queue, sid)))
  {
    FewerPendingKeeps(k, k.(queue := WithoutSid(k, k.queue, sid)));
  }

  lemma PlotKeeps(k: Keeper, sid: Sid)
    requires Inv(k)
    ensures Inv(PlotWS(k, sid).0)
    ensures PlotWS(k, sid).1 == if InUse(k, sid) then Done else ErrDoesNotExist
  {
    hide Inv;
    if InUse(k, sid) {
      if sid in k.index.registered {
        EnqueueKeeps(k, sid, false);
      } else if sid in k.index.plotting {
        OnPlottingKeeps(k, sid, false);
      }
    }
  }

  /** A move between Ready and Mining touches neither the plotter nor the pending entries. */
  lemma SwitchKeeps(k: Keeper, sid: Sid, from: State, to: State)
    requires Inv(k) && sid in k.all && k.all[sid] in k.heap && k.heap[k.all[sid]].state == from
    requires (from == Ready && to == Mining) || (from == Mining && to == Ready)
    ensures Inv(Move(k, sid, k.all[sid], from, to))
  {
    hide Partitioned, ListsUsed, NoStale;
    MoveKeeps(k, sid, from, to);
    var k' := Move(k, sid, k.all[sid], from, to);
    assert forall e :: Pending(k', e) ==> Pending(k, e);
    StaleFrame(k, k');
  }

  lemma MineKeeps(k: Keeper, sid: Sid)
    requires Inv(k)
    ensures Inv(MineWS(k, sid).0)
    ensures MineWS(k, sid).1 == if InUse(k, sid) then Done else ErrDoesNotExist
  {
    hide Partitioned, ListsUsed, NoStale, OnePlotting;
    if InUse(k, sid) {
      WhereItIs(k, sid);
      if sid in k.index.registered {
        EnqueueKeeps(k, sid, true);
      } else if sid in k.index.plotting {
        OnPlottingKeeps(k, sid, true);
      } else if sid in k.index.ready {
        SwitchKeeps(k, sid, Ready, Mining);
      }
    }
  }

  lemma StopKeeps(k: Keeper, sid: Sid)
    requires Inv(k)
    ensures Inv(StopWS(k, sid).0)
    ensures StopWS(k, sid).1 == if InUse(k, sid) then Done else ErrDoesNotExist
  {
    hide Partitioned, ListsUsed, NoStale, OnePlotting;
    if InUse(k, sid) {
      WhereItIs(k, sid);
      var k1 := k.(queue := WithoutSid(k, k.queue, sid));
      DequeueKeeps(k, sid);
      if sid in k.index.plotting {
        OnPlottingKeeps(k1, sid, false);
      } else if sid in k.index.mining {
        SwitchKeeps(k1, sid, Mining, Ready);
      }
    }
  }

  lemma {:induction false} DeleteFromSliceLoses(k: Keeper, src: seq<Ref>, r: Ref)
    requires r in k.heap && forall x :: x in src ==> x in k.heap && (k.heap[x].sid == k.heap[r].sid ==> x == r)
    requires forall i, j :: 0 <= i < j < |src| ==> src[i] != src[j]
    ensures var d := DeleteFromSlice(k, src, k.heap[r].sid);
      && (forall x :: x in d <==> x in src && x != r)
      && (forall i, j :: 0 <= i < j < |d| ==> d[i] != d[j])
  {
    if src != [] {
      assert src[0] in src;
      assert src == [src[0]] + src[1..];
      if src[0] != r {
        var t := DeleteFromSlice(k, src[1..], k.heap[r].sid);
        DeleteFromSliceLoses(k, src[1..], r);
        assert src[0] !in t;
      }
    }
  }

  /** Taking a listed workspace out of use, with or without also taking it out of the index. */
  lemma DisuseKeepsList(k: Keeper, k1: Keeper, r: Ref)
    requires ListsUsed(k) && (forall sid :: Indexed(k, sid)) && r in k.list && r in k.heap
    requires k1.list == k.list && k1.heap == k.heap && (k1.all == k.all || k1.all == k.all - {k.heap[r].sid})
    ensures ListsUsed(Disuse(k1, r))
  {
    assert ListedIfUsed(k, r);
    forall x | x in k.list ensures x in k.heap && (k.heap[x].sid == k.heap[r].sid ==> x == r) {
      assert ListedIfUsed(k, x);
    }
    DeleteFromSliceLoses(k1, k.list, r);
    var k' := Disuse(k1, r);
    forall x ensures ListedIfUsed(k', x) {
      assert ListedIfUsed(k, x);
    }
  }

  lemma UsingPartition(k: Keeper, r: Ref, b: bool, list: seq<Ref>)
    requires Partitioned(k) && r in k.heap
    ensures Partitioned(SetUsing(k, r, b).(list := list))
  {
    var k' := SetUsing(k, r, b).(list := list);
    forall x ensures Indexed(k', x) {
      assert Indexed(k, x);
    }
    forall s, x ensures Agrees(k', s, x) {
      assert Agrees(k, s, x);
    }
  }

  lemma InUseIsListed(k: Keeper, sid: Sid)
    requires ListsUsed(k) && InUse(k, sid)
    ensures k.all[sid] in k.list
  {
    assert ListedIfUsed(k, k.all[sid]);
  }

  lemma RemoveKeeps(k: Keeper, sid: Sid)
    requires Inv(k)
    ensures Inv(RemoveWS(k, sid).0)
    ensures RemoveWS(k, sid).1 == if !InUse(k, sid) then ErrDoesNotExist
                                  else if k.heap[k.all[sid]].state in {Registered, Ready} then Done else ErrIsNotStill
  {
    if InUse(k, sid) {
      hide Partitioned, ListsUsed, NoStale;
      WhereItIs(k, sid);
      InUseIsListed(k, sid);
      var k1 := k.(queue := WithoutSid(k, k.queue, sid));
      DequeueKeeps(k, sid);
      var r := k.all[sid];
      if k.heap[r].state in {Registered, Ready} {
        var k' := Disuse(k1, r);
        UsingPartition(k1, r, false, DeleteFromSlice(k1, k1.list, sid));
        AllIndexed(k1);
        DisuseKeepsList(k1, k1, r);
        assert forall e :: Pending(k', e) ==> Pending(k1, e);
        StaleFrame(k1, k');
      }
    }
  }

  lemma AllIndexed(k: Keeper)
    requires Partitioned(k)
    ensures forall sid :: Indexed(k, sid)
  {
  }

  /** Taking a workspace out of the index. */
  function Unindex(k: Keeper, sid: Sid, s: State): Keeper {
    k.(index := k.index.Put(s, k.index.At(s) - {sid}), all := k.all - {sid})
  }

  lemma UnindexPartition(k: Keeper, sid: Sid)
    requires Partitioned(k) && sid in k.all && k.all[sid] in k.heap
    ensures Partitioned(Unindex(k, sid, k.heap[k.all[sid]].state))
  {
    var k' := Unindex(k, sid, k.heap[k.all[sid]].state);
    forall x ensures Indexed(k', x) {
      assert Indexed(k, x);
    }
    forall s, x ensures Agrees(k', s, x) {
      assert Agrees(k, s, x);
    }
  }

  lemma DeleteKeeps(k: Keeper, sid: Sid)
    requires Inv(k)
    ensures Inv(DeleteWS(k, sid).0)
    ensures DeleteWS(k, sid).1 == RemoveWS(k, sid).1
    ensures DeleteWS(k, sid).1 == Done ==> sid !in DeleteWS(k, sid).0.all
  {
    if InUse(k, sid) {
      hide Partitioned, ListsUsed, NoStale;
      WhereItIs(k, sid);
      InUseIsListed(k, sid);
      var k1 := k.(queue := WithoutSid(k, k.queue, sid));
      DequeueKeeps(k, sid);
      var r := k.all[sid];
      var s := k.heap[r].state;
      if s in {Registered, Ready} {
        var k2 := Unindex(k1, sid, s);
        var k' := Disuse(k2, r);
        UnindexPartition(k1, sid);
        UsingPartition(k2, r, false, DeleteFromSlice(k2, k2.list, sid));
        AllIndexed(k1);
        DisuseKeepsList(k1, k2, r);
        assert forall e :: Pending(k', e) ==> Pending(k1, e);
        StaleFrame(k1, k');
        assert DeleteWS(k, sid).0 == k';
      }
    }
  }

  lemma AddPartition(k: Keeper, r: Ref, sid: Sid, s: State)
    requires Partitioned(k) && r !in k.heap && sid !in k.all
    ensures Partitioned(AddWorkSpace(k, r, sid, s))
  {
    var k' := AddWorkSpace(k, r, sid, s);
    forall x ensures Indexed(k', x) {
      assert Indexed(k, x);
    }
    forall t, x ensures Agrees(k', t, x) {
      assert Agrees(k, t, x) && Indexed(k, x);
    }
  }

  /** Adding a workspace keeps the invariant exactly when its sid is indexed already, which makes the
      call a no-op, or no entry the plotter may still act on names that sid. */
  lemma AddKeepsIff(k: Keeper, r: Ref, sid: Sid, s: State)
    requires Inv(k) && r !in k.heap && s != Plotting
    ensures Inv(AddWorkSpace(k, r, sid, s)) <==> sid in k.all || !SidPending(k, sid)
  {
    if sid !in k.all {
      hide Partitioned;
      var k' := AddWorkSpace(k, r, sid, s);
      AddPartition(k, r, sid, s);
      forall x ensures ListedIfUsed(k', x) {
        assert ListedIfUsed(k, x);
      }
      forall e ensures Pending(k', e) <==> Pending(k, e) {}
      if SidPending(k, sid) {
        var e :| Pending(k, e) && SidOf(k, e.ws) == Some(sid);
        assert Pending(k', e) && !Fresh(k', e);
      } else {
        forall e | Pending(k', e) ensures Fresh(k', e) {
          assert Pending(k, e) && Fresh(k, e);
          assert SidOf(k, e.ws) == Some(k.heap[e.ws].sid);
        }
      }
    }
  }

  lemma SelectedIsIndexed(k: Keeper, flags: set<State>, order: seq<Ref>)
    requires Partitioned(k) && Enumerates(k, flags, order)
    ensures forall r :: r in order ==> r in k.heap && k.heap[r].sid in k.all && k.all[k.heap[r].sid] == r
  {
    forall r | r in order ensures r in k.heap && k.heap[r].sid in k.all && k.all[k.heap[r].sid] == r {
      assert Selected(k, flags, r);
      var sid, s :| s in flags && sid in k.index.At(s) && k.index.At(s)[sid] == r;
      assert Agrees(k, s, sid) && Indexed(k, sid);
    }
  }

  lemma ConfigureKeeps(k: Keeper, flags: set<State>, order: seq<Ref>, execPlot: bool, execMine: bool)
    requires Inv(k) && Enumerates(k, flags, order)
    ensures Inv(Configure(k, order, execPlot, execMine).0)
  {
    var k' := Configure(k, order, execPlot, execMine).0;
    if k.phase == Stopped && order != [] {
      SelectedIsIndexed(k, flags, order);
      forall x ensures Indexed(k', x) {
        assert Indexed(k, x);
      }
      forall t, x ensures Agrees(k', t, x) {
        assert Agrees(k, t, x);
      }
      forall x ensures ListedIfUsed(k', x) {
        assert ListedIfUsed(k, x);
      }
      forall e | Pending(k', e) ensures Fresh(k', e) {
        if e in k'.queue {
          var i :| 0 <= i < |k'.queue| && k'.queue[i] == e;
          assert order[i] in order;
        } else {
          assert Pending(k, e) && Fresh(k, e);
        }
      }
    }
  }

  // Plotter steps

  lemma PopKeeps(k: Keeper, i: nat)
    requires Inv(k) && k.phase == Checked
    ensures Inv(Pop(k, i))
  {
    var k' := Pop(k, i);
    forall e | Pending(k', e) ensures Pending(k, e) {
      if i < |k.queue| && e in k'.queue {
        assert e in k.queue[..i] || e in k.queue[i + 1..];
      }
    }
    FewerPendingKeeps(k, k');
  }

  lemma BeginKeeps(k: Keeper)
    requires Inv(k) && k.phase == Held
    ensures Inv(BeginPlot(k)) && BeginPlot(k).phase != Panicked
  {
    hide Partitioned, ListsUsed;
    var e := k.popped.value;
    assert Pending(k, e) && Fresh(k, e);
    var sid := k.heap[e.ws].sid;
    var k' := BeginPlot(k);
    assert forall x :: Pending(k', x) ==> Pending(k, x);
    if sid in k.all {
      WhereItIs(k, sid);
      if sid in k.index.registered {
        MoveKeeps(k, sid, Registered, Plotting);
        PhaseFrame(Move(k, sid, e.ws, Registered, Plotting), k');
        StaleFrame(k, k');
      } else if sid in k.index.ready && e.wouldMining {
        MoveKeeps(k, sid, Ready, Mining);
        PhaseFrame(Move(k, sid, e.ws, Ready, Mining), k');
        StaleFrame(k, k');
      } else {
        FewerPendingKeeps(k, k');
      }
    } else {
      NotIndexed(k, sid);
      FewerPendingKeeps(k, k');
    }
  }

  lemma PhaseFrame(k: Keeper, k': Keeper)
    requires Partitioned(k) && ListsUsed(k) && k' == k.(phase := k'.phase)
    ensures Partitioned(k') && ListsUsed(k')
  {
    hide Partitioned, ListsUsed;
    SamePartition(k, k');
    ListFrame(k, k');
  }

  lemma EndKeeps(k: Keeper, complete: bool)
    requires Inv(k) && k.phase == Busy
    ensures Inv(EndPlot(k, complete)) && EndPlot(k, complete).phase != Panicked
  {
    hide Partitioned, ListsUsed;
    var e := k.popped.value;
    assert Pending(k, e) && Fresh(k, e);
    var sid := k.heap[e.ws].sid;
    assert sid in k.all by {
      if sid !in k.all {
        NotIndexed(k, sid);
      }
    }
    WhereItIs(k, sid);
    var to := if !complete then Registered else if e.wouldMining then Mining else Ready;
    MoveKeeps(k, sid, Plotting, to);
    var k' := EndPlot(k, complete);
    PhaseFrame(Move(k, sid, e.ws, Plotting, to), k');
    assert forall x :: Pending(k', x) ==> Pending(k, x);
    StaleFrame(k, k');
  }

  lemma ReceiveKeeps(k: Keeper)
    requires Inv(k) && k.phase in {Waiting, Adding} && k.channel != []
    ensures Inv(Receive(k))
  {
    var k' := Receive(k);
    forall e | Pending(k', e) ensures Pending(k, e) {
      if e in k'.channel {
        assert e in k.channel[1..];
      }
    }
    FewerPendingKeeps(k, k');
  }

  // Main results

  /** One step of anything keeps the invariant; no API call fails with ErrWorkSpaceIsNotPlotting
      or dereferences a missing popped item. */
  lemma StepKeeps(k: Keeper, a: Action)
    requires Inv(k) && Enabled(k, a) && NoReAdd(k, a)
    ensures Inv(Apply(k, a).0)
    ensures Apply(k, a).1 != ErrIsNotPlotting && Apply(k, a).1 != NilDereference
  {
    hide Inv, PlotWS, MineWS, StopWS, DeleteWS, BeginPlot, EndPlot, AddWorkSpace, Pop, Receive;
    var k' := Apply(k, a).0;
    match a
    case ActPlot(sid) => PlotKeeps(k, sid);
    case ActMine(sid) => MineKeeps(k, sid);
    case ActStop(sid) => StopKeeps(k, sid);
    case ActRemove(sid) => RemoveKeeps(k, sid);
    case ActDelete(sid) => RemoveKeeps(k, sid); DeleteKeeps(k, sid);
    case ActAdd(r, sid, s) => AddKeepsIff(k, r, sid, s);
    case ActConfigure(flags, order, p, m) => ConfigureKeeps(k, flags, order, p, m);
    case PopEntry(i) => PopKeeps(k, i);
    case Begin => BeginKeeps(k);
    case End(complete) => EndKeeps(k, complete);
    case ReceiveOne => ReceiveKeeps(k);
    case QuitPlotter => FewerPendingKeeps(k, k');
    case Start => FewerPendingKeeps(k, k');
    case StopAdding => FewerPendingKeeps(k, k');
    case CheckQueue => FewerPendingKeeps(k, k');
  }

  lemma EmptyKeeps()
    ensures Inv(EMPTY)
  {
    assert forall sid :: Indexed(EMPTY, sid);
    assert forall s, sid :: Agrees(EMPTY, s, sid);
    assert forall r :: ListedIfUsed(EMPTY, r);
  }

  /** The whole-run statement. */
  lemma {:induction false} ReachableStatesAreConsistent(ks: seq<Keeper>, acts: seq<Action>, n: nat)
    requires IsRun(ks, acts) && n < |ks| && forall i :: 0 <= i <= n && i < |acts| ==> NoReAdd(ks[i], acts[i])
    ensures Inv(ks[n]) && (n < |acts| ==> Enabled(ks[n], acts[n]))
    ensures n < |acts| ==> Apply(ks[n], acts[n]).1 != ErrIsNotPlotting && Apply(ks[n], acts[n]).1 != NilDereference
  {
    hide Inv, Apply, Enabled, NoReAdd;
    if n > 0 {
      ReachableStatesAreConsistent(ks, acts, n - 1);
      StepKeeps(ks[n - 1], acts[n - 1]);
    } else {
      EmptyKeeps();
    }
    if n < |acts| {
      assert Step(ks[n], acts[n], ks[n + 1]);
      StepKeeps(ks[n], acts[n]);
    }
  }

  /** The condition is exact: a run keeps the invariant throughout exactly when it re-adds no sid that is
      still pending. */
  lemma ConsistentIffNoReAdd(ks: seq<Keeper>, acts: seq<Action>)
    requires IsRun(ks, acts)
    ensures (forall n :: 0 <= n < |ks| ==> Inv(ks[n])) <==> (forall i :: 0 <= i < |acts| ==> NoReAdd(ks[i], acts[i]))
  {
    hide Inv;
    if forall i :: 0 <= i < |acts| ==> NoReAdd(ks[i], acts[i]) {
      forall n | 0 <= n < |ks| ensures Inv(ks[n]) {
        ReachableStatesAreConsistent(ks, acts, n);
      }
    } else {
      var i :| 0 <= i < |acts| && !NoReAdd(ks[i], acts[i]);
      assert Step(ks[i], acts[i], ks[i + 1]);
      if Inv(ks[i]) {
        AddKeepsIff(ks[i], acts[i].r, acts[i].sid, acts[i].s);
        assert !Inv(ks[i + 1]);
      }
    }
  }

  /** What the invariant means for a caller. */
  lemma InvariantReads(k: Keeper)
    requires Inv(k)
    ensures forall sid, s :: sid in k.index.At(s) ==>
      sid in k.all && k.all[sid] in k.heap && k.heap[k.all[sid]].state == s
    ensures forall sid :: sid in k.all ==> exists s :: sid in k.index.At(s)
    ensures forall sid, s, t :: sid in k.index.At(s) && sid in k.index.At(t) ==> s == t
    ensures forall i, j :: 0 <= i < j < |k.list| ==> SidOf(k, k.list[i]) != SidOf(k, k.list[j])
    ensures forall r :: r in k.heap ==> (k.heap[r].using <==> r in k.list)
    ensures forall sid :: sid in k.index.plotting ==>
      k.phase == Busy && k.popped.Some? && SidOf(k, k.popped.value.ws) == Some(sid)
  {
    forall sid, s | sid in k.index.At(s)
      ensures sid in k.all && k.all[sid] in k.heap && k.heap[k.all[sid]].state == s
    {
      assert Agrees(k, s, sid);
    }
    forall sid | sid in k.all ensures exists s :: sid in k.index.At(s) {
      WhereItIs(k, sid);
    }
    forall sid, s, t | sid in k.index.At(s) && sid in k.index.At(t) ensures s == t {
      assert Agrees(k, s, sid) && Agrees(k, t, sid);
    }
    forall r | r in k.heap ensures k.heap[r].using <==> r in k.list {
      assert ListedIfUsed(k, r);
    }
    forall i, j | 0 <= i < j < |k.list| ensures SidOf(k, k.list[i]) != SidOf(k, k.list[j]) {
      DistinctSids(k, i, j);
    }
  }

  lemma DistinctSids(k: Keeper, i: nat, j: nat)
    requires ListsUsed(k) && i < j < |k.list|
    ensures SidOf(k, k.list[i]) != SidOf(k, k.list[j])
  {
    assert ListedIfUsed(k, k.list[i]) && ListedIfUsed(k, k.list[j]);
  }
}
