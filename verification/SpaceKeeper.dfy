/** The space keeper as an object: each method is one critical section of the code and is proved
    against the step function of the same name in module Keeper. */
module SpaceKeeper {
  import opened Common
  import K = Keeper
  import I = KeeperInvariant
  import D = PlotterDrain
  import E = KeeperEffects

  type Sid = K.Sid
  type Ref = K.Ref

  // WorkSpaceStateFlags

  function Rank(s: K.State): nat {
    match s
    case Registered => 0
    case Plotting => 1
    case Ready => 2
    case Mining => 3
  }

  const STATES: seq<K.State> := [K.Registered, K.Plotting, K.Ready, K.Mining]

  function Flag(s: K.State): bv32 {
    1 << Rank(s)
  }

  predicate Contains(f: bv32, flag: bv32) {
    f & flag == flag
  }

  /** WorkSpaceStateFlags.States */
  method States(f: bv32) returns (states: seq<K.State>)
    ensures forall s :: s in states <==> Contains(f, Flag(s))
    ensures forall i, j :: 0 <= i < j < |states| ==> Rank(states[i]) < Rank(states[j])
    ensures (K.Registered in states <==> f & 1 == 1) && (K.Plotting in states <==> f & 2 == 2)
    ensures (K.Ready in states <==> f & 4 == 4) && (K.Mining in states <==> f & 8 == 8)
  {
    states := [];
    for n := 0 to 4
      invariant forall s :: s in states <==> Rank(s) < n && Contains(f, Flag(s))
      invariant forall i, j :: 0 <= i < j < |states| ==> Rank(states[i]) < Rank(states[j])
    {
      var s := STATES[n];
      assert forall t :: Rank(t) == n <==> t == s;
      if Contains(f, Flag(s)) {
        assert forall i :: 0 <= i < |states| ==> states[i] in states;
        states := states + [s];
      }
    }
  }

  ghost function FlagStates(f: bv32): set<K.State> {
    set s | s in STATES && Contains(f, Flag(s))
  }

  /** SFRegistered, SFPlotting, SFReady and SFMining are the bits 1, 2, 4 and 8. */
  lemma FlagBits(f: bv32)
    ensures (K.Registered in FlagStates(f) <==> f & 1 == 1) && (K.Plotting in FlagStates(f) <==> f & 2 == 2)
    ensures (K.Ready in FlagStates(f) <==> f & 4 == 4) && (K.Mining in FlagStates(f) <==> f & 8 == 8)
  {
    assert Flag(K.Registered) == 1 && Flag(K.Plotting) == 2 && Flag(K.Ready) == 4 && Flag(K.Mining) == 8;
    EveryState(K.Registered);
    EveryState(K.Plotting);
    EveryState(K.Ready);
    EveryState(K.Mining);
  }

  lemma EveryState(s: K.State)
    ensures s in STATES
  {
    assert STATES[Rank(s)] == s;
  }

  lemma WithoutSidCons(k: K.Keeper, q: seq<K.Entry>, sid: Sid)
    requires q != []
    ensures K.WithoutSid(k, q, sid) ==
      (if K.SidOf(k, q[0].ws) == Some(sid) then [] else [q[0]]) + K.WithoutSid(k, q[1..], sid)
  {
  }

  lemma WithoutSidNil(k: K.Keeper, sid: Sid)
    ensures K.WithoutSid(k, [], sid) == []
  {
  }

  lemma {:induction false} FirstMatch(k: K.Keeper, src: seq<Ref>, sid: Sid, i: nat)
    requires i <= |src| && forall j :: 0 <= j < i ==> K.SidOf(k, src[j]) != Some(sid)
    requires i < |src| ==> K.SidOf(k, src[i]) == Some(sid)
    ensures K.DeleteFromSlice(k, src, sid) == if i < |src| then src[..i] + src[i + 1..] else src
  {
    hide K.SidOf;
    if i > 0 {
      var tail := src[1..];
      assert src == [src[0]] + tail && forall j :: 0 <= j < |tail| ==> tail[j] == src[j + 1];
      FirstMatch(k, tail, sid, i - 1);
      assert K.DeleteFromSlice(k, src, sid) == [src[0]] + K.DeleteFromSlice(k, tail, sid);
    } else if src != [] {
      assert src[..0] + src[1..] == src[1..];
    }
  }

  ghost predicate NoRepeats(s: seq<Ref>) {
    forall i, j :: 0 <= i < j < |s| ==> s[i] != s[j]
  }

  /** The listed objects exist and no two of them share a sid. */
  ghost predicate DistinctSids(k: K.Keeper, src: seq<Ref>) {
    && (forall x :: x in src ==> x in k.heap)
    && (forall i, j :: 0 <= i < j < |src| ==> K.SidOf(k, src[i]) != K.SidOf(k, src[j]))
  }

  /** Dropping the first element with the sid of `r` drops `r` alone when no other element shares it. */
  lemma DropsOnly(k: K.Keeper, src: seq<Ref>, r: Ref)
    requires r in src && DistinctSids(k, src)
    ensures var rest := K.DeleteFromSlice(k, src, k.heap[r].sid);
      NoRepeats(rest) && forall x :: x in rest <==> x in src && x != r
  {
    forall x | x in src && k.heap[x].sid == k.heap[r].sid ensures x == r {
      var i, j :| 0 <= i < |src| && 0 <= j < |src| && src[i] == x && src[j] == r;
      assert i < j ==> K.SidOf(k, src[i]) != K.SidOf(k, src[j]);
      assert j < i ==> K.SidOf(k, src[j]) != K.SidOf(k, src[i]);
    }
    forall i, j | 0 <= i < j < |src| ensures src[i] != src[j] {
      assert K.SidOf(k, src[i]) != K.SidOf(k, src[j]);
    }
    I.DeleteFromSliceLoses(k, src, r);
  }

  lemma Pluck(s: seq<Ref>, i: nat)
    requires NoRepeats(s) && i < |s|
    ensures NoRepeats(s[..i] + s[i + 1..])
    ensures forall r :: r in s[..i] + s[i + 1..] <==> r in s && r != s[i]
  {
    assert s == s[..i] + [s[i]] + s[i + 1..];
    assert s[i] !in s[..i] && s[i] !in s[i + 1..];
  }

  /** `result` lists, without repetition, the indexed objects of the sids in `seen`. */
  ghost predicate Collected(k: K.Keeper, seen: set<Sid>, result: seq<Ref>) {
    && (forall sid :: sid in seen ==> sid in k.all)
    && (forall r :: r in result <==> exists sid :: sid in seen && sid in k.all && k.all[sid] == r)
    && NoRepeats(result)
  }

  lemma CollectOne(k: K.Keeper, seen: set<Sid>, result: seq<Ref>, s: K.State, sid: Sid)
    requires K.Partitioned(k) && Collected(k, seen, result) && sid !in seen && sid in k.index.At(s)
    ensures Collected(k, seen + {sid}, result + [k.index.At(s)[sid]])
  {
    assert K.Agrees(k, s, sid) && K.Indexed(k, sid);
    var r := k.all[sid];
    forall x | x in seen && x in k.all ensures k.all[x] != r {
      assert K.Indexed(k, x);
    }
    assert r !in result;
    var result' := result + [r];
    forall x ensures x in result' <==> exists y :: y in seen + {sid} && y in k.all && k.all[y] == x {
      if x == r {
        assert sid in seen + {sid};
      } else if x in result {
        var y :| y in seen && y in k.all && k.all[y] == x;
        assert y in seen + {sid};
      }
    }
  }

  lemma NotSeenYet(k: K.Keeper, seen: set<Sid>, states: seq<K.State>, n: nat)
    requires K.Partitioned(k) && n < |states|
    requires forall i, j :: 0 <= i < j < |states| ==> Rank(states[i]) < Rank(states[j])
    requires forall sid :: sid in seen <==> exists s :: s in states[..n] && sid in k.index.At(s)
    ensures k.index.At(states[n]).Keys !! seen
  {
    forall sid | sid in seen ensures sid !in k.index.At(states[n]) {
      var s :| s in states[..n] && sid in k.index.At(s);
      assert s != states[n];
      assert K.Agrees(k, s, sid) && K.Agrees(k, states[n], sid);
    }
  }

  lemma CollectedAll(k: K.Keeper, seen: set<Sid>, result: seq<Ref>, f: bv32)
    requires K.Partitioned(k) && Collected(k, seen, result)
    requires forall sid :: sid in seen <==> exists s :: Contains(f, Flag(s)) && sid in k.index.At(s)
    ensures K.Enumerates(k, FlagStates(f), result)
  {
    forall r ensures r in result <==> K.Selected(k, FlagStates(f), r) {
      if r in result {
        var sid :| sid in seen && sid in k.all && k.all[sid] == r;
        var s :| Contains(f, Flag(s)) && sid in k.index.At(s);
        EveryState(s);
        assert K.Agrees(k, s, sid);
        assert s in FlagStates(f) && k.index.At(s)[sid] == r;
      }
      if K.Selected(k, FlagStates(f), r) {
        var sid, s :| s in FlagStates(f) && sid in k.index.At(s) && k.index.At(s)[sid] == r;
        assert K.Agrees(k, s, sid);
        assert sid in seen;
      }
    }
  }

  class SpaceKeeper {
    var heap: map<Ref, K.WorkSpace>
    var all: map<Sid, Ref>
    var index: K.Index
    var list: seq<Ref>
    var queue: seq<K.Entry>
    var channel: seq<K.Entry>
    var popped: Option<K.Entry>
    var phase: K.Phase

    function View(): K.Keeper
      reads this
    {
      K.Keeper(heap, all, index, list, queue, channel, popped, phase)
    }

    ghost predicate Valid()
      reads this
    {
      K.Inv(View())
    }

    constructor ()
      ensures View() == K.EMPTY && Valid()
    {
      heap, all, index, list := map[], map[], K.Index(map[], map[], map[], map[]), [];
      queue, channel, popped, phase := [], [], None, K.Stopped;
      new;
      I.EmptyKeeps();
    }

    /** plotterQueue.Delete: pops everything and pushes back what stays. */
    method DeleteFromQueue(sid: Sid)
      modifies this`queue
      ensures queue == K.WithoutSid(old(View()), old(queue), sid)
    {
      hide K.WithoutSid;
      ghost var k, q0 := View(), queue;
      var newQueue: seq<K.Entry> := [];
      while queue != []
        invariant newQueue + K.WithoutSid(k, queue, sid) == K.WithoutSid(k, q0, sid)
        decreases |queue|
      {
        var qws := queue[0];
        WithoutSidCons(k, queue, sid);
        queue := queue[1..];
        if qws.ws in heap && heap[qws.ws].sid == sid {
          continue;
        }
        ghost var rest := K.WithoutSid(k, queue, sid);
        assert newQueue + ([qws] + rest) == newQueue + [qws] + rest;
        newQueue := newQueue + [qws];
      }
      WithoutSidNil(k, sid);
      queue := newQueue;
    }

    /** deleteFromSlice: finds the first match, then copies around it. */
    method DeleteFromSlice(src: seq<Ref>, sid: Sid) returns (result: seq<Ref>)
      ensures result == K.DeleteFromSlice(View(), src, sid)
    {
      hide K.DeleteFromSlice;
      for i := 0 to |src|
        invariant forall j :: 0 <= j < i ==> K.SidOf(View(), src[j]) != Some(sid)
      {
        if src[i] in heap && heap[src[i]].sid == sid {
          FirstMatch(View(), src, sid, i);
          return src[..i] + src[i + 1..];
        }
      }
      FirstMatch(View(), src, sid, |src|);
      result := src;
    }

    /** With distinct sids in the list, the workspace is out of use and out of the list, and no other
        workspace is touched. */
    method DisuseWorkSpace(r: Ref)
      requires r in heap
      modifies this`heap, this`list
      ensures View() == K.Disuse(old(View()), r)
      ensures !heap[r].using && heap.Keys == old(heap).Keys && forall x :: x in heap && x != r ==> heap[x] == old(heap)[x]
      ensures r in old(list) && old(DistinctSids(View(), list)) ==>
        NoRepeats(list) && forall x :: x in list <==> x in old(list) && x != r
    {
      ghost var k := View();
      if r in list && DistinctSids(k, list) {
        DropsOnly(k, list, r);
      }
      var rest := DeleteFromSlice(list, heap[r].sid);
      heap := heap[r := heap[r].(using := false)];
      list := rest;
    }

    method PlotWS(sid: Sid) returns (o: K.Outcome)
      requires Valid()
      modifies this
      ensures (View(), o) == K.PlotWS(old(View()), sid) && Valid()
      ensures E.PlotTable(old(View()), sid, View(), o)
    {
      E.PlotEffect(View(), sid);
      I.PlotKeeps(View(), sid);
      if sid !in all || all[sid] !in heap || !heap[all[sid]].using {
        return K.ErrDoesNotExist;
      }
      if sid in index.registered {
        channel := channel + [K.Entry(index.registered[sid], false)];
        return K.Done;
      }
      if sid in index.plotting {
        o := SetPoppedWouldMining(sid, false);
        return;
      }
      o := K.Done;
    }

    method SetPoppedWouldMining(sid: Sid, b: bool) returns (o: K.Outcome)
      modifies this`popped
      ensures (View(), o) == K.OnPlotting(old(View()), sid, b)
    {
      if popped.None? {
        return K.NilDereference;
      }
      if popped.value.ws !in heap || heap[popped.value.ws].sid != sid {
        return K.ErrIsNotPlotting;
      }
      popped := Some(popped.value.(wouldMining := b));
      o := K.Done;
    }

    method MineWS(sid: Sid) returns (o: K.Outcome)
      requires Valid()
      modifies this
      ensures (View(), o) == K.MineWS(old(View()), sid) && Valid()
      ensures E.MineTable(old(View()), sid, View(), o)
    {
      E.MineEffect(View(), sid);
      I.MineKeeps(View(), sid);
      if sid !in all || all[sid] !in heap || !heap[all[sid]].using {
        return K.ErrDoesNotExist;
      }
      if sid in index.registered {
        channel := channel + [K.Entry(index.registered[sid], true)];
        return K.Done;
      }
      if sid in index.plotting {
        o := SetPoppedWouldMining(sid, true);
        return;
      }
      if sid in index.ready && index.ready[sid] in heap {
        var ws := index.ready[sid];
        index := index.(ready := index.ready - {sid});
        index := index.(mining := index.mining[sid := ws]);
        heap := heap[ws := heap[ws].(state := K.Mining)];
        return K.Done;
      }
      o := K.Done;
    }

    method StopWS(sid: Sid) returns (o: K.Outcome)
      requires Valid()
      modifies this
      ensures (View(), o) == K.StopWS(old(View()), sid) && Valid()
      ensures E.StopTable(old(View()), sid, View(), o)
    {
      E.StopEffect(View(), sid);
      I.StopKeeps(View(), sid);
      if sid !in all || all[sid] !in heap || !heap[all[sid]].using {
        return K.ErrDoesNotExist;
      }
      DeleteFromQueue(sid);
      if sid in index.plotting {
        o := SetPoppedWouldMining(sid, false);
        return;
      }
      if sid in index.mining && index.mining[sid] in heap {
        var ws := index.mining[sid];
        index := index.(mining := index.mining - {sid});
        index := index.(ready := index.ready[sid := ws]);
        heap := heap[ws := heap[ws].(state := K.Ready)];
        return K.Done;
      }
      o := K.Done;
    }

    method RemoveWS(sid: Sid) returns (o: K.Outcome)
      requires Valid()
      modifies this
      ensures (View(), o) == K.RemoveWS(old(View()), sid) && Valid()
      ensures E.RemoveTable(old(View()), sid, View(), o)
    {
      E.RemoveEffect(View(), sid);
      I.RemoveKeeps(View(), sid);
      if sid !in all || all[sid] !in heap || !heap[all[sid]].using {
        return K.ErrDoesNotExist;
      }
      DeleteFromQueue(sid);
      if sid !in index.registered && sid !in index.ready {
        return K.ErrIsNotStill;
      }
      var ws := if sid in index.registered then index.registered[sid] else index.ready[sid];
      if ws !in heap {
        return K.NilDereference;
      }
      DisuseWorkSpace(ws);
      o := K.Done;
    }

    method DeleteWS(sid: Sid) returns (o: K.Outcome)
      requires Valid()
      modifies this
      ensures (View(), o) == K.DeleteWS(old(View()), sid) && Valid()
      ensures E.DeleteTable(old(View()), sid, View(), o)
    {
      E.DeleteEffect(View(), sid);
      I.DeleteKeeps(View(), sid);
      if sid !in all || all[sid] !in heap || !heap[all[sid]].using {
        return K.ErrDoesNotExist;
      }
      DeleteFromQueue(sid);
      if sid !in index.registered && sid !in index.ready {
        return K.ErrIsNotStill;
      }
      var ws := if sid in index.registered then index.registered[sid] else index.ready[sid];
      if ws !in heap {
        return K.NilDereference;
      }
      var s := heap[ws].state;
      index := index.Put(s, index.At(s) - {sid});
      all := all - {sid};
      DisuseWorkSpace(ws);
      o := K.Done;
    }

    /** useWorkSpace: appends unless the sid is listed already. */
    method UseWorkSpace(r: Ref)
      requires r in heap && forall x :: x in list ==> x in heap
      modifies this`list, this`heap
      ensures if exists x :: x in old(list) && old(heap)[x].sid == old(heap)[r].sid
              then list == old(list) && heap == old(heap)
              else list == old(list) + [r] && heap == old(heap)[r := old(heap)[r].(using := true)]
    {
      for i := 0 to |list|
        invariant list == old(list) && heap == old(heap)
        invariant forall x :: x in list[..i] ==> heap[x].sid != heap[r].sid
      {
        if heap[list[i]].sid == heap[r].sid {
          assert list[i] in list;
          return;
        }
        assert list[..i + 1] == list[..i] + [list[i]];
      }
      assert list[..|list|] == list;
      list := list + [r];
      heap := heap[r := heap[r].(using := true)];
    }

    /** The selection loop of ConfigureByFlags: maps are walked in arbitrary order. */
    method CollectByFlags(f: bv32) returns (result: seq<Ref>)
      requires Valid()
      ensures K.Enumerates(View(), FlagStates(f), result)
    {
      ghost var k := View();
      var states := States(f);
      result := [];
      ghost var seen: set<Sid> := {};
      for n := 0 to |states|
        invariant forall sid :: sid in seen <==> exists s :: s in states[..n] && sid in k.index.At(s)
        invariant Collected(k, seen, result)
      {
        var s := states[n];
        ghost var before := seen;
        var todo := index.At(s).Keys;
        assert states[..n + 1] == states[..n] + [s];
        NotSeenYet(k, seen, states, n);
        while todo != {}
          invariant todo <= k.index.At(s).Keys && todo !! seen
          invariant seen == before + (k.index.At(s).Keys - todo)
          invariant Collected(k, seen, result)
          decreases |todo|
        {
          var sid :| sid in todo;
          CollectOne(k, seen, result, s, sid);
          result := result + [index.At(s)[sid]];
          seen, todo := seen + {sid}, todo - {sid};
        }
      }
      assert states[..|states|] == states;
      CollectedAll(k, seen, result, f);
    }

    /** The first loop of applyConfiguredWorkSpaces. */
    method DisuseAll()
      requires Valid()
      modifies this`heap
      ensures heap == K.ClearUsing(old(heap), list)
    {
      ghost var k := View();
      for i := 0 to |list|
        invariant heap == K.ClearUsing(k.heap, list[..i])
      {
        assert K.ListedIfUsed(k, list[i]);
        assert list[..i + 1] == list[..i] + [list[i]];
        heap := heap[list[i] := heap[list[i]].(using := false)];
      }
      assert list[..|list|] == list;
    }

    /** The second loop: the temporary queue empties in arbitrary order into the queue and the list. */
    method UseAll(wsList: seq<Ref>, execMine: bool)
      requires list == [] && queue == []
      requires NoRepeats(wsList)
      requires forall r :: r in wsList ==> r in heap && heap[r].sid in all && all[heap[r].sid] == r
      modifies this`heap, this`list, this`queue
      ensures heap == K.MarkUsing(old(heap), list) && queue == K.Entries(list, execMine)
      ensures (forall r :: r in list <==> r in wsList) && NoRepeats(list)
    {
      ghost var h := heap;
      var tmp := wsList;
      while tmp != []
        invariant NoRepeats(tmp) && NoRepeats(list)
        invariant forall r :: r in wsList <==> r in tmp || r in list
        invariant forall r :: r in tmp ==> r !in list
        invariant heap == K.MarkUsing(h, list) && queue == K.Entries(list, execMine)
        decreases |tmp|
      {
        var i :| 0 <= i < |tmp|;
        var r := tmp[i];
        Pluck(tmp, i);
        queue := queue + [K.Entry(r, execMine)];
        UseWorkSpace(r);
        tmp := tmp[..i] + tmp[i + 1..];
      }
    }

    /** applyConfiguredWorkSpaces on a non-empty selection. */
    method ApplyConfigured(wsList: seq<Ref>, execPlot: bool, execMine: bool)
      requires wsList != [] && phase == K.Stopped && Valid()
      requires NoRepeats(wsList)
      requires forall r :: r in wsList ==> r in heap && heap[r].sid in all && all[heap[r].sid] == r
      modifies this
      ensures list != [] && View() == K.Configure(old(View()), list, execPlot, execMine).0
      ensures (forall r :: r in list <==> r in wsList) && NoRepeats(list)
    {
      DisuseAll();
      list, queue, popped := [], [], None;
      UseAll(wsList, execMine);
      assert wsList[0] in list;
      if !(execMine || execPlot) {
        queue, popped := [], None;
      }
    }

    method ConfigureByFlags(f: bv32, execPlot: bool, execMine: bool) returns (o: K.Outcome, ghost order: seq<Ref>)
      requires Valid()
      modifies this
      ensures Valid() && (View(), o) == K.Configure(old(View()), order, execPlot, execMine)
      ensures old(phase) == K.Stopped ==> K.Enumerates(old(View()), FlagStates(f), order)
      ensures E.ConfigureTable(old(View()), FlagStates(f), execPlot, execMine, View(), o)
    {
      if phase != K.Stopped {
        return K.ErrIsRunning, [];
      }
      ghost var k := View();
      var resultList := CollectByFlags(f);
      order := resultList;
      E.ConfigureEffect(k, FlagStates(f), order, execPlot, execMine);
      if resultList == [] {
        return K.ErrConfiguredNothing, order;
      }
      I.SelectedIsIndexed(k, FlagStates(f), resultList);
      ApplyConfigured(resultList, execPlot, execMine);
      order := list;
      E.ConfigureEffect(k, FlagStates(f), order, execPlot, execMine);
      I.ConfigureKeeps(k, FlagStates(f), order, execPlot, execMine);
      o := K.Done;
    }

    /** The drain loop of spacePlotter with complete plots: which entry comes out is arbitrary. */
    method DrainQueue()
      requires Valid() && phase == K.Idle
      modifies this
      ensures Valid() && queue == [] && all == old(all) && list == old(list) && heap.Keys == old(heap.Keys)
      ensures forall r :: r in old(heap) ==> heap[r] == old(heap)[r].(state := D.FinalState(old(View()), r))
    {
      ghost var k0 := View();
      while queue != []
        invariant Valid() && phase == K.Idle && all == old(all) && list == old(list) && heap.Keys == old(heap.Keys)
        invariant forall r :: r in k0.heap ==> heap[r] == k0.heap[r].(state := heap[r].state)
        invariant forall r :: r in k0.heap ==> D.FinalState(View(), r) == D.FinalState(k0, r)
        decreases |queue|
      {
        var i :| 0 <= i < |queue|;
        ghost var k := View();
        D.PlotOneEffect(k, i);
        forall r | r in k.heap ensures r in D.PlotOne(k, i).heap && D.FinalState(D.PlotOne(k, i), r) == D.FinalState(k, r) {
          D.PlotOneKeepsFinal(k, i, r);
        }
        PlotOne(i);
      }
      D.NothingQueued(View());
    }

    method PlotOne(i: nat)
      requires i < |queue|
      modifies this
      ensures View() == D.PlotOne(old(View()), i)
    {
      popped, queue, phase := Some(queue[i]), queue[..i] + queue[i + 1..], K.Held;
      PlotSpace();
    }

    method ChangeState(sid: Sid, r: Ref, from: K.State, to: K.State)
      requires r in heap
      modifies this`index, this`heap
      ensures View() == K.Move(old(View()), sid, r, from, to)
    {
      index := index.Put(from, index.At(from) - {sid});
      index := index.Put(to, index.At(to)[sid := r]);
      heap := heap[r := heap[r].(state := to)];
    }

    /** plotSpace when nothing interrupts it and the plot completes: the popped workspace settles as the
        documented tables say, every other one is untouched, and the invariant holds. */
    method PlotSpace()
      modifies this
      ensures View() == D.PlotHeld(old(View()))
      ensures old(Valid()) && old(phase) == K.Held ==> Valid() && old(popped).Some? && D.SettlesHeld(old(View()), View(), old(popped).value)
    {
      if Valid() && phase == K.Held {
        D.PlotHeldEffect(View());
      }
      if popped.None? || popped.value.ws !in heap {
        phase := K.Panicked;
        return;
      }
      var ws := popped.value.ws;
      var sid := heap[ws].sid;
      if sid in index.registered {
        ChangeState(sid, ws, K.Registered, K.Plotting);
        ChangeState(sid, ws, K.Plotting, if popped.value.wouldMining then K.Mining else K.Ready);
      } else if sid in index.ready && popped.value.wouldMining {
        ChangeState(sid, ws, K.Ready, K.Mining);
      }
      phase := K.Idle;
    }
  }
}
