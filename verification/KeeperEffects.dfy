/** What every operation of the space keeper does, read off the state of the workspace it is asked about
    and the documented tables: which workspace ends where, what reaches the plotter, and that nothing else
    changes. */
module KeeperEffects {
  import opened Common
  import opened Keeper
  import opened KeeperInvariant

  ghost predicate Usable(k: Keeper, sid: Sid) {
    sid in k.all && k.all[sid] in k.heap && k.heap[k.all[sid]].using
  }

  /** The queue lost the entries of `sid`, every copy of them, and nothing else. */
  ghost predicate Dequeued(k: Keeper, k': Keeper, sid: Sid) {
    forall e :: multiset(k'.queue)[e] == if e.ws in k.heap && k.heap[e.ws].sid == sid then 0 else multiset(k.queue)[e]
  }

  // The documented tables

  /** registered -> plotting -> ready; the others stay. A plotting workspace will not be mined afterwards. */
  ghost predicate PlotTable(k: Keeper, sid: Sid, k': Keeper, o: Outcome) {
    if !Usable(k, sid) then k' == k && o == ErrDoesNotExist else
    var r := k.all[sid];
    o == Done && match k.heap[r].state
      case Registered => k' == k.(channel := k.channel + [Entry(r, false)])
      case Plotting => k' == k.(popped := Some(Entry(r, false)))
      case Ready => k' == k
      case Mining => k' == k
  }

  /** registered -> plotting -> mining, plotting -> mining, ready -> mining. */
  ghost predicate MineTable(k: Keeper, sid: Sid, k': Keeper, o: Outcome) {
    if !Usable(k, sid) then k' == k && o == ErrDoesNotExist else
    var r := k.all[sid];
    o == Done && match k.heap[r].state
      case Registered => k' == k.(channel := k.channel + [Entry(r, true)])
      case Plotting => k' == k.(popped := Some(Entry(r, true)))
      case Ready => k' == k.(heap := k.heap[r := WorkSpace(sid, Mining, true)],
                             index := k.index.(ready := k.index.ready - {sid}, mining := k.index.mining[sid := r]))
      case Mining => k' == k
  }

  /** Out of the queue in every state; plotting -> registered or ready, mining -> ready. */
  ghost predicate StopTable(k: Keeper, sid: Sid, k': Keeper, o: Outcome) {
    if !Usable(k, sid) then k' == k && o == ErrDoesNotExist else
    var r, q := k.all[sid], k.(queue := k'.queue);
    o == Done && Dequeued(k, k', sid) && match k.heap[r].state
      case Registered => k' == q
      case Plotting => k' == q.(popped := Some(Entry(r, false)))
      case Ready => k' == q
      case Mining => k' == q.(heap := k.heap[r := WorkSpace(sid, Ready, true)],
                              index := k.index.(mining := k.index.mining - {sid}, ready := k.index.ready[sid := r]))
  }

  ghost predicate Unlisted(k: Keeper, k': Keeper, r: Ref) {
    (forall x :: x in k'.list <==> x in k.list && x != r) && forall i, j :: 0 <= i < j < |k'.list| ==> k'.list[i] != k'.list[j]
  }

  /** A still workspace is out of the queue, out of use and out of the list; a busy one only out of the queue. */
  ghost predicate RemoveTable(k: Keeper, sid: Sid, k': Keeper, o: Outcome) {
    if !Usable(k, sid) then k' == k && o == ErrDoesNotExist else
    var r, q := k.all[sid], k.(queue := k'.queue);
    var s := k.heap[r].state;
    && Dequeued(k, k', sid)
    && if s == Plotting || s == Mining then k' == q && o == ErrIsNotStill
       else o == Done && Unlisted(k, k', r) && k' == q.(heap := k.heap[r := WorkSpace(sid, s, false)], list := k'.list)
  }

  /** In addition the sid leaves the index. */
  ghost predicate DeleteTable(k: Keeper, sid: Sid, k': Keeper, o: Outcome) {
    if !Usable(k, sid) then k' == k && o == ErrDoesNotExist else
    var r, q := k.all[sid], k.(queue := k'.queue);
    var s := k.heap[r].state;
    && Dequeued(k, k', sid)
    && if s == Plotting || s == Mining then k' == q && o == ErrIsNotStill
       else
         && o == Done && Unlisted(k, k', r)
         && k' == q.(heap := k.heap[r := WorkSpace(sid, s, false)], list := k'.list, all := k.all - {sid},
                     index := k.index.(registered := k.index.registered - {sid}, ready := k.index.ready - {sid}))
  }

  lemma {:induction false} WithoutSidCounts(k: Keeper, q: seq<Entry>, sid: Sid, e: Entry)
    ensures multiset(WithoutSid(k, q, sid))[e] == if e.ws in k.heap && k.heap[e.ws].sid == sid then 0 else multiset(q)[e]
  {
    if q != [] {
      WithoutSidCounts(k, q[1..], sid, e);
      assert q == [q[0]] + q[1..];
    }
  }

  lemma LeavesQueue(k: Keeper, k': Keeper, sid: Sid)
    requires k'.queue == WithoutSid(k, k.queue, sid)
    ensures Dequeued(k, k', sid)
  {
    forall e ensures multiset(k'.queue)[e] == if e.ws in k.heap && k.heap[e.ws].sid == sid then 0 else multiset(k.queue)[e] {
      WithoutSidCounts(k, k.queue, sid, e);
    }
  }

  /** What the invariant says about one usable workspace. */
  lemma UsableReads(k: Keeper, sid: Sid)
    requires Inv(k) && Usable(k, sid)
    ensures var r := k.all[sid]; var s := k.heap[r].state;
      && k.heap[r] == WorkSpace(sid, s, true)
      && (s == Registered <==> sid in k.index.registered) && (s == Plotting <==> sid in k.index.plotting)
      && (s == Ready <==> sid in k.index.ready) && (s == Mining <==> sid in k.index.mining)
      && (s == Registered ==> k.index.registered[sid] == r) && (s == Ready ==> k.index.ready[sid] == r) && (s == Mining ==> k.index.mining[sid] == r)
      && (s == Plotting ==> k.popped.Some? && k.popped.value.ws == r)
  {
    assert Indexed(k, sid);
    WhereItIs(k, sid);
    assert Agrees(k, Registered, sid) && Agrees(k, Plotting, sid) && Agrees(k, Ready, sid) && Agrees(k, Mining, sid);
  }

  lemma PlotEffect(k: Keeper, sid: Sid)
    requires Inv(k)
    ensures PlotTable(k, sid, PlotWS(k, sid).0, PlotWS(k, sid).1)
  {
    if Usable(k, sid) {
      UsableReads(k, sid);
      hide Inv;
    }
  }

  lemma MineEffect(k: Keeper, sid: Sid)
    requires Inv(k)
    ensures MineTable(k, sid, MineWS(k, sid).0, MineWS(k, sid).1)
  {
    if Usable(k, sid) {
      UsableReads(k, sid);
      hide Inv;
    }
  }

  lemma StopEffect(k: Keeper, sid: Sid)
    requires Inv(k)
    ensures StopTable(k, sid, StopWS(k, sid).0, StopWS(k, sid).1)
  {
    if Usable(k, sid) {
      UsableReads(k, sid);
      LeavesQueue(k, StopWS(k, sid).0, sid);
      hide Inv, WithoutSid, Dequeued;
    }
  }

  lemma LeavesList(k: Keeper, k': Keeper, sid: Sid)
    requires Inv(k) && Usable(k, sid) && k'.list == DeleteFromSlice(k, k.list, sid)
    ensures Unlisted(k, k', k.all[sid])
  {
    var r := k.all[sid];
    UsableReads(k, sid);
    forall x | x in k.list ensures x in k.heap && (k.heap[x].sid == sid ==> x == r) {
      assert ListedIfUsed(k, x);
    }
    DeleteFromSliceLoses(k, k.list, r);
  }

  lemma {:induction false} SameSids(k: Keeper, k1: Keeper, src: seq<Ref>, sid: Sid)
    requires k1.heap == k.heap
    ensures DeleteFromSlice(k1, src, sid) == DeleteFromSlice(k, src, sid)
  {
    if src != [] {
      SameSids(k, k1, src[1..], sid);
    }
  }

  lemma RemoveEffect(k: Keeper, sid: Sid)
    requires Inv(k)
    ensures RemoveTable(k, sid, RemoveWS(k, sid).0, RemoveWS(k, sid).1)
  {
    if Usable(k, sid) {
      var k' := RemoveWS(k, sid).0;
      UsableReads(k, sid);
      LeavesQueue(k, k', sid);
      SameSids(k, k.(queue := k'.queue), k.list, sid);
      if k'.heap != k.heap {
        LeavesList(k, k', sid);
      }
      hide Inv, WithoutSid, Dequeued, DeleteFromSlice, Unlisted;
    }
  }

  lemma DeleteEffect(k: Keeper, sid: Sid)
    requires Inv(k)
    ensures DeleteTable(k, sid, DeleteWS(k, sid).0, DeleteWS(k, sid).1)
  {
    if Usable(k, sid) {
      var k' := DeleteWS(k, sid).0;
      UsableReads(k, sid);
      LeavesQueue(k, k', sid);
      SameSids(k, k.(queue := k'.queue, index := k'.index, all := k'.all), k.list, sid);
      if k'.heap != k.heap {
        LeavesList(k, k', sid);
      }
      hide Inv, WithoutSid, Dequeued, DeleteFromSlice, Unlisted;
      assert k.index.registered - {sid} == k.index.registered || k.heap[k.all[sid]].state == Registered;
      assert k.index.ready - {sid} == k.index.ready || k.heap[k.all[sid]].state == Ready;
    }
  }

  // Configuration and new workspaces

  /** The indexed workspaces whose state is among the flags. */
  ghost predicate Flagged(k: Keeper, flags: set<State>, r: Ref) {
    r in k.heap && k.heap[r].state in flags && k.heap[r].sid in k.all && k.all[k.heap[r].sid] == r
  }

  /** Exactly the flagged workspaces are in use and listed, once each; if something is to be executed, each
      has one queue entry, bound for mining exactly if mining is asked for. */
  ghost predicate ConfigureTable(k: Keeper, flags: set<State>, execPlot: bool, execMine: bool, k': Keeper, o: Outcome) {
    if k.phase != Stopped then k' == k && o == ErrIsRunning
    else if forall r :: !Flagged(k, flags, r) then k' == k && o == ErrConfiguredNothing
    else
      && o == Done && k' == k.(heap := k'.heap, list := k'.list, queue := k'.queue, popped := None)
      && (forall r :: r in k'.list <==> Flagged(k, flags, r)) && (forall i, j :: 0 <= i < j < |k'.list| ==> k'.list[i] != k'.list[j])
      && k'.heap.Keys == k.heap.Keys && (forall r :: r in k.heap ==> k'.heap[r] == k.heap[r].(using := Flagged(k, flags, r)))
      && if execPlot || execMine
         then |k'.queue| == |k'.list| && forall i :: 0 <= i < |k'.list| ==> k'.queue[i] == Entry(k'.list[i], execMine)
         else k'.queue == []
  }

  lemma SelectedIsFlagged(k: Keeper, flags: set<State>, r: Ref)
    requires Inv(k)
    ensures Selected(k, flags, r) <==> Flagged(k, flags, r)
  {
    if Selected(k, flags, r) {
      var sid, s :| s in flags && sid in k.index.At(s) && k.index.At(s)[sid] == r;
      assert Agrees(k, s, sid) && Indexed(k, sid);
    }
    if Flagged(k, flags, r) {
      WhereItIs(k, k.heap[r].sid);
    }
  }

  lemma ConfigureEffect(k: Keeper, flags: set<State>, order: seq<Ref>, execPlot: bool, execMine: bool)
    requires Inv(k) && Enumerates(k, flags, order)
    ensures ConfigureTable(k, flags, execPlot, execMine, Configure(k, order, execPlot, execMine).0, Configure(k, order, execPlot, execMine).1)
  {
    var k' := Configure(k, order, execPlot, execMine).0;
    forall r ensures r in order <==> Flagged(k, flags, r) {
      SelectedIsFlagged(k, flags, r);
    }
    forall r | r in k.heap ensures k.heap[r].using <==> r in k.list {
      assert ListedIfUsed(k, r);
    }
    hide Inv, Flagged, Selected;
    if order != [] {
      assert order[0] in order;
    } else {
      assert forall r :: r !in order;
    }
  }

  /** A new workspace is indexed under its state and not in use; a known sid changes nothing. */
  ghost predicate AddTable(k: Keeper, r: Ref, sid: Sid, s: State, k': Keeper) {
    if sid in k.all then k' == k else
    && k' == k.(heap := k.heap[r := WorkSpace(sid, s, false)], all := k.all[sid := r], index := k'.index)
    && k'.index == match s
       case Registered => k.index.(registered := k.index.registered[sid := r])
       case Plotting => k.index.(plotting := k.index.plotting[sid := r])
       case Ready => k.index.(ready := k.index.ready[sid := r])
       case Mining => k.index.(mining := k.index.mining[sid := r])
  }

  lemma AddEffect(k: Keeper, r: Ref, sid: Sid, s: State)
    requires r !in k.heap
    ensures AddTable(k, r, sid, s, AddWorkSpace(k, r, sid, s))
  {
  }

  // The plotter

  /** Each step of the plotter on a state with the invariant. */
  ghost predicate PlotterTable(k: Keeper, a: Action, k': Keeper) {
    match a
    case Start => k' == k.(phase := Idle)
    case StopAdding => k' == k.(phase := Idle)
    case CheckQueue => k' == k.(phase := k'.phase) && (k'.phase == Checked <==> |k.queue| > 0) && (k'.phase == Waiting <==> |k.queue| == 0)
    case PopEntry(i) => i < |k.queue| ==>
      k' == k.(queue := k'.queue, popped := Some(k.queue[i]), phase := Held) && multiset(k'.queue) == multiset(k.queue) - multiset{k.queue[i]}
    case ReceiveOne => k.channel != [] ==>
      && k' == k.(queue := k'.queue, channel := k'.channel, phase := Adding)
      && [k.channel[0]] + k'.channel == k.channel && multiset(k'.queue) == multiset(k.queue) + multiset{k.channel[0]}
    case QuitPlotter => k' == k.(queue := [], popped := None, phase := Stopped)
    case Begin => k.popped.Some? && k.popped.value.ws in k.heap && BeginTable(k, k.popped.value, k')
    case End(complete) => k.popped.Some? && k.popped.value.ws in k.heap && EndTable(k, k.popped.value, complete, k')
    case _ => true
  }

  /** A registered workspace is plotting now; a ready one bound for mining is mining now; all else waits. */
  ghost predicate BeginTable(k: Keeper, e: Entry, k': Keeper)
    requires e.ws in k.heap
  {
    var ws := k.heap[e.ws];
    if ws.sid in k.all && ws.state == Registered
    then k' == k.(phase := Busy, heap := k.heap[e.ws := ws.(state := Plotting)],
                  index := k.index.(registered := k.index.registered - {ws.sid}, plotting := k.index.plotting[ws.sid := e.ws]))
    else if ws.sid in k.all && ws.state == Ready && e.wouldMining
    then k' == k.(phase := Idle, heap := k.heap[e.ws := ws.(state := Mining)],
                  index := k.index.(ready := k.index.ready - {ws.sid}, mining := k.index.mining[ws.sid := e.ws]))
    else k' == k.(phase := Idle)
  }

  /** An interrupted plot leaves the workspace registered; a complete one makes it mining or ready as bound. */
  ghost predicate EndTable(k: Keeper, e: Entry, complete: bool, k': Keeper)
    requires e.ws in k.heap
  {
    var ws, left := k.heap[e.ws], k.index.plotting - {k.heap[e.ws].sid};
    if !complete
    then k' == k.(phase := Idle, heap := k.heap[e.ws := ws.(state := Registered)],
                  index := k.index.(plotting := left, registered := k.index.registered[ws.sid := e.ws]))
    else if e.wouldMining
    then k' == k.(phase := Idle, heap := k.heap[e.ws := ws.(state := Mining)],
                  index := k.index.(plotting := left, mining := k.index.mining[ws.sid := e.ws]))
    else k' == k.(phase := Idle, heap := k.heap[e.ws := ws.(state := Ready)],
                  index := k.index.(plotting := left, ready := k.index.ready[ws.sid := e.ws]))
  }

  lemma BeginEffect(k: Keeper)
    requires Inv(k) && k.phase == Held
    ensures k.popped.Some? && k.popped.value.ws in k.heap && BeginTable(k, k.popped.value, BeginPlot(k))
  {
    var e := k.popped.value;
    assert Pending(k, e) && Fresh(k, e);
    var sid := k.heap[e.ws].sid;
    if sid in k.all {
      WhereItIs(k, sid);
    } else {
      NotIndexed(k, sid);
    }
    hide Inv;
  }

  lemma PlotterEffect(k: Keeper, a: Action)
    requires Inv(k) && Enabled(k, a)
    ensures PlotterTable(k, a, Apply(k, a).0)
  {
    match a
    case PopEntry(i) =>
      if i < |k.queue| {
        assert k.queue == k.queue[..i] + [k.queue[i]] + k.queue[i + 1..];
      }
    case Begin => BeginEffect(k);
    case End(complete) =>
      assert Pending(k, k.popped.value) && Fresh(k, k.popped.value);
    case _ =>
  }
}
