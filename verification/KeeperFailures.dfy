/** Two ways the keeper can go wrong, a run that reaches each, and exactly when. */
module KeeperFailures {
  import opened Common
  import opened Keeper
  import opened KeeperInvariant

  // References stay good in every run, also in one that re-adds a sid

  ghost predicate IndexLive(k: Keeper, s: State, sid: Sid) {
    sid in k.index.At(s) ==> k.index.At(s)[sid] in k.heap
  }

  ghost predicate Live(k: Keeper) {
    && (forall e :: Pending(k, e) ==> e.ws in k.heap)
    && (k.phase in {Held, Busy} ==> k.popped.Some?)
    && (forall s, sid :: IndexLive(k, s, sid))
  }

  lemma MoveLive(k: Keeper, sid: Sid, r: Ref, from: State, to: State)
    requires r in k.heap && forall s, x :: IndexLive(k, s, x)
    ensures forall s, x :: IndexLive(Move(k, sid, r, from, to), s, x)
  {
    forall s, x ensures IndexLive(Move(k, sid, r, from, to), s, x) {
      assert IndexLive(k, s, x);
    }
  }

  lemma SameIndexLive(k: Keeper, k': Keeper)
    requires (forall s, x :: IndexLive(k, s, x)) && k'.index == k.index && k.heap.Keys <= k'.heap.Keys
    ensures forall s, x :: IndexLive(k', s, x)
  {
    forall s, x ensures IndexLive(k', s, x) {
      assert IndexLive(k, s, x);
    }
  }

  lemma FewerPendingLive(k: Keeper, k': Keeper)
    requires Live(k) && k.heap.Keys <= k'.heap.Keys && (forall s, x :: IndexLive(k', s, x))
    requires (k'.phase in {Held, Busy} ==> k'.popped.Some?) && forall e :: Pending(k', e) ==> e.ws in k'.heap || Pending(k, e)
    ensures Live(k')
  {
  }

  lemma PlotLive(k: Keeper, sid: Sid)
    requires Live(k)
    ensures Live(PlotWS(k, sid).0) && PlotWS(k, sid).0.phase == k.phase && PlotWS(k, sid).0.queue == k.queue
  {
    assert IndexLive(k, Registered, sid);
    SameIndexLive(k, PlotWS(k, sid).0);
    assert k.popped.Some? && k.phase in {Held, Busy} ==> Pending(k, k.popped.value);
  }

  lemma MineLive(k: Keeper, sid: Sid)
    requires Live(k)
    ensures Live(MineWS(k, sid).0) && MineWS(k, sid).0.phase == k.phase && MineWS(k, sid).0.queue == k.queue
  {
    assert IndexLive(k, Registered, sid) && IndexLive(k, Ready, sid);
    var k' := MineWS(k, sid).0;
    assert k.popped.Some? && k.phase in {Held, Busy} ==> Pending(k, k.popped.value);
    if sid in k.index.ready && k'.index != k.index {
      MoveLive(k, sid, k.index.ready[sid], Ready, Mining);
      hide Move;
      assert k' == Move(k, sid, k.index.ready[sid], Ready, Mining);
    } else {
      SameIndexLive(k, k');
    }
  }

  lemma StopLive(k: Keeper, sid: Sid)
    requires Live(k)
    ensures Live(StopWS(k, sid).0) && StopWS(k, sid).0.phase == k.phase
  {
    var k1, k' := k.(queue := WithoutSid(k, k.queue, sid)), StopWS(k, sid).0;
    SameIndexLive(k, k1);
    assert Live(k1) && IndexLive(k1, Mining, sid);
    assert k.popped.Some? && k.phase in {Held, Busy} ==> Pending(k, k.popped.value);
    if sid in k.index.mining && k'.index != k.index {
      MoveLive(k1, sid, k.index.mining[sid], Mining, Ready);
      hide Move;
      assert k' == Move(k1, sid, k.index.mining[sid], Mining, Ready);
    } else {
      SameIndexLive(k1, k');
    }
  }

  lemma RemoveLive(k: Keeper, sid: Sid)
    requires Live(k)
    ensures Live(RemoveWS(k, sid).0) && RemoveWS(k, sid).0.phase == k.phase
  {
    hide DeleteFromSlice;
    SameIndexLive(k, RemoveWS(k, sid).0);
  }

  lemma DeleteLive(k: Keeper, sid: Sid)
    requires Live(k)
    ensures Live(DeleteWS(k, sid).0) && DeleteWS(k, sid).0.phase == k.phase
  {
    hide DeleteFromSlice;
    var k' := DeleteWS(k, sid).0;
    assert IndexLive(k, Registered, sid) && IndexLive(k, Ready, sid);
    var r := Still(k, sid);
    if r.Some? && k'.all != k.all {
      Unindexed(k, sid, k.heap[r.value].state);
      hide WithoutSid;
      SameIndexLive(Unindex(k, sid, k.heap[r.value].state), k');
    } else {
      SameIndexLive(k, k');
    }
  }

  lemma Unindexed(k: Keeper, sid: Sid, s: State)
    requires forall s, x :: IndexLive(k, s, x)
    ensures forall t, x :: IndexLive(Unindex(k, sid, s), t, x)
  {
    forall t, x ensures IndexLive(Unindex(k, sid, s), t, x) {
      assert IndexLive(k, t, x);
    }
  }

  lemma CallLive(k: Keeper, a: Action)
    requires Live(k) && IsCall(a)
    ensures Live(Apply(k, a).0) && Apply(k, a).0.phase == k.phase
    ensures a.ActPlot? || a.ActMine? ==> Apply(k, a).0.queue == k.queue
  {
    hide Live, PlotWS, MineWS, StopWS, RemoveWS, DeleteWS;
    match a
    case ActPlot(sid) => PlotLive(k, sid);
    case ActMine(sid) => MineLive(k, sid);
    case ActStop(sid) => StopLive(k, sid);
    case ActRemove(sid) => RemoveLive(k, sid);
    case ActDelete(sid) => DeleteLive(k, sid);
  }

  ghost predicate IsCall(a: Action) {
    a.ActPlot? || a.ActMine? || a.ActStop? || a.ActRemove? || a.ActDelete?
  }

  lemma PlotStepLive(k: Keeper, a: Action)
    requires Live(k) && Enabled(k, a) && (a.Begin? || a.End?)
    ensures Live(Apply(k, a).0) && Apply(k, a).0.phase != Panicked
  {
    var k' := Apply(k, a).0;
    assert Pending(k, k.popped.value);
    forall s, x ensures IndexLive(k', s, x) {
      assert IndexLive(k, s, x);
    }
  }

  lemma ConfigureLive(k: Keeper, flags: set<State>, order: seq<Ref>, execPlot: bool, execMine: bool)
    requires Live(k) && Enumerates(k, flags, order)
    ensures Live(Configure(k, order, execPlot, execMine).0)
  {
    var k' := Configure(k, order, execPlot, execMine).0;
    SameIndexLive(k, k');
    forall e | e in k'.queue && e !in k.queue ensures e.ws in k'.heap {
      assert e.ws in order;
      var sid, s :| s in flags && sid in k.index.At(s) && k.index.At(s)[sid] == e.ws;
      assert IndexLive(k, s, sid);
    }
  }

  lemma OtherLive(k: Keeper, a: Action)
    requires Live(k) && Enabled(k, a) && !IsCall(a) && !a.Begin? && !a.End? && !a.ActConfigure?
    ensures Live(Apply(k, a).0)
  {
    var k' := Apply(k, a).0;
    forall s, x ensures IndexLive(k', s, x) {
      assert IndexLive(k, s, x);
    }
    forall e | Pending(k', e) ensures Pending(k, e) {}
  }

  lemma StepLive(k: Keeper, a: Action)
    requires Live(k) && Enabled(k, a)
    ensures Live(Apply(k, a).0)
  {
    hide Live;
    if IsCall(a) {
      CallLive(k, a);
    } else if a.Begin? || a.End? {
      PlotStepLive(k, a);
    } else if a.ActConfigure? {
      ConfigureLive(k, a.flags, a.order, a.execPlot, a.execMine);
    } else {
      OtherLive(k, a);
    }
  }

  lemma {:induction false} AlwaysLive(ks: seq<Keeper>, acts: seq<Action>, n: nat)
    requires IsRun(ks, acts) && n < |ks|
    ensures Live(ks[n])
  {
    if n > 0 {
      hide Live, Enabled, Apply;
      AlwaysLive(ks, acts, n - 1);
      assert Step(ks[n - 1], acts[n - 1], ks[n]);
      StepLive(ks[n - 1], acts[n - 1]);
    }
  }

  // The failing pop

  ghost predicate Dequeues(a: Action) {
    a.ActStop? || a.ActRemove? || a.ActDelete?
  }

  /** The only way into the failed state is a pop of an empty queue. */
  lemma PanicStep(k: Keeper, a: Action)
    requires Live(k) && Enabled(k, a) && k.phase != Panicked
    ensures Apply(k, a).0.phase == Panicked <==> a.PopEntry? && k.queue == []
  {
    hide Live;
    if IsCall(a) {
      CallLive(k, a);
    } else if a.Begin? || a.End? {
      PlotStepLive(k, a);
    }
  }

  /** While the plotter stands between its test and its pop, only these calls take entries away. */
  lemma CheckedStep(k: Keeper, a: Action)
    requires Live(k) && Enabled(k, a)
    ensures Apply(k, a).0.phase == Checked ==> (k.phase == Checked && !a.CheckQueue?) || (a == CheckQueue && Apply(k, a).0.queue != [])
    ensures k.phase == Checked && Apply(k, a).0.phase == Checked && !Dequeues(a) ==> Apply(k, a).0.queue == k.queue
  {
    hide Live;
    if IsCall(a) {
      CallLive(k, a);
    }
  }

  /** Action `c` found the queue non-empty, the plotter has stood before its pop ever since, and call `d`
      took the last entry. */
  ghost predicate EmptiedBetween(ks: seq<Keeper>, acts: seq<Action>, c: nat, d: nat, p: nat)
    requires |ks| == |acts| + 1
  {
    && c < d < p < |ks| && acts[c] == CheckQueue && ks[c + 1].queue != []
    && (forall j :: c < j <= p ==> ks[j].phase == Checked)
    && Dequeues(acts[d]) && ks[d].queue != [] && (forall j :: d < j <= p ==> ks[j].queue == [])
  }

  /** Where the last test of the queue was. */
  lemma {:induction false} LastCheck(ks: seq<Keeper>, acts: seq<Action>, p: nat) returns (c: nat)
    requires IsRun(ks, acts) && p < |ks| && ks[p].phase == Checked
    ensures c < p && acts[c] == CheckQueue && ks[c + 1].queue != [] && forall j :: c < j <= p ==> ks[j].phase == Checked
  {
    hide Apply, Enabled;
    if p > 0 {
      AlwaysLive(ks, acts, p - 1);
      assert Step(ks[p - 1], acts[p - 1], ks[p]);
      CheckedStep(ks[p - 1], acts[p - 1]);
      if acts[p - 1] == CheckQueue {
        c := p - 1;
      } else {
        c := LastCheck(ks, acts, p - 1);
      }
    }
  }

  lemma {:induction false} LastEntryTaken(ks: seq<Keeper>, acts: seq<Action>, c: nat, p: nat) returns (d: nat)
    requires IsRun(ks, acts) && c < p < |ks| && ks[c + 1].queue != [] && ks[p].queue == []
    requires forall j :: c < j <= p ==> ks[j].phase == Checked
    ensures c < d < p && Dequeues(acts[d]) && ks[d].queue != [] && forall j :: d < j <= p ==> ks[j].queue == []
    decreases p
  {
    hide Apply, Enabled;
    AlwaysLive(ks, acts, p - 1);
    assert Step(ks[p - 1], acts[p - 1], ks[p]);
    if ks[p - 1].queue == [] {
      d := LastEntryTaken(ks, acts, c, p - 1);
    } else {
      d := p - 1;
      CheckedStep(ks[d], acts[d]);
    }
  }

  /** In every run a pop fails exactly when Stop, Remove or Delete took the last entry after the plotter
      had found the queue non-empty. */
  lemma PopFailsOnlyAfterDequeue(ks: seq<Keeper>, acts: seq<Action>, p: nat)
    requires IsRun(ks, acts) && p < |acts| && acts[p].PopEntry?
    ensures ks[p + 1].phase == Panicked <==> exists c, d :: EmptiedBetween(ks, acts, c, d, p)
  {
    assert Step(ks[p], acts[p], ks[p + 1]);
    AlwaysLive(ks, acts, p);
    PanicStep(ks[p], acts[p]);
    if ks[p].queue == [] {
      hide Apply, Enabled, IsRun;
      assert IsRun(ks, acts);
      var c := LastCheck(ks, acts, p);
      var d := LastEntryTaken(ks, acts, c, p);
      assert EmptiedBetween(ks, acts, c, d, p);
    }
  }

  /** Nothing else makes the plotter fail. */
  lemma {:induction false} OnlyPopsFail(ks: seq<Keeper>, acts: seq<Action>, n: nat) returns (p: nat)
    requires IsRun(ks, acts) && n < |ks| && ks[n].phase == Panicked
    ensures p < n && acts[p].PopEntry? && ks[p].phase == Checked && ks[p].queue == [] && ks[p + 1].phase == Panicked
  {
    hide Apply;
    if n > 0 {
      AlwaysLive(ks, acts, n - 1);
      assert Step(ks[n - 1], acts[n - 1], ks[n]);
      if ks[n - 1].phase == Panicked {
        p := OnlyPopsFail(ks, acts, n - 1);
      } else {
        PanicStep(ks[n - 1], acts[n - 1]);
        p := n - 1;
      }
    }
  }

  /** A run that fails, from the only state new workspaces have: one Ready workspace is queued for mining
      and stopped between the test and the pop. */
  lemma PopCanFail() returns (ks: seq<Keeper>, acts: seq<Action>)
    ensures IsRun(ks, acts) && ks[|acts|].phase == Panicked
  {
    hide Step;
    var k2 := FirstQueued();
    var k4 := k2.(phase := Checked);
    var k5 := k4.(queue := []);
    acts := [ActAdd(0, "a", Ready), ActConfigure({Ready}, [0], false, true), Start, CheckQueue, ActStop("a"), PopEntry(0)];
    ks := [EMPTY, AddWorkSpace(EMPTY, 0, "a", Ready), k2, k2.(phase := Idle), k4, k5, k5.(phase := Panicked)];
    StartAndCheck(k2);
    StopAndPop(k4, k5);
  }

  /** One Ready workspace, configured for mining. */
  lemma FirstQueued() returns (k: Keeper)
    ensures k == EMPTY.(heap := map[0 := WorkSpace("a", Ready, true)], all := map["a" := 0],
                        index := EMPTY.index.(ready := map["a" := 0]), list := [0], queue := [Entry(0, true)])
    ensures Step(EMPTY, ActAdd(0, "a", Ready), AddWorkSpace(EMPTY, 0, "a", Ready))
    ensures Step(AddWorkSpace(EMPTY, 0, "a", Ready), ActConfigure({Ready}, [0], false, true), k)
  {
    var k1 := AddWorkSpace(EMPTY, 0, "a", Ready);
    assert k1 == EMPTY.(heap := map[0 := WorkSpace("a", Ready, false)], all := map["a" := 0],
                        index := EMPTY.index.(ready := map["a" := 0]));
    k := k1.(heap := map[0 := WorkSpace("a", Ready, true)], list := [0], queue := [Entry(0, true)]);
    OneSelected(k1);
    assert MarkUsing(ClearUsing(k1.heap, []), [0]) == k.heap;
    assert Entries([0], true) == k.queue;
  }

  lemma StartAndCheck(k: Keeper)
    requires k.phase == Stopped && k.queue != []
    ensures Step(k, Start, k.(phase := Idle)) && Step(k.(phase := Idle), CheckQueue, k.(phase := Checked))
  {
  }

  lemma StopAndPop(k: Keeper, k': Keeper)
    requires k.phase == Checked && k.queue == [Entry(0, true)] && k' == k.(queue := [])
    requires InUse(k, "a") && SidOf(k, 0) == Some("a") && k.index.plotting == map[] && k.index.mining == map[]
    ensures Step(k, ActStop("a"), k') && Step(k', PopEntry(0), k'.(phase := Panicked))
  {
    assert WithoutSid(k, k.queue, "a") == [];
  }

  lemma OneSelected(k: Keeper)
    requires k.index.ready == map["a" := 0]
    ensures Enumerates(k, {Ready}, [0])
  {
    assert "a" in k.index.At(Ready) && k.index.At(Ready)["a"] == 0;
    forall r ensures r in [0] <==> Selected(k, {Ready}, r) {
      if Selected(k, {Ready}, r) {
        var sid, s :| s in {Ready} && sid in k.index.At(s) && k.index.At(s)[sid] == r;
      }
    }
  }

  // A sid that comes back while the plotter holds an entry for it

  /** Does the plotter move an object it should leave alone? A held entry acts on the re-added sid's
      index place if that is Registered, or Ready with the entry bound for mining. */
  ghost predicate HitsReAdded(k: Keeper, sid: Sid, s: State) {
    && k.popped.Some? && SidOf(k, k.popped.value.ws) == Some(sid)
    && (s == Registered || (s == Ready && k.popped.value.wouldMining))
  }

  /** With a sid added while an entry is held, the plotter's next critical section leaves the index in
      agreement exactly when it does not act on the added sid. */
  lemma ReAddAgreesIff(k: Keeper, r: Ref, sid: Sid, s: State)
    requires Inv(k) && k.phase == Held && r !in k.heap && sid !in k.all && s != Plotting
    ensures Partitioned(BeginPlot(AddWorkSpace(k, r, sid, s))) <==> !HitsReAdded(k, sid, s)
  {
    var e := k.popped.value;
    assert Pending(k, e) && Fresh(k, e);
    var k1 := AddWorkSpace(k, r, sid, s);
    var k2 := BeginPlot(k1);
    AddPartition(k, r, sid, s);
    if HitsReAdded(k, sid, s) {
      var to := if s == Registered then Plotting else Mining;
      NotIndexed(k, sid);
      assert sid in k2.index.At(to) && k2.index.At(to)[sid] == e.ws && k2.all[sid] == r && k2.heap[r].state == s;
      assert !Agrees(k2, to, sid);
    } else if SidOf(k, e.ws) == Some(sid) {
      WhereItIs(k1, sid);
      SamePartition(k1, k2);
    } else {
      OtherEntryKeeps(k1);
    }
  }

  lemma OtherEntryKeeps(k: Keeper)
    requires Partitioned(k) && k.popped.Some? && Fresh(k, k.popped.value)
    ensures Partitioned(BeginPlot(k))
  {
    var e, k' := k.popped.value, BeginPlot(k);
    var x := k.heap[e.ws].sid;
    if x in k.all {
      WhereItIs(k, x);
      if x in k.index.registered {
        MovePartition(k, x, Registered, Plotting);
        SamePartition(Move(k, x, e.ws, Registered, Plotting), k');
      } else if x in k.index.ready && e.wouldMining {
        MovePartition(k, x, Ready, Mining);
        SamePartition(Move(k, x, e.ws, Ready, Mining), k');
      } else {
        SamePartition(k, k');
      }
    } else {
      NotIndexed(k, x);
      SamePartition(k, k');
    }
  }

  /** A run that ends with the index in disagreement: a Ready workspace is popped for mining, deleted, and
      added again as a new object. */
  lemma ReAddCanBreakTheIndex() returns (ks: seq<Keeper>, acts: seq<Action>)
    ensures IsRun(ks, acts) && !Partitioned(ks[|acts|])
  {
    hide Step;
    var k2 := FirstQueued();
    var k4 := k2.(phase := Checked);
    var k5 := k4.(queue := [], popped := Some(Entry(0, true)), phase := Held);
    var k6 := k5.(heap := map[0 := WorkSpace("a", Ready, false)], all := map[], index := EMPTY.index, list := []);
    var k7 := AddWorkSpace(k6, 1, "a", Ready);
    var k8 := BeginPlot(k7);
    AddAndBegin(k6);
    hide AddWorkSpace, BeginPlot;
    acts := [ActAdd(0, "a", Ready), ActConfigure({Ready}, [0], false, true), Start, CheckQueue, PopEntry(0), ActDelete("a"), ActAdd(1, "a", Ready), Begin];
    ks := [EMPTY, AddWorkSpace(EMPTY, 0, "a", Ready), k2, k2.(phase := Idle), k4, k5, k6, k7, k8];
    StartAndCheck(k2);
    PopAndDelete(k4, k5, k6);
  }

  lemma PopAndDelete(k: Keeper, k1: Keeper, k2: Keeper)
    requires k.phase == Checked && k.queue == [Entry(0, true)] && k.heap == map[0 := WorkSpace("a", Ready, true)] && k.all == map["a" := 0]
    requires k.index == EMPTY.index.(ready := map["a" := 0]) && k.list == [0]
    requires k1 == k.(queue := [], popped := Some(Entry(0, true)), phase := Held)
    requires k2 == k1.(heap := map[0 := WorkSpace("a", Ready, false)], all := map[], index := EMPTY.index, list := [])
    ensures Step(k, PopEntry(0), k1) && Step(k1, ActDelete("a"), k2)
  {
    assert WithoutSid(k1, [], "a") == [];
    assert DeleteFromSlice(k1, [0], "a") == [];
    assert map["a" := 0] - {"a"} == map[];
  }

  lemma AddAndBegin(k: Keeper)
    requires k.phase == Held && k.popped == Some(Entry(0, true)) && k.heap == map[0 := WorkSpace("a", Ready, false)]
    requires k.all == map[] && k.index == EMPTY.index
    ensures var k1 := AddWorkSpace(k, 1, "a", Ready);
      Step(k, ActAdd(1, "a", Ready), k1) && Step(k1, Begin, BeginPlot(k1)) && !Partitioned(BeginPlot(k1))
  {
    assert !Agrees(BeginPlot(AddWorkSpace(k, 1, "a", Ready)), Mining, "a");
  }
}
