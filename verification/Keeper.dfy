/** State of the chia space keeper and the effect of every lock-protected section of it.
    Pointers are explicit: `heap` maps a reference to the WorkSpace object it points to, and the
    index maps, the list, the plotter queue and the hand-off channel hold references. */
module Keeper {
  import opened Common

  type Sid = string
  type Ref = nat

  datatype State = Registered | Plotting | Ready | Mining

  datatype WorkSpace = WorkSpace(sid: Sid, state: State, using: bool)

  /** queuedWorkSpace */
  datatype Entry = Entry(ws: Ref, wouldMining: bool)

  /** The per-state maps of workSpaceIndex. */
  datatype Index = Index(registered: map<Sid, Ref>, plotting: map<Sid, Ref>, ready: map<Sid, Ref>, mining: map<Sid, Ref>) {
    function At(s: State): map<Sid, Ref> {
      match s
      case Registered => registered
      case Plotting => plotting
      case Ready => ready
      case Mining => mining
    }

    function Put(s: State, m: map<Sid, Ref>): Index {
      match s
      case Registered => this.(registered := m)
      case Plotting => this.(plotting := m)
      case Ready => this.(ready := m)
      case Mining => this.(mining := m)
    }
  }

  /** Where the plotter goroutine is. It holds the lock only inside a step, so API calls run
      between any two of its steps. `Checked`: it saw a non-empty queue. `Waiting`: it saw an empty
      one. `Adding`: it is draining the hand-off channel. `Held`: it popped an entry. `Busy`: it
      released the lock to plot. `Panicked`: it popped an empty queue. */
  datatype Phase = Stopped | Idle | Checked | Held | Busy | Waiting | Adding | Panicked

  datatype Keeper = Keeper(
    heap: map<Ref, WorkSpace>,
    all: map<Sid, Ref>,
    index: Index,
    list: seq<Ref>,
    queue: seq<Entry>,
    channel: seq<Entry>,
    popped: Option<Entry>,
    phase: Phase)

  datatype Outcome = Done | ErrDoesNotExist | ErrIsNotPlotting | ErrIsNotStill | ErrIsRunning | ErrConfiguredNothing | NilDereference

  const EMPTY := Keeper(map[], map[], Index(map[], map[], map[], map[]), [], [], [], None, Stopped)

  // Small pieces

  predicate InUse(k: Keeper, sid: Sid) {
    sid in k.all && k.all[sid] in k.heap && k.heap[k.all[sid]].using
  }

  /** changeState: moves object `r` from one state map to another under the key `sid`. */
  function Move(k: Keeper, sid: Sid, r: Ref, from: State, to: State): Keeper
    requires r in k.heap
  {
    var cut := k.index.Put(from, k.index.At(from) - {sid});
    k.(heap := k.heap[r := k.heap[r].(state := to)], index := cut.Put(to, cut.At(to)[sid := r]))
  }

  function SidOf(k: Keeper, r: Ref): Option<Sid> {
    if r in k.heap then Some(k.heap[r].sid) else None
  }

  /** plotterQueue.Delete */
  function WithoutSid(k: Keeper, q: seq<Entry>, sid: Sid): (r: seq<Entry>)
    ensures forall e :: e in r <==> e in q && SidOf(k, e.ws) != Some(sid)
  {
    if q == [] then []
    else if SidOf(k, q[0].ws) == Some(sid) then WithoutSid(k, q[1..], sid)
    else [q[0]] + WithoutSid(k, q[1..], sid)
  }

  /** deleteFromSlice: drops the first element with this sid. */
  function DeleteFromSlice(k: Keeper, src: seq<Ref>, sid: Sid): seq<Ref> {
    if src == [] then []
    else if SidOf(k, src[0]) == Some(sid) then src[1..]
    else [src[0]] + DeleteFromSlice(k, src[1..], sid)
  }

  function SetUsing(k: Keeper, r: Ref, using: bool): Keeper
    requires r in k.heap
  {
    k.(heap := k.heap[r := k.heap[r].(using := using)])
  }

  function Disuse(k: Keeper, r: Ref): Keeper
    requires r in k.heap
  {
    SetUsing(k, r, false).(list := DeleteFromSlice(k, k.list, k.heap[r].sid))
  }

  function SetWouldMining(k: Keeper, b: bool): Keeper
    requires k.popped.Some?
  {
    k.(popped := Some(k.popped.value.(wouldMining := b)))
  }

  /** The shared tail of Plot, Mine and Stop for a plotting workspace. */
  function OnPlotting(k: Keeper, sid: Sid, wouldMining: bool): (Keeper, Outcome) {
    if k.popped.None? then (k, NilDereference)
    else if SidOf(k, k.popped.value.ws) != Some(sid) then (k, ErrIsNotPlotting)
    else (SetWouldMining(k, wouldMining), Done)
  }

  // API calls

  function PlotWS(k: Keeper, sid: Sid): (Keeper, Outcome) {
    if !InUse(k, sid) then (k, ErrDoesNotExist)
    else if sid in k.index.registered then (k.(channel := k.channel + [Entry(k.index.registered[sid], false)]), Done)
    else if sid in k.index.plotting then OnPlotting(k, sid, false)
    else (k, Done)
  }

  function MineWS(k: Keeper, sid: Sid): (Keeper, Outcome) {
    if !InUse(k, sid) then (k, ErrDoesNotExist)
    else if sid in k.index.registered then (k.(channel := k.channel + [Entry(k.index.registered[sid], true)]), Done)
    else if sid in k.index.plotting then OnPlotting(k, sid, true)
    else if sid in k.index.ready && k.index.ready[sid] in k.heap then (Move(k, sid, k.index.ready[sid], Ready, Mining), Done)
    else (k, Done)
  }

  function StopWS(k: Keeper, sid: Sid): (Keeper, Outcome) {
    if !InUse(k, sid) then (k, ErrDoesNotExist)
    else
      var k1 := k.(queue := WithoutSid(k, k.queue, sid));
      if sid in k.index.plotting then OnPlotting(k1, sid, false)
      else if sid in k.index.mining && k.index.mining[sid] in k.heap then (Move(k1, sid, k.index.mining[sid], Mining, Ready), Done)
      else (k1, Done)
  }

  /** Registered first, then Ready: the workspace Remove and Delete may act on. */
  function Still(k: Keeper, sid: Sid): Option<Ref> {
    if sid in k.index.registered then Some(k.index.registered[sid])
    else if sid in k.index.ready then Some(k.index.ready[sid])
    else None
  }

  function RemoveWS(k: Keeper, sid: Sid): (Keeper, Outcome) {
    if !InUse(k, sid) then (k, ErrDoesNotExist)
    else
      var k1 := k.(queue := WithoutSid(k, k.queue, sid));
      match Still(k, sid)
      case None => (k1, ErrIsNotStill)
      case Some(r) => if r in k.heap then (Disuse(k1, r), Done) else (k1, NilDereference)
  }

  function DeleteWS(k: Keeper, sid: Sid): (Keeper, Outcome) {
    if !InUse(k, sid) then (k, ErrDoesNotExist)
    else
      var k1 := k.(queue := WithoutSid(k, k.queue, sid));
      match Still(k, sid)
      case None => (k1, ErrIsNotStill)
      case Some(r) =>
        if r !in k.heap then (k1, NilDereference)
        else
          var s := k.heap[r].state;
          (Disuse(k1.(index := k.index.Put(s, k.index.At(s) - {sid}), all := k.all - {sid}), r), Done)
  }

  /** NewWorkSpace followed by addWorkSpaceToIndex, for a new object `r`. */
  function AddWorkSpace(k: Keeper, r: Ref, sid: Sid, s: State): Keeper
    requires r !in k.heap
  {
    if sid in k.all then k
    else k.(heap := k.heap[r := WorkSpace(sid, s, false)], all := k.all[sid := r],
            index := k.index.Put(s, k.index.At(s)[sid := r]))
  }

  // Configuration

  function ClearUsing(heap: map<Ref, WorkSpace>, list: seq<Ref>): map<Ref, WorkSpace> {
    map r | r in heap :: if r in list then heap[r].(using := false) else heap[r]
  }

  function MarkUsing(heap: map<Ref, WorkSpace>, list: seq<Ref>): map<Ref, WorkSpace> {
    map r | r in heap :: if r in list then heap[r].(using := true) else heap[r]
  }

  /** The objects in the state maps named by `flags`. */
  ghost predicate Selected(k: Keeper, flags: set<State>, r: Ref) {
    exists sid, s :: s in flags && sid in k.index.At(s) && k.index.At(s)[sid] == r
  }

  /** `order` enumerates the selected objects, in whatever order maps and priorities produce. */
  ghost predicate Enumerates(k: Keeper, flags: set<State>, order: seq<Ref>) {
    && (forall i, j :: 0 <= i < j < |order| ==> order[i] != order[j])
    && (forall r :: r in order <==> Selected(k, flags, r))
  }

  function Entries(order: seq<Ref>, wouldMining: bool): (es: seq<Entry>)
    ensures |es| == |order| && forall i :: 0 <= i < |es| ==> es[i] == Entry(order[i], wouldMining)
  {
    seq(|order|, i requires 0 <= i < |order| => Entry(order[i], wouldMining))
  }

  /** ConfigureByFlags with applyConfiguredWorkSpaces. */
  function Configure(k: Keeper, order: seq<Ref>, execPlot: bool, execMine: bool): (Keeper, Outcome) {
    if k.phase != Stopped then (k, ErrIsRunning)
    else if order == [] then (k, ErrConfiguredNothing)
    else (k.(heap := MarkUsing(ClearUsing(k.heap, k.list), order), list := order,
             queue := if execPlot || execMine then Entries(order, execMine) else [], popped := None), Done)
  }

  // Plotter steps

  function RemoveAt(q: seq<Entry>, i: nat): seq<Entry>
    requires i < |q|
  {
    q[..i] + q[i + 1..]
  }

  /** PopItem; which entry has the highest priority is left open. */
  function Pop(k: Keeper, i: nat): Keeper {
    if i < |k.queue| then k.(queue := RemoveAt(k.queue, i), popped := Some(k.queue[i]), phase := Held)
    else k.(phase := Panicked)
  }

  /** plotSpace, step 1. */
  function BeginPlot(k: Keeper): Keeper {
    if k.popped.None? || k.popped.value.ws !in k.heap then k.(phase := Panicked)
    else
      var e := k.popped.value;
      var sid := k.heap[e.ws].sid;
      if sid in k.index.registered then Move(k, sid, e.ws, Registered, Plotting).(phase := Busy)
      else if sid in k.index.ready && e.wouldMining then Move(k, sid, e.ws, Ready, Mining).(phase := Idle)
      else k.(phase := Idle)
  }

  /** plotSpace, step 3. */
  function EndPlot(k: Keeper, complete: bool): Keeper {
    if k.popped.None? || k.popped.value.ws !in k.heap then k.(phase := Panicked)
    else
      var e := k.popped.value;
      var sid := k.heap[e.ws].sid;
      Move(k, sid, e.ws, Plotting, if !complete then Registered else if e.wouldMining then Mining else Ready).(phase := Idle)
  }

  /** One message from the hand-off channel to the queue. */
  function Receive(k: Keeper): Keeper {
    if k.channel == [] then k
    else k.(queue := k.queue + [k.channel[0]], channel := k.channel[1..], phase := Adding)
  }

  function Quit(k: Keeper): Keeper {
    k.(queue := [], popped := None, phase := Stopped)
  }

  // Runs

  datatype Action =
    | ActPlot(sid: Sid) | ActMine(sid: Sid) | ActStop(sid: Sid) | ActRemove(sid: Sid) | ActDelete(sid: Sid)
    | ActAdd(r: Ref, sid: Sid, s: State)
    | ActConfigure(flags: set<State>, order: seq<Ref>, execPlot: bool, execMine: bool)
    | Start | CheckQueue | PopEntry(i: nat) | Begin | End(complete: bool) | ReceiveOne | StopAdding | QuitPlotter

  /** Some entry that the plotter may still act on points to an object named `sid`. */
  ghost predicate Pending(k: Keeper, e: Entry) {
    e in k.queue || e in k.channel || (k.phase in {Held, Busy} && k.popped == Some(e))
  }

  ghost predicate SidPending(k: Keeper, sid: Sid) {
    exists e :: Pending(k, e) && SidOf(k, e.ws) == Some(sid)
  }

  ghost predicate Enabled(k: Keeper, a: Action) {
    match a
    case ActPlot(_) => true
    case ActMine(_) => true
    case ActStop(_) => true
    case ActRemove(_) => true
    case ActDelete(_) => true
    case ActAdd(r, sid, s) => r !in k.heap && s != Plotting
    case ActConfigure(flags, order, _, _) => Enumerates(k, flags, order)
    case Start => k.phase == Stopped
    case CheckQueue => k.phase == Idle
    case PopEntry(i) => k.phase == Checked && (i < |k.queue| || k.queue == [])
    case Begin => k.phase == Held
    case End(_) => k.phase == Busy
    case ReceiveOne => k.phase in {Waiting, Adding} && k.channel != []
    case StopAdding => k.phase == Adding && k.channel == []
    case QuitPlotter => k.phase in {Checked, Waiting}
  }

  function Apply(k: Keeper, a: Action): (Keeper, Outcome)
    requires a.ActAdd? ==> a.r !in k.heap
  {
    match a
    case ActPlot(sid) => PlotWS(k, sid)
    case ActMine(sid) => MineWS(k, sid)
    case ActStop(sid) => StopWS(k, sid)
    case ActRemove(sid) => RemoveWS(k, sid)
    case ActDelete(sid) => DeleteWS(k, sid)
    case ActAdd(r, sid, s) => (AddWorkSpace(k, r, sid, s), Done)
    case ActConfigure(_, order, execPlot, execMine) => Configure(k, order, execPlot, execMine)
    case Start => (k.(phase := Idle), Done)
    case CheckQueue => (k.(phase := if k.queue == [] then Waiting else Checked), Done)
    case PopEntry(i) => (Pop(k, i), Done)
    case Begin => (BeginPlot(k), Done)
    case End(complete) => (EndPlot(k, complete), Done)
    case ReceiveOne => (Receive(k), Done)
    case StopAdding => (k.(phase := Idle), Done)
    case QuitPlotter => (Quit(k), Done)
  }

  /** The step does not put a sid back that the plotter may still act on. */
  ghost predicate NoReAdd(k: Keeper, a: Action) {
    a.ActAdd? ==> a.sid in k.all || !SidPending(k, a.sid)
  }

  ghost predicate Step(k: Keeper, a: Action, k': Keeper) {
    Enabled(k, a) && k' == Apply(k, a).0
  }

  /** A run is a sequence of states joined by enabled steps. */
  ghost predicate IsRun(ks: seq<Keeper>, acts: seq<Action>) {
    && |ks| == |acts| + 1
    && ks[0] == EMPTY
    && forall i :: 0 <= i < |acts| ==> Step(ks[i], acts[i], ks[i + 1])
  }

  // The invariant

  /** What one index entry says: the map for state `s` holds exactly the indexed workspaces in state `s`. */
  ghost predicate Agrees(k: Keeper, s: State, sid: Sid) {
    if sid in k.all && k.all[sid] in k.heap && k.heap[k.all[sid]].state == s
    then sid in k.index.At(s) && k.index.At(s)[sid] == k.all[sid]
    else sid !in k.index.At(s)
  }

  ghost predicate Indexed(k: Keeper, sid: Sid) {
    sid in k.all ==> k.all[sid] in k.heap && k.heap[k.all[sid]].sid == sid
  }

  /** The state maps partition the all-states map and agree with each object's own state. */
  ghost predicate Partitioned(k: Keeper) {
    (forall sid :: Indexed(k, sid)) && (forall s, sid :: Agrees(k, s, sid))
  }

  /** `r` is in the list exactly when it is in use, and then it is the indexed object of its sid. */
  ghost predicate ListedIfUsed(k: Keeper, r: Ref) {
    && (r in k.heap ==> (k.heap[r].using <==> r in k.list))
    && (r in k.list ==> r in k.heap && k.heap[r].sid in k.all && k.all[k.heap[r].sid] == r)
  }

  /** The list has no repetitions and holds exactly the workspaces in use, all of them indexed. */
  ghost predicate ListsUsed(k: Keeper) {
    && (forall r :: ListedIfUsed(k, r))
    && (forall i, j :: 0 <= i < j < |k.list| ==> k.list[i] != k.list[j])
  }

  /** A workspace is plotting only while the plotter is busy, and then it is the popped one. */
  ghost predicate OnePlotting(k: Keeper) {
    && (k.phase == Busy ==>
          && k.popped.Some? && k.popped.value.ws in k.heap
          && k.index.plotting == map[k.heap[k.popped.value.ws].sid := k.popped.value.ws])
    && (k.phase != Busy ==> k.index.plotting == map[])
    && (k.phase == Held ==> k.popped.Some?)
  }

  /** The entry's object is live and, if its sid is indexed, it is the indexed one. */
  ghost predicate Fresh(k: Keeper, e: Entry) {
    e.ws in k.heap && (k.heap[e.ws].sid in k.all ==> k.all[k.heap[e.ws].sid] == e.ws)
  }

  ghost predicate NoStale(k: Keeper) {
    forall e :: Pending(k, e) ==> Fresh(k, e)
  }

  ghost predicate Inv(k: Keeper) {
    Partitioned(k) && ListsUsed(k) && OnePlotting(k) && NoStale(k)
  }
}
