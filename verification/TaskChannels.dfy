/** Task channels of a LocalSuperior: every goroutine may add a task, remove one (also twice) or
    submit a report, and the cache lock is all that keeps a report off a closed channel. A step is
    what a goroutine does between two points where another one may run; a submitter that waits for
    room in the channel waits with the lock held. */
module TaskChannels {
  import opened Common

  type TaskId = nat
  type CollectorId = nat
  type Chan = nat

  datatype MsgType = Qualities | Proof | Signature

  datatype Report = Report(id: TaskId, typ: MsgType, body: string)

  /** CollectorMsg */
  datatype Tagged = Tagged(cid: CollectorId, msg: Report)

  /** A Go channel: everything ever sent on it, and how much of that has been received. */
  datatype Channel = Channel(open: bool, sent: seq<Tagged>, taken: nat)

  const CAPACITY := 10

  /** Who holds taskCacheLock, and how far it is. */
  datatype Lock = Free | Submitting(ch: Chan, m: Tagged) | Closing(t: TaskId, ch: Chan) | Deleting(t: TaskId)

  /** `owner` and `reports` are histories: the task each channel was made for, and every report handed
      to the superior with the id of the child that handed it over. */
  datatype System = System(
    cache: map<TaskId, Chan>,
    chans: map<Chan, Channel>,
    lock: Lock,
    panicked: bool,
    owner: map<Chan, TaskId>,
    reports: set<Tagged>)

  const INIT := System(map[], map[], Free, false, map[], {})

  datatype Action =
    | AddTask(t: TaskId, ch: Chan, evicted: set<TaskId>)
    | BeginRemove(t: TaskId) | CloseChannel | DeleteEntry
    | BeginSubmit(handler: MsgType, m: Tagged) | SendReport | GiveUp
    | Receive(ch: Chan)

  ghost predicate Enabled(s: System, a: Action) {
    match a
    case AddTask(t, ch, evicted) => s.lock.Free? && ch !in s.chans && t !in evicted
    case BeginRemove(t) => s.lock.Free?
    case CloseChannel => s.lock.Closing?
    case DeleteEntry => s.lock.Deleting?
    case BeginSubmit(_, _) => s.lock.Free?
    case SendReport => s.lock.Submitting? && s.lock.ch in s.chans &&
      (s.chans[s.lock.ch].open ==> |s.chans[s.lock.ch].sent| - s.chans[s.lock.ch].taken < CAPACITY)
    case GiveUp => s.lock.Submitting?
    case Receive(ch) => ch in s.chans && s.chans[ch].taken < |s.chans[ch].sent|
  }

  /** A send on a closed channel and a second close both panic. */
  ghost function Apply(s: System, a: Action): System
    requires Enabled(s, a)
  {
    match a
    case AddTask(t, ch, evicted) =>
      s.(cache := (s.cache - evicted)[t := ch], chans := s.chans[ch := Channel(true, [], 0)], owner := s.owner[ch := t])
    case BeginRemove(t) => if t in s.cache then s.(lock := Closing(t, s.cache[t])) else s
    case CloseChannel =>
      var ch := s.lock.ch;
      if ch in s.chans && s.chans[ch].open
      then s.(chans := s.chans[ch := s.chans[ch].(open := false)], lock := Deleting(s.lock.t))
      else s.(panicked := true, lock := Free)
    case DeleteEntry => s.(cache := s.cache - {s.lock.t}, lock := Free)
    case BeginSubmit(handler, m) =>
      var s' := s.(reports := s.reports + {m});
      if m.msg.typ == handler && m.msg.id in s.cache then s'.(lock := Submitting(s.cache[m.msg.id], m)) else s'
    case SendReport =>
      var ch := s.lock.ch;
      if s.chans[ch].open
      then s.(chans := s.chans[ch := s.chans[ch].(sent := s.chans[ch].sent + [s.lock.m])], lock := Free)
      else s.(panicked := true, lock := Free)
    case GiveUp => s.(lock := Free)
    case Receive(ch) => s.(chans := s.chans[ch := s.chans[ch].(taken := s.chans[ch].taken + 1)])
  }

  ghost predicate IsRun(ss: seq<System>, acts: seq<Action>) {
    && |ss| == |acts| + 1 && ss[0] == INIT
    && forall i :: 0 <= i < |acts| ==> Enabled(ss[i], acts[i]) && ss[i + 1] == Apply(ss[i], acts[i])
  }

  /** What was received on a channel so far. */
  ghost function Received(s: System, ch: Chan): seq<Tagged>
    requires ch in s.chans && s.chans[ch].taken <= |s.chans[ch].sent|
  {
    s.chans[ch].sent[..s.chans[ch].taken]
  }

  // The invariant

  /** A cached channel was made for its task, and only a remover about to drop it has closed it. */
  ghost predicate CachedInv(s: System, t: TaskId) {
    t in s.cache ==>
      && s.cache[t] in s.chans && s.cache[t] in s.owner && s.owner[s.cache[t]] == t
      && (s.chans[s.cache[t]].open <==> s.lock != Deleting(t))
  }

  ghost predicate Belongs(s: System, ch: Chan, m: Tagged) {
    ch in s.owner && m.msg.id == s.owner[ch] && m in s.reports
  }

  ghost predicate ChanInv(s: System, ch: Chan) {
    ch in s.chans ==>
      && s.chans[ch].taken <= |s.chans[ch].sent| <= s.chans[ch].taken + CAPACITY
      && forall i :: 0 <= i < |s.chans[ch].sent| ==> Belongs(s, ch, s.chans[ch].sent[i])
  }

  ghost predicate LockInv(s: System) {
    match s.lock
    case Free => true
    case Submitting(ch, m) => m in s.reports && m.msg.id in s.cache && s.cache[m.msg.id] == ch
    case Closing(t, ch) => t in s.cache && s.cache[t] == ch
    case Deleting(t) => t in s.cache
  }

  ghost predicate Inv(s: System) {
    && !s.panicked && LockInv(s)
    && s.owner.Keys == s.chans.Keys
    && (forall t :: CachedInv(s, t))
    && (forall ch :: ChanInv(s, ch))
  }

  lemma StepKeeps(s: System, a: Action)
    requires Inv(s) && Enabled(s, a)
    ensures Inv(Apply(s, a))
  {
    var s' := Apply(s, a);
    match s.lock {
      case Free =>
      case Submitting(_, m) => assert CachedInv(s, m.msg.id);
      case Closing(t, _) => assert CachedInv(s, t);
      case Deleting(t) => assert CachedInv(s, t);
    }
    forall t ensures CachedInv(s', t) {
      assert CachedInv(s, t);
    }
    forall ch ensures ChanInv(s', ch) {
      assert ChanInv(s, ch);
      if ch in s.chans {
        forall m | Belongs(s, ch, m) ensures Belongs(s', ch, m) {}
      }
    }
  }

  lemma {:induction false} EveryRunKeeps(ss: seq<System>, acts: seq<Action>, n: nat)
    requires IsRun(ss, acts) && n < |ss|
    ensures Inv(ss[n])
  {
    if n == 0 {
      assert forall t :: CachedInv(INIT, t);
    } else {
      hide Inv;
      EveryRunKeeps(ss, acts, n - 1);
      StepKeeps(ss[n - 1], acts[n - 1]);
    }
  }

  /** The main result: in every interleaving nothing is sent on a closed channel and no channel is
      closed twice, and whatever is received on the channel AddTask(t) returned carries the id t and
      the id of a child that reported exactly that message. */
  lemma TaskChannelsAreSafe(ss: seq<System>, acts: seq<Action>, i: nat, n: nat)
    requires IsRun(ss, acts) && i < n < |ss| && acts[i].AddTask?
    ensures !ss[n].panicked
    ensures var ch := acts[i].ch;
      && ch in ss[n].chans && ss[n].chans[ch].taken <= |ss[n].chans[ch].sent|
      && forall m :: m in Received(ss[n], ch) ==> m.msg.id == acts[i].t && m in ss[n].reports
  {
    EveryRunKeeps(ss, acts, n);
    OwnerStays(ss, acts, i, n);
    assert ChanInv(ss[n], acts[i].ch);
    forall m | m in Received(ss[n], acts[i].ch) ensures Belongs(ss[n], acts[i].ch, m) {
      var j :| 0 <= j < |Received(ss[n], acts[i].ch)| && Received(ss[n], acts[i].ch)[j] == m;
      assert m == ss[n].chans[acts[i].ch].sent[j];
    }
  }

  lemma StepKeepsOwner(s: System, a: Action, ch: Chan)
    requires Enabled(s, a) && ch in s.chans && ch in s.owner
    ensures var s' := Apply(s, a); ch in s'.chans && ch in s'.owner && s'.owner[ch] == s.owner[ch]
  {
  }

  lemma {:induction false} OwnerStays(ss: seq<System>, acts: seq<Action>, i: nat, n: nat)
    requires IsRun(ss, acts) && i < n < |ss| && acts[i].AddTask?
    ensures acts[i].ch in ss[n].chans && acts[i].ch in ss[n].owner && ss[n].owner[acts[i].ch] == acts[i].t
  {
    if n > i + 1 {
      hide Apply, Enabled;
      OwnerStays(ss, acts, i, n - 1);
      StepKeepsOwner(ss[n - 1], acts[n - 1], acts[i].ch);
    }
  }

  /** What one call does when nothing comes in between. A report of the handler's own type for a cached task
      goes to that task's channel, if it has room, and nowhere else; any other is dropped. */
  lemma SubmitIs(s: System, handler: MsgType, m: Tagged)
    requires Inv(s) && s.lock.Free?
    ensures var s1 := Apply(s, BeginSubmit(handler, m));
      if m.msg.typ != handler || m.msg.id !in s.cache then s1 == s.(reports := s.reports + {m})
      else Delivers(s, s1, s.cache[m.msg.id], m)
  {
    if m.msg.id in s.cache {
      assert CachedInv(s, m.msg.id);
    }
  }

  ghost predicate Delivers(s: System, s1: System, ch: Chan, m: Tagged) {
    && ch in s.chans
    && (Enabled(s1, SendReport) <==> |s.chans[ch].sent| - s.chans[ch].taken < 10)
    && Enabled(s1, GiveUp) && Apply(s1, GiveUp) == s.(reports := s.reports + {m})
    && var more := Channel(true, s.chans[ch].sent + [m], s.chans[ch].taken);
    && (Enabled(s1, SendReport) ==> Apply(s1, SendReport) == s.(chans := s.chans[ch := more], reports := s.reports + {m}))
  }

  /** The reader of a channel gets the messages in the order they were sent, each once. */
  lemma ReceiveIs(s: System, ch: Chan)
    requires Inv(s) && Enabled(s, Receive(ch))
    ensures var s' := Apply(s, Receive(ch));
      && ch in s'.chans && s'.chans[ch].taken <= |s'.chans[ch].sent|
      && Received(s', ch) == Received(s, ch) + [s.chans[ch].sent[|Received(s, ch)|]] && s'.chans - {ch} == s.chans - {ch}
  {
  }

  /** A removal, undisturbed: it closes the task's channel and drops the task, and leaves all others. */
  lemma RemoveIs(s: System, t: TaskId)
    requires Inv(s) && s.lock.Free?
    ensures var s1 := Apply(s, BeginRemove(t));
      if t !in s.cache then s1 == s
      else
        && Enabled(s1, CloseChannel) && Enabled(Apply(s1, CloseChannel), DeleteEntry) && s.cache[t] in s.chans
        && Apply(Apply(s1, CloseChannel), DeleteEntry) ==
           s.(cache := s.cache - {t}, chans := s.chans[s.cache[t] := s.chans[s.cache[t]].(open := false)])
  {
    assert CachedInv(s, t);
  }

  lemma StepKeepsClosed(s: System, a: Action, ch: Chan)
    requires Inv(s) && Enabled(s, a) && ch in s.chans && !s.chans[ch].open
    ensures var s' := Apply(s, a); ch in s'.chans && !s'.chans[ch].open && s'.chans[ch].sent == s.chans[ch].sent
  {
    if s.lock.Submitting? {
      assert CachedInv(s, s.lock.m.msg.id);
    }
  }

  /** Once RemoveTask has closed a channel, what its reader can still receive is settled. */
  lemma {:induction false} ClosedIsFinal(ss: seq<System>, acts: seq<Action>, ch: Chan, i: nat, n: nat)
    requires IsRun(ss, acts) && i <= n < |ss| && ch in ss[i].chans && !ss[i].chans[ch].open
    ensures ch in ss[n].chans && !ss[n].chans[ch].open && ss[n].chans[ch].sent == ss[i].chans[ch].sent
  {
    hide Apply, Enabled, Inv;
    if n > i {
      ClosedIsFinal(ss, acts, ch, i, n - 1);
      EveryRunKeeps(ss, acts, n - 1);
      StepKeepsClosed(ss[n - 1], acts[n - 1], ch);
    }
  }
}

/** The object itself: LocalSuperior's critical sections on a heap of channels. Sending on and closing
    a channel demand that it is open, so a body that verifies cannot panic. */
module LocalSuperior {
  import opened Common
  import opened TaskChannels

  class GoChannel {
    var open: bool
    var sent: seq<Tagged>

    constructor ()
      ensures open && sent == []
    {
      open, sent := true, [];
    }

    method Send(m: Tagged)
      requires open
      modifies this
      ensures open && sent == old(sent) + [m]
    {
      sent := sent + [m];
    }

    method Close()
      requires open
      modifies this
      ensures !open && sent == old(sent)
    {
      open := false;
    }
  }

  datatype SubmitResult = Submitted | UnexpectedType | ContextDone

  class LocalSuperior {
    var taskCache: map<TaskId, GoChannel>
    /** The latest qualities task; nil is None. */
    var latestTask: Option<TaskId>
    /** The requests issued to each subscribed collector. */
    var collectors: map<CollectorId, seq<TaskId>>

    /** No subscribed collector has missed the latest qualities task. */
    ghost predicate Served()
      reads this
    {
      latestTask.Some? ==> forall c :: c in collectors ==> latestTask.value in collectors[c]
    }

    /** Every cached channel is open and serves one task, whose id all its messages carry, and every
        subscribed collector has the latest task. */
    ghost predicate Valid()
      reads this, taskCache.Values
    {
      && Served()
      && (forall t :: t in taskCache ==> taskCache[t].open)
      && (forall t, t' :: t in taskCache && t' in taskCache && taskCache[t] == taskCache[t'] ==> t == t')
      && (forall t, i :: t in taskCache && 0 <= i < |taskCache[t].sent| ==> taskCache[t].sent[i].msg.id == t)
    }

    constructor ()
      ensures Valid() && taskCache == map[] && latestTask == None && collectors == map[]
    {
      taskCache, latestTask, collectors := map[], None, map[];
    }

    /** A collector that is not subscribed is skipped; no collector loses a request or is disturbed by one
        meant for another. */
    method Send(c: CollectorId, id: TaskId)
      modifies this`collectors
      ensures collectors.Keys == old(collectors).Keys
      ensures forall d :: d in collectors ==> collectors[d] == old(collectors)[d] + if d == c then [id] else []
      ensures old(Served()) ==> Served()
    {
      if c in collectors {
        collectors := collectors[c := collectors[c] + [id]];
      }
    }

    /** In whatever order the map is walked, every subscribed collector is issued the task once. */
    method Broadcast(id: TaskId)
      modifies this`collectors
      ensures collectors.Keys == old(collectors).Keys
      ensures forall d :: d in collectors ==> collectors[d] == old(collectors)[d] + [id]
      ensures old(Served()) || latestTask == Some(id) ==> Served()
    {
      var left := collectors.Keys;
      while left != {}
        invariant left <= collectors.Keys == old(collectors).Keys
        invariant forall d :: d in collectors ==> collectors[d] == old(collectors)[d] + if d in left then [] else [id]
        decreases |left|
      {
        var c :| c in left;
        Send(c, id);
        left := left - {c};
      }
    }

    /** A late subscriber starts with the latest qualities task, if there is one. */
    method Subscribe(c: CollectorId)
      requires Valid()
      modifies this`collectors
      ensures collectors.Keys == old(collectors).Keys + {c}
      ensures collectors[c] == if latestTask.Some? then [latestTask.value] else []
      ensures forall d :: d in collectors && d != c ==> collectors[d] == old(collectors)[d]
      ensures Valid()
    {
      collectors := collectors[c := []];
      if latestTask.Some? {
        ghost var before := collectors;
        Send(c, latestTask.value);
        assert forall d :: d in collectors && d != c ==> collectors[d] == before[d] + [];
        assert collectors[c] == [latestTask.value];
      }
    }

    /** Afterwards nothing can be issued to it, and the others still have the latest task. */
    method Unsubscribe(c: CollectorId)
      requires Valid()
      modifies this`collectors
      ensures c !in collectors && collectors.Keys == old(collectors).Keys - {c}
      ensures forall d :: d in collectors ==> collectors[d] == old(collectors)[d]
      ensures Valid()
    {
      collectors := collectors - {c};
    }

    /** `target` is None for uuid.Nil, which makes this the latest qualities task. */
    method AddTask(id: TaskId, target: Option<CollectorId>) returns (ch: GoChannel)
      requires Valid()
      modifies this
      ensures Valid() && fresh(ch) && ch.sent == []
      ensures taskCache == old(taskCache)[id := ch]
      ensures latestTask == if target.None? then Some(id) else old(latestTask)
      ensures collectors.Keys == old(collectors).Keys
      ensures forall d :: d in collectors ==>
        collectors[d] == old(collectors)[d] + (if target.None? || target.value == d then [id] else [])
    {
      ch := new GoChannel();
      taskCache := taskCache[id := ch];
      if target.None? {
        latestTask := Some(id);
        Broadcast(id);
      } else {
        Send(target.value, id);
      }
    }

    /** Removing an absent task does nothing, so a second removal closes nothing. */
    method RemoveTask(id: TaskId)
      requires Valid()
      modifies this, taskCache.Values
      ensures Valid() && taskCache == old(taskCache) - {id}
      ensures id in old(taskCache) ==> !old(taskCache)[id].open
      ensures forall ch :: ch in old(taskCache).Values ==> ch.sent == old(ch.sent)
      ensures collectors == old(collectors)
      ensures latestTask == if id in old(taskCache) && old(latestTask) == Some(id) then None else old(latestTask)
    {
      if id !in taskCache {
        return;
      }
      taskCache[id].Close();
      taskCache := taskCache - {id};
      if latestTask == Some(id) {
        latestTask := None;
      }
    }

    /** onTypeMsg and submitCollectorMsg; `cancelled` is which branch of the select ran. */
    method OnTypeMsg(handler: MsgType, cid: CollectorId, msg: Report, cancelled: bool) returns (r: SubmitResult)
      requires Valid()
      modifies taskCache.Values
      ensures Valid()
      ensures r == UnexpectedType <==> msg.typ != handler
      ensures r == ContextDone <==> msg.typ == handler && msg.id in taskCache && cancelled
      ensures forall t :: t in taskCache && t != msg.id ==> taskCache[t].sent == old(taskCache[t].sent)
      ensures msg.id in taskCache ==>
        taskCache[msg.id].sent == old(taskCache[msg.id].sent) + if msg.typ == handler && !cancelled then [Tagged(cid, msg)] else []
    {
      if msg.typ != handler {
        return UnexpectedType;
      }
      if msg.id !in taskCache {
        return Submitted;
      }
      if cancelled {
        return ContextDone;
      }
      taskCache[msg.id].Send(Tagged(cid, msg));
      return Submitted;
    }
  }
}
