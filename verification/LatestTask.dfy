/** How a superior hands the current qualities task to its collectors. Subscribe inserts the collector
    and only then reads latestTask; AddTask (and the remote requestProcessor) sets latestTask and only
    then broadcasts; RemoveTask checks latestTask twice before it clears it. None of these sequences is
    atomic, so every read and write below is a step of its own. A RemoteSuperior takes the same steps
    without the removals. */
module LatestTask {
  import opened Common

  type TaskId = nat
  type CollectorId = nat

  /** `Inserted`: in the collectors map, latestTask not read yet. `Holding`: read a task, about to send it. */
  datatype SubPc = Inserted | Holding(task: TaskId) | Settled

  /** One subscription and the tasks it has been issued. */
  datatype Sub = Sub(pc: SubPc, issued: set<TaskId>)

  /** RemoveTask runs under taskCacheLock, so there is one remover at a time. `NonNil`: it saw that
      latestTask is not nil. `Matched`: it saw the id it removes. */
  datatype Remover = Idle | Begun(t: TaskId) | NonNil(t: TaskId) | Matched(t: TaskId)

  datatype System = System(
    latest: Option<TaskId>,
    subs: map<CollectorId, Sub>,
    unsent: set<TaskId>,
    added: set<TaskId>,
    remover: Remover,
    nilDereference: bool)

  const INIT := System(None, map[], {}, {}, Idle, false)

  datatype Action =
    | Insert(c: CollectorId) | ReadLatest(c: CollectorId) | SendHeld(c: CollectorId) | Unsubscribe(c: CollectorId)
    | SetLatest(t: TaskId) | Broadcast(t: TaskId)
    | BeginRemove(t: TaskId) | CheckNonNil | CompareId | Clear

  ghost predicate Enabled(s: System, a: Action) {
    match a
    case Insert(c) => c !in s.subs
    case ReadLatest(c) => c in s.subs && s.subs[c].pc == Inserted
    case SendHeld(c) => c in s.subs && s.subs[c].pc.Holding?
    case Unsubscribe(c) => c in s.subs && s.subs[c].pc == Settled
    case SetLatest(t) => t !in s.added
    case Broadcast(t) => t in s.unsent
    case BeginRemove(t) => t in s.added && s.remover.Idle?
    case CheckNonNil => s.remover.Begun?
    case CompareId => s.remover.NonNil?
    case Clear => s.remover.Matched?
  }

  function Issue(sub: Sub, t: TaskId): Sub {
    sub.(issued := sub.issued + {t})
  }

  ghost function Apply(s: System, a: Action): System
    requires Enabled(s, a)
  {
    match a
    case Insert(c) => s.(subs := s.subs[c := Sub(Inserted, {})])
    case ReadLatest(c) => s.(subs := s.subs[c := s.subs[c].(pc := if s.latest.Some? then Holding(s.latest.value) else Settled)])
    case SendHeld(c) => s.(subs := s.subs[c := Issue(s.subs[c], s.subs[c].pc.task).(pc := Settled)])
    case Unsubscribe(c) => s.(subs := s.subs - {c})
    case SetLatest(t) => s.(latest := Some(t), added := s.added + {t}, unsent := s.unsent + {t})
    case Broadcast(t) => s.(subs := map c | c in s.subs :: Issue(s.subs[c], t), unsent := s.unsent - {t})
    case BeginRemove(t) => s.(remover := Begun(t))
    case CheckNonNil => s.(remover := if s.latest.Some? then NonNil(s.remover.t) else Idle)
    case CompareId =>
      if s.latest.None? then s.(nilDereference := true, remover := Idle)
      else s.(remover := if s.latest.value == s.remover.t then Matched(s.remover.t) else Idle)
    case Clear => s.(latest := None, remover := Idle)
  }

  ghost predicate Step(s: System, a: Action, s': System) {
    Enabled(s, a) && s' == Apply(s, a)
  }

  ghost predicate IsRun(ss: seq<System>, acts: seq<Action>) {
    && |ss| == |acts| + 1 && ss[0] == INIT
    && forall i :: 0 <= i < |acts| ==> Step(ss[i], acts[i], ss[i + 1])
  }

  // Facts of every run

  ghost predicate Inv(s: System) {
    && !s.nilDereference
    && (s.remover.NonNil? || s.remover.Matched? ==> s.latest.Some?)
    && (!s.remover.Idle? ==> s.remover.t in s.added)
  }

  lemma {:induction false} EveryRunKeeps(ss: seq<System>, acts: seq<Action>, n: nat)
    requires IsRun(ss, acts) && n < |ss|
    ensures Inv(ss[n])
  {
    if n > 0 {
      EveryRunKeeps(ss, acts, n - 1);
    }
  }

  /** RemoveTask reads latestTask again after its nil check; that read never finds nil. */
  lemma NoNilDereference(ss: seq<System>, acts: seq<Action>, n: nat)
    requires IsRun(ss, acts) && n < |ss|
    ensures !ss[n].nilDereference
  {
    EveryRunKeeps(ss, acts, n);
  }

  // While a task is current

  /** Action `i` makes `t` the current task, and up to state `n` nothing supersedes or removes it. */
  ghost predicate CurrentSince(acts: seq<Action>, i: nat, n: nat, t: TaskId) {
    && i < n <= |acts| && acts[i] == SetLatest(t)
    && forall j :: i < j < n ==> !acts[j].SetLatest? && acts[j] != BeginRemove(t)
  }

  /** The collector has the task, or will get it from the pending broadcast or from its own read. */
  ghost predicate Covered(s: System, c: CollectorId, t: TaskId) {
    c in s.subs ==> t in s.subs[c].issued || t in s.unsent || s.subs[c].pc == Inserted || s.subs[c].pc == Holding(t)
  }

  ghost predicate Safe(s: System, t: TaskId) {
    && s.latest == Some(t)
    && !s.remover.Matched? && (!s.remover.Idle? ==> s.remover.t != t)
    && forall c :: Covered(s, c, t)
  }

  ghost predicate Keeps(a: Action, t: TaskId) {
    !a.SetLatest? && a != BeginRemove(t)
  }

  lemma StepKeepsSafe(s: System, a: Action, t: TaskId)
    requires Safe(s, t) && Enabled(s, a) && Keeps(a, t)
    ensures Safe(Apply(s, a), t)
  {
    forall c ensures Covered(Apply(s, a), c, t) {
      assert Covered(s, c, t);
    }
  }

  lemma {:induction false} SafeWhileCurrent(ss: seq<System>, acts: seq<Action>, i: nat, n: nat, t: TaskId)
    requires IsRun(ss, acts) && CurrentSince(acts, i, n, t) && !ss[i].remover.Matched?
    ensures Safe(ss[n], t)
    decreases n
  {
    if n == i + 1 {
      EveryRunKeeps(ss, acts, i);
    } else {
      SafeWhileCurrent(ss, acts, i, n - 1, t);
      assert Step(ss[n - 1], acts[n - 1], ss[n]);
      StepKeepsSafe(ss[n - 1], acts[n - 1], t);
    }
  }

  /** No lost task: if no removal stood between its comparison and its clearing write when the task was
      set, then however everything else interleaves, a collector whose Subscribe has finished has been
      issued the task as soon as the task's broadcast has run. */
  lemma NoLostTask(ss: seq<System>, acts: seq<Action>, i: nat, n: nat, t: TaskId, c: CollectorId)
    requires IsRun(ss, acts) && CurrentSince(acts, i, n, t) && !ss[i].remover.Matched?
    requires c in ss[n].subs && ss[n].subs[c].pc == Settled && t !in ss[n].unsent
    ensures t in ss[n].subs[c].issued
  {
    SafeWhileCurrent(ss, acts, i, n, t);
    assert Covered(ss[n], c, t);
  }

  /** A RemoteSuperior never removes, so its collectors never lose the current task. */
  lemma {:induction false} WithoutRemovals(ss: seq<System>, acts: seq<Action>, n: nat)
    requires IsRun(ss, acts) && n < |ss| && forall j :: 0 <= j < |acts| ==> !acts[j].BeginRemove?
    ensures ss[n].remover == Idle
  {
    if n > 0 {
      WithoutRemovals(ss, acts, n - 1);
    }
  }

  lemma NoLostTaskRemote(ss: seq<System>, acts: seq<Action>, i: nat, n: nat, t: TaskId, c: CollectorId)
    requires IsRun(ss, acts) && CurrentSince(acts, i, n, t) && forall j :: 0 <= j < |acts| ==> !acts[j].BeginRemove?
    requires c in ss[n].subs && ss[n].subs[c].pc == Settled && t !in ss[n].unsent
    ensures t in ss[n].subs[c].issued
  {
    WithoutRemovals(ss, acts, i);
    NoLostTask(ss, acts, i, n, t, c);
  }

  // An undisturbed removal

  /** RemoveTask with nothing in between: it runs to its end, and clears latestTask exactly if that is the
      task it removes. */
  ghost function Removed(s: System, t: TaskId): System
    requires t in s.added && s.remover.Idle?
  {
    var s1 := Apply(Apply(s, BeginRemove(t)), CheckNonNil);
    var s2 := if s1.remover.NonNil? then Apply(s1, CompareId) else s1;
    if s2.remover.Matched? then Apply(s2, Clear) else s2
  }

  lemma RemovalIs(s: System, t: TaskId)
    requires t in s.added && s.remover.Idle?
    ensures Removed(s, t) == s.(latest := if s.latest == Some(t) then None else s.latest)
  {
  }

  /** AddTask with nothing in between: every collector in the map has been issued the task. */
  lemma AdditionIs(s: System, t: TaskId, c: CollectorId)
    requires t !in s.added && c in s.subs
    ensures var s' := Apply(Apply(s, SetLatest(t)), Broadcast(t));
      && s'.latest == Some(t) && t in s'.added && s'.subs.Keys == s.subs.Keys && s'.subs[c] == Sub(s.subs[c].pc, s.subs[c].issued + {t})
  {
  }

  // The condition is exact

  /** Some removal matched before the task was set: it still has to clear latestTask, or has done so. */
  ghost predicate Doomed(s: System, t: TaskId) {
    if s.remover.Matched? then s.latest == Some(t) && s.remover.t != t
    else s.latest == None && (!s.remover.Idle? ==> s.remover.t != t)
  }

  lemma {:induction false} DoomedWhileCurrent(ss: seq<System>, acts: seq<Action>, i: nat, n: nat, t: TaskId)
    requires IsRun(ss, acts) && CurrentSince(acts, i, n, t) && ss[i].remover.Matched?
    ensures Doomed(ss[n], t)
    decreases n
  {
    if n == i + 1 {
      EveryRunKeeps(ss, acts, i);
    } else {
      EveryRunKeeps(ss, acts, n - 1);
      DoomedWhileCurrent(ss, acts, i, n - 1, t);
    }
  }

  /** One collector subscribing undisturbed. */
  ghost function Subscribed(s: System, c: CollectorId): System
    requires c !in s.subs
  {
    var s1 := Apply(Apply(s, Insert(c)), ReadLatest(c));
    if s1.subs[c].pc.Holding? then Apply(s1, SendHeld(c)) else s1
  }

  /** A collector that subscribes while the task is current, its broadcast has run and no removal is
      half done is issued the task exactly when no removal was between comparison and write at the
      moment the task was set. */
  lemma LateSubscriberIff(ss: seq<System>, acts: seq<Action>, i: nat, n: nat, t: TaskId, c: CollectorId)
    requires IsRun(ss, acts) && CurrentSince(acts, i, n, t)
    requires c !in ss[n].subs && t !in ss[n].unsent && !ss[n].remover.Matched?
    ensures c in Subscribed(ss[n], c).subs && Subscribed(ss[n], c).subs[c].pc == Settled
    ensures t in Subscribed(ss[n], c).subs[c].issued <==> !ss[i].remover.Matched?
  {
    if ss[i].remover.Matched? {
      DoomedWhileCurrent(ss, acts, i, n, t);
    } else {
      SafeWhileCurrent(ss, acts, i, n, t);
    }
  }

  /** In state `n` a subscribed collector has not been issued the current task and no step will issue it. */
  ghost predicate Lost(ss: seq<System>, acts: seq<Action>, i: nat, n: nat, t: TaskId, c: CollectorId) {
    && IsRun(ss, acts) && CurrentSince(acts, i, n, t) && t !in ss[n].unsent
    && c in ss[n].subs && ss[n].subs[c].pc == Settled && t !in ss[n].subs[c].issued
  }

  /** A run that loses a task: task 1 is being removed while task 2 is set and broadcast. */
  lemma ATaskCanBeLost()
    ensures exists ss, acts :: Lost(ss, acts, 5, 10, 2, 7)
  {
    hide Step, Apply, Enabled;
    var acts := [SetLatest(1), Broadcast(1), BeginRemove(1), CheckNonNil, CompareId, SetLatest(2), Broadcast(2), Clear, Insert(7), ReadLatest(7)];
    var s1 := INIT.(latest := Some(1), added := {1}, unsent := {1});
    var s2 := s1.(unsent := {});
    var s5 := s2.(remover := Matched(1));
    var s6 := s5.(latest := Some(2), added := {1, 2}, unsent := {2});
    var s7 := s6.(unsent := {});
    var s8 := s7.(latest := None, remover := Idle);
    var s9 := s8.(subs := map[7 := Sub(Inserted, {})]);
    var s10 := s8.(subs := map[7 := Sub(Settled, {})]);
    AddSteps(INIT, 1, s1, s2);
    RemoveSteps(s2, 1);
    AddSteps(s5, 2, s6, s7);
    ClearAndSubscribe(s7, 7, s8, s9, s10);
    var ss := [INIT, s1, s2, s2.(remover := Begun(1)), s2.(remover := NonNil(1)), s5, s6, s7, s8, s9, s10];
    assert IsRun(ss, acts) && CurrentSince(acts, 5, 10, 2);
    assert Lost(ss, acts, 5, 10, 2, 7);
  }

  lemma AddSteps(s: System, t: TaskId, s1: System, s2: System)
    requires t !in s.added && s.subs == map[] && s.unsent == {}
    requires s1 == s.(latest := Some(t), added := s.added + {t}, unsent := {t}) && s2 == s1.(unsent := {})
    ensures Step(s, SetLatest(t), s1) && Step(s1, Broadcast(t), s2)
  {
    assert (map c | c in s1.subs :: Issue(s1.subs[c], t)) == map[];
    assert s.unsent + {t} == {t} && s1.unsent - {t} == {};
  }

  lemma RemoveSteps(s: System, t: TaskId)
    requires t in s.added && s.latest == Some(t) && s.remover == Idle
    ensures Step(s, BeginRemove(t), s.(remover := Begun(t)))
    ensures Step(s.(remover := Begun(t)), CheckNonNil, s.(remover := NonNil(t)))
    ensures Step(s.(remover := NonNil(t)), CompareId, s.(remover := Matched(t)))
  {
  }

  lemma ClearAndSubscribe(s: System, c: CollectorId, s1: System, s2: System, s3: System)
    requires s.remover.Matched? && s.subs == map[] && s1 == s.(latest := None, remover := Idle)
    requires s2 == s1.(subs := map[c := Sub(Inserted, {})]) && s3 == s1.(subs := map[c := Sub(Settled, {})])
    ensures Step(s, Clear, s1) && Step(s1, Insert(c), s2) && Step(s2, ReadLatest(c), s3)
  {
    assert s2.subs[c := Sub(Settled, {})] == s3.subs;
  }
}
