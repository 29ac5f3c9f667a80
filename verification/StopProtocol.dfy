/** The waitStop protocol shared by connections and collectors: any number of goroutines call it, the
    worker routines leave on their own time, and each worker runs its deferred clean-ups before it
    signs off from the wait group. */
module StopProtocol {
  import opened Common

  type Worker = nat
  type Caller = nat

  datatype Cleanup = Close(channel: string) | Unsubscribe

  /** Deferred actions of each worker in the order they run; they do not change. */
  type Duties = map<Worker, seq<Cleanup>>

  /** `Leaving(n)`: n of the worker's clean-ups are done. */
  datatype WorkerPc = Running | Leaving(n: nat) | Exited

  datatype CallerPc = Entered | Loaded | Losing | Winning | Cancelled | Waited | Stored | Returned(won: bool)

  datatype System = System(
    workers: map<Worker, WorkerPc>,
    wg: int,
    done: set<Cleanup>,
    callers: map<Caller, CallerPc>,
    stopping: bool,
    stopped: bool,
    afterStopped: nat,
    winner: Option<Caller>)

  datatype Action =
    | Leave(w: Worker) | Clean(w: Worker) | SignOff(w: Worker)
    | Call(c: Caller) | LoadStopped(c: Caller) | CompareAndSwap(c: Caller) | Cancel(c: Caller) | Wait(c: Caller)
    | StoreStopped(c: Caller) | RunAfter(c: Caller)

  ghost function Init(d: Duties): System {
    System(map w | w in d :: Running, |d|, {}, map[], false, false, 0, None)
  }

  ghost predicate WorkerIs(s: System, w: Worker, pc: WorkerPc) {
    w in s.workers && s.workers[w] == pc
  }

  ghost predicate CallerIs(s: System, c: Caller, pc: CallerPc) {
    c in s.callers && s.callers[c] == pc
  }

  ghost predicate Enabled(d: Duties, s: System, a: Action) {
    match a
    case Leave(w) => WorkerIs(s, w, Running)
    case Clean(w) => w in d && w in s.workers && s.workers[w].Leaving? && s.workers[w].n < |d[w]|
    case SignOff(w) => w in d && WorkerIs(s, w, Leaving(|d[w]|))
    case Call(c) => c !in s.callers
    case LoadStopped(c) => CallerIs(s, c, Entered)
    case CompareAndSwap(c) => CallerIs(s, c, Loaded)
    case Cancel(c) => CallerIs(s, c, Winning)
    case Wait(c) => (CallerIs(s, c, Losing) || CallerIs(s, c, Cancelled)) && s.wg == 0
    case StoreStopped(c) => CallerIs(s, c, Waited)
    case RunAfter(c) => CallerIs(s, c, Stored)
  }

  ghost function Apply(d: Duties, s: System, a: Action): System
    requires Enabled(d, s, a)
  {
    match a
    case Leave(w) => s.(workers := s.workers[w := Leaving(0)])
    case Clean(w) => s.(workers := s.workers[w := Leaving(s.workers[w].n + 1)], done := s.done + {d[w][s.workers[w].n]})
    case SignOff(w) => s.(workers := s.workers[w := Exited], wg := s.wg - 1)
    case Call(c) => s.(callers := s.callers[c := Entered])
    case LoadStopped(c) => s.(callers := s.callers[c := if s.stopped then Returned(false) else Loaded])
    case CompareAndSwap(c) =>
      if s.stopping then s.(callers := s.callers[c := Losing])
      else s.(callers := s.callers[c := Winning], stopping := true, winner := Some(c))
    case Cancel(c) => s.(callers := s.callers[c := Cancelled])
    case Wait(c) => s.(callers := s.callers[c := if s.callers[c] == Losing then Returned(false) else Waited])
    case StoreStopped(c) => s.(callers := s.callers[c := Stored], stopped := true)
    case RunAfter(c) => s.(callers := s.callers[c := Returned(true)], afterStopped := s.afterStopped + 1)
  }

  ghost predicate IsRun(d: Duties, ss: seq<System>, acts: seq<Action>) {
    && |ss| == |acts| + 1 && ss[0] == Init(d)
    && forall i :: 0 <= i < |acts| ==> Enabled(d, ss[i], acts[i]) && ss[i + 1] == Apply(d, ss[i], acts[i])
  }

  ghost function Alive(s: System): set<Worker> {
    set w | w in s.workers && s.workers[w] != Exited
  }

  /** How many of a worker's clean-ups have run. */
  ghost function Cleaned(pc: WorkerPc, total: nat): nat {
    match pc
    case Running => 0
    case Leaving(n) => n
    case Exited => total
  }

  ghost predicate WorkerInv(d: Duties, s: System, w: Worker) {
    w in s.workers && w in d ==>
      var n := Cleaned(s.workers[w], |d[w]|);
      n <= |d[w]| && forall i :: 0 <= i < n ==> d[w][i] in s.done
  }

  ghost predicate PastWait(pc: CallerPc) {
    pc.Waited? || pc.Stored? || pc.Returned?
  }

  ghost predicate WinnerPc(pc: CallerPc) {
    pc.Winning? || pc.Cancelled? || pc.Waited? || pc.Stored? || pc == Returned(true)
  }

  ghost predicate CallerInv(s: System, c: Caller) {
    c in s.callers ==>
      && (PastWait(s.callers[c]) ==> s.wg == 0)
      && (WinnerPc(s.callers[c]) <==> s.winner == Some(c))
  }

  ghost predicate Inv(d: Duties, s: System) {
    && s.workers.Keys == d.Keys && s.wg == |Alive(s)|
    && (forall w :: w in d ==> WorkerInv(d, s, w))
    && (forall c :: CallerInv(s, c))
    && (s.stopped ==> s.wg == 0)
    && (s.stopping <==> s.winner.Some?)
    && (s.winner.Some? ==> s.winner.value in s.callers)
    && s.afterStopped == (if s.winner.Some? && s.callers[s.winner.value] == Returned(true) then 1 else 0)
  }

  lemma InitInv(d: Duties)
    ensures Inv(d, Init(d))
  {
    assert Alive(Init(d)) == d.Keys;
    assert |d.Keys| == |d|;
  }

  ghost predicate IsWorkerStep(a: Action) {
    a.Leave? || a.Clean? || a.SignOff?
  }

  lemma WorkersLeft(d: Duties, s: System, a: Action)
    requires Inv(d, s) && Enabled(d, s, a) && IsWorkerStep(a)
    ensures var s' := Apply(d, s, a); s'.workers.Keys == d.Keys && s'.wg == |Alive(s')| <= s.wg
  {
    var s' := Apply(d, s, a);
    if a.SignOff? {
      assert a.w in Alive(s);
      assert Alive(s') == Alive(s) - {a.w};
    } else {
      assert Alive(s') == Alive(s);
    }
  }

  lemma CleanupsKept(d: Duties, s: System, a: Action, w: Worker)
    requires Inv(d, s) && Enabled(d, s, a) && IsWorkerStep(a) && w in d
    ensures WorkerInv(d, Apply(d, s, a), w)
  {
    assert WorkerInv(d, s, w);
  }

  lemma WorkerStepKeeps(d: Duties, s: System, a: Action)
    requires Inv(d, s) && Enabled(d, s, a) && IsWorkerStep(a)
    ensures Inv(d, Apply(d, s, a))
  {
    var s' := Apply(d, s, a);
    WorkersLeft(d, s, a);
    forall w | w in d ensures WorkerInv(d, s', w) {
      CleanupsKept(d, s, a, w);
    }
    hide WorkerInv, Alive;
    assert s.wg == 0 ==> s'.wg == 0;
    forall c ensures CallerInv(s', c) {
      assert CallerInv(s, c);
    }
  }

  lemma CallerStepKeeps(d: Duties, s: System, a: Action)
    requires Inv(d, s) && Enabled(d, s, a) && !IsWorkerStep(a)
    ensures Inv(d, Apply(d, s, a))
  {
    var s' := Apply(d, s, a);
    assert Alive(s') == Alive(s);
    forall w | w in d ensures WorkerInv(d, s', w) {
      assert WorkerInv(d, s, w);
    }
    forall c ensures CallerInv(s', c) {
      assert CallerInv(s, c) && CallerInv(s, a.c);
    }
    assert CallerInv(s, a.c);
  }

  lemma {:induction false} EveryRunKeeps(d: Duties, ss: seq<System>, acts: seq<Action>, n: nat)
    requires IsRun(d, ss, acts) && n < |ss|
    ensures Inv(d, ss[n])
  {
    hide Inv;
    if n == 0 {
      InitInv(d);
    } else {
      EveryRunKeeps(d, ss, acts, n - 1);
      var a := acts[n - 1];
      if IsWorkerStep(a) {
        WorkerStepKeeps(d, ss[n - 1], a);
      } else {
        CallerStepKeeps(d, ss[n - 1], a);
      }
    }
  }

  /** The main result, for every run and any number of callers: when some call has returned, every
      worker has exited and all its clean-ups are done; at most one call won, and the afterStopped
      callback has run once if a call has won and returned, and not otherwise. */
  lemma NoCallReturnsEarly(d: Duties, ss: seq<System>, acts: seq<Action>, n: nat)
    requires IsRun(d, ss, acts) && n < |ss|
    ensures ss[n].afterStopped <= 1
    ensures ss[n].afterStopped == 1 <==> exists c: Caller :: CallerIs(ss[n], c, Returned(true))
    ensures forall c, c' :: CallerIs(ss[n], c, Returned(true)) && CallerIs(ss[n], c', Returned(true)) ==> c == c'
    ensures forall c :: c in ss[n].callers && ss[n].callers[c].Returned? ==>
      forall w :: w in d ==> WorkerIs(ss[n], w, Exited) && forall i :: 0 <= i < |d[w]| ==> d[w][i] in ss[n].done
  {
    EveryRunKeeps(d, ss, acts, n);
    var s := ss[n];
    forall c: Caller | CallerIs(s, c, Returned(true)) ensures s.winner == Some(c) {
      assert CallerInv(s, c);
    }
    if s.afterStopped == 1 {
      assert s.winner.Some?;
      assert CallerIs(s, s.winner.value, Returned(true));
    }
    forall c, c' | CallerIs(s, c, Returned(true)) && CallerIs(s, c', Returned(true)) ensures c == c' {
      assert CallerInv(s, c) && CallerInv(s, c');
    }
    forall c, w | c in s.callers && s.callers[c].Returned? && w in d
      ensures WorkerIs(s, w, Exited) && forall i :: 0 <= i < |d[w]| ==> d[w][i] in s.done
    {
      assert CallerInv(s, c) && WorkerInv(d, s, w);
      assert Alive(s) == {};
      assert w !in Alive(s);
    }
  }

  // Nothing waits for ever

  /** Steps left to a caller and to a worker. */
  function CallerLeft(pc: CallerPc): nat {
    match pc
    case Entered => 6
    case Loaded => 5
    case Winning => 4
    case Cancelled => 3
    case Waited => 2
    case Stored => 1
    case Losing => 1
    case Returned(_) => 0
  }

  function WorkerLeft(pc: WorkerPc, total: nat): nat {
    match pc
    case Running => total + 2
    case Leaving(n) => if n <= total then total - n + 1 else 0
    case Exited => 0
  }

  ghost function Sum(m: map<nat, nat>): nat {
    if m == map[] then 0 else var k :| k in m; m[k] + Sum(m - {k})
  }

  lemma {:induction false} SumWithout(m: map<nat, nat>, k: nat)
    requires k in m
    ensures Sum(m) == m[k] + Sum(m - {k})
    decreases |m|
  {
    var j :| j in m && Sum(m) == m[j] + Sum(m - {j});
    if j != k {
      SumWithout(m - {j}, k);
      SumWithout(m - {k}, j);
      assert m - {j} - {k} == m - {k} - {j};
    }
  }

  lemma SumWith(m: map<nat, nat>, k: nat, v: nat)
    ensures Sum(m[k := v]) == Sum(m - {k}) + v
  {
    SumWithout(m[k := v], k);
    assert m[k := v] - {k} == m - {k};
  }

  ghost function WorkersLeftMap(d: Duties, s: System): map<nat, nat> {
    map w | w in s.workers && w in d :: WorkerLeft(s.workers[w], |d[w]|)
  }

  ghost function CallersLeftMap(s: System): map<nat, nat> {
    map c | c in s.callers :: CallerLeft(s.callers[c])
  }

  ghost function Left(d: Duties, s: System): nat {
    Sum(WorkersLeftMap(d, s)) + Sum(CallersLeftMap(s))
  }

  ghost predicate AllDone(s: System) {
    (forall w :: w in s.workers ==> s.workers[w] == Exited) && forall c :: c in s.callers ==> s.callers[c].Returned?
  }

  /** In every reachable state some worker or caller can go on, unless every worker has exited and every call
      has returned. */
  lemma NoDeadlock(d: Duties, ss: seq<System>, acts: seq<Action>, n: nat)
    requires IsRun(d, ss, acts) && n < |ss| && !AllDone(ss[n])
    ensures exists a :: Enabled(d, ss[n], a) && !a.Call?
  {
    EveryRunKeeps(d, ss, acts, n);
    var s := ss[n];
    if w :| w in s.workers && s.workers[w] != Exited {
      assert WorkerInv(d, s, w);
      var a := match s.workers[w] case Running => Leave(w) case Leaving(k) => if k < |d[w]| then Clean(w) else SignOff(w) case Exited => Leave(w);
      assert Enabled(d, s, a);
    } else {
      assert Alive(s) == {};
      var c :| c in s.callers && !s.callers[c].Returned?;
      assert Enabled(d, s, NextOf(s.callers[c], c));
    }
  }

  ghost function NextOf(pc: CallerPc, c: Caller): Action {
    match pc
    case Entered => LoadStopped(c)
    case Loaded => CompareAndSwap(c)
    case Winning => Cancel(c)
    case Cancelled => Wait(c)
    case Losing => Wait(c)
    case Waited => StoreStopped(c)
    case Stored => RunAfter(c)
    case Returned(_) => Call(c)
  }

  lemma WorkerStepLeft(d: Duties, s: System, a: Action)
    requires Enabled(d, s, a) && IsWorkerStep(a) && a.w in d
    ensures Left(d, Apply(d, s, a)) < Left(d, s)
  {
    hide Sum;
    var s' := Apply(d, s, a);
    var m, v := WorkersLeftMap(d, s), WorkerLeft(s'.workers[a.w], |d[a.w]|);
    assert v < m[a.w];
    assert WorkersLeftMap(d, s') == m[a.w := v] && CallersLeftMap(s') == CallersLeftMap(s);
    SumWithout(m, a.w);
    SumWith(m, a.w, v);
  }

  lemma OneCaller(d: Duties, s: System, s': System, c: Caller, pc: CallerPc)
    requires s'.workers == s.workers && s'.callers == s.callers[c := pc]
    ensures CallersLeftMap(s') == CallersLeftMap(s)[c := CallerLeft(pc)] && WorkersLeftMap(d, s') == WorkersLeftMap(d, s)
  {
  }

  lemma CallerStepLeft(d: Duties, s: System, a: Action)
    requires Enabled(d, s, a) && !IsWorkerStep(a)
    ensures if a.Call? then Left(d, Apply(d, s, a)) == Left(d, s) + 6 else Left(d, Apply(d, s, a)) < Left(d, s)
  {
    hide Sum;
    var s' := Apply(d, s, a);
    var m, v := CallersLeftMap(s), CallerLeft(s'.callers[a.c]);
    OneCaller(d, s, s', a.c, s'.callers[a.c]);
    SumWith(m, a.c, v);
    if a.Call? {
      assert m - {a.c} == m;
    } else {
      SumWithout(m, a.c);
    }
  }

  ghost function Calls(acts: seq<Action>): nat {
    if acts == [] then 0 else Calls(acts[..|acts| - 1]) + if acts[|acts| - 1].Call? then 1 else 0
  }

  lemma {:induction false} StepsRunOut(d: Duties, ss: seq<System>, acts: seq<Action>, n: nat)
    requires IsRun(d, ss, acts) && n < |ss|
    ensures n + Left(d, ss[n]) <= Left(d, Init(d)) + 7 * Calls(acts[..n])
  {
    hide Left, Inv;
    if n > 0 {
      StepsRunOut(d, ss, acts, n - 1);
      var s, a := ss[n - 1], acts[n - 1];
      EveryRunKeeps(d, ss, acts, n - 1);
      KnownWorkers(d, s);
      assert acts[..n][..n - 1] == acts[..n - 1];
      if IsWorkerStep(a) {
        WorkerStepLeft(d, s, a);
      } else {
        CallerStepLeft(d, s, a);
      }
    }
  }

  lemma KnownWorkers(d: Duties, s: System)
    requires Inv(d, s)
    ensures s.workers.Keys == d.Keys
  {
  }

  /** Two steps beside the clean-ups of a worker. */
  ghost function Budget(d: Duties): map<nat, nat> {
    map w | w in d :: |d[w]| + 2
  }

  lemma InitLeft(d: Duties)
    ensures Left(d, Init(d)) == Sum(Budget(d))
  {
    hide Sum;
    assert WorkersLeftMap(d, Init(d)) == Budget(d) && CallersLeftMap(Init(d)) == map[];
    NothingLeft();
  }

  /** Every run is finite: each worker takes two steps beside its clean-ups and each call at most seven. So
      with NoDeadlock a run can be continued until all is done, and no further. */
  lemma EveryRunEnds(d: Duties, ss: seq<System>, acts: seq<Action>)
    requires IsRun(d, ss, acts)
    ensures |acts| <= Sum(Budget(d)) + 7 * Calls(acts)
  {
    hide Sum, Left, Budget, Calls;
    StepsRunOut(d, ss, acts, |acts|);
    assert acts[..|acts|] == acts;
    InitLeft(d);
  }

  lemma NothingLeft()
    ensures Sum(map[]) == 0
  {
  }

  // The three users of the protocol

  /** receiveRoutine, sendRoutine, keepaliveRoutine, alivenessMonitor */
  const CONN: Duties := map[0 := [Close("recvCh")], 1 := [Close("prioritySendCh"), Close("sendCh")], 2 := [], 3 := [Close("alivenessCh")]]
  /** requestProcessor */
  const LOCAL_COLLECTOR: Duties := map[0 := [Unsubscribe, Close("requestCh")]]
  /** reportProcessor */
  const REMOTE_COLLECTOR: Duties := map[0 := [Unsubscribe, Close("reportCh")]]

  lemma ConnectionStop(ss: seq<System>, acts: seq<Action>, n: nat, c: Caller)
    requires IsRun(CONN, ss, acts) && n < |ss| && c in ss[n].callers && ss[n].callers[c].Returned?
    ensures {Close("recvCh"), Close("prioritySendCh"), Close("sendCh"), Close("alivenessCh")} <= ss[n].done
  {
    NoCallReturnsEarly(CONN, ss, acts, n);
    assert CONN[0][0] in ss[n].done && CONN[1][0] in ss[n].done && CONN[1][1] in ss[n].done && CONN[3][0] in ss[n].done;
  }

  lemma CollectorStop(remote: bool, ss: seq<System>, acts: seq<Action>, n: nat, c: Caller)
    requires IsRun(if remote then REMOTE_COLLECTOR else LOCAL_COLLECTOR, ss, acts)
    requires n < |ss| && c in ss[n].callers && ss[n].callers[c].Returned?
    ensures {Unsubscribe, Close(if remote then "reportCh" else "requestCh")} <= ss[n].done
  {
    var d := if remote then REMOTE_COLLECTOR else LOCAL_COLLECTOR;
    NoCallReturnsEarly(d, ss, acts, n);
    assert d[0][0] in ss[n].done && d[0][1] in ss[n].done;
  }
}
