/** sendRoutine's choice between its two queues. The routine first polls the priority queue alone and
    only if that is empty selects over both; other goroutines enqueue at any moment in between. */
module PrioritySender {
  type Data = seq<nat>

  datatype Item = Urgent(data: Data) | Ordinary(data: Data)

  /** `Polling`: before the outer select. `Selecting`: the outer select took its default branch.
      `enqueued` and `dequeued` are histories. */
  datatype Phase = Polling | Selecting | Closed

  datatype Sender = Sender(priority: seq<Data>, ordinary: seq<Data>, phase: Phase, enqueued: seq<Item>, dequeued: seq<Item>)

  datatype Action = Enqueue(item: Item) | TakeUrgent | FallThrough | TakeOrdinary | Quit

  const START := Sender([], [], Polling, [], [])

  predicate Enabled(s: Sender, a: Action) {
    match a
    case Enqueue(_) => s.phase != Closed
    case TakeUrgent => s.phase != Closed && s.priority != []
    case FallThrough => s.phase == Polling && s.priority == []
    case TakeOrdinary => s.phase == Selecting && s.ordinary != []
    case Quit => s.phase != Closed
  }

  function Apply(s: Sender, a: Action): Sender
    requires Enabled(s, a)
  {
    match a
    case Enqueue(Urgent(d)) => s.(priority := s.priority + [d], enqueued := s.enqueued + [Urgent(d)])
    case Enqueue(Ordinary(d)) => s.(ordinary := s.ordinary + [d], enqueued := s.enqueued + [Ordinary(d)])
    case TakeUrgent => s.(priority := s.priority[1..], phase := Polling, dequeued := s.dequeued + [Urgent(s.priority[0])])
    case FallThrough => s.(phase := Selecting)
    case TakeOrdinary => s.(ordinary := s.ordinary[1..], phase := Polling, dequeued := s.dequeued + [Ordinary(s.ordinary[0])])
    case Quit => s.(phase := Closed)
  }

  ghost predicate IsRun(ss: seq<Sender>, acts: seq<Action>) {
    && |ss| == |acts| + 1 && ss[0] == START
    && forall i :: 0 <= i < |acts| ==> Enabled(ss[i], acts[i]) && ss[i + 1] == Apply(ss[i], acts[i])
  }

  function UrgentOf(items: seq<Item>): seq<Data> {
    if items == [] then []
    else UrgentOf(items[..|items| - 1]) + if items[|items| - 1].Urgent? then [items[|items| - 1].data] else []
  }

  function OrdinaryOf(items: seq<Item>): seq<Data> {
    if items == [] then []
    else OrdinaryOf(items[..|items| - 1]) + if items[|items| - 1].Ordinary? then [items[|items| - 1].data] else []
  }

  lemma Extend(items: seq<Item>, x: Item)
    ensures UrgentOf(items + [x]) == UrgentOf(items) + if x.Urgent? then [x.data] else []
    ensures OrdinaryOf(items + [x]) == OrdinaryOf(items) + if x.Ordinary? then [x.data] else []
  {
    assert (items + [x])[..|items|] == items;
  }

  /** Nothing is lost, duplicated or reordered within a queue. */
  ghost predicate Merged(s: Sender) {
    && UrgentOf(s.enqueued) == UrgentOf(s.dequeued) + s.priority
    && OrdinaryOf(s.enqueued) == OrdinaryOf(s.dequeued) + s.ordinary
  }

  lemma StepMerges(s: Sender, a: Action)
    requires Merged(s) && Enabled(s, a)
    ensures Merged(Apply(s, a))
  {
    hide UrgentOf, OrdinaryOf;
    match a
    case Enqueue(x) => Extend(s.enqueued, x);
    case TakeUrgent => Extend(s.dequeued, Urgent(s.priority[0]));
    case FallThrough =>
    case TakeOrdinary => Extend(s.dequeued, Ordinary(s.ordinary[0]));
    case Quit =>
  }

  /** In every run the dequeued items are an order-preserving, loss-free, duplicate-free merge. */
  lemma {:induction false} EveryRunMerges(ss: seq<Sender>, acts: seq<Action>, n: nat)
    requires IsRun(ss, acts) && n < |ss|
    ensures Merged(ss[n])
  {
    hide Apply;
    if n > 0 {
      EveryRunMerges(ss, acts, n - 1);
      StepMerges(ss[n - 1], acts[n - 1]);
    }
  }

  /** After a priority message is queued, at most one ordinary message is dequeued before it. The
      message is the one enqueued by step i; it is still queued in state j as long as fewer priority
      messages were dequeued than had been enqueued when it was. */
  lemma {:induction false} AtMostOneOvertakes(ss: seq<Sender>, acts: seq<Action>, i: nat, j: nat)
    requires IsRun(ss, acts) && i < j < |ss|
    requires acts[i].Enqueue? && acts[i].item.Urgent?
    requires |UrgentOf(ss[j].dequeued)| < |UrgentOf(ss[i + 1].enqueued)|
    ensures |OrdinaryOf(ss[j].dequeued)| <= |OrdinaryOf(ss[i + 1].dequeued)| + 1
    ensures ss[j].phase == Selecting ==> |OrdinaryOf(ss[j].dequeued)| == |OrdinaryOf(ss[i + 1].dequeued)|
  {
    hide UrgentOf, OrdinaryOf;
    if j > i + 1 {
      var s, a := ss[j - 1], acts[j - 1];
      EveryRunMerges(ss, acts, j - 1);
      EnqueuedGrows(ss, acts, i + 1, j - 1);
      if a.TakeUrgent? {
        Extend(s.dequeued, Urgent(s.priority[0]));
      } else if a.TakeOrdinary? {
        Extend(s.dequeued, Ordinary(s.ordinary[0]));
      }
      AtMostOneOvertakes(ss, acts, i, j - 1);
    }
  }

  lemma {:induction false} EnqueuedGrows(ss: seq<Sender>, acts: seq<Action>, i: nat, j: nat)
    requires IsRun(ss, acts) && i <= j < |ss|
    ensures |UrgentOf(ss[i].enqueued)| <= |UrgentOf(ss[j].enqueued)|
  {
    hide UrgentOf, OrdinaryOf;
    if i < j {
      EnqueuedGrows(ss, acts, i, j - 1);
      if acts[j - 1].Enqueue? {
        Extend(ss[j - 1].enqueued, acts[j - 1].item);
      }
    }
  }

  function Queued(s: Sender): seq<Item> {
    seq(|s.priority|, i requires 0 <= i < |s.priority| => Urgent(s.priority[i]))
    + seq(|s.ordinary|, i requires 0 <= i < |s.ordinary| => Ordinary(s.ordinary[i]))
  }

  ghost predicate Quiet(acts: seq<Action>, i: nat, j: nat) {
    forall k :: i <= k < j < |acts| + 1 ==> !acts[k].Enqueue? && !acts[k].Quit?
  }

  /** While nothing new arrives, the routine empties the priority queue first and then the ordinary one,
      each in its order. */
  lemma {:induction false} QuietRunIsOrdered(ss: seq<Sender>, acts: seq<Action>, i: nat, j: nat)
    requires IsRun(ss, acts) && i <= j < |ss| && Quiet(acts, i, j) && ss[i].phase == Polling
    ensures ss[j].dequeued + Queued(ss[j]) == ss[i].dequeued + Queued(ss[i])
    ensures ss[j].phase != Closed && (ss[j].phase == Selecting ==> ss[j].priority == [])
    decreases j
  {
    hide Queued;
    if i < j {
      assert Quiet(acts, i, j - 1);
      QuietRunIsOrdered(ss, acts, i, j - 1);
      TakesFirst(ss[j - 1], acts[j - 1]);
    }
  }

  lemma TakesFirst(s: Sender, a: Action)
    requires Enabled(s, a) && !a.Enqueue? && !a.Quit? && (s.phase == Selecting ==> s.priority == [])
    ensures Apply(s, a).dequeued + Queued(Apply(s, a)) == s.dequeued + Queued(s)
  {
    var s' := Apply(s, a);
    match a
    case TakeUrgent => assert Queued(s) == [Urgent(s.priority[0])] + Queued(s');
    case FallThrough =>
    case TakeOrdinary => assert Queued(s) == [Ordinary(s.ordinary[0])] + Queued(s');
  }

  /** It never rests while a message is queued. */
  lemma NeverStuck(s: Sender)
    requires s.phase != Closed && Queued(s) != []
    ensures Enabled(s, TakeUrgent) || Enabled(s, FallThrough) || Enabled(s, TakeOrdinary)
    ensures Enabled(s, FallThrough) ==> Enabled(Apply(s, FallThrough), TakeOrdinary)
  {
    assert s.priority != [] || s.ordinary != [];
  }

  /** The bound is reached: the message arrives between the two selects. */
  lemma OneCanOvertake() returns (ss: seq<Sender>, acts: seq<Action>)
    ensures IsRun(ss, acts) && |acts| == 4 && acts[2] == Enqueue(Urgent([7]))
    ensures ss[4].dequeued == [Ordinary([3])] && ss[4].priority == [[7]]
  {
    acts := [Enqueue(Ordinary([3])), FallThrough, Enqueue(Urgent([7])), TakeOrdinary];
    var s1 := Apply(START, acts[0]);
    var s2 := Apply(s1, acts[1]);
    var s3 := Apply(s2, acts[2]);
    ss := [START, s1, s2, s3, Apply(s3, acts[3])];
  }
}
