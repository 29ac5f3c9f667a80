/** Selection of the best proof from a stream of quality reports, the header of the block assembled
    from it, and the guard against mining a height twice. The quality formula, the difficulty rule and
    the binding check are parameters. */
module BestProof {
  import opened Common
  import opened PocSlots

  const I63: int := 0x8000_0000_0000_0000
  const MAX_UINT64: nat := U64 - 1

  /** int64(x) of an arbitrary integer, as conversion and int64 multiplication compute it. */
  function Int64(x: int): (r: int)
    ensures -I63 <= r < I63
  {
    var m := x % U64;
    if m < I63 then m else m - U64
  }

  /** One entry of a ReportQualities message. */
  datatype Quality = Quality(slot: Slot, space: string, index: nat, ksize: nat, hash: seq<nat>)

  datatype Candidate = Candidate(collector: nat, q: Quality)

  /** What the block template supplies. */
  datatype Template = Template(
    height: nat,
    quality: (Quality, nat) -> nat,
    target: int -> nat,
    passBinding: Quality -> bool)
  {
    function QualityOf(c: Candidate): nat {
      quality(c.q, height)
    }

    /** The target the selection compares with: at int64(slot*pocSlot), a product of uint64. */
    function SelectionTarget(slot: Slot): nat {
      target(Int64((slot * POC_SLOT) % U64))
    }

    predicate Eligible(c: Candidate) {
      QualityOf(c) > SelectionTarget(c.q.slot) && passBinding(c.q)
    }

    /** Strictly better: an earlier slot, or the same slot and a higher quality. */
    predicate Better(c: Candidate, d: Candidate) {
      c.q.slot < d.q.slot || (c.q.slot == d.q.slot && QualityOf(c) > QualityOf(d))
    }
  }

  /** The specification: an eligible candidate that nothing eligible beats, and the first such to arrive. */
  ghost predicate IsBest(t: Template, cs: seq<Candidate>, best: Option<Candidate>) {
    match best
    case None => forall d :: d in cs ==> !t.Eligible(d)
    case Some(c) =>
      && t.Eligible(c)
      && (forall d :: d in cs && t.Eligible(d) ==> !t.Better(d, c))
      && exists k :: 0 <= k < |cs| && cs[k] == c && forall j :: 0 <= j < k && t.Eligible(cs[j]) ==> t.Better(c, cs[j])
  }

  /** What the specification says, written out: the kept candidate arrived, passes binding, beats the target
      at three seconds per slot, and nothing else that does so has an earlier slot, or the same slot and a
      higher quality; nothing is kept exactly when no arrived candidate does so. */
  lemma BestReads(t: Template, cs: seq<Candidate>, best: Option<Candidate>)
    requires IsBest(t, cs, best)
    ensures best.Some? ==> var c := best.value;
      && c in cs && t.passBinding(c.q) && t.quality(c.q, t.height) > t.target(Int64(3 * c.q.slot))
      && forall d :: d in cs && t.passBinding(d.q) && t.quality(d.q, t.height) > t.target(Int64(3 * d.q.slot)) ==>
           d.q.slot > c.q.slot || (d.q.slot == c.q.slot && t.quality(d.q, t.height) <= t.quality(c.q, t.height))
    ensures best.None? ==> forall d :: d in cs ==> !(t.passBinding(d.q) && t.quality(d.q, t.height) > t.target(Int64(3 * d.q.slot)))
  {
    forall d: Candidate ensures t.SelectionTarget(d.q.slot) == t.target(Int64(3 * d.q.slot)) {
      WrapAgrees(3 * d.q.slot);
    }
  }

  /** Conversions from uint64 to int64 keep what fits. */
  lemma Int64Fits(x: int)
    requires -0x8000_0000_0000_0000 <= x < 0x8000_0000_0000_0000
    ensures Int64(x) == x
  {
  }

  /** The slot and quality kept do not depend on the order in which reports arrive, nor on repetitions. */
  lemma OrderDoesNotMatter(t: Template, cs: seq<Candidate>, ds: seq<Candidate>, b: Option<Candidate>, b': Option<Candidate>)
    requires (forall c :: c in cs <==> c in ds) && IsBest(t, cs, b) && IsBest(t, ds, b')
    ensures b.Some? <==> b'.Some?
    ensures b.Some? ==> b.value.q.slot == b'.value.q.slot && t.QualityOf(b.value) == t.QualityOf(b'.value)
  {
    if b.Some? {
      assert b.value in cs;
    }
    if b'.Some? {
      assert b'.value in ds;
    }
  }

  lemma BestIsUnique(t: Template, cs: seq<Candidate>, b: Option<Candidate>, b': Option<Candidate>)
    requires IsBest(t, cs, b) && IsBest(t, cs, b')
    ensures b == b'
  {
    OrderDoesNotMatter(t, cs, cs, b, b');
    if b.Some? {
      var k :| 0 <= k < |cs| && cs[k] == b.value && forall j :: 0 <= j < k && t.Eligible(cs[j]) ==> t.Better(b.value, cs[j]);
      var l :| 0 <= l < |cs| && cs[l] == b'.value && forall j :: 0 <= j < l && t.Eligible(cs[j]) ==> t.Better(b'.value, cs[j]);
      assert k == l;
    }
  }

  // The selection loop

  /** What the select in getBestProof can pick: the quit channel, a report, or a tick of the ticker with
      the stale flag and the clock reading it finds. */
  datatype Event = Quit | Message(collector: nat, qualities: seq<Quality>) | Tick(stale: bool, now: int)

  datatype Outcome = StillWaiting | GaveUp | Found(best: Candidate, quality: int, time: int)

  function FromMessage(collector: nat, qs: seq<Quality>): seq<Candidate> {
    seq(|qs|, i requires 0 <= i < |qs| => Candidate(collector, qs[i]))
  }

  function Received(events: seq<Event>): seq<Candidate> {
    if events == [] then [] else
      var e := events[|events| - 1];
      Received(events[..|events| - 1]) + if e.Message? then FromMessage(e.collector, e.qualities) else []
  }

  /** The best* variables of the loop; without a candidate they hold MaxUint64 and -1. */
  ghost predicate Variables(t: Template, best: Option<Candidate>, bestSlot: Slot, bestQuality: int) {
    match best
    case None => bestSlot == MAX_UINT64 && bestQuality == -1
    case Some(c) => bestSlot == c.q.slot && bestQuality == t.QualityOf(c)
  }

  lemma OneMore(t: Template, cs: seq<Candidate>, best: Option<Candidate>, c: Candidate)
    requires IsBest(t, cs, best)
    ensures t.Eligible(c) && (best.Some? ==> t.Better(c, best.value)) ==> IsBest(t, cs + [c], Some(c))
    ensures !t.Eligible(c) || (best.Some? && !t.Better(c, best.value)) ==> IsBest(t, cs + [c], best)
  {
    var more := cs + [c];
    assert more[|cs|] == c && forall j :: 0 <= j < |cs| ==> more[j] == cs[j];
    if best.Some? {
      var k :| 0 <= k < |cs| && cs[k] == best.value && forall j :: 0 <= j < k && t.Eligible(cs[j]) ==> t.Better(best.value, cs[j]);
      assert more[k] == best.value && forall j :: 0 <= j < k && t.Eligible(more[j]) ==> t.Better(best.value, more[j]);
    }
    forall j | 0 <= j < |cs| && t.Eligible(more[j]) && best.Some? && t.Better(c, best.value) ensures t.Better(c, more[j]) {
      assert cs[j] in cs;
    }
    forall j | 0 <= j < |cs| && best.None? ensures !t.Eligible(more[j]) {
      assert cs[j] in cs;
    }
  }

  /** time.Unix(int64(slot)*pocSlot) */
  function SlotTime(slot: Slot): int {
    Int64(Int64(slot) * POC_SLOT)
  }

  /** The loop was right to go on after event `k`: no quit, no staleness, and at a tick no candidate yet, or
      the clock before the best candidate's time. */
  ghost predicate PassedOver(t: Template, events: seq<Event>, k: nat)
    requires k < |events|
  {
    && !events[k].Quit? && (events[k].Tick? ==> !events[k].stale)
    && (events[k].Tick? ==> forall c :: IsBest(t, Received(events[..k]), Some(c)) ==> events[k].now < SlotTime(c.q.slot))
  }

  /** Event `n - 1` is the tick at which the loop ends with `c`: the clock is at or past the time of the best
      candidate received, and every event before it was passed over. */
  ghost predicate Finishes(t: Template, events: seq<Event>, n: nat, c: Candidate) {
    && 0 < n <= |events| && events[n - 1].Tick? && !events[n - 1].stale
    && IsBest(t, Received(events[..n - 1]), Some(c)) && events[n - 1].now >= SlotTime(c.q.slot)
    && forall k :: 0 <= k < n - 1 ==> PassedOver(t, events, k)
  }

  lemma NotPassed(t: Template, events: seq<Event>, n: nat, c: Candidate)
    requires 0 < n <= |events|
    ensures Finishes(t, events, n, c) ==> !PassedOver(t, events, n - 1)
  {
    hide IsBest;
  }

  /** There is at most one such tick, and one candidate. */
  lemma FinishesOnce(t: Template, events: seq<Event>, n: nat, c: Candidate, n': nat, c': Candidate)
    requires Finishes(t, events, n, c) && Finishes(t, events, n', c')
    ensures n == n' && c == c'
  {
    hide IsBest;
    NotPassed(t, events, n, c);
    NotPassed(t, events, n', c');
    assert n == n';
    BestIsUnique(t, Received(events[..n - 1]), Some(c), Some(c'));
  }

  /** Where the loop stopped without a proof there is none. */
  lemma NeverFinishes(t: Template, events: seq<Event>, n: nat, waiting: bool)
    requires n <= |events| && (waiting ==> n == |events|)
    requires forall k :: 0 <= k < n - (if waiting then 0 else 1) ==> PassedOver(t, events, k)
    requires !waiting ==> n > 0 && (events[n - 1].Quit? || (events[n - 1].Tick? && events[n - 1].stale))
    ensures forall m, c :: !Finishes(t, events, m, c)
  {
    hide IsBest;
    assert !waiting ==> !PassedOver(t, events, n - 1);
    forall m: nat, c | 0 < m <= |events| ensures !Finishes(t, events, m, c) {
      NotPassed(t, events, m, c);
    }
  }

  /** getBestProof up to the request of the proof. */
  method GetBestProof(t: Template, events: seq<Event>) returns (r: Outcome, n: nat)
    ensures n <= |events|
    ensures forall k :: 0 <= k < n - (if r.StillWaiting? then 0 else 1) ==> PassedOver(t, events, k)
    ensures r.StillWaiting? ==> n == |events|
    ensures r.Found? ==> n > 0 && events[n - 1].Tick? && !events[n - 1].stale && events[n - 1].now >= r.time
    ensures r.Found? ==> IsBest(t, Received(events[..n]), Some(r.best))
    ensures r.Found? ==> r.quality == t.QualityOf(r.best) && r.time == SlotTime(r.best.q.slot)
    ensures r.GaveUp? ==> n > 0 && (events[n - 1].Quit? || (events[n - 1].Tick? && events[n - 1].stale))
    ensures r.Found? ==> Finishes(t, events, n, r.best)
    ensures !r.Found? ==> forall m, c :: !Finishes(t, events, m, c)
  {
    hide IsBest;
    var best: Option<Candidate> := None;
    var bestSlot: Slot, bestQuality := MAX_UINT64, -1;
    NothingReceived(t);
    n := 0;
    while n < |events|
      invariant n <= |events|
      invariant IsBest(t, Received(events[..n]), best) && Variables(t, best, bestSlot, bestQuality)
      invariant forall k :: 0 <= k < n ==> PassedOver(t, events, k)
    {
      var e := events[n];
      assert events[..n + 1][..n] == events[..n];
      assert Received(events[..n]) + [] == Received(events[..n]);
      n := n + 1;
      match e {
        case Quit =>
          NeverFinishes(t, events, n, false);
          return GaveUp, n;
        case Tick(stale, now) =>
          if stale {
            NeverFinishes(t, events, n, false);
            return GaveUp, n;
          }
          var time := SlotTime(bestSlot);
          if best.Some? && now >= time {
            return Found(best.value, bestQuality, time), n;
          }
          forall c | IsBest(t, Received(events[..n - 1]), Some(c)) ensures now < SlotTime(c.q.slot) {
            BestIsUnique(t, Received(events[..n - 1]), best, Some(c));
          }
        case Message(collector, qualities) =>
          best, bestSlot, bestQuality := ScanMessage(t, collector, qualities, Received(events[..n - 1]), best, bestSlot, bestQuality);
      }
    }
    NeverFinishes(t, events, n, true);
    return StillWaiting, n;
  }

  lemma NothingReceived(t: Template)
    ensures IsBest(t, Received([]), None)
  {
  }

  /** The inner loop over one message; `before` is what had arrived earlier. */
  method ScanMessage(t: Template, collector: nat, qs: seq<Quality>, ghost before: seq<Candidate>,
                     best0: Option<Candidate>, slot0: Slot, quality0: int)
    returns (best: Option<Candidate>, bestSlot: Slot, bestQuality: int)
    requires IsBest(t, before, best0) && Variables(t, best0, slot0, quality0)
    ensures IsBest(t, before + FromMessage(collector, qs), best) && Variables(t, best, bestSlot, bestQuality)
  {
    hide IsBest;
    best, bestSlot, bestQuality := best0, slot0, quality0;
    assert before + FromMessage(collector, qs)[..0] == before;
    for i := 0 to |qs|
      invariant IsBest(t, before + FromMessage(collector, qs)[..i], best) && Variables(t, best, bestSlot, bestQuality)
    {
      var c := Candidate(collector, qs[i]);
      ghost var seen := before + FromMessage(collector, qs)[..i];
      assert before + FromMessage(collector, qs)[..i + 1] == seen + [c];
      OneMore(t, seen, best, c);
      var quality := t.QualityOf(c);
      if quality <= t.SelectionTarget(qs[i].slot) {
        continue;
      }
      if qs[i].slot < bestSlot || (qs[i].slot == bestSlot && quality > bestQuality) {
        if !t.passBinding(qs[i]) {
          continue;
        }
        best, bestSlot, bestQuality := Some(c), qs[i].slot, quality;
      }
    }
    assert FromMessage(collector, qs)[..|qs|] == FromMessage(collector, qs);
  }

  // The block header

  datatype Header = Header(timestamp: int, target: nat)

  /** The fields assembleFullBlock writes from the proof template. */
  function Assemble(t: Template, time: int): Header {
    Header(time, t.target(time))
  }

  /** The selection multiplies as uint64 and converts, the header converts and multiplies as int64; the
      two times agree on every slot, also where the product wraps. */
  lemma SameTime(slot: Slot)
    ensures SlotTime(slot) == Int64((slot * POC_SLOT) % U64)
  {
    assert Int64(slot) == slot || Int64(slot) == slot - U64;
    WrapAgrees(slot * POC_SLOT);
  }

  lemma WrapAgrees(x: nat)
    ensures x % U64 % U64 == x % U64 && (x - POC_SLOT * U64) % U64 == x % U64
  {
  }

  /** Three seconds per slot. */
  lemma SlotTimeIs(slot: Slot)
    requires slot < 0x2000_0000_0000_0000
    ensures SlotTime(slot) == 3 * slot
  {
    Int64Fits(slot);
    Int64Fits(3 * slot);
  }

  /** The quality of the assembled block strictly exceeds the target in its own header. */
  lemma BlockBeatsItsTarget(t: Template, cs: seq<Candidate>, c: Candidate)
    requires IsBest(t, cs, Some(c))
    ensures t.QualityOf(c) > Assemble(t, SlotTime(c.q.slot)).target
  {
    SameTime(c.q.slot);
  }

  // Staleness

  datatype Node = Node(capSum: int, timestamp: int, quality: int)

  function IsBetterNode(node: Node, newNode: Node): bool {
    if newNode.capSum < node.capSum then false
    else if newNode.capSum == node.capSum then
      if newNode.timestamp < node.timestamp then true
      else if newNode.timestamp == node.timestamp then newNode.quality > node.quality
      else false
    else true
  }

  /** A node is better with more capacity; at equal capacity if it is earlier; and only then by quality. */
  lemma BetterNodeIff(node: Node, newNode: Node)
    ensures IsBetterNode(node, newNode) <==>
      || newNode.capSum > node.capSum
      || (newNode.capSum == node.capSum && newNode.timestamp < node.timestamp)
      || (newNode.capSum == node.capSum && newNode.timestamp == node.timestamp && newNode.quality > node.quality)
  {
  }

  /** A strict order that ties only nodes equal in all three fields, so a run of better and better nodes
      never comes back to one it has left. */
  lemma {:induction false} BetterNodesNeverReturn(nodes: seq<Node>, i: nat, j: nat)
    requires i < j < |nodes| && forall k :: 0 <= k < |nodes| - 1 ==> IsBetterNode(nodes[k], nodes[k + 1])
    ensures IsBetterNode(nodes[i], nodes[j]) && nodes[i] != nodes[j] && !IsBetterNode(nodes[j], nodes[i])
    decreases j
  {
    if i + 1 < j {
      BetterNodesNeverReturn(nodes, i, j - 1);
    }
  }

  // The mining loop

  /** A mined block: its header, the candidate it was made from and that candidate's quality. */
  datatype Block = Block(header: Header, best: Candidate, quality: int)

  /** The block a round's events lead to: made from the best candidate at the tick that ends the selection,
      stamped with its slot's time, and good enough for the target in its own header. */
  ghost predicate BlockOk(t: Template, events: seq<Event>, b: Block) {
    && (exists n :: Finishes(t, events, n, b.best))
    && b.quality == t.quality(b.best.q, t.height)
    && b.header.timestamp == SlotTime(b.best.q.slot) && b.header.target == t.target(SlotTime(b.best.q.slot))
    && b.quality > b.header.target
  }

  ghost predicate Solvable(t: Template, events: seq<Event>) {
    exists n, c :: Finishes(t, events, n, c)
  }

  /** One round of the block generator: the template, what the selection loop gets to see, and whether
      proof, signatures and chain all go along with the block. */
  datatype Round = Round(template: Template, events: seq<Event>, accepted: bool)

  datatype Result = Refused | NoProof | Rejected | Mined(block: Block)

  /** Some round before `i` mined height `h`. */
  ghost predicate MinedBefore(rounds: seq<Round>, results: seq<Result>, i: nat, h: nat)
    requires i <= |results| <= |rounds|
  {
    exists j :: 0 <= j < i && results[j].Mined? && rounds[j].template.height == h
  }

  class PoCMiner {
    var minedHeight: set<nat>

    constructor ()
      ensures minedHeight == {}
    {
      minedHeight := {};
    }

    /** solveBlock up to the assembled block; the height test comes before any work. For a height not mined
        yet there is a block exactly when the events lead to one. */
    method SolveBlock(r: Round) returns (block: Option<Block>)
      ensures block.Some? <==> r.template.height !in minedHeight && Solvable(r.template, r.events)
      ensures block.Some? ==> BlockOk(r.template, r.events, block.value)
    {
      if r.template.height in minedHeight {
        return None;
      }
      var o, n := GetBestProof(r.template, r.events);
      if !o.Found? {
        return None;
      }
      BlockBeatsItsTarget(r.template, Received(r.events[..n]), o.best);
      return Some(Block(Assemble(r.template, o.time), o.best, o.quality));
    }

    /** generateBlocks over any rounds: a round is refused exactly when its height was mined before, finds no
        proof exactly when its events lead to none, and otherwise mines its block exactly when the outside
        accepts it. */
    method GenerateBlocks(rounds: seq<Round>) returns (results: seq<Result>)
      modifies this
      ensures |results| == |rounds|
      ensures forall h :: h in minedHeight <==> h in old(minedHeight) || MinedBefore(rounds, results, |results|, h)
      ensures forall i :: 0 <= i < |results| ==>
        (results[i].Refused? <==> rounds[i].template.height in old(minedHeight) || MinedBefore(rounds, results, i, rounds[i].template.height))
      ensures forall i :: 0 <= i < |results| ==> RoundOk(rounds[i], results[i])
    {
      hide BlockOk, Solvable;
      results := [];
      for n := 0 to |rounds|
        invariant |results| == n
        invariant forall h :: h in minedHeight <==> h in old(minedHeight) || MinedBefore(rounds, results, n, h)
        invariant forall i :: 0 <= i < n ==>
          (results[i].Refused? <==> rounds[i].template.height in old(minedHeight) || MinedBefore(rounds, results, i, rounds[i].template.height))
        invariant forall i :: 0 <= i < n ==> RoundOk(rounds[i], results[i])
      {
        var r := rounds[n];
        var block := SolveBlock(r);
        var result :=
          if r.template.height in minedHeight then Refused
          else if block.None? then NoProof
          else if !r.accepted then Rejected
          else Mined(block.value);
        Recorded(rounds, results, result);
        results := results + [result];
        if result.Mined? {
          minedHeight := minedHeight + {r.template.height};
        }
      }
    }
  }

  /** A round that was not refused. */
  ghost predicate RoundOk(round: Round, result: Result) {
    match result
    case Refused => true
    case NoProof => !Solvable(round.template, round.events)
    case Rejected => Solvable(round.template, round.events) && !round.accepted
    case Mined(b) => round.accepted && BlockOk(round.template, round.events, b)
  }

  lemma Recorded(rounds: seq<Round>, results: seq<Result>, result: Result)
    requires |results| < |rounds|
    ensures var more, n := results + [result], |results|;
      && (forall i, h :: 0 <= i <= n ==> MinedBefore(rounds, more, i, h) == MinedBefore(rounds, results, i, h))
      && (forall h :: MinedBefore(rounds, more, n + 1, h) <==> MinedBefore(rounds, results, n, h) || (result.Mined? && h == rounds[n].template.height))
  {
    var more, n := results + [result], |results|;
    forall i: nat, h: nat | i <= n ensures MinedBefore(rounds, more, i, h) == MinedBefore(rounds, results, i, h) {
      assert forall j :: 0 <= j < i ==> more[j] == results[j];
      if MinedBefore(rounds, results, i, h) {
        var j :| 0 <= j < i && results[j].Mined? && rounds[j].template.height == h;
        assert more[j].Mined?;
      }
    }
    forall h: nat ensures MinedBefore(rounds, more, n + 1, h) <==> MinedBefore(rounds, results, n, h) || (result.Mined? && h == rounds[n].template.height) {
      if MinedBefore(rounds, results, n, h) {
        var j :| 0 <= j < n && results[j].Mined? && rounds[j].template.height == h;
        assert more[j].Mined?;
      } else if result.Mined? && h == rounds[n].template.height {
        assert more[n].Mined?;
      }
    }
  }
}
