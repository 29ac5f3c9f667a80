/** Requests and reports in a tree of superiors and collectors. A node is named by the collector ids on
    the way to it: `[]` is the LocalSuperior at the root, an inner node is a RemoteCollector together
    with the RemoteSuperior at the other end of its connection, a leaf is a LocalCollector. A remote
    superior broadcasts every request to all its children and drops the child's id from every report
    it passes on, so at the root only the id of a direct child is known. */
module Routing {
  type Id = nat
  type Path = seq<Id>
  type SpaceId = nat

  /** The tree, and the plot spaces held at each node. */
  datatype Tree = Tree(nodes: set<Path>, spaces: map<Path, set<SpaceId>>)

  ghost predicate WellFormed(t: Tree) {
    forall p, k :: p in t.nodes && 0 <= k <= |p| ==> p[..k] in t.nodes
  }

  ghost predicate IsLeaf(t: Tree, p: Path) {
    p in t.nodes && p != [] && forall i :: p + [i] !in t.nodes
  }

  ghost predicate Holds(t: Tree, p: Path, sp: SpaceId) {
    p in t.spaces && sp in t.spaces[p]
  }

  datatype Kind = Qualities | Proof | Signature

  /** `space` is not used by a qualities request. */
  datatype Request = Request(task: nat, kind: Kind, space: SpaceId)

  datatype Report = Report(task: nat, kind: Kind, space: SpaceId)

  /** A request issued to the collector at `at`. */
  datatype Down = Down(at: Path, req: Request)

  /** A report made by the collector at `at`; `origin` and `req` are history, not message fields. */
  datatype Up = Up(at: Path, rep: Report, origin: Path, req: Request)

  /** A report at the root under the id the root sees. */
  datatype Arrival = Arrival(cid: Id, rep: Report, origin: Path, req: Request)

  /** `sent` records which requests the root issued to which of its collectors. */
  datatype Net = Net(down: set<Down>, handled: set<Down>, up: set<Up>, arrived: set<Arrival>, sent: set<(Id, Request)>)

  const INIT := Net({}, {}, {}, {}, {})

  datatype Action =
    | SendTo(c: Id, req: Request)
    | BroadcastAll(req: Request)
    | Relay(d: Down)
    | Handle(d: Down)
    | ReportQuality(d: Down, space: SpaceId)
    | Forward(u: Up)
    | DropDown(d: Down)
    | DropUp(u: Up)

  ghost function Children(t: Tree, p: Path, req: Request): set<Down> {
    set q | q in t.nodes && |q| == |p| + 1 && q[..|p|] == p :: Down(q, req)
  }

  /** What onRequestProof and onRequestSignature answer: nothing when the keeper lacks the space. */
  ghost function Answer(t: Tree, d: Down): set<Up> {
    if d.req.kind != Qualities && Holds(t, d.at, d.req.space)
    then {Up(d.at, Report(d.req.task, d.req.kind, d.req.space), d.at, d.req)} else {}
  }

  ghost predicate Enabled(t: Tree, s: Net, a: Action) {
    match a
    case SendTo(_, _) => true
    case BroadcastAll(_) => true
    case Relay(d) => d in s.down && !IsLeaf(t, d.at)
    case Handle(d) => d in s.down && IsLeaf(t, d.at)
    case ReportQuality(d, sp) => d in s.handled && d.req.kind == Qualities && Holds(t, d.at, sp)
    case Forward(u) => u in s.up && u.at != []
    case DropDown(d) => d in s.down
    case DropUp(u) => u in s.up
  }

  ghost function Apply(t: Tree, s: Net, a: Action): Net
    requires Enabled(t, s, a)
  {
    match a
    case SendTo(c, req) =>
      if [c] in t.nodes then s.(down := s.down + {Down([c], req)}, sent := s.sent + {(c, req)}) else s
    case BroadcastAll(req) =>
      s.(down := s.down + Children(t, [], req), sent := s.sent + set q | q in t.nodes && |q| == 1 :: (q[0], req))
    case Relay(d) => s.(down := s.down - {d} + Children(t, d.at, d.req))
    case Handle(d) => s.(down := s.down - {d}, handled := s.handled + {d}, up := s.up + Answer(t, d))
    case ReportQuality(d, sp) => s.(up := s.up + {Up(d.at, Report(d.req.task, Qualities, sp), d.at, d.req)})
    case Forward(u) =>
      if |u.at| == 1 then s.(up := s.up - {u}, arrived := s.arrived + {Arrival(u.at[0], u.rep, u.origin, u.req)})
      else s.(up := s.up - {u} + {u.(at := u.at[..|u.at| - 1])})
    case DropDown(d) => s.(down := s.down - {d})
    case DropUp(u) => s.(up := s.up - {u})
  }

  ghost predicate Step(t: Tree, s: Net, a: Action, s': Net) {
    Enabled(t, s, a) && s' == Apply(t, s, a)
  }

  ghost predicate IsRun(t: Tree, ss: seq<Net>, acts: seq<Action>) {
    && |ss| == |acts| + 1 && ss[0] == INIT
    && forall i :: 0 <= i < |acts| ==> Step(t, ss[i], acts[i], ss[i + 1])
  }

  // Where a message can be

  ghost predicate SentDown(t: Tree, s: Net, d: Down) {
    d.at in t.nodes && d.at != [] && (d.at[0], d.req) in s.sent
  }

  /** The report answers `req` at the leaf `origin`, from a space that leaf holds. */
  ghost predicate Genuine(t: Tree, s: Net, rep: Report, origin: Path, req: Request) {
    && IsLeaf(t, origin) && SentDown(t, s, Down(origin, req)) && Holds(t, origin, rep.space)
    && rep.task == req.task && rep.kind == req.kind && (req.kind != Qualities ==> rep.space == req.space)
  }

  ghost predicate UpInv(t: Tree, s: Net, u: Up) {
    Genuine(t, s, u.rep, u.origin, u.req) && 0 < |u.at| <= |u.origin| && u.at == u.origin[..|u.at|]
  }

  ghost predicate ArrivalInv(t: Tree, s: Net, a: Arrival) {
    Genuine(t, s, a.rep, a.origin, a.req) && a.cid == a.origin[0]
  }

  ghost predicate Inv(t: Tree, s: Net) {
    && (forall d :: d in s.down ==> SentDown(t, s, d))
    && (forall d :: d in s.handled ==> SentDown(t, s, d) && IsLeaf(t, d.at))
    && (forall u :: u in s.up ==> UpInv(t, s, u))
    && (forall a :: a in s.arrived ==> ArrivalInv(t, s, a))
  }

  lemma GenuineStays(t: Tree, s: Net, s': Net)
    requires Inv(t, s) && s.sent <= s'.sent
    ensures forall d :: SentDown(t, s, d) ==> SentDown(t, s', d)
    ensures forall u :: u in s.up ==> UpInv(t, s', u)
    ensures forall a :: a in s.arrived ==> ArrivalInv(t, s', a)
  {
  }

  lemma StepKeeps(t: Tree, s: Net, a: Action, s': Net)
    requires WellFormed(t) && Inv(t, s) && Step(t, s, a, s')
    ensures Inv(t, s')
  {
    GenuineStays(t, s, s');
    match a {
      case SendTo(c, req) =>
      case BroadcastAll(req) =>
        forall q | q in t.nodes && |q| == 1 ensures q[..0] == [] {}
      case Relay(d) =>
        assert SentDown(t, s, d);
      case Handle(d) =>
        assert d.at[..|d.at|] == d.at;
      case ReportQuality(d, sp) =>
        assert d.at[..|d.at|] == d.at;
      case Forward(u) =>
        assert UpInv(t, s, u);
        assert u.at[..|u.at| - 1] == u.origin[..|u.at| - 1];
      case DropDown(d) =>
      case DropUp(u) =>
    }
  }

  lemma {:induction false} EveryRunKeeps(t: Tree, ss: seq<Net>, acts: seq<Action>, n: nat)
    requires WellFormed(t) && IsRun(t, ss, acts) && n < |ss|
    ensures Inv(t, ss[n])
  {
    if n > 0 {
      hide Inv, Step;
      EveryRunKeeps(t, ss, acts, n - 1);
      StepKeeps(t, ss[n - 1], acts[n - 1], ss[n]);
    }
  }

  /** The root issues the request to collector `c`: to it alone, or to all of its children. */
  ghost predicate Issues(a: Action, c: Id, req: Request) {
    a == SendTo(c, req) || a == BroadcastAll(req)
  }

  ghost predicate IssuedBefore(acts: seq<Action>, n: nat, c: Id, req: Request) {
    exists i :: 0 <= i < n <= |acts| && Issues(acts[i], c, req)
  }

  /** The history of a run is right: `c` was sent a request exactly if it is a child of the root and a call
      addressed it. */
  lemma {:induction false} SentIff(t: Tree, ss: seq<Net>, acts: seq<Action>, n: nat, c: Id, req: Request)
    requires IsRun(t, ss, acts) && n < |ss|
    ensures (c, req) in ss[n].sent <==> [c] in t.nodes && IssuedBefore(acts, n, c, req)
  {
    if n > 0 {
      SentIff(t, ss, acts, n - 1, c, req);
      assert Step(t, ss[n - 1], acts[n - 1], ss[n]);
      SentStep(t, ss[n - 1], acts[n - 1], ss[n], c, req);
      assert IssuedBefore(acts, n, c, req) <==> IssuedBefore(acts, n - 1, c, req) || Issues(acts[n - 1], c, req);
    }
  }

  lemma SentStep(t: Tree, s: Net, a: Action, s': Net, c: Id, req: Request)
    requires Step(t, s, a, s')
    ensures (c, req) in s'.sent <==> (c, req) in s.sent || ([c] in t.nodes && Issues(a, c, req))
  {
    if a == BroadcastAll(req) {
      assert [c] in t.nodes ==> [c][0] == c;
      assert forall q: Path :: |q| == 1 && q[0] == c ==> q == [c];
    }
  }

  /** Every report at the root was made by a leaf below the collector whose id it carries, from a space
      that leaf holds, and answers a request that a call of the root addressed to that very collector. */
  lemma RepliesComeFromBelow(t: Tree, ss: seq<Net>, acts: seq<Action>, n: nat, a: Arrival)
    requires WellFormed(t) && IsRun(t, ss, acts) && n < |ss| && a in ss[n].arrived
    ensures IsLeaf(t, a.origin) && a.origin[0] == a.cid && Holds(t, a.origin, a.rep.space)
    ensures IssuedBefore(acts, n, a.cid, a.req) && a.rep.task == a.req.task && a.rep.kind == a.req.kind
    ensures a.req.kind != Qualities ==> a.rep.space == a.req.space
  {
    EveryRunKeeps(t, ss, acts, n);
    assert ArrivalInv(t, ss[n], a);
    SentIff(t, ss, acts, n, a.cid, a.req);
  }

  // Every leaf below the addressed collector is reached

  ghost predicate Travelling(s: Net, leaf: Path, req: Request, k: nat) {
    0 < k <= |leaf| && Down(leaf[..k], req) in s.down
  }

  ghost predicate Returning(s: Net, leaf: Path, rep: Report, req: Request, k: nat) {
    0 < k <= |leaf| && Up(leaf[..k], rep, leaf, req) in s.up
  }

  ghost function AnswerOf(req: Request): Report {
    Report(req.task, req.kind, req.space)
  }

  /** The request is on its way to the leaf, or the leaf has handled it. */
  ghost predicate Reached(s: Net, leaf: Path, req: Request) {
    Down(leaf, req) in s.handled || exists k: nat :: Travelling(s, leaf, req, k)
  }

  ghost predicate Answered(s: Net, leaf: Path, req: Request) {
    leaf != [] && (Arrival(leaf[0], AnswerOf(req), leaf, req) in s.arrived || exists k: nat :: Returning(s, leaf, AnswerOf(req), req, k))
  }

  ghost predicate Covered(t: Tree, s: Net, leaf: Path, req: Request) {
    && Reached(s, leaf, req)
    && (Down(leaf, req) in s.handled && req.kind != Qualities && Holds(t, leaf, req.space) ==> Answered(s, leaf, req))
  }

  ghost predicate Loses(a: Action, req: Request) {
    (a.DropDown? && a.d.req == req) || (a.DropUp? && a.u.req == req)
  }

  lemma ReachedStep(t: Tree, s: Net, a: Action, s': Net, leaf: Path, req: Request)
    requires WellFormed(t) && IsLeaf(t, leaf) && Step(t, s, a, s') && !Loses(a, req) && Reached(s, leaf, req)
    ensures Reached(s', leaf, req)
  {
    if Down(leaf, req) !in s.handled {
      var k: nat :| Travelling(s, leaf, req, k);
      var d := Down(leaf[..k], req);
      assert leaf[..|leaf|] == leaf;
      if k < |leaf| {
        InnerNode(t, leaf, k);
      }
      if a == Relay(d) {
        var q := leaf[..k + 1];
        assert q in t.nodes && q[..k] == leaf[..k];
        assert Down(q, req) in Children(t, d.at, req);
        assert Travelling(s', leaf, req, k + 1);
      } else if a == Handle(d) {
      } else {
        assert d in s'.down;
        assert Travelling(s', leaf, req, k);
      }
    }
  }

  /** A proper part of a leaf's path names an inner node. */
  lemma InnerNode(t: Tree, leaf: Path, k: nat)
    requires WellFormed(t) && IsLeaf(t, leaf) && k < |leaf|
    ensures !IsLeaf(t, leaf[..k])
  {
    assert leaf[..k + 1] == leaf[..k] + [leaf[k]];
    assert leaf[..k + 1] in t.nodes;
  }

  lemma AnsweredStep(t: Tree, s: Net, a: Action, s': Net, leaf: Path, req: Request)
    requires Step(t, s, a, s') && !Loses(a, req) && Answered(s, leaf, req)
    ensures Answered(s', leaf, req)
  {
    if Arrival(leaf[0], AnswerOf(req), leaf, req) !in s.arrived {
      var k: nat :| Returning(s, leaf, AnswerOf(req), req, k);
      var u := Up(leaf[..k], AnswerOf(req), leaf, req);
      if a == Forward(u) {
        if k > 1 {
          assert u.at[..k - 1] == leaf[..k - 1];
          assert Returning(s', leaf, AnswerOf(req), req, k - 1);
        }
      } else {
        assert Returning(s', leaf, AnswerOf(req), req, k);
      }
    }
  }

  lemma CoveredStep(t: Tree, s: Net, a: Action, s': Net, leaf: Path, req: Request)
    requires WellFormed(t) && IsLeaf(t, leaf) && Step(t, s, a, s') && !Loses(a, req) && Covered(t, s, leaf, req)
    ensures Covered(t, s', leaf, req)
  {
    ReachedStep(t, s, a, s', leaf, req);
    if Down(leaf, req) in s'.handled && req.kind != Qualities && Holds(t, leaf, req.space) {
      if Down(leaf, req) in s.handled {
        AnsweredStep(t, s, a, s', leaf, req);
      } else {
        assert a == Handle(Down(leaf, req));
        assert leaf[..|leaf|] == leaf;
        assert Returning(s', leaf, AnswerOf(req), req, |leaf|);
      }
    }
  }

  /** A new request to `c`, by itself or to all: as long as no message of it is lost, every leaf below `c`
      has it under way or has handled it, and then has answered or is answering. */
  lemma {:induction false} CoveredAfterSend(t: Tree, ss: seq<Net>, acts: seq<Action>, j: nat, n: nat, c: Id, req: Request, leaf: Path)
    requires WellFormed(t) && IsRun(t, ss, acts) && j < n < |ss|
    requires Issues(acts[j], c, req) && !IssuedBefore(acts, j, c, req)
    requires forall i :: j < i < n ==> !Loses(acts[i], req)
    requires IsLeaf(t, leaf) && leaf[0] == c
    ensures Covered(t, ss[n], leaf, req)
    decreases n
  {
    assert Step(t, ss[n - 1], acts[n - 1], ss[n]);
    if n == j + 1 {
      EveryRunKeeps(t, ss, acts, j);
      SentIff(t, ss, acts, j, c, req);
      assert leaf[..1] == [c] && leaf[..1] in t.nodes && [c][..0] == [];
      assert Travelling(ss[n], leaf, req, 1);
      assert !SentDown(t, ss[j], Down(leaf, req));
    } else {
      CoveredAfterSend(t, ss, acts, j, n - 1, c, req, leaf);
      CoveredStep(t, ss[n - 1], acts[n - 1], ss[n], leaf, req);
    }
  }

  /** No message of this request is under way any more. */
  ghost predicate Quiet(s: Net, req: Request) {
    (forall d :: d in s.down ==> d.req != req) && (forall u :: u in s.up ==> u.req != req)
  }

  /** When a new proof or signature request to `c`, by itself or to all, has run its course and no message
      of it was lost, the replies at the root under `c` are exactly those of the leaves below `c` that hold
      the space. */
  lemma RepliesAreExact(t: Tree, ss: seq<Net>, acts: seq<Action>, j: nat, n: nat, c: Id, req: Request, leaf: Path)
    requires WellFormed(t) && IsRun(t, ss, acts) && j < n < |ss|
    requires Issues(acts[j], c, req) && !IssuedBefore(acts, j, c, req) && req.kind != Qualities
    requires (forall i :: j < i < n ==> !Loses(acts[i], req)) && Quiet(ss[n], req)
    ensures Arrival(c, AnswerOf(req), leaf, req) in ss[n].arrived
      <==> IsLeaf(t, leaf) && leaf[0] == c && Holds(t, leaf, req.space)
  {
    var a := Arrival(c, AnswerOf(req), leaf, req);
    if a in ss[n].arrived {
      RepliesComeFromBelow(t, ss, acts, n, a);
    }
    if IsLeaf(t, leaf) && leaf[0] == c && Holds(t, leaf, req.space) {
      CoveredAfterSend(t, ss, acts, j, n, c, req, leaf);
      assert forall k: nat :: !Travelling(ss[n], leaf, req, k);
      assert forall k: nat :: !Returning(ss[n], leaf, AnswerOf(req), req, k);
    }
  }

  /** The round trip the miner relies on: a quality report under `c` tells it where to ask, and asking
      `c` for that space reaches the leaf the report came from, which answers under `c`. */
  lemma QualityThenRequest(t: Tree, ss: seq<Net>, acts: seq<Action>, i: nat, j: nat, n: nat, q: Arrival, req: Request)
    requires WellFormed(t) && IsRun(t, ss, acts) && i <= j < n < |ss|
    requires q in ss[i].arrived && q.rep.kind == Qualities
    requires Issues(acts[j], q.cid, req) && !IssuedBefore(acts, j, q.cid, req) && req.kind != Qualities && req.space == q.rep.space
    requires (forall i :: j < i < n ==> !Loses(acts[i], req)) && Quiet(ss[n], req)
    ensures Down(q.origin, req) in ss[n].handled
    ensures Arrival(q.cid, AnswerOf(req), q.origin, req) in ss[n].arrived
  {
    RepliesComeFromBelow(t, ss, acts, i, q);
    RepliesAreExact(t, ss, acts, j, n, q.cid, req, q.origin);
    CoveredAfterSend(t, ss, acts, j, n, q.cid, req, q.origin);
    assert forall k: nat :: !Travelling(ss[n], q.origin, req, k);
  }

  /** The chain of broadcasts can always be completed: one relay per level, then the leaf handles it. */
  lemma {:induction false} ChainReachesLeaf(t: Tree, s: Net, leaf: Path, req: Request, k: nat) returns (ss: seq<Net>, acts: seq<Action>)
    requires WellFormed(t) && IsLeaf(t, leaf) && Travelling(s, leaf, req, k)
    ensures |acts| == |leaf| - k + 1 && |ss| == |acts| + 1 && ss[0] == s
    ensures forall i :: 0 <= i < |acts| ==> Step(t, ss[i], acts[i], ss[i + 1])
    ensures Down(leaf, req) in ss[|acts|].handled
    decreases |leaf| - k
  {
    var d := Down(leaf[..k], req);
    if k == |leaf| {
      assert leaf[..k] == leaf;
      ss, acts := [s, Apply(t, s, Handle(d))], [Handle(d)];
    } else {
      InnerNode(t, leaf, k);
      var s1 := Apply(t, s, Relay(d));
      assert leaf[..k + 1] in t.nodes && leaf[..k + 1][..k] == leaf[..k];
      assert Down(leaf[..k + 1], req) in Children(t, d.at, req);
      assert Travelling(s1, leaf, req, k + 1);
      var rest, more := ChainReachesLeaf(t, s1, leaf, req, k + 1);
      ss, acts := [s] + rest, [Relay(d)] + more;
      assert Step(t, ss[0], acts[0], ss[1]);
      assert forall i :: 0 <= i < |more| ==> Step(t, rest[i], more[i], rest[i + 1]);
      forall i | 0 < i < |acts| ensures Step(t, ss[i], acts[i], ss[i + 1]) {
        assert Step(t, rest[i - 1], more[i - 1], rest[i]);
      }
    }
  }

  /** And a report can always be brought to the root, one step per level. */
  lemma {:induction false} ReportReachesRoot(t: Tree, s: Net, leaf: Path, rep: Report, req: Request, k: nat) returns (ss: seq<Net>, acts: seq<Action>)
    requires Returning(s, leaf, rep, req, k)
    ensures |acts| == k && |ss| == k + 1 && ss[0] == s
    ensures forall i :: 0 <= i < k ==> Step(t, ss[i], acts[i], ss[i + 1])
    ensures Arrival(leaf[0], rep, leaf, req) in ss[k].arrived
    decreases k
  {
    var u := Up(leaf[..k], rep, leaf, req);
    var s1 := Apply(t, s, Forward(u));
    if k == 1 {
      ss, acts := [s, s1], [Forward(u)];
    } else {
      assert leaf[..k][..k - 1] == leaf[..k - 1];
      assert Returning(s1, leaf, rep, req, k - 1);
      var rest, more := ReportReachesRoot(t, s1, leaf, rep, req, k - 1);
      ss, acts := [s] + rest, [Forward(u)] + more;
      assert Step(t, ss[0], acts[0], ss[1]);
      forall i | 0 < i < k ensures Step(t, ss[i], acts[i], ss[i + 1]) {
        assert Step(t, rest[i - 1], more[i - 1], rest[i]);
      }
    }
  }

  /** A leaf that has a qualities task can report each space it holds, and the report can reach the root under
      the id of the child above the leaf. */
  lemma QualityReachesRoot(t: Tree, s: Net, leaf: Path, req: Request, sp: SpaceId) returns (ss: seq<Net>, acts: seq<Action>)
    requires leaf != [] && Down(leaf, req) in s.handled && req.kind == Qualities && Holds(t, leaf, sp)
    ensures |acts| == |leaf| + 1 && |ss| == |acts| + 1 && ss[0] == s
    ensures forall i :: 0 <= i < |acts| ==> Step(t, ss[i], acts[i], ss[i + 1])
    ensures Arrival(leaf[0], Report(req.task, Qualities, sp), leaf, req) in ss[|acts|].arrived
  {
    var a := ReportQuality(Down(leaf, req), sp);
    var s1 := Apply(t, s, a);
    assert leaf[..|leaf|] == leaf;
    assert Returning(s1, leaf, Report(req.task, Qualities, sp), req, |leaf|);
    var rest, more := ReportReachesRoot(t, s1, leaf, Report(req.task, Qualities, sp), req, |leaf|);
    ss, acts := [s] + rest, [a] + more;
    assert Step(t, ss[0], acts[0], ss[1]);
    forall i | 0 < i < |acts| ensures Step(t, ss[i], acts[i], ss[i + 1]) {
      assert Step(t, rest[i - 1], more[i - 1], rest[i]);
    }
  }
}
