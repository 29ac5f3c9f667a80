/** The per-directory workspace list, kept sorted by plotting priority. */
module WorkSpacePath {
  /** A workspace as this list sees it; the priority is the number computed from ordinal and plot id. */
  datatype Space = Space(sid: string, priority: real)

  ghost predicate Descending(s: seq<Space>) {
    forall i, j :: 0 <= i < j < |s| ==> s[i].priority >= s[j].priority
  }

  ghost predicate DistinctSids(s: seq<Space>) {
    forall i, j :: 0 <= i < j < |s| ==> s[i].sid != s[j].sid
  }

  function Inserted(s: seq<Space>, i: nat, ws: Space): seq<Space>
    requires i <= |s|
  {
    s[..i] + [ws] + s[i..]
  }

  /** Behind everything of at least the same priority. */
  ghost predicate IsPlace(s: seq<Space>, i: nat, p: real) {
    && i <= |s| && (forall j :: 0 <= j < i ==> s[j].priority >= p) && (i < |s| ==> s[i].priority < p)
  }

  lemma InsertedAt(s: seq<Space>, i: nat, ws: Space, j: nat)
    requires i <= |s| && j <= |s|
    ensures Inserted(s, i, ws)[j] == if j < i then s[j] else if j == i then ws else s[j - 1]
  {
  }

  lemma InsertedKeeps(s: seq<Space>, i: nat, ws: Space)
    requires Descending(s) && DistinctSids(s) && IsPlace(s, i, ws.priority)
    requires forall x :: x in s ==> x.sid != ws.sid
    ensures Descending(Inserted(s, i, ws)) && DistinctSids(Inserted(s, i, ws))
    ensures forall x :: x in Inserted(s, i, ws) <==> x == ws || x in s
  {
    hide Inserted;
    var t := Inserted(s, i, ws);
    InsertedMembers(s, i, ws);
    forall j, k | 0 <= j < k < |t| ensures t[j].priority >= t[k].priority && t[j].sid != t[k].sid {
      InsertedAt(s, i, ws, j);
      InsertedAt(s, i, ws, k);
    }
  }

  lemma InsertedMembers(s: seq<Space>, i: nat, ws: Space)
    requires i <= |s|
    ensures |Inserted(s, i, ws)| == |s| + 1
    ensures forall x :: x in Inserted(s, i, ws) <==> x == ws || x in s
  {
    assert s == s[..i] + s[i..];
  }

  /** The map finds exactly the listed workspaces by their sids. */
  ghost predicate Knows(s: seq<Space>, known: map<string, Space>) {
    && (forall x :: x in s ==> x.sid in known && known[x.sid] == x)
    && (forall sid :: sid in known ==> known[sid].sid == sid && known[sid] in s)
  }

  lemma KnowsInserted(s: seq<Space>, known: map<string, Space>, i: nat, ws: Space)
    requires Knows(s, known) && i <= |s| && ws.sid !in known
    ensures Knows(Inserted(s, i, ws), known[ws.sid := ws]) && forall x :: x in s ==> x.sid != ws.sid
  {
    InsertedMembers(s, i, ws);
    hide Inserted;
  }

  class WorkSpacePath {
    var spaces: seq<Space>
    var known: map<string, Space>

    ghost predicate Valid()
      reads this
    {
      Descending(spaces) && DistinctSids(spaces) && Knows(spaces, known)
    }

    constructor ()
      ensures Valid() && spaces == []
    {
      spaces, known := [], map[];
    }

    /** Adds a workspace once, behind those of equal priority. */
    method Add(ws: Space) returns (ghost place: nat)
      requires Valid()
      modifies this
      ensures Valid()
      ensures ws.sid in old(known) ==> spaces == old(spaces)
      ensures ws.sid !in old(known) ==>
        IsPlace(old(spaces), place, ws.priority) && spaces == Inserted(old(spaces), place, ws)
    {
      place := 0;
      if ws.sid in known {
        return;
      }
      hide Inserted, Descending, DistinctSids, Knows;
      var i := 0;
      while i < |spaces| && !(ws.priority > spaces[i].priority)
        invariant 0 <= i <= |spaces|
        invariant forall j :: 0 <= j < i ==> spaces[j].priority >= ws.priority
      {
        i := i + 1;
      }
      place := i;
      KnowsInserted(spaces, known, i, ws);
      InsertedKeeps(spaces, i, ws);
      known := known[ws.sid := ws];
      Insert(i, ws);
    }

    /** insert: append, shift the tail right, overwrite. */
    method Insert(i: nat, ws: Space)
      requires i <= |spaces|
      modifies this`spaces
      ensures spaces == Inserted(old(spaces), i, ws)
    {
      ghost var before := spaces;
      spaces := spaces + [ws];
      var j := |spaces| - 1;
      while j > i
        invariant i <= j < |spaces| == |before| + 1
        invariant forall x :: 0 <= x < j ==> spaces[x] == before[x]
        invariant forall x :: j < x < |spaces| ==> spaces[x] == before[x - 1]
      {
        spaces := spaces[j := spaces[j - 1]];
        j := j - 1;
      }
      spaces := spaces[i := ws];
    }
  }
}
