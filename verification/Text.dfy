/** The three string helpers the mnemonic codec takes from Go's strings package. */
module Text {
  /** unicode.IsSpace */
  predicate IsSpace(c: char) {
    || '\t' <= c <= '\r' || c == ' ' || c == '\U{85}' || c == '\U{A0}'
    || c == '\U{1680}' || '\U{2000}' <= c <= '\U{200A}' || c == '\U{2028}' || c == '\U{2029}'
    || c == '\U{202F}' || c == '\U{205F}' || c == '\U{3000}'
  }

  predicate IsWord(w: string) {
    w != [] && forall i :: 0 <= i < |w| ==> !IsSpace(w[i])
  }

  /** Length of the leading run of non-space characters. */
  function RunLength(s: string): (k: nat)
    ensures k <= |s|
    ensures forall i :: 0 <= i < k ==> !IsSpace(s[i])
    ensures k < |s| ==> IsSpace(s[k])
  {
    if s == [] || IsSpace(s[0]) then 0 else 1 + RunLength(s[1..])
  }

  /** strings.Fields: the maximal runs of non-space characters. */
  function Fields(s: string): (ws: seq<string>)
    ensures forall i :: 0 <= i < |ws| ==> IsWord(ws[i])
    decreases |s|
  {
    if s == [] then []
    else if IsSpace(s[0]) then Fields(s[1..])
    else
      var k := RunLength(s);
      [s[..k]] + Fields(s[k..])
  }

  function TrimLeft(s: string): string {
    if s != [] && IsSpace(s[0]) then TrimLeft(s[1..]) else s
  }

  function TrimRight(s: string): string {
    if s != [] && IsSpace(s[|s| - 1]) then TrimRight(s[..|s| - 1]) else s
  }

  /** strings.TrimSpace */
  function TrimSpace(s: string): string {
    TrimRight(TrimLeft(s))
  }

  /** strings.Join with a single space. */
  function Join(ws: seq<string>): string {
    if ws == [] then "" else if |ws| == 1 then ws[0] else ws[0] + " " + Join(ws[1..])
  }

  lemma RunOf(w: string, rest: string)
    requires forall i :: 0 <= i < |w| ==> !IsSpace(w[i])
    requires rest == [] || IsSpace(rest[0])
    ensures RunLength(w + rest) == |w|
  {
    var s, k := w + rest, RunLength(w + rest);
    assert forall i :: 0 <= i < |w| ==> s[i] == w[i];
    assert rest != [] ==> s[|w|] == rest[0];
  }

  lemma {:induction false} FieldsOfJoin(ws: seq<string>)
    requires forall i :: 0 <= i < |ws| ==> IsWord(ws[i])
    ensures Fields(Join(ws)) == ws
  {
    if |ws| == 1 {
      RunOf(ws[0], "");
      assert ws[0] + "" == ws[0];
      assert ws[0][|ws[0]|..] == "";
    } else if |ws| > 1 {
      var rest := " " + Join(ws[1..]);
      var s := ws[0] + rest;
      assert s == Join(ws);
      RunOf(ws[0], rest);
      assert s[..|ws[0]|] == ws[0] && s[|ws[0]|..] == rest;
      assert rest[1..] == Join(ws[1..]);
      FieldsOfJoin(ws[1..]);
    }
  }

  lemma {:induction false} FieldsDropTrailingSpace(s: string, c: char)
    requires IsSpace(c)
    ensures Fields(s + [c]) == Fields(s)
    decreases |s|
  {
    if s == [] {
      assert (s + [c])[1..] == [];
    } else if IsSpace(s[0]) {
      assert (s + [c])[1..] == s[1..] + [c];
      FieldsDropTrailingSpace(s[1..], c);
    } else {
      var k := RunLength(s);
      assert s + [c] == s[..k] + (s[k..] + [c]);
      RunOf(s[..k], s[k..] + [c]);
      assert (s + [c])[..k] == s[..k] && (s + [c])[k..] == s[k..] + [c];
      FieldsDropTrailingSpace(s[k..], c);
    }
  }

  lemma {:induction false} FieldsOfTrimLeft(s: string)
    ensures Fields(TrimLeft(s)) == Fields(s)
  {
    if s != [] && IsSpace(s[0]) {
      FieldsOfTrimLeft(s[1..]);
    }
  }

  lemma {:induction false} FieldsOfTrimRight(s: string)
    ensures Fields(TrimRight(s)) == Fields(s)
  {
    hide Fields;
    if s != [] && IsSpace(s[|s| - 1]) {
      var init := s[..|s| - 1];
      FieldsOfTrimRight(init);
      FieldsDropTrailingSpace(init, s[|s| - 1]);
      assert init + [s[|s| - 1]] == s;
    }
  }

  lemma FieldsOfTrimSpace(s: string)
    ensures Fields(TrimSpace(s)) == Fields(s)
  {
    FieldsOfTrimLeft(s);
    FieldsOfTrimRight(TrimLeft(s));
  }

  /** A blank splits a text into the words before it and the words after it. */
  lemma {:induction false} FieldsAtSpace(a: string, c: char, b: string)
    requires IsSpace(c)
    ensures Fields(a + [c] + b) == Fields(a) + Fields(b)
    decreases |a|
  {
    hide IsSpace;
    var s := a + [c] + b;
    if a == [] {
      assert s[1..] == b;
    } else if IsSpace(a[0]) {
      assert s[1..] == a[1..] + [c] + b;
      FieldsAtSpace(a[1..], c, b);
    } else {
      var k := RunLength(a);
      assert s == a[..k] + (a[k..] + [c] + b);
      RunOf(a[..k], a[k..] + [c] + b);
      assert s[..k] == a[..k] && s[k..] == a[k..] + [c] + b;
      FieldsAtSpace(a[k..], c, b);
    }
  }

  /** The only white space is the blank, no two blanks are adjacent, and none stands at either end. */
  ghost predicate SingleSpaced(s: string) {
    forall i :: 0 <= i < |s| && IsSpace(s[i]) ==> s[i] == ' ' && 0 < i < |s| - 1 && !IsSpace(s[i + 1])
  }

  lemma NoBlanks(w: string)
    requires IsWord(w)
    ensures multiset(w)[' '] == 0
  {
    assert forall i :: 0 <= i < |w| ==> w[i] != ' ';
  }

  /** Joined words: one blank between neighbours and no other white space. */
  lemma {:induction false} JoinShape(ws: seq<string>)
    requires ws != [] && forall i :: 0 <= i < |ws| ==> IsWord(ws[i])
    ensures SingleSpaced(Join(ws)) && Join(ws) != [] && !IsSpace(Join(ws)[0]) && multiset(Join(ws))[' '] == |ws| - 1
  {
    hide IsSpace, SingleSpaced;
    NoBlanks(ws[0]);
    if |ws| > 1 {
      JoinShape(ws[1..]);
      Glued(ws[0], Join(ws[1..]));
    } else {
      Glued(ws[0], "");
    }
  }

  lemma Glued(w: string, rest: string)
    requires IsWord(w)
    ensures SingleSpaced(w)
    ensures SingleSpaced(rest) && rest != [] && !IsSpace(rest[0]) ==>
      SingleSpaced(w + " " + rest) && !IsSpace((w + " " + rest)[0]) && multiset(w + " " + rest)[' '] == 1 + multiset(rest)[' ']
  {
    NoBlanks(w);
    hide IsSpace;
    var s := w + " " + rest;
    assert forall i :: 0 <= i < |w| ==> s[i] == w[i] && !IsSpace(s[i]);
    if SingleSpaced(rest) && rest != [] && !IsSpace(rest[0]) {
      forall i | 0 <= i < |s| && IsSpace(s[i]) ensures s[i] == ' ' && 0 < i < |s| - 1 && !IsSpace(s[i + 1]) {
        if i == |w| {
          assert s[i + 1] == rest[0];
        } else {
          assert s[i] == rest[i - |w| - 1] && (i < |s| - 1 ==> s[i + 1] == rest[i - |w|]);
        }
      }
    }
  }

  /** So the joined text is determined by its words. */
  lemma {:induction false} SingleSpacedIsJoin(s: string)
    requires SingleSpaced(s)
    ensures s == Join(Fields(s))
    decreases |s|
  {
    hide IsSpace;
    if s != [] {
      assert !IsSpace(s[0]);
      var k := RunLength(s);
      if k < |s| {
        var rest := s[k + 1..];
        TailSpaced(s, k);
        hide SingleSpaced;
        assert s[k..][1..] == rest && s == s[..k] + " " + rest;
        SingleSpacedIsJoin(rest);
        assert Fields(s) == [s[..k]] + Fields(rest) && Fields(rest) != [];
      } else {
        assert s[..k] == s && s[k..] == [];
      }
    }
  }

  lemma TailSpaced(s: string, k: nat)
    requires SingleSpaced(s) && k < |s| && IsSpace(s[k])
    ensures s[k] == ' ' && k + 1 < |s| && !IsSpace(s[k + 1]) && SingleSpaced(s[k + 1..])
  {
    hide IsSpace;
    var rest := s[k + 1..];
    assert rest != [] && !IsSpace(rest[0]);
    forall i | 0 <= i < |rest| && IsSpace(rest[i]) ensures rest[i] == ' ' && 0 < i < |rest| - 1 && !IsSpace(rest[i + 1]) {
      assert rest[i] == s[k + 1 + i];
      assert i < |rest| - 1 ==> rest[i + 1] == s[k + 2 + i];
    }
  }
}
