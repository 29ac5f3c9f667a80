/** Every operation keeps the keystore invariant: address allocation, passphrase changes, restarts, and
    with them every run. */
module KeystoreSteps {
  import opened Common
  import opened Keystore
  import opened KeystoreInvariant

  // Allocation

  ghost predicate StrictlyIncreasing(ix: seq<nat>) {
    forall i, j :: 0 <= i < j < |ix| ==> ix[i] < ix[j]
  }

  lemma {:induction false} NextUsableIs(env: Env, x: ExtendedKey, next: nat)
    ensures var r := NextUsable(env, x, next);
      && (r.Some? ==> next <= r.value < Limit(x) && HasChild(env, x, r.value) && forall j :: next <= j < r.value ==> !HasChild(env, x, j))
      && (r.None? ==> forall j :: next <= j < Limit(x) ==> !HasChild(env, x, j))
    decreases Limit(x) - next
  {
    if next < Limit(x) && !HasChild(env, x, next) {
      NextUsableIs(env, x, next + 1);
    }
  }

  /** The issued indices are the usable ones from the child number up to the new child number, none left
      out and none twice, in increasing order. */
  lemma {:induction false} IssueIs(env: Env, x: ExtendedKey, next: nat, n: nat)
    requires Issue(env, x, next, n).Some?
    ensures IsIssued(env, x, next, Issue(env, x, next, n).value) && |Issue(env, x, next, n).value| == n
    decreases n
  {
    if n > 0 {
      NextUsableIs(env, x, next);
      var i := NextUsable(env, x, next).value;
      var rest := Issue(env, x, i + 1, n - 1).value;
      assert Issue(env, x, next, n) == Some([i] + rest);
      hide Issue, NextUsable, IsIssued;
      IssueIs(env, x, i + 1, n - 1);
      OneMoreIssued(env, x, next, i, rest);
    }
  }

  ghost predicate IsIssued(env: Env, x: ExtendedKey, next: nat, ix: seq<nat>) {
    && StrictlyIncreasing(ix) && next <= After(next, ix) && (ix != [] ==> After(next, ix) <= Limit(x))
    && (forall j :: j in ix <==> next <= j < After(next, ix) && HasChild(env, x, j))
  }

  lemma OneMoreIssued(env: Env, x: ExtendedKey, next: nat, i: nat, rest: seq<nat>)
    requires next <= i < Limit(x) && HasChild(env, x, i) && (forall j :: next <= j < i ==> !HasChild(env, x, j))
    requires IsIssued(env, x, i + 1, rest)
    ensures IsIssued(env, x, next, [i] + rest)
  {
    hide HasChild;
    var ix := [i] + rest;
    assert After(next, ix) == After(i + 1, rest);
    forall j ensures j in ix <==> next <= j < After(next, ix) && HasChild(env, x, j) {
      assert j in ix <==> j == i || j in rest;
    }
    forall k | 0 <= k < |rest| ensures rest[k] > i {
      assert rest[k] in rest;
    }
  }

  function Prepended(first: seq<nat>, rest: Option<seq<nat>>): Option<seq<nat>> {
    if rest.None? then None else Some(first + rest.value)
  }

  /** nextAddresses, as the source loops: `n` times, skip invalid children, take the next usable one. */
  method NextIndices(env: Env, x: ExtendedKey, next: nat, n: nat) returns (r: Option<seq<nat>>)
    ensures r == Issue(env, x, next, n)
  {
    var nextIndex: nat, issued: seq<nat> := next, [];
    ghost var all := Issue(env, x, next, n);
    assert all.Some? ==> [] + all.value == all.value;
    for i := 0 to n
      invariant nextIndex == After(next, issued) && |issued| == i
      invariant Issue(env, x, next, n) == Prepended(issued, Issue(env, x, nextIndex, n - i))
    {
      while nextIndex < Limit(x) && !HasChild(env, x, nextIndex)
        invariant NextUsable(env, x, nextIndex) == NextUsable(env, x, After(next, issued))
        invariant nextIndex >= After(next, issued)
        decreases Limit(x) - nextIndex
      {
        nextIndex := nextIndex + 1;
      }
      var start := After(next, issued);
      if nextIndex >= Limit(x) {
        assert NextUsable(env, x, nextIndex) == None;
        return None;
      }
      assert NextUsable(env, x, start) == Some(nextIndex);
      ghost var more := Issue(env, x, nextIndex + 1, n - i - 1);
      assert more.Some? ==> issued + ([nextIndex] + more.value) == (issued + [nextIndex]) + more.value;
      issued := issued + [nextIndex];
      nextIndex := nextIndex + 1;
    }
    assert issued + [] == issued;
    return Some(issued);
  }

  /** The usable slots up to the new child number are the old ones and the issued ones. */
  lemma SlotsGrow(env: Env, a: Node, nums: Nums, br: nat, x: ExtendedKey, n: nat)
    requires br < 2 && x.node == ChildNode(a, br) && Issue(env, x, nums.At(br), n).Some?
    ensures var ix := Issue(env, x, nums.At(br), n).value;
      Slots(env, a, nums.With(br, After(nums.At(br), ix))) == Slots(env, a, nums) + set i | i in ix :: (br, i)
  {
    var next := nums.At(br);
    IssueIs(env, x, next, n);
    var ix := Issue(env, x, next, n).value;
    hide Issue;
    var nums' := nums.With(br, After(next, ix));
    assert nums'.At(br) == After(next, ix) && nums'.At(1 - br) == nums.At(1 - br);
    forall j: nat | next <= j < After(next, ix) ensures HasChild(env, x, j) <==> env.valid(SlotNode(a, (br, j))) {}
    forall p: Slot ensures p in Slots(env, a, nums') <==> p in Slots(env, a, nums) + set i | i in ix :: (br, i) {
      assert p.0 < 2 ==> p.0 == br || p.0 == 1 - br;
    }
  }

  lemma SealedGrow(env: Env, a: Node, nums: Nums, br: nat, x: ExtendedKey, n: nat, ck: Key)
    requires br < 2 && x.node == ChildNode(a, br) && Issue(env, x, nums.At(br), n).Some?
    ensures var ix := Issue(env, x, nums.At(br), n).value;
      SealedPubKeys(env, a, nums.With(br, After(nums.At(br), ix)), ck)
      == SealedPubKeys(env, a, nums, ck) + IssuedSealed(x.node, br, ix, ck)
  {
    SlotsGrow(env, a, nums, br, x, n);
    hide Slots, Issue;
    assert forall i: nat :: SlotNode(a, (br, i)) == ChildNode(x.node, i);
  }

  lemma AddrsGrow(env: Env, a: Node, nums: Nums, br: nat, x: ExtendedKey, n: nat)
    requires br < 2 && x.node == ChildNode(a, br) && Issue(env, x, nums.At(br), n).Some?
    ensures var ix := Issue(env, x, nums.At(br), n).value;
      ExpectedAddrs(env, a, nums.With(br, After(nums.At(br), ix)), x.Priv?)
      == ExpectedAddrs(env, a, nums, x.Priv?) + IssuedAddrs(x.node, br, ix, x.Priv?)
  {
    hide Issue, Slots, SlotKeys, IssuedKeys, BranchOf, LastIndex, After;
    var ix := Issue(env, x, nums.At(br), n).value;
    SlotsGrow(env, a, nums, br, x, n);
    KeysGrow(env, a, nums, nums.With(br, After(nums.At(br), ix)), br, x.node, ix);
    forall k | k in IssuedKeys(x.node, ix) ensures BranchOf(k.node) == br {
      IssuedBranch(a, br, x.node, ix, k);
    }
  }

  lemma IssuedBranch(a: Node, br: nat, branch: Node, ix: seq<nat>, k: PubKey)
    requires branch == ChildNode(a, br) && k in IssuedKeys(branch, ix)
    ensures BranchOf(k.node) == br
  {
    var i :| i in ix && k == PubKey(ChildNode(branch, i));
    SlotNodeParts(a, (br, i));
    assert SlotNode(a, (br, i)) == k.node;
  }

  lemma KeysGrow(env: Env, a: Node, nums: Nums, nums': Nums, br: nat, branch: Node, ix: seq<nat>)
    requires branch == ChildNode(a, br) && Slots(env, a, nums') == Slots(env, a, nums) + set i | i in ix :: (br, i)
    ensures SlotKeys(env, a, nums') == SlotKeys(env, a, nums) + IssuedKeys(branch, ix)
  {
    hide Slots;
    forall k | k in SlotKeys(env, a, nums') ensures k in SlotKeys(env, a, nums) + IssuedKeys(branch, ix) {
      var p :| p in Slots(env, a, nums') && k == PubKey(SlotNode(a, p));
      if p !in Slots(env, a, nums) {
        assert k == PubKey(ChildNode(branch, p.1));
      }
    }
    forall k | k in IssuedKeys(branch, ix) ensures k in SlotKeys(env, a, nums') {
      var i :| i in ix && k == PubKey(ChildNode(branch, i));
      assert (br, i) in Slots(env, a, nums') && k == PubKey(SlotNode(a, (br, i)));
    }
  }

  // One account changes

  /** Account `a` with a new bucket and a new manager that keeps its master key. */
  ghost function WithAccount(s: Wallet, a: Node, b: Bucket, m: Manager): Wallet {
    s.(db := s.db[a := b], managed := s.managed[a := m])
  }

  lemma WithAccountKeeps(env: Env, s: Wallet, a: Node, b: Bucket, m: Manager)
    requires Inv(env, s) && a in s.managed && b.mpriv == s.db[a].mpriv
    requires m.secret == s.managed[a].secret && m.unlocked == s.managed[a].unlocked
    requires BucketOk(env, a, b, s.pubPass, s.priv) && ManagerOk(env, a, b, m, s.priv)
    ensures Inv(env, WithAccount(s, a, b, m))
  {
    hide BucketOk, ManagerOk, ValidatePassphrase;
    var s' := WithAccount(s, a, b, m);
    assert AccountOk(env, s, a);
    forall c | c in s'.managed ensures AccountOk(env, s', c) {
      assert AccountOk(env, s, c);
    }
    assert s.managed != map[];
  }

  lemma BucketGrows(env: Env, a: Node, b: Bucket, pub: Pass, priv: Pass, nums: Nums)
    requires BucketOk(env, a, b, pub, priv)
    ensures BucketOk(env, a, b.(nums := nums, pubKeys := SealedPubKeys(env, a, nums, Random(RandOf(b).keyPub))), pub, priv)
  {
    hide SealedPubKeys, Derivable;
  }

  lemma GrownIs(env: Env, a: Node, b: Bucket, m: Manager, priv: Pass, br: nat, n: nat)
    requires b.pubKeys == SealedPubKeys(env, a, b.nums, m.ckPub) && ManagerOk(env, a, b, m, priv) && br < 2
    requires Issue(env, BranchKey(m, br), b.nums.At(br), n).Some?
    ensures var ix := Issue(env, BranchKey(m, br), b.nums.At(br), n).value;
      var b', nums := GrownBucket(b, m, br, ix), b.nums.With(br, After(b.nums.At(br), ix));
      && b' == b.(nums := nums, pubKeys := SealedPubKeys(env, a, nums, m.ckPub))
      && GrownManager(b', m, br, ix) == m.(nums := nums, addrs := ExpectedAddrs(env, a, nums, m.unlocked))
  {
    var x := BranchKey(m, br);
    SealedGrow(env, a, b.nums, br, x, n, m.ckPub);
    AddrsGrow(env, a, b.nums, br, x, n);
    hide SealedPubKeys, ExpectedAddrs, Issue, IssuedAddrs, IssuedSealed;
  }

  lemma GrownOk(env: Env, a: Node, b: Bucket, m: Manager, pub: Pass, priv: Pass, br: nat, n: nat)
    requires BucketOk(env, a, b, pub, priv) && ManagerOk(env, a, b, m, priv) && br < 2
    requires Issue(env, BranchKey(m, br), b.nums.At(br), n).Some?
    ensures var ix := Issue(env, BranchKey(m, br), b.nums.At(br), n).value;
      var b' := GrownBucket(b, m, br, ix);
      BucketOk(env, a, b', pub, priv) && ManagerOk(env, a, b', GrownManager(b', m, br, ix), priv) && b'.mpriv == b.mpriv
  {
    hide SealedPubKeys, ExpectedAddrs, Issue, Derivable, BranchKey, GrownBucket, GrownManager;
    GrownIs(env, a, b, m, priv, br, n);
    var ix := Issue(env, BranchKey(m, br), b.nums.At(br), n).value;
    BucketGrows(env, a, b, pub, priv, b.nums.With(br, After(b.nums.At(br), ix)));
  }

  lemma NextAddressesKeeps(env: Env, s: Wallet, a: Node, br: nat, n: nat)
    requires Inv(env, s) && br < 2
    ensures Inv(env, NextAddresses(env, s, a, br, n).0)
  {
    hide BucketOk, ManagerOk, Sound, Issue, BranchKey, GrownBucket, GrownManager;
    if ToIssue(env, s, a, br, n).Some? {
      SoundReads(env, s, a);
      var b, m, ix := s.db[a], s.managed[a], ToIssue(env, s, a, br, n).value;
      GrownOk(env, a, b, m, s.pubPass, s.priv, br, n);
      var b' := GrownBucket(b, m, br, ix);
      GrownFrame(b', m, br, ix);
      WithAccountKeeps(env, s, a, b', GrownManager(b', m, br, ix));
    }
  }

  lemma GrownFrame(b: Bucket, m: Manager, br: nat, ix: seq<nat>)
    ensures GrownManager(b, m, br, ix).secret == m.secret && GrownManager(b, m, br, ix).unlocked == m.unlocked
  {
  }

  lemma ChangeRemarkKeeps(env: Env, s: Wallet, a: Node, remark: string)
    requires Inv(env, s)
    ensures Inv(env, ChangeRemark(s, a, remark).0)
  {
    if a in s.managed && a in s.db {
      SoundReads(env, s, a);
      var b, m := s.db[a].(remark := remark), s.managed[a].(remark := remark);
      assert BucketOk(env, a, b, s.pubPass, s.priv) && ManagerOk(env, a, b, m, s.priv) by {
        hide SealedPubKeys, Derivable, ExpectedAddrs;
      }
      hide BucketOk, ManagerOk, Inv;
      WithAccountKeeps(env, s, a, b, m);
    }
  }

  lemma SafelyCheckKeeps(env: Env, s: Wallet, a: Node, pass: Pass)
    requires Inv(env, s)
    ensures Inv(env, SafelyCheck(s, a, pass).0) && SameAccounts(s, SafelyCheck(s, a, pass).0)
  {
    hide Sound;
    if a in s.managed {
      hide SafelyCheck;
      SafelyCheckSame(env, s, a, pass);
    }
  }

  lemma RemovedKeeps(env: Env, s: Wallet, a: Node)
    requires Inv(env, s)
    ensures Inv(env, s.(db := s.db - {a}, managed := s.managed - {a}))
  {
    hide BucketOk, ManagerOk, ValidatePassphrase;
    var s' := s.(db := s.db - {a}, managed := s.managed - {a});
    forall c | c in s'.managed ensures AccountOk(env, s', c) {
      assert AccountOk(env, s, c);
    }
    assert s'.managed != map[] ==> s.managed != map[];
  }

  lemma DeleteKeystoreKeeps(env: Env, s: Wallet, a: Node, pass: Pass)
    requires Inv(env, s)
    ensures Inv(env, DeleteKeystore(s, a, pass).0)
  {
    hide Inv, SafelyCheck;
    SafelyCheckKeeps(env, s, a, pass);
    RemovedKeeps(env, SafelyCheck(s, a, pass).0, a);
  }

  // Passphrase changes

  lemma RekeyPrivOk(env: Env, a: Node, b: Bucket, pub: Pass, priv: Pass, chosen: Pass, salt: nat)
    requires BucketOk(env, a, b, pub, priv)
    ensures var b' := RekeyPriv(b, priv, NewSecretKey(chosen, salt));
      BucketOk(env, a, b', pub, chosen) && b'.mpriv == NewSecretKey(chosen, salt).params
      && b' == b.(mpriv := b'.mpriv, cpriv := b'.cpriv) && RandOf(b').keyPub == RandOf(b).keyPub
  {
    hide SealedPubKeys, Derivable;
  }

  lemma RekeyPubOk(env: Env, a: Node, b: Bucket, pub: Pass, priv: Pass, chosen: Pass, salt: nat)
    requires BucketOk(env, a, b, pub, priv)
    ensures var b' := RekeyPub(b, pub, NewSecretKey(chosen, salt));
      BucketOk(env, a, b', chosen, priv) && b' == b.(mpub := b'.mpub, cpub := b'.cpub) && RandOf(b').keyPub == RandOf(b).keyPub
  {
    hide SealedPubKeys, Derivable;
  }

  lemma CheckHead(env: Env, s: Wallet, a: Node, pass: Pass)
    requires Sound(env, s) && a in s.managed && Present(s, a)
    ensures var (m, sk, ok) := CheckPassword(s.managed[a], s.secrets[s.managed[a].secret], pass);
      var s1 := Replaced(s, a, m, sk);
      && Sound(env, s1) && SameAccounts(s, s1) && (ok ==> s1 == s.(secrets := s1.secrets))
      && (ok <==> pass == s.priv && (s.managed[a].unlocked ==> Intact(s.managed[a])))
  {
    hide Sound, ManagerOk, BucketOk, Intact, CheckPassword;
    SoundReads(env, s, a);
    CheckPasswordIff(env, a, s.db[a], s.managed[a], s.secrets[s.managed[a].secret], s.priv, pass);
    var (m, sk, ok) := CheckPassword(s.managed[a], s.secrets[s.managed[a].secret], pass);
    ReplacedKeeps(env, s, a, m, sk);
    assert ok ==> s.managed[a := m] == s.managed;
  }

  ghost predicate Accepts(s: Wallet, a: Node) {
    a in s.managed && (s.managed[a].unlocked ==> Intact(s.managed[a]))
  }

  ghost predicate OnlySecrets(s: Wallet, s': Wallet) {
    s' == s.(secrets := s'.secrets)
  }

  lemma CheckAllHead(env: Env, s: Wallet, order: seq<Node>, pass: Pass) returns (s1: Wallet)
    requires Sound(env, s) && order != [] && order[0] in s.managed
    ensures Sound(env, s1) && SameAccounts(s, s1)
    ensures var ok := pass == s.priv && Accepts(s, order[0]);
      && CheckAll(s, order, pass) == (if ok then CheckAll(s1, order[1..], pass) else (s1, false))
      && (ok ==> OnlySecrets(s, s1))
  {
    hide Sound, ManagerOk, Intact, CheckPassword, SameAccounts, Replaced;
    var a := order[0];
    SoundReads(env, s, a);
    BucketOpens(env, a, s.db[a], s.pubPass, s.priv);
    hide BucketOk;
    CheckHead(env, s, a, pass);
    var (m, sk, ok) := CheckPassword(s.managed[a], s.secrets[s.managed[a].secret], pass);
    s1 := Replaced(s, a, m, sk);
  }

  ghost predicate AllAccept(s: Wallet, order: seq<Node>) {
    forall a :: a in order ==> Accepts(s, a)
  }

  /** The passphrase check of changePrivPassphrase succeeds exactly when every account accepts it. */
  lemma {:induction false} CheckAllIff(env: Env, s: Wallet, order: seq<Node>, pass: Pass)
    requires Sound(env, s) && forall a :: a in order ==> a in s.managed
    ensures var (s', ok) := CheckAll(s, order, pass);
      && Sound(env, s') && SameAccounts(s, s') && (ok ==> OnlySecrets(s, s'))
      && (ok <==> order == [] || (pass == s.priv && AllAccept(s, order)))
    decreases |order|
  {
    hide Sound, CheckAll, SameAccounts, Accepts, OnlySecrets, AllAccept;
    if order == [] {
      NothingToCheck(s, pass);
      SameSelf(s);
    } else {
      var rest := order[1..];
      assert order[0] in order && forall a :: a in rest ==> a in order;
      var s1 := CheckAllHead(env, s, order, pass);
      AcceptFirst(s, order);
      if pass == s.priv && Accepts(s, order[0]) {
        SecretsRead(s, s1, rest);
        CheckAllIff(env, s1, rest, pass);
        var r := CheckAll(s1, rest, pass);
        SameThen(s, s1, r.0, r.1);
      }
    }
  }

  lemma NothingToCheck(s: Wallet, pass: Pass)
    ensures CheckAll(s, [], pass) == (s, true)
  {
  }

  lemma SameSelf(s: Wallet)
    ensures SameAccounts(s, s) && OnlySecrets(s, s)
  {
  }

  lemma AcceptFirst(s: Wallet, order: seq<Node>)
    requires order != []
    ensures AllAccept(s, order) <==> Accepts(s, order[0]) && AllAccept(s, order[1..])
    ensures AllAccept(s, [])
  {
    hide Accepts;
    assert order == [order[0]] + order[1..];
    assert forall a :: a in order <==> a == order[0] || a in order[1..];
  }

  lemma SecretsRead(s: Wallet, s1: Wallet, order: seq<Node>)
    requires OnlySecrets(s, s1)
    ensures s1.managed == s.managed && s1.priv == s.priv && AllAccept(s1, order) == AllAccept(s, order)
  {
  }

  lemma SameThen(s: Wallet, s1: Wallet, s2: Wallet, ok: bool)
    requires OnlySecrets(s, s1) && SameAccounts(s, s1) && SameAccounts(s1, s2) && (ok ==> OnlySecrets(s1, s2))
    ensures SameAccounts(s, s2) && (ok ==> OnlySecrets(s, s2))
  {
  }

  lemma BucketOpens(env: Env, a: Node, b: Bucket, pub: Pass, priv: Pass)
    requires BucketOk(env, a, b, pub, priv)
    ensures b.mpriv.digest == Scrypt(priv, b.mpriv.salt) && Decrypt(Scrypt(priv, b.mpriv.salt), b.cpriv).Some?
    ensures b.mpub.digest == Scrypt(pub, b.mpub.salt) && Decrypt(Scrypt(pub, b.mpub.salt), b.cpub).Some?
  {
    hide SealedPubKeys, Derivable;
  }

  lemma RekeyedOk(env: Env, a: Node, b: Bucket, m: Manager, pub: Pass, priv: Pass, chosen: Pass, n: nat, secret: Ref, salt: Salt)
    requires BucketOk(env, a, b, pub, priv) && ManagerOk(env, a, b, m, priv)
    ensures var b' := RekeyPriv(b, priv, NewSecretKey(chosen, n));
      BucketOk(env, a, b', pub, chosen) && b'.mpriv == NewSecretKey(chosen, n).params
      && ManagerOk(env, a, b', RekeyManager(m, b', chosen, secret, salt), chosen)
  {
    hide BucketOk, ExpectedAddrs;
    RekeyPrivOk(env, a, b, pub, priv, chosen, n);
  }

  lemma RekeyAllPrivKeeps(env: Env, s: Wallet, chosen: Pass, n: nat, secret: Ref, salts: map<Node, nat>)
    requires Inv(env, s) && s.managed.Keys <= s.db.Keys && secret !in s.secrets && ValidatePassphrase(chosen)
    ensures Inv(env, RekeyAllPriv(s, s.priv, chosen, n, secret, salts))
  {
    hide BucketOk, ManagerOk, ValidatePassphrase, InUse, RekeyPriv, NewSecretKey;
    var s' := RekeyAllPriv(s, s.priv, chosen, n, secret, salts);
    forall a | a in s'.managed ensures AccountOk(env, s', a) {
      assert AccountOk(env, s, a);
      RekeyedOk(env, a, s.db[a], s.managed[a], s.pubPass, s.priv, chosen, n, secret, Salt(if a in salts then salts[a] else 0));
    }
  }

  /** Only the passphrase changed: same accounts, same addresses, same locks. */
  ghost predicate PrivChanged(s: Wallet, s': Wallet, priv: Pass) {
    && s'.pubPass == s.pubPass && s'.unlocked == s.unlocked && s'.priv == priv && s'.managed.Keys == s.managed.Keys
    && forall a :: a in s.managed ==> s'.managed[a].addrs == s.managed[a].addrs && s'.managed[a].nums == s.managed[a].nums
  }

  lemma NoAccounts(env: Env, s: Wallet, current: Pass, chosen: Pass, n: nat, secret: Ref, salts: map<Node, nat>)
    requires Inv(env, s) && s.managed == map[]
    ensures Inv(env, RekeyAllPriv(s, current, chosen, n, secret, salts))
  {
    hide ValidatePassphrase;
  }

  lemma RekeyAllPrivSame(s: Wallet, current: Pass, chosen: Pass, n: nat, secret: Ref, salts: map<Node, nat>)
    requires s.managed.Keys <= s.db.Keys
    ensures PrivChanged(s, RekeyAllPriv(s, current, chosen, n, secret, salts), chosen)
  {
    hide RekeyPriv, InUse, NewSecretKey;
  }

  ghost predicate MayChangePriv(s: Wallet, order: seq<Node>, current: Pass, chosen: Pass) {
    && ValidatePassphrase(chosen) && chosen != s.pubPass && chosen != current
    && (order == [] || (current == s.priv && AllAccept(s, order)))
  }

  /** ChangePrivPassphrase succeeds exactly for a legal new passphrase and, if there are accounts, the
      right current one, which unlocked accounts recognise while their salt is intact. */
  lemma ChangePrivIff(env: Env, s: Wallet, order: seq<Node>, current: Pass, chosen: Pass, n: nat, secret: Ref, salts: map<Node, nat>)
    requires Inv(env, s) && Visits(s, order) && secret !in s.secrets
    ensures var (s', ok) := ChangePrivPassphrase(s, order, current, chosen, n, secret, salts);
      Inv(env, s') && PrivChanged(s, s', if ok then chosen else s.priv) && (ok <==> MayChangePriv(s, order, current, chosen))
  {
    hide Sound, CheckAll, ValidatePassphrase, RekeyAllPriv, AllAccept, Uniform, OnlySecrets, SameAccounts, PrivChanged;
    SoundKeys(env, s);
    CheckAllIff(env, s, order, current);
    var s1 := CheckAll(s, order, current).0;
    SameReads(s, s1);
    if MayChangePriv(s, order, current, chosen) {
      SoundKeys(env, s1);
      SecretsRead(s, s1, order);
      RekeyAllPrivSame(s1, current, chosen, n, secret, salts);
      PrivChangedThen(s, s1, RekeyAllPriv(s1, current, chosen, n, secret, salts), chosen);
      if s1.managed == map[] {
        NoAccounts(env, s1, current, chosen, n, secret, salts);
      } else {
        assert order != [];
        RekeyAllPrivKeeps(env, s1, chosen, n, secret, salts);
      }
    }
  }

  lemma PrivChangedThen(s: Wallet, s1: Wallet, s2: Wallet, chosen: Pass)
    requires s1.managed == s.managed && PrivChanged(s, s1, s.priv) && PrivChanged(s1, s2, chosen)
    ensures PrivChanged(s, s2, chosen)
  {
  }

  lemma SameReads(s: Wallet, s': Wallet)
    requires SameAccounts(s, s')
    ensures PrivChanged(s, s', s.priv) && PrivChanged(s, s, s.priv) && s'.secrets.Keys == s.secrets.Keys && s'.pubPass == s.pubPass
    ensures Uniform(s) ==> Uniform(s')
  {
  }

  lemma RekeyAllPubKeeps(env: Env, s: Wallet, current: Pass, chosen: Pass, n: nat)
    requires Inv(env, s) && ValidatePassphrase(chosen) && (s.managed != map[] ==> current == s.pubPass)
    ensures Inv(env, RekeyAllPub(s, current, chosen, n))
  {
    hide BucketOk, ManagerOk, ValidatePassphrase, RekeyPub, NewSecretKey;
    var s' := RekeyAllPub(s, current, chosen, n);
    forall a | a in s'.managed ensures AccountOk(env, s', a) {
      assert s.managed != map[];
      assert AccountOk(env, s, a);
      RekeyPubOk(env, a, s.db[a], s.pubPass, s.priv, chosen, n);
      SameManager(env, a, s.db[a], RekeyPub(s.db[a], current, NewSecretKey(chosen, n)), s.managed[a], s.priv);
    }
  }

  lemma SameManager(env: Env, a: Node, b: Bucket, b': Bucket, m: Manager, priv: Pass)
    requires ManagerOk(env, a, b, m, priv)
    requires b' == b.(mpub := b'.mpub, cpub := b'.cpub) && RandOf(b').keyPub == RandOf(b).keyPub
    ensures ManagerOk(env, a, b', m, priv)
  {
    hide ExpectedAddrs;
  }

  /** With at least one account, only the current public passphrase opens all buckets. */
  lemma OpensPubIff(env: Env, s: Wallet, a: Node, pass: Pass)
    requires Sound(env, s) && a in s.managed
    ensures a in s.db && (OpensPub(s.db[a], pass) <==> pass == s.pubPass)
  {
    SoundReads(env, s, a);
    BucketOpens(env, a, s.db[a], s.pubPass, s.priv);
    hide SealedPubKeys, Derivable, ManagerOk;
  }

  /** An account recognises the passphrase it is asked about. */
  ghost predicate Recognises(s: Wallet, a: Node, pass: Pass) {
    pass == s.priv && Accepts(s, a)
  }

  /** ChangePubPassphrase succeeds exactly for a legal new passphrase and the right current one, unless
      the account it asks recognises the new one as the private passphrase. */
  lemma ChangePubIff(env: Env, s: Wallet, pick: Node, current: Pass, chosen: Pass, n: nat)
    requires Inv(env, s) && Picks(s, pick)
    ensures var (s', ok) := ChangePubPassphrase(s, pick, current, chosen, n);
      && Inv(env, s') && s'.pubPass == (if ok then chosen else s.pubPass) && s'.priv == s.priv && s'.managed.Keys == s.managed.Keys
      && (ok <==> ValidatePassphrase(chosen) && current != chosen && (s.managed == map[] || (current == s.pubPass && !Recognises(s, pick, chosen))))
  {
    hide Sound, SafelyCheck, ValidatePassphrase, RekeyAllPub, OpensPub, Uniform, SameAccounts, Intact;
    var (s', ok) := ChangePubPassphrase(s, pick, current, chosen, n);
    var s1 := if s.managed == map[] then s else SafelyCheck(s, pick, chosen).0;
    if s.managed != map[] {
      SafelyCheckSame(env, s, pick, chosen);
      SameReads(s, s1);
      OpensAll(env, s1, pick, current);
    }
    RekeyAllPubSame(s1, current, chosen, n);
    if ok {
      RekeyAllPubKeeps(env, s1, current, chosen, n);
    }
  }

  lemma OpensAll(env: Env, s: Wallet, pick: Node, current: Pass)
    requires Sound(env, s) && pick in s.managed
    ensures (exists a :: a in s.managed && (a !in s.db || !OpensPub(s.db[a], current))) <==> current != s.pubPass
  {
    hide Sound, OpensPub;
    forall a | a in s.managed ensures a in s.db && (OpensPub(s.db[a], current) <==> current == s.pubPass) {
      OpensPubIff(env, s, a, current);
    }
  }

  lemma RekeyAllPubSame(s: Wallet, current: Pass, chosen: Pass, n: nat)
    ensures var s' := RekeyAllPub(s, current, chosen, n); s'.pubPass == chosen && s'.priv == s.priv && s'.managed == s.managed && s'.unlocked == s.unlocked
  {
  }

  // Restart

  lemma UnmarshalledAt(s: Wallet, refs: map<Node, Ref>, a: Node)
    requires a in s.db && a in refs && Injective(refs)
    ensures refs[a] in Unmarshalled(s, refs) && Unmarshalled(s, refs)[refs[a]].params == s.db[a].mpriv
  {
    assert refs[a] in refs.Values;
  }

  lemma LoadsAllIff(env: Env, s: Wallet, pub: Pass, refs: map<Node, Ref>, salts: map<Node, nat>)
    requires Sound(env, s) && Covers(s, refs, salts)
    ensures LoadsAll(env, s, pub, refs, salts) <==> s.managed == map[] || pub == s.pubPass
  {
    SoundKeys(env, s);
    hide Load, Sound, ManagerOk, BucketOk;
    forall a | a in s.db ensures Load(env, s.db[a], pub, refs[a], salts[a]).Some? <==> pub == s.pubPass {
      SoundReads(env, s, a);
      LoadOk(env, a, s.db[a], s.pubPass, s.priv, pub, refs[a], salts[a]);
    }
    assert s.managed == map[] || exists a :: a in s.db;
  }

  lemma ReopenedOk(env: Env, s: Wallet, pub: Pass, refs: map<Node, Ref>, salts: map<Node, nat>)
    requires Sound(env, s) && Covers(s, refs, salts) && Injective(refs) && LoadsAll(env, s, pub, refs, salts) && ValidatePassphrase(pub)
    ensures Inv(env, Reopened(env, s, pub, refs, salts))
  {
    hide Load, ValidatePassphrase, BucketOk, ManagerOk, Unmarshalled;
    var s' := Reopened(env, s, pub, refs, salts);
    forall a | a in s'.managed ensures AccountOk(env, s', a) && !s'.managed[a].unlocked {
      assert AccountOk(env, s, a);
      LoadOk(env, a, s.db[a], s.pubPass, s.priv, pub, refs[a], salts[a]);
      UnmarshalledAt(s, refs, a);
    }
  }

  /** Opening the wallet again succeeds exactly with the public passphrase (any legal one if there are no
      accounts), and the reloaded wallet is sound and locked. */
  lemma RestartIff(env: Env, s: Wallet, pub: Pass, refs: map<Node, Ref>, salts: map<Node, nat>)
    requires Inv(env, s) && Covers(s, refs, salts) && Injective(refs)
    ensures var (s', ok) := Restart(env, s, pub, refs, salts);
      && Inv(env, s') && s'.db == s.db && (ok <==> ValidatePassphrase(pub) && (s.managed == map[] || pub == s.pubPass))
      && s'.pubPass == (if ok then pub else s.pubPass) && s'.priv == s.priv && (ok ==> !s'.unlocked)
  {
    hide Sound, LoadsAll, ValidatePassphrase, Load;
    LoadsAllIff(env, s, pub, refs, salts);
    if LoadsAll(env, s, pub, refs, salts) && ValidatePassphrase(pub) {
      ReopenedOk(env, s, pub, refs, salts);
    }
  }
}
