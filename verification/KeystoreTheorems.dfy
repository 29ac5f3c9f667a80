/** What the keystore promises its users: passphrase changes lose no key, reloading and export followed
    by import give the same accounts back, and exactly when unlocking succeeds. */
module KeystoreTheorems {
  import opened Common
  import opened Keystore
  import opened KeystoreInvariant
  import opened KeystoreSteps
  import opened KeystoreRuns

  // Reloading

  /** Loading an account from the database gives the address map, child numbers and remark that memory
      holds, without the private keys. */
  lemma ReloadAgrees(env: Env, ss: seq<Wallet>, acts: seq<Action>, n: nat, a: Node, secret: Ref, salt: nat)
    requires IsRun(env, ss, acts) && n < |ss| && a in ss[n].managed
    ensures a in ss[n].db
    ensures var m := Load(env, ss[n].db[a], ss[n].pubPass, secret, salt);
      && m.Some? && m.value.addrs == ClearPrivKeys(ss[n].managed[a]).addrs
      && m.value.nums == ss[n].managed[a].nums && m.value.remark == ss[n].managed[a].remark
  {
    hide Sound, Load, Step;
    EveryRunKeeps(env, ss, acts, n);
    var s := ss[n];
    SoundReads(env, s, a);
    LoadOk(env, a, s.db[a], s.pubPass, s.priv, s.pubPass, secret, salt);
    ClearedOk(env, a, s.db[a], s.managed[a], s.priv);
    hide BucketOk, ExpectedAddrs, ClearPrivKeys;
  }

  /** Every stored index is a usable one below its branch's child number, and every such index is stored. */
  lemma StoredIndices(env: Env, ss: seq<Wallet>, acts: seq<Action>, n: nat, a: Node, br: nat, i: nat)
    requires IsRun(env, ss, acts) && n < |ss| && a in ss[n].managed
    ensures a in ss[n].db
    ensures (br, i) in ss[n].db[a].pubKeys <==> br < 2 && i < ss[n].db[a].nums.At(br) && env.valid(SlotNode(a, (br, i)))
  {
    hide Sound, Step, ManagerOk;
    EveryRunKeeps(env, ss, acts, n);
    SoundReads(env, ss[n], a);
    hide Derivable, SlotNode;
  }

  // Unlocking

  /** The addresses of an account carry, under each public key, the private key of the same node. */
  ghost predicate HasAllKeys(m: Manager, keys: set<PubKey>) {
    && m.addrs.Keys == keys
    && forall k :: k in keys ==> m.addrs[k].pub == k && m.addrs[k].priv == Some(PrivKey(k.node))
  }

  lemma UnlockedHasAllKeys(env: Env, s: Wallet, a: Node)
    requires Sound(env, s) && a in s.managed && s.managed[a].unlocked
    ensures HasAllKeys(s.managed[a], s.managed[a].addrs.Keys)
  {
    hide Sound, BucketOk, SlotKeys, BranchOf, LastIndex;
    SoundReads(env, s, a);
  }

  /** Unlock on a wallet that is already unlocked fails once a check has zeroed a master key or an empty
      passphrase has wiped a salt; on a locked wallet only the passphrase counts. */
  lemma UnlockSucceedsIff(env: Env, ss: seq<Wallet>, acts: seq<Action>, n: nat, order: seq<Node>, pass: Pass)
    requires IsRun(env, ss, acts) && n < |ss| && Visits(ss[n], order)
    ensures Unlock(env, ss[n], order, pass).1
      <==> order == [] || (pass == ss[n].priv && (ss[n].unlocked ==> forall a :: a in order ==> Ready(ss[n], a)))
  {
    hide Inv, Step, Unlock, Ready, OnlyOpened, Visits;
    EveryRunKeeps(env, ss, acts, n);
    UnlockKeeps(env, ss[n], order, pass);
  }

  /** Exporting an account while the wallet is unlocked makes the next Unlock fail, even with the right
      passphrase: the check zeroes the master key, and the unlocked path does not derive it again. */
  lemma ExportThenUnlockFails(env: Env, s: Wallet, a: Node, pass: Pass, order: seq<Node>)
    requires Inv(env, s) && s.unlocked && a in s.managed && ExportKeystore(s, a, pass).1.Some?
    requires Visits(ExportKeystore(s, a, pass).0, order)
    ensures !Unlock(env, ExportKeystore(s, a, pass).0, order, s.priv).1
  {
    hide Sound, Unlock, OnlyOpened, BucketOk, ManagerOk, CheckPassword, Intact;
    var s1 := SafelyCheck(s, a, pass).0;
    SoundReads(env, s, a);
    CheckPasswordIff(env, a, s.db[a], s.managed[a], s.secrets[s.managed[a].secret], s.priv, pass);
    SafelyCheckKeeps(env, s, a, pass);
    assert a in order;
    assert !Ready(s1, a);
    UnlockKeeps(env, s1, order, s.priv);
  }

  // Changing the private passphrase

  lemma LockSame(s: Wallet)
    ensures Lock(s).managed.Keys == s.managed.Keys && !Lock(s).unlocked && Lock(s).priv == s.priv && Lock(s).db == s.db
  {
    hide InUse;
  }

  lemma NumsAgree(env: Env, s: Wallet, a: Node)
    requires Sound(env, s) && a in s.managed
    ensures a in s.db && s.managed[a].nums == s.db[a].nums
  {
    hide Sound, BucketOk, ExpectedAddrs;
    SoundReads(env, s, a);
  }

  /** An unlocked account with the same child numbers has the same addresses, all with their keys. */
  lemma SameKeys(env: Env, s: Wallet, u: Wallet, a: Node)
    requires Sound(env, s) && Sound(env, u) && a in s.managed && a in u.managed && u.managed[a].unlocked
    requires a in s.db && a in u.db && u.db[a].nums == s.db[a].nums
    ensures HasAllKeys(u.managed[a], s.managed[a].addrs.Keys)
    ensures s.managed[a].unlocked ==> u.managed[a].addrs == s.managed[a].addrs
  {
    hide Sound, BucketOk, HasAllKeys, SlotKeys, BranchOf, LastIndex;
    SoundReads(env, s, a);
    SoundReads(env, u, a);
    UnlockedHasAllKeys(env, u, a);
    assert u.managed[a].addrs.Keys == s.managed[a].addrs.Keys;
  }

  lemma VisitsSome(s: Wallet, order: seq<Node>)
    requires Visits(s, order)
    ensures order == [] <==> s.managed == map[]
    ensures forall a :: a in s.managed ==> a in order
  {
    if order != [] {
      assert order[0] in order;
    }
  }

  /** No key is lost: after a successful change and Lock, Unlock with the new passphrase succeeds in any
      order and gives every account the same addresses, each with the private key that matches its public
      key, and the same private keys as before if the wallet was unlocked; the old passphrase fails. */
  lemma ChangePrivLosesNoKey(env: Env, ss: seq<Wallet>, acts: seq<Action>, n: nat, order: seq<Node>, current: Pass, chosen: Pass,
                             salt: nat, secret: Ref, salts: map<Node, nat>, order2: seq<Node>)
    requires IsRun(env, ss, acts) && n < |ss| && ss[n].managed != map[] && Visits(ss[n], order) && secret !in ss[n].secrets
    requires ChangePrivPassphrase(ss[n], order, current, chosen, salt, secret, salts).1
    requires Visits(Lock(ChangePrivPassphrase(ss[n], order, current, chosen, salt, secret, salts).0), order2)
    ensures var s, l := ss[n], Lock(ChangePrivPassphrase(ss[n], order, current, chosen, salt, secret, salts).0);
      var (u, ok) := Unlock(env, l, order2, chosen);
      && ok && u.unlocked && u.managed.Keys == s.managed.Keys
      && (forall a :: a in s.managed ==> HasAllKeys(u.managed[a], s.managed[a].addrs.Keys))
      && (s.unlocked ==> forall a :: a in s.managed ==> u.managed[a].addrs == s.managed[a].addrs)
      && !Unlock(env, l, order2, current).1
  {
    hide Sound, Step, Unlock, Lock, ChangePrivPassphrase, Visits, HasAllKeys, Ready, AllAccept, ValidatePassphrase, Uniform;
    var s := ss[n];
    var c := ChangePrivPassphrase(s, order, current, chosen, salt, secret, salts).0;
    var l := Lock(c);
    EveryRunKeeps(env, ss, acts, n);
    ChangePrivIff(env, s, order, current, chosen, salt, secret, salts);
    LockKeepsInv(env, c);
    LockSame(c);
    UnlockKeeps(env, l, order2, chosen);
    UnlockKeeps(env, l, order2, current);
    assert l.managed != map[] by {
      assert s.managed.Keys != {} by { assert s.managed != map[]; }
      assert l.managed.Keys != {};
    }
    VisitsSome(l, order2);
    VisitsSome(s, order);
    var u := Unlock(env, l, order2, chosen).0;
    forall a | a in s.managed
      ensures HasAllKeys(u.managed[a], s.managed[a].addrs.Keys) && (s.unlocked ==> u.managed[a].addrs == s.managed[a].addrs)
    {
      NumsAgree(env, s, a);
      NumsAgree(env, c, a);
      NumsAgree(env, u, a);
      SameKeys(env, s, u, a);
      assert s.unlocked ==> s.managed[a].unlocked by { UniformReads(s, a); }
    }
  }

  lemma UniformReads(s: Wallet, a: Node)
    requires a in s.managed
    ensures Uniform(s) ==> s.managed[a].unlocked == s.unlocked
  {
  }

  // Export and import

  lemma ExportedOpens(env: Env, a: Node, b: Bucket, pub: Pass, priv: Pass)
    requires BucketOk(env, a, b, pub, priv)
    ensures FileRoot(ExportFile(b), priv) == Some(Root(a)) && AccountNode(env, Root(a), b.usage) == a && Derivable(env, Root(a), b.usage)
  {
    hide SealedPubKeys, Derivable;
  }

  lemma FitsBelow(env: Env, s: Wallet, a: Node)
    requires NumsFit(env, s) && a in s.db && NoInvalidBelow(env, a, s.db[a].nums)
    ensures s.db[a].nums.external <= HARDENED && s.db[a].nums.internal <= HARDENED
  {
    var nums := s.db[a].nums;
    assert nums.At(EXTERNAL) == nums.external && nums.At(INTERNAL) == nums.internal;
    assert forall i: nat :: i < nums.external ==> env.valid(SlotNode(a, (EXTERNAL, i)));
    assert forall i: nat :: i < nums.internal ==> env.valid(SlotNode(a, (INTERNAL, i)));
    hide SlotNode;
    assert BranchFits(env, a, EXTERNAL, nums.external) && BranchFits(env, a, INTERNAL, nums.internal);
  }

  /** Same remark, child numbers and (branch, index, public key) of every address. */
  ghost predicate SameAccount(m: Manager, m': Manager) {
    m'.remark == m.remark && m'.usage == m.usage && m'.nums == m.nums && ClearPrivKeys(m').addrs == ClearPrivKeys(m).addrs
  }

  lemma SameStored(env: Env, s: Wallet, t: Wallet, a: Node)
    requires Sound(env, s) && Sound(env, t) && a in s.managed && a in t.managed && a in s.db && a in t.db
    requires t.db[a].nums == s.db[a].nums && t.db[a].remark == s.db[a].remark && t.db[a].usage == s.db[a].usage
    ensures SameAccount(s.managed[a], t.managed[a])
  {
    hide Sound, BucketOk, ExpectedAddrs, ClearPrivKeys;
    SoundReads(env, s, a);
    SoundReads(env, t, a);
    ClearedOk(env, a, s.db[a], s.managed[a], s.priv);
    ClearedOk(env, a, t.db[a], t.managed[a], t.priv);
  }

  lemma NewBucketReads(env: Env, root: Node, account: nat, remark: string, nums: Nums, pub: Pass, priv: Pass, r: Rand)
    ensures var b := NewBucket(env, root, account, remark, nums, pub, priv, r); b.nums == nums && b.remark == remark && b.usage == account
  {
  }

  /** A keystore exported in any reachable state, so after any number of passphrase changes, and imported
      into a wallet without accounts on the same network is the same account: same id, remark, child
      numbers and addresses. The import needs only that no child below the child numbers is invalid. */
  lemma ExportImport(env: Env, ss: seq<Wallet>, acts: seq<Action>, n: nat, a: Node, pass: Pass,
                     t: Wallet, pick: Node, chosen: Pass, r: Rand, secret: Ref, salt: nat)
    requires IsRun(env, ss, acts) && n < |ss| && a in ss[n].managed && ExportKeystore(ss[n], a, pass).1.Some? && a in ss[n].db
    requires NoInvalidBelow(env, a, ss[n].db[a].nums)
    requires Inv(env, t) && t.managed == map[] && secret !in t.secrets
    requires var priv := if chosen == "" then pass else chosen; ValidatePassphrase(priv) && priv != t.pubPass
    ensures var (t', ok) := ImportKeystore(env, t, pick, ExportKeystore(ss[n], a, pass).1.value, pass, chosen, r, secret, salt);
      ok && Inv(env, t') && t'.managed.Keys == {a} && SameAccount(ss[n].managed[a], t'.managed[a])
  {
    hide Sound, Uniform, Step, SafelyCheck, AddAccount, NewBucket, AccountNode, FileRoot, Derivable, NumsFit, BucketOk, ManagerOk, SameAccount,
         NoInvalidBelow, ValidatePassphrase, ExportFile, SameAccounts, Intact;
    var s := ss[n];
    EveryRunKeeps(env, ss, acts, n);
    EveryRunFits(env, ss, acts, n);
    FitsBelow(env, s, a);
    SafelyCheckSame(env, s, a, pass);
    SoundReads(env, s, a);
    var b, priv := s.db[a], if chosen == "" then pass else chosen;
    ExportedOpens(env, a, b, s.pubPass, s.priv);
    ExportFileReads(b);
    SoundKeys(env, t);
    assert t.db.Keys == {};
    AddAccountKeeps(env, t, Root(a), b.usage, b.remark, b.nums, priv, r, secret, salt);
    NewBucketReads(env, Root(a), b.usage, b.remark, b.nums, t.pubPass, priv, r);
    var t' := AddAccount(env, t, Root(a), b.usage, b.remark, b.nums, priv, r, secret, salt).0;
    SoundKeys(env, t');
    SameStored(env, s, t', a);
  }

  lemma ExportFileReads(b: Bucket)
    ensures ExportFile(b).account == b.usage && ExportFile(b).remark == b.remark && ExportFile(b).nums == b.nums
  {
  }
}
