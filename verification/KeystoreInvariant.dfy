/** What every keystore operation keeps: the database holds exactly what account creation would have
    written for the current passphrases and child numbers, and memory agrees with the database. */
module KeystoreInvariant {
  import opened Common
  import opened Keystore

  // One account

  function Root(a: Node): Node {
    Node(a.seed, if |a.path| < 3 then [] else a.path[..|a.path| - 3])
  }

  function KeyId(c: Cipher): nat {
    if c.Enc? && c.payload.KeyBytes? && c.payload.key.Random? then c.payload.key.id else 0
  }

  /** The random values a bucket was made with. */
  function RandOf(b: Bucket): Rand {
    Rand(b.mpub.salt, b.mpriv.salt, KeyId(b.cpub), KeyId(b.cpriv))
  }

  ghost predicate BucketOk(env: Env, a: Node, b: Bucket, pub: Pass, priv: Pass) {
    && a == AccountNode(env, Root(a), b.usage) && Derivable(env, Root(a), b.usage)
    && b == NewBucket(env, Root(a), b.usage, b.remark, b.nums, pub, priv, RandOf(b))
  }

  function BranchOf(n: Node): nat {
    if |n.path| < 2 then 0 else n.path[|n.path| - 2]
  }

  ghost function SlotKeys(env: Env, a: Node, nums: Nums): set<PubKey> {
    set p | p in Slots(env, a, nums) :: PubKey(SlotNode(a, p))
  }

  function AddressOf(k: PubKey, private: bool): Address {
    Address(BranchOf(k.node), LastIndex(k.node), k, if private then Some(PrivKey(k.node)) else None)
  }

  /** Every usable index below the child numbers under its public key, with the matching private key
      when the manager is unlocked. */
  ghost function ExpectedAddrs(env: Env, a: Node, nums: Nums, private: bool): map<PubKey, Address> {
    map k | k in SlotKeys(env, a, nums) :: AddressOf(k, private)
  }

  ghost predicate ManagerOk(env: Env, a: Node, b: Bucket, m: Manager, priv: Pass) {
    && m.remark == b.remark && m.usage == b.usage && m.cpriv == b.cpriv && m.ckPub == Random(RandOf(b).keyPub)
    && m.acctPrivEnc == b.acctPriv && m.acctPub == a && m.nums == b.nums
    && m.acctPriv == (if m.unlocked then Some(a) else None)
    && m.addrs == ExpectedAddrs(env, a, b.nums, m.unlocked)
    && (m.unlocked ==> m.hashed.Some? && m.hashed.value.1 == priv)
  }

  ghost predicate AccountOk(env: Env, s: Wallet, a: Node) {
    && a in s.db && a in s.managed && s.managed[a].secret in s.secrets
    && s.secrets[s.managed[a].secret].params == s.db[a].mpriv
    && BucketOk(env, a, s.db[a], s.pubPass, s.priv)
    && ManagerOk(env, a, s.db[a], s.managed[a], s.priv)
  }

  // The wallet

  /** All accounts are sound and share the passphrase `priv`. */
  ghost predicate Sound(env: Env, s: Wallet) {
    && s.db.Keys == s.managed.Keys
    && (forall a :: a in s.managed ==> AccountOk(env, s, a))
    && ValidatePassphrase(s.pubPass)
    && (s.managed != map[] ==> ValidatePassphrase(s.priv))
  }

  ghost predicate Uniform(s: Wallet) {
    forall a :: a in s.managed ==> s.managed[a].unlocked == s.unlocked
  }

  ghost predicate Inv(env: Env, s: Wallet) {
    Sound(env, s) && Uniform(s)
  }

  // Paths

  lemma SlotNodeParts(a: Node, p: Slot)
    ensures BranchOf(SlotNode(a, p)) == p.0 && LastIndex(SlotNode(a, p)) == p.1
  {
    var path := a.path + [p.0] + [p.1];
    assert path[|path| - 2] == p.0 && path[|path| - 1] == p.1;
  }

  lemma RootOfAccount(env: Env, root: Node, account: nat)
    ensures Root(AccountNode(env, root, account)) == root
  {
    var path := root.path + [PURPOSE + HARDENED, env.coin + HARDENED, account + HARDENED];
    assert path[..|path| - 3] == root.path;
  }

  // Loading

  lemma LoadedKeysOk(env: Env, a: Node, b: Bucket, pub: Pass, priv: Pass)
    requires BucketOk(env, a, b, pub, priv)
    ensures LoadedKeys(b, Random(RandOf(b).keyPub)) == SlotKeys(env, a, b.nums)
    ensures forall p :: p in b.pubKeys ==> DecryptPub(Random(RandOf(b).keyPub), b.pubKeys[p]) == Some(PubKey(SlotNode(a, p)))
  {
    var ck := Random(RandOf(b).keyPub);
    assert b.pubKeys == SealedPubKeys(env, a, b.nums, ck);
    hide Slots, SlotNode;
    forall p | p in b.pubKeys ensures DecryptPub(ck, b.pubKeys[p]) == Some(PubKey(SlotNode(a, p))) {}
  }

  lemma LoadAddrsOk(env: Env, a: Node, b: Bucket, pub: Pass, priv: Pass)
    requires BucketOk(env, a, b, pub, priv)
    ensures LoadAddrs(b, Random(RandOf(b).keyPub)) == ExpectedAddrs(env, a, b.nums, false)
  {
    var ck := Random(RandOf(b).keyPub);
    LoadedKeysOk(env, a, b, pub, priv);
    var m := LoadAddrs(b, ck);
    hide BucketOk, SlotKeys, LoadedKeys, DecryptPub, BranchOf, LastIndex, SlotNode, StoredAt;
    forall k | k in m ensures m[k] == AddressOf(k, false) {
      SlotNodeParts(a, StoredAt(b, ck, k));
    }
  }

  /** loadAddrManager succeeds exactly with the public passphrase, and what it builds is sound. */
  lemma LoadOk(env: Env, a: Node, b: Bucket, pub: Pass, priv: Pass, p: Pass, secret: Ref, salt: nat)
    requires BucketOk(env, a, b, pub, priv)
    ensures Load(env, b, p, secret, salt).Some? <==> p == pub
    ensures p == pub ==> var m := Load(env, b, p, secret, salt).value;
      ManagerOk(env, a, b, m, priv) && !m.unlocked && m.secret == secret
  {
    LoadedKeysOk(env, a, b, pub, priv);
    LoadAddrsOk(env, a, b, pub, priv);
    hide SealedPubKeys, LoadAddrs, ExpectedAddrs, Derivable, DecryptPub, LoadedKeys;
  }

  // Replacing one manager and its key in memory

  /** What soundness says of one account. */
  lemma SoundReads(env: Env, s: Wallet, a: Node)
    requires Sound(env, s) && a in s.managed
    ensures AccountOk(env, s, a) && Present(s, a) && s.priv != ""
    ensures s.db[a].mpriv.digest == Scrypt(s.priv, s.db[a].mpriv.salt)
  {
    hide ManagerOk, SealedPubKeys, Derivable;
    assert s.managed != map[];
    assert AccountOk(env, s, a);
  }

  lemma ReplacedKeeps(env: Env, s: Wallet, a: Node, m: Manager, sk: SecretKey)
    requires Sound(env, s) && a in s.managed && ManagerOk(env, a, s.db[a], m, s.priv)
    requires m.secret == s.managed[a].secret && m.secret in s.secrets && sk.params == s.secrets[m.secret].params
    ensures Sound(env, Replaced(s, a, m, sk))
  {
    var s' := Replaced(s, a, m, sk);
    hide BucketOk, ManagerOk;
    forall c | c in s'.managed ensures AccountOk(env, s', c) {
      assert AccountOk(env, s, c);
    }
    assert a in s.managed && s.managed != map[];
  }

  /** The salt still is the one the passphrase was hashed with. */
  ghost predicate Intact(m: Manager) {
    m.hashed.Some? && m.hashed.value.0 == m.salt
  }

  ghost predicate Live(sk: SecretKey) {
    sk.key == sk.params.digest
  }

  /** A passphrase passes exactly when it is the common one and, on an unlocked account, the salt is intact. */
  lemma CheckPasswordIff(env: Env, a: Node, b: Bucket, m: Manager, sk: SecretKey, priv: Pass, pass: Pass)
    requires ManagerOk(env, a, b, m, priv) && sk.params.digest == Scrypt(priv, sk.params.salt)
    ensures var (m', sk', ok) := CheckPassword(m, sk, pass);
      && (ok <==> pass == priv && (m.unlocked ==> Intact(m)))
      && ManagerOk(env, a, b, m', priv) && m' == m.(salt := m'.salt) && (pass != "" ==> m' == m)
      && sk'.params == sk.params && (if m.unlocked then sk' == sk else sk'.key == Scrypt(pass, sk.params.salt))
  {
    hide ExpectedAddrs;
  }

  /** Same accounts, same passphrases, same locks: only salts and keys in memory may differ. */
  ghost predicate SameAccounts(s: Wallet, s': Wallet) {
    && s'.db == s.db && s'.unlocked == s.unlocked && s'.pubPass == s.pubPass && s'.priv == s.priv
    && s'.managed.Keys == s.managed.Keys && s'.secrets.Keys == s.secrets.Keys
    && forall a :: a in s.managed ==> s'.managed[a] == s.managed[a].(salt := s'.managed[a].salt)
  }

  lemma SafelyCheckSame(env: Env, s: Wallet, a: Node, pass: Pass)
    requires Sound(env, s) && a in s.managed
    ensures var (s', ok) := SafelyCheck(s, a, pass);
      && SameAccounts(s, s') && Sound(env, s')
      && (ok <==> pass == s.priv && (s.managed[a].unlocked ==> Intact(s.managed[a])))
  {
    hide Sound, ManagerOk, BucketOk, Intact, CheckPassword;
    SoundReads(env, s, a);
    CheckPasswordIff(env, a, s.db[a], s.managed[a], s.secrets[s.managed[a].secret], s.priv, pass);
    var (m, sk, ok) := SafelyCheckPassword(s.managed[a], s.secrets[s.managed[a].secret], pass);
    ReplacedKeeps(env, s, a, m, sk);
  }

  lemma CheckOneSame(env: Env, s: Wallet, pick: Node, pass: Pass)
    requires Sound(env, s) && Picks(s, pick)
    ensures var (s', ok) := CheckOne(s, pick, pass);
      SameAccounts(s, s') && Sound(env, s') && (ok && s.managed != map[] ==> pass == s.priv)
  {
    if s.managed != map[] {
      hide Sound, SafelyCheck, SameAccounts;
      SafelyCheckSame(env, s, pick, pass);
    }
  }

  // Unlocking one account

  lemma DerivedNodeOk(env: Env, a: Node, nums: Nums, k: PubKey, private: bool)
    requires k in SlotKeys(env, a, nums)
    ensures DerivedNode(a, AddressOf(k, private)) == k.node && env.valid(k.node)
  {
    hide BranchOf, LastIndex;
    var p: Slot :| p in Slots(env, a, nums) && k == PubKey(SlotNode(a, p));
    SlotNodeParts(a, p);
  }

  lemma PrivKeysOk(env: Env, a: Node, b: Bucket, m: Manager, priv: Pass)
    requires ManagerOk(env, a, b, m, priv)
    ensures WithPrivKeys(m, a) == ExpectedAddrs(env, a, b.nums, true)
    ensures forall k :: k in m.addrs ==> env.valid(DerivedNode(a, m.addrs[k]))
  {
    hide BranchOf, LastIndex, SlotKeys, SlotNode;
    forall k | k in m.addrs ensures m.addrs[k] == AddressOf(k, m.unlocked) && DerivedNode(a, m.addrs[k]) == k.node && env.valid(k.node) {
      DerivedNodeOk(env, a, b.nums, k, m.unlocked);
    }
  }

  /** With the key that the digest names, unlocking one account derives every private key, each matching
      its public key; with any other key it fails. */
  lemma UpdatePrivKeysIff(env: Env, a: Node, b: Bucket, m: Manager, pub: Pass, priv: Pass, key: Key)
    requires BucketOk(env, a, b, pub, priv) && ManagerOk(env, a, b, m, priv)
    requires m.hashed.Some? && m.hashed.value.1 == priv
    ensures var r := UpdatePrivKeys(env, m, key);
      && (r.Some? <==> key == b.mpriv.digest)
      && (r.Some? ==> ManagerOk(env, a, b, r.value, priv) && r.value.unlocked && r.value.secret == m.secret && r.value.hashed == m.hashed && r.value.salt == m.salt)
  {
    PrivKeysOk(env, a, b, m, priv);
    hide SealedPubKeys, ExpectedAddrs, WithPrivKeys, SlotNode, DerivedNode;
    assert m.cpriv == Enc(b.mpriv.digest, KeyBytes(Random(RandOf(b).keyPriv)));
    assert m.acctPrivEnc == Enc(Random(RandOf(b).keyPriv), PrivExt(a));
    assert env.valid(ChildNode(a, EXTERNAL)) && env.valid(ChildNode(a, INTERNAL));
  }

  /** useKeystore succeeds exactly with the common passphrase; on an account that is already unlocked the
      salt must be intact and the master key must not have been zeroed since. */
  lemma UseManagerIff(env: Env, a: Node, b: Bucket, m: Manager, sk: SecretKey, pub: Pass, priv: Pass, pass: Pass)
    requires BucketOk(env, a, b, pub, priv) && ManagerOk(env, a, b, m, priv) && priv != ""
    requires sk.params == b.mpriv && b.mpriv.digest == Scrypt(priv, b.mpriv.salt)
    ensures var (m', sk', ok) := UseManager(env, m, sk, pass);
      && (ok <==> pass == priv && (m.unlocked ==> Intact(m) && Live(sk)))
      && ManagerOk(env, a, b, m', priv) && m'.secret == m.secret && m'.unlocked == (ok || m.unlocked)
      && sk'.params == sk.params && (m.unlocked ==> sk' == sk)
  {
    CheckPasswordIff(env, a, b, m, sk, priv, pass);
    var (m1, sk1, ok) := CheckPassword(m, sk, pass);
    if ok {
      var hashed := m1.(hashed := Some((m1.salt, pass)));
      assert ManagerOk(env, a, b, hashed, priv);
      hide ManagerOk, BucketOk, UpdatePrivKeys, CheckPassword;
      UpdatePrivKeysIff(env, a, b, hashed, pub, priv, sk1.key);
    }
  }

  lemma UseKeystoreIff(env: Env, s: Wallet, a: Node, pass: Pass)
    requires Sound(env, s) && a in s.managed && Present(s, a)
    ensures var (s', ok) := UseKeystore(env, s, a, pass);
      && Sound(env, s') && Present(s', a) && s' == Replaced(s, a, s'.managed[a], s'.secrets[s'.managed[a].secret])
      && s'.managed[a].secret == s.managed[a].secret
      && (ok <==> pass == s.priv && (s.managed[a].unlocked ==> Intact(s.managed[a]) && Live(s.secrets[s.managed[a].secret])))
      && s'.managed[a].unlocked == (ok || s.managed[a].unlocked)
      && (s.managed[a].unlocked ==> s'.secrets[s'.managed[a].secret] == s.secrets[s.managed[a].secret])
  {
    hide Sound, ManagerOk, BucketOk, Intact, UseManager, Live;
    SoundReads(env, s, a);
    UseManagerIff(env, a, s.db[a], s.managed[a], s.secrets[s.managed[a].secret], s.pubPass, s.priv, pass);
    var (m, sk, ok) := UseManager(env, s.managed[a], s.secrets[s.managed[a].secret], pass);
    ReplacedKeeps(env, s, a, m, sk);
  }

  // Unlock and Lock

  ghost predicate Distinct(order: seq<Node>) {
    forall i, j :: 0 <= i < j < |order| ==> order[i] != order[j]
  }

  ghost predicate Ready(s: Wallet, a: Node) {
    Present(s, a) && Intact(s.managed[a]) && Live(s.secrets[s.managed[a].secret])
  }

  /** Same database and passphrases; the accounts of `order` may have been opened. */
  ghost predicate OnlyOpened(s: Wallet, s': Wallet, order: seq<Node>, ok: bool) {
    && s'.db == s.db && s'.pubPass == s.pubPass && s'.priv == s.priv && s'.managed.Keys == s.managed.Keys
    && s'.secrets.Keys == s.secrets.Keys && s'.unlocked == (ok || s.unlocked)
    && forall a :: a in s.managed ==> s'.managed[a].unlocked == ((ok && a in order) || s.managed[a].unlocked)
  }

  /** One account opened, or found open. */
  ghost predicate OneOpened(s: Wallet, a: Node, s1: Wallet) {
    && Present(s, a) && Present(s1, a) && s1 == Replaced(s, a, s1.managed[a], s1.secrets[s1.managed[a].secret])
    && s1.managed[a].secret == s.managed[a].secret && s1.managed[a].unlocked
  }

  lemma OpenedThen(s: Wallet, a: Node, s1: Wallet, rest: seq<Node>, s2: Wallet, ok: bool)
    requires OneOpened(s, a, s1) && OnlyOpened(s1, s2, rest, ok) && a in s.managed && (ok || s.managed[a].unlocked)
    ensures OnlyOpened(s, s2, [a] + rest, ok)
  {
    forall c | c in s.managed ensures s2.managed[c].unlocked == ((ok && c in [a] + rest) || s.managed[c].unlocked) {}
  }

  lemma ReadyStays(s: Wallet, a: Node, s1: Wallet, c: Node)
    requires OneOpened(s, a, s1) && s1.secrets == s.secrets && c != a
    ensures Ready(s1, c) == Ready(s, c)
  {
  }

  /** Unlock, when the accounts visited are all locked (`open` false) or all unlocked: in whatever order
      they are visited it succeeds exactly with the common passphrase, and for unlocked accounts only
      while their salts are intact and their master keys live. */
  lemma {:induction false} UnlockIff(env: Env, s: Wallet, order: seq<Node>, pass: Pass, open: bool)
    requires Sound(env, s) && Distinct(order) && forall a :: a in order ==> a in s.managed && s.managed[a].unlocked == open
    ensures var (s', ok) := Unlock(env, s, order, pass);
      && Sound(env, s') && OnlyOpened(s, s', order, ok)
      && (ok <==> order == [] || (pass == s.priv && (open ==> forall a :: a in order ==> Ready(s, a))))
    decreases |order|
  {
    hide Sound, UseKeystore, Intact, Live, OnlyOpened, Replaced, UseManager, Ready, Present, OneOpened, Unlock, UseAll;
    UnlockUnfold(env, s, order, pass);
    if order == [] {
      SoundUnlocked(env, s);
    } else {
      var a, rest := order[0], order[1..];
      assert order == [a] + rest && a in order;
      assert forall c :: c in rest ==> c in order && c != a;
      var (s1, ok) := UseKeystore(env, s, a, pass);
      UseOne(env, s, a, pass);
      if ok {
        UnlockIff(env, s1, rest, pass, open);
        forall c | c in rest ensures open ==> Ready(s1, c) == Ready(s, c) {
          if open {
            ReadyStays(s, a, s1, c);
          }
        }
        var (s2, ok2) := Unlock(env, s1, rest, pass);
        assert open || ok2;
        OpenedThen(s, a, s1, rest, s2, ok2);
      } else {
        assert OnlyOpened(s, s1, order, false);
      }
    }
  }

  lemma UnlockUnfold(env: Env, s: Wallet, order: seq<Node>, pass: Pass)
    ensures order == [] ==> Unlock(env, s, order, pass) == (s.(unlocked := true), true)
    ensures order != [] ==> var (s1, ok) := UseKeystore(env, s, order[0], pass);
      Unlock(env, s, order, pass) == if ok then Unlock(env, s1, order[1..], pass) else (s1, false)
  {
    hide UseKeystore;
  }

  /** One round of the loop in Unlock. */
  lemma UseOne(env: Env, s: Wallet, a: Node, pass: Pass)
    requires Sound(env, s) && a in s.managed
    ensures var (s1, ok) := UseKeystore(env, s, a, pass);
      && Sound(env, s1) && s1.priv == s.priv
      && (ok <==> pass == s.priv && (s.managed[a].unlocked ==> Ready(s, a)))
      && (ok ==> OneOpened(s, a, s1) && (s.managed[a].unlocked ==> s1.secrets == s.secrets))
      && (forall c :: c in s.managed && c != a ==> c in s1.managed && s1.managed[c].unlocked == s.managed[c].unlocked)
      && (!ok ==> forall order :: OnlyOpened(s, s1, order, false))
  {
    hide Sound, UseKeystore, Intact, Live, UseManager;
    SoundReads(env, s, a);
    UseKeystoreIff(env, s, a, pass);
    var (s1, ok) := UseKeystore(env, s, a, pass);
    FlagsAfterOne(s, a, s1);
    if !ok {
      forall order ensures OnlyOpened(s, s1, order, false) {
        NotOpened(s, a, s1, order);
      }
    }
  }

  lemma FlagsAfterOne(s: Wallet, a: Node, s1: Wallet)
    requires Present(s, a) && Present(s1, a) && s1 == Replaced(s, a, s1.managed[a], s1.secrets[s1.managed[a].secret])
    ensures s1.priv == s.priv && s1.managed.Keys == s.managed.Keys
    ensures forall c :: c in s.managed && c != a ==> s1.managed[c] == s.managed[c]
  {
  }

  lemma NotOpened(s: Wallet, a: Node, s1: Wallet, order: seq<Node>)
    requires Present(s, a) && Present(s1, a) && s1 == Replaced(s, a, s1.managed[a], s1.secrets[s1.managed[a].secret])
    requires s1.managed[a].secret == s.managed[a].secret && s1.managed[a].unlocked == s.managed[a].unlocked
    ensures OnlyOpened(s, s1, order, false)
  {
  }

  lemma SoundUnlocked(env: Env, s: Wallet)
    requires Sound(env, s)
    ensures Sound(env, s.(unlocked := true)) && OnlyOpened(s, s.(unlocked := true), [], true)
  {
    forall a | a in s.managed ensures AccountOk(env, s.(unlocked := true), a) {
      assert AccountOk(env, s, a);
    }
  }

  lemma ClearedOk(env: Env, a: Node, b: Bucket, m: Manager, priv: Pass)
    requires ManagerOk(env, a, b, m, priv)
    ensures ManagerOk(env, a, b, ClearPrivKeys(m), priv) && ClearPrivKeys(m).secret == m.secret && !ClearPrivKeys(m).unlocked
  {
    hide BranchOf, LastIndex, SlotKeys;
    assert ClearPrivKeys(m).addrs == ExpectedAddrs(env, a, b.nums, false);
  }

  lemma LockedSecrets(s: Wallet, r: Ref)
    requires r in s.secrets
    ensures r in Lock(s).secrets && Lock(s).secrets[r].params == s.secrets[r].params
  {
  }

  lemma LockKeeps(env: Env, s: Wallet)
    requires Sound(env, s)
    ensures Inv(env, Lock(s))
  {
    hide BucketOk, ManagerOk, ValidatePassphrase, ClearPrivKeys, InUse;
    var s' := Lock(s);
    forall a | a in s'.managed ensures AccountOk(env, s', a) && !s'.managed[a].unlocked {
      assert AccountOk(env, s, a);
      ClearedOk(env, a, s.db[a], s.managed[a], s.priv);
      LockedSecrets(s, s.managed[a].secret);
    }
  }

  // New accounts

  lemma NewBucketOk(env: Env, root: Node, account: nat, remark: string, nums: Nums, pub: Pass, priv: Pass, r: Rand)
    requires Derivable(env, root, account)
    ensures BucketOk(env, AccountNode(env, root, account), NewBucket(env, root, account, remark, nums, pub, priv, r), pub, priv)
  {
    hide Derivable, SealedPubKeys;
    RootOfAccount(env, root, account);
    var b := NewBucket(env, root, account, remark, nums, pub, priv, r);
    assert RandOf(b) == r;
  }

  lemma LoadedKeeps(env: Env, s: Wallet, a: Node, b: Bucket, m: Manager, priv: Pass)
    requires Sound(env, s) && a !in s.db && m.secret !in s.secrets
    requires BucketOk(env, a, b, s.pubPass, priv) && ManagerOk(env, a, b, m, priv)
    requires (s.managed != map[] ==> priv == s.priv) && ValidatePassphrase(priv)
    ensures Sound(env, WithLoaded(s, a, b, m).(priv := priv))
  {
    hide BucketOk, ManagerOk;
    var s' := WithLoaded(s, a, b, m).(priv := priv);
    forall c | c in s'.managed ensures AccountOk(env, s', c) {
      if c != a {
        assert AccountOk(env, s, c);
        assert s.managed != map[];
      }
    }
  }

  ghost predicate CanAdd(env: Env, s: Wallet, root: Node, account: nat, nums: Nums) {
    && Derivable(env, root, account) && AccountNode(env, root, account) !in s.db
    && nums.external <= HARDENED && nums.internal <= HARDENED
  }

  /** The account as loadAddrManager sees it right after it was stored. */
  lemma StoredAndLoaded(env: Env, s: Wallet, root: Node, account: nat, remark: string, nums: Nums, priv: Pass, r: Rand, secret: Ref, salt: nat)
    requires Sound(env, s) && secret !in s.secrets && CanAdd(env, s, root, account, nums)
    requires (s.managed != map[] ==> priv == s.priv) && ValidatePassphrase(priv)
    ensures var b := NewBucket(env, root, account, remark, nums, s.pubPass, priv, r);
      var m := Load(env, b, s.pubPass, secret, salt);
      m.Some? && !m.value.unlocked && Sound(env, WithLoaded(s, AccountNode(env, root, account), b, m.value).(priv := priv))
  {
    var a, b := AccountNode(env, root, account), NewBucket(env, root, account, remark, nums, s.pubPass, priv, r);
    NewBucketOk(env, root, account, remark, nums, s.pubPass, priv, r);
    LoadOk(env, a, b, s.pubPass, priv, s.pubPass, secret, salt);
    hide BucketOk, ManagerOk, NewBucket, Load, Sound, AccountNode;
    LoadedKeeps(env, s, a, b, Load(env, b, s.pubPass, secret, salt).value, priv);
  }

  /** Adding an account fails only where its keys cannot be derived, it exists already, or a child
      number is beyond the non-hardened range. */
  lemma AddAccountKeeps(env: Env, s: Wallet, root: Node, account: nat, remark: string, nums: Nums, priv: Pass, r: Rand, secret: Ref, salt: nat)
    requires Inv(env, s) && secret !in s.secrets
    requires (s.managed != map[] ==> priv == s.priv) && ValidatePassphrase(priv)
    ensures var (s', ok) := AddAccount(env, s, root, account, remark, nums, priv, r, secret, salt);
      && Inv(env, s') && s'.pubPass == s.pubPass && s'.unlocked == s.unlocked
      && (ok <==> CanAdd(env, s, root, account, nums)) && (!ok ==> s' == s)
      && (ok ==> s'.priv == priv && s'.db == s.db[AccountNode(env, root, account) := NewBucket(env, root, account, remark, nums, s.pubPass, priv, r)])
  {
    hide BucketOk, ManagerOk, NewBucket, Derivable, AccountNode, Load, Sound, UseKeystore, Intact, Live, ValidatePassphrase;
    var a := AccountNode(env, root, account);
    if CanAdd(env, s, root, account, nums) {
      StoredAndLoaded(env, s, root, account, remark, nums, priv, r, secret, salt);
      var b := NewBucket(env, root, account, remark, nums, s.pubPass, priv, r);
      var m := Load(env, b, s.pubPass, secret, salt).value;
      var s1 := WithLoaded(s, a, b, m).(priv := priv);
      assert Present(s1, a) by { SoundReads(env, s1, a); }
      if s.unlocked {
        UseKeystoreIff(env, s1, a, priv);
      }
    }
  }

  lemma SoundKeys(env: Env, s: Wallet)
    requires Sound(env, s)
    ensures s.db.Keys == s.managed.Keys && ValidatePassphrase(s.pubPass)
  {
  }
}
