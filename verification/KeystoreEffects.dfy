/** When each keystore operation succeeds and what it leaves behind, in terms a caller can check: the
    passphrases, the child numbers, the usable indices and the BIP-44 path in numbers. */
module KeystoreEffects {
  import opened Common
  import opened Keystore
  import opened KeystoreInvariant
  import opened KeystoreSteps
  import opened KeystoreRuns

  // Where keys live

  /** m/44'/coin'/account'/branch/index, a hardened index being 2^31 more. */
  lemma PathLayout(env: Env, root: Node, account: nat, br: nat, i: nat)
    ensures SlotNode(AccountNode(env, root, account), (br, i))
      == Node(root.seed, root.path + [2147483692, env.coin + 2147483648, account + 2147483648, br, i])
  {
    var p := root.path + [2147483692, env.coin + 2147483648, account + 2147483648];
    assert p + [br] + [i] == root.path + [2147483692, env.coin + 2147483648, account + 2147483648, br, i];
  }

  /** A passphrase is legal if it has 6 to 40 characters, all of them ASCII letters, digits or one of @#$%^&. */
  lemma LegalIff(p: Pass)
    ensures ValidatePassphrase(p) <==> 6 <= |p| <= 40 && forall c :: c in p ==> Alphanumeric(c as int) || c in "@#$%^&"
  {
    forall c: char ensures PassChar(c) <==> Alphanumeric(c as int) || c in "@#$%^&" {}
    hide PassChar;
  }

  predicate Alphanumeric(code: int) {
    48 <= code < 58 || 65 <= code < 91 || 97 <= code < 123
  }

  /** A seed can be used exactly when every node from the purpose to the two branches has a key. */
  lemma DerivableIff(env: Env, root: Node, account: nat)
    ensures Derivable(env, root, account) <==>
      && env.coin < 2147483648 && account <= 2147483646
      && env.valid(Node(root.seed, root.path + [2147483692]))
      && env.valid(Node(root.seed, root.path + [2147483692, env.coin + 2147483648]))
      && env.valid(Node(root.seed, root.path + [2147483692, env.coin + 2147483648, account + 2147483648]))
      && env.valid(Node(root.seed, root.path + [2147483692, env.coin + 2147483648, account + 2147483648, 0]))
      && env.valid(Node(root.seed, root.path + [2147483692, env.coin + 2147483648, account + 2147483648, 1]))
  {
    var p, c, a := 2147483692, env.coin + 2147483648, account + 2147483648;
    assert root.path + [p] + [c] == root.path + [p, c] && root.path + [p, c] + [a] == root.path + [p, c, a];
    assert root.path + [p, c, a] + [0] == root.path + [p, c, a, 0] && root.path + [p, c, a] + [1] == root.path + [p, c, a, 1];
  }

  /** What the two passphrases open: the public one the account and branch public keys and the address keys,
      the private one the account key and the master key. */
  lemma BucketOpensTo(env: Env, a: Node, b: Bucket, pub: Pass, priv: Pass)
    requires BucketOk(env, a, b, pub, priv)
    ensures exists ckPub, ckPriv ::
      && Decrypt(Scrypt(pub, b.mpub.salt), b.cpub) == Some(KeyBytes(ckPub)) && Decrypt(Scrypt(priv, b.mpriv.salt), b.cpriv) == Some(KeyBytes(ckPriv))
      && Decrypt(ckPub, b.acctPub) == Some(PubExt(a)) && Decrypt(ckPriv, b.acctPriv) == Some(PrivExt(a))
      && Decrypt(ckPub, b.exBranch) == Some(PubExt(Node(a.seed, a.path + [0]))) && Decrypt(ckPub, b.inBranch) == Some(PubExt(Node(a.seed, a.path + [1])))
      && Decrypt(ckPriv, b.mhdpriv) == Some(PrivExt(Node(a.seed, a.path[..|a.path| - 3])))
  {
    hide SealedPubKeys, Derivable;
    var ckPub, ckPriv := Random(RandOf(b).keyPub), Random(RandOf(b).keyPriv);
    assert |a.path| >= 3;
    assert Decrypt(Scrypt(pub, b.mpub.salt), b.cpub) == Some(KeyBytes(ckPub)) && Decrypt(Scrypt(priv, b.mpriv.salt), b.cpriv) == Some(KeyBytes(ckPriv));
  }

  // Issuing addresses

  /** The usable indices of branch `br` from `next` up to `limit`. */
  ghost function UsableFrom(env: Env, a: Node, br: nat, next: nat, limit: nat): set<nat> {
    set i: nat | next <= i < limit && env.valid(SlotNode(a, (br, i)))
  }

  ghost function Candidates(env: Env, x: ExtendedKey, next: nat): set<nat> {
    set i: nat | next <= i < Limit(x) && HasChild(env, x, i)
  }

  /** The allocation loop succeeds exactly when enough usable indices are left. */
  lemma {:induction false} IssueIff(env: Env, x: ExtendedKey, next: nat, n: nat)
    ensures Issue(env, x, next, n).Some? <==> n <= |Candidates(env, x, next)|
    decreases n
  {
    hide NextUsable, Candidates;
    if n > 0 {
      CandidatesStep(env, x, next);
      var r := NextUsable(env, x, next);
      if r.Some? {
        IssueIff(env, x, r.value + 1, n - 1);
      }
    }
  }

  lemma CandidatesStep(env: Env, x: ExtendedKey, next: nat)
    ensures var r := NextUsable(env, x, next);
      |Candidates(env, x, next)| == if r.None? then 0 else 1 + |Candidates(env, x, r.value + 1)|
  {
    NextUsableIs(env, x, next);
    var r := NextUsable(env, x, next);
    hide NextUsable, HasChild;
    if r.None? {
      assert Candidates(env, x, next) == {};
    } else {
      var i := r.value;
      assert Candidates(env, x, next) == {i} + Candidates(env, x, i + 1);
      assert i !in Candidates(env, x, i + 1);
    }
  }

  lemma CandidatesAre(env: Env, x: ExtendedKey, a: Node, br: nat, next: nat)
    requires x.node == ChildNode(a, br)
    ensures Candidates(env, x, next) == UsableFrom(env, a, br, next, if x.Priv? then 4294967295 else 2147483648)
  {
    forall i: nat | i < Limit(x) ensures HasChild(env, x, i) <==> env.valid(SlotNode(a, (br, i))) {}
  }

  /** The account is managed, neither the number asked for nor its sum with the child number, as a 32-bit
      number, exceeds 2^31 - 1, and enough usable indices are left: below 2^31 while the account is locked,
      where only public derivation is possible. */
  ghost predicate CanIssue(env: Env, s: Wallet, a: Node, br: nat, n: nat) {
    && a in s.managed && a in s.db && n <= 2147483647
    && var next := if br == 1 then s.db[a].nums.internal else s.db[a].nums.external;
    && (n + next) % 4294967296 <= 2147483647
    && n <= |UsableFrom(env, a, br, next, if s.unlocked then 4294967295 else 2147483648)|
  }

  /** NextAddresses succeeds exactly then; that the branch has a key is part of the invariant. */
  lemma CanIssueIff(env: Env, s: Wallet, a: Node, br: nat, n: nat)
    requires Inv(env, s) && br < 2
    ensures ToIssue(env, s, a, br, n).Some? <==> CanIssue(env, s, a, br, n)
  {
    hide Issue, UsableFrom, Inv, BranchKey, AccountKey, HasChild;
    if a in s.managed {
      BranchReads(env, s, a, br);
      IssueIff(env, BranchKey(s.managed[a], br), s.db[a].nums.At(br), n);
      CandidatesAre(env, BranchKey(s.managed[a], br), a, br, s.db[a].nums.At(br));
    }
  }

  /** The branch key a call derives from: of the account's own branch, private exactly while unlocked. */
  lemma BranchReads(env: Env, s: Wallet, a: Node, br: nat)
    requires Inv(env, s) && a in s.managed && br < 2
    ensures var m := s.managed[a];
      && a in s.db && m.nums == s.db[a].nums && HasChild(env, AccountKey(m), br)
      && BranchKey(m, br).node == ChildNode(a, br) && BranchKey(m, br).Priv? == s.unlocked
  {
    SoundReads(env, s, a);
    assert Derivable(env, Root(a), s.db[a].usage) && a == AccountNode(env, Root(a), s.db[a].usage);
    assert env.valid(ChildNode(a, EXTERNAL)) && env.valid(ChildNode(a, INTERNAL));
    hide Sound, BucketOk, ExpectedAddrs, Derivable;
  }

  /** What a successful call leaves: the child number of the branch is one past the last issued index, the
      other branch and the other accounts are as before, and the new addresses are those of the issued
      indices, with their private keys if the wallet is unlocked. A failed call changes nothing. */
  ghost predicate Issued(env: Env, s: Wallet, a: Node, br: nat, issued: Option<seq<nat>>, s': Wallet) {
    if issued.None? || a !in s.db || a !in s.managed then s' == s else
    var ix, b, m := issued.value, s.db[a], s.managed[a];
    && a in s'.db && a in s'.managed
    && s' == s.(db := s.db[a := s'.db[a]], managed := s.managed[a := s'.managed[a]])
    && s'.db[a] == b.(nums := s'.db[a].nums, pubKeys := s'.db[a].pubKeys)
    && s'.db[a].nums == (
         if ix == [] then b.nums
         else if br == 1 then Nums(b.nums.external, ix[|ix| - 1] + 1) else Nums(ix[|ix| - 1] + 1, b.nums.internal))
    && s'.managed[a].nums == s'.db[a].nums
    && s'.managed[a].addrs.Keys == m.addrs.Keys + (set i | i in ix :: PubKey(Node(a.seed, a.path + [br, i])))
    && forall k :: k in s'.managed[a].addrs ==> (s'.managed[a].addrs[k].priv == if s.unlocked then Some(PrivKey(k.node)) else None)
  }

  lemma NextEffect(env: Env, s: Wallet, a: Node, br: nat, n: nat)
    requires Inv(env, s) && br < 2
    ensures Issued(env, s, a, br, ToIssue(env, s, a, br, n), NextAddresses(env, s, a, br, n).0)
  {
    hide ToIssue, Inv, BranchKey, IssuedSealed, GrownBucket, GrownManager;
    var issued := ToIssue(env, s, a, br, n);
    if issued.Some? {
      ToIssueNeedsAccount(env, s, a, br, n);
      NextAddressesKeeps(env, s, a, br, n);
      BranchReads(env, s, a, br);
      PrivKeysThere(env, NextAddresses(env, s, a, br, n).0, a);
      IssuedKeysAre(a, br, issued.value);
      GrownReads(s.db[a], s.managed[a], br, issued.value);
    }
  }

  lemma GrownReads(b: Bucket, m: Manager, br: nat, ix: seq<nat>)
    requires br < 2
    ensures var b' := GrownBucket(b, m, br, ix); var m' := GrownManager(b', m, br, ix);
      && b' == b.(nums := b'.nums, pubKeys := b'.pubKeys) && m'.nums == b'.nums
      && b'.nums == (if ix == [] then b.nums else if br == 1 then Nums(b.nums.external, ix[|ix| - 1] + 1) else Nums(ix[|ix| - 1] + 1, b.nums.internal))
      && m'.addrs.Keys == m.addrs.Keys + IssuedKeys(BranchKey(m, br).node, ix)
  {
    hide BranchKey, IssuedSealed, IssuedKeys;
  }

  lemma IssuedKeysAre(a: Node, br: nat, ix: seq<nat>)
    ensures IssuedKeys(ChildNode(a, br), ix) == set i | i in ix :: PubKey(Node(a.seed, a.path + [br, i]))
  {
    forall i: nat ensures ChildNode(ChildNode(a, br), i) == Node(a.seed, a.path + [br, i]) {
      assert a.path + [br] + [i] == a.path + [br, i];
    }
  }

  lemma PrivKeysThere(env: Env, s: Wallet, a: Node)
    requires Inv(env, s) && a in s.managed
    ensures forall k :: k in s.managed[a].addrs ==> (s.managed[a].addrs[k].priv == if s.unlocked then Some(PrivKey(k.node)) else None)
  {
    SoundReads(env, s, a);
    hide Sound, BucketOk, SlotKeys, BranchOf, LastIndex;
  }

  // Adding accounts

  /** With no account any passphrase will do; otherwise it must be the common one and recognised. */
  lemma CheckOneIff(env: Env, s: Wallet, pick: Node, pass: Pass)
    requires Inv(env, s) && Picks(s, pick)
    ensures var (s1, ok) := CheckOne(s, pick, pass);
      Inv(env, s1) && SameAccounts(s, s1) && (ok <==> s.managed == map[] || Recognises(s, pick, pass))
  {
    hide Sound, Uniform, SameAccounts, Intact, SafelyCheck;
    CheckedKeeps(env, s, pick, pass);
    if s.managed != map[] {
      SafelyCheckSame(env, s, pick, pass);
    }
  }

  /** The accounts that were there, with their addresses, child numbers, remarks and lock state, are there
      after: only salts may differ. */
  ghost predicate Keeps(s: Wallet, s': Wallet) {
    forall c :: c in s.managed ==> Kept(s, s', c)
  }

  ghost predicate Kept(s: Wallet, s': Wallet, c: Node) {
    && c in s.managed && c in s.db && c in s'.db && c in s'.managed
    && s'.db[c] == s.db[c] && s'.managed[c] == s.managed[c].(salt := s'.managed[c].salt)
  }

  lemma AddAccountOthers(env: Env, s: Wallet, root: Node, account: nat, remark: string, nums: Nums, priv: Pass, r: Rand, secret: Ref, salt: nat, c: Node)
    requires c in s.managed && c in s.db
    ensures var s' := AddAccount(env, s, root, account, remark, nums, priv, r, secret, salt).0;
      c in s'.managed && c in s'.db && s'.managed[c] == s.managed[c] && s'.db[c] == s.db[c]
  {
    hide Derivable, Load, UseManager, NewBucket, AccountNode;
  }

  /** What a successful creation or import adds: account `a` with this remark and these child numbers, under
      passphrase `priv`; everything else is kept. */
  ghost predicate Added(env: Env, s: Wallet, a: Node, remark: string, nums: Nums, priv: Pass, s': Wallet) {
    && a !in s.db && s'.db.Keys == s.db.Keys + {a} && s'.managed.Keys == s.managed.Keys + {a} && Keeps(s, s')
    && s'.priv == priv && s'.pubPass == s.pubPass && s'.unlocked == s.unlocked
    && s'.managed[a].remark == remark && s'.managed[a].nums == nums && s'.managed[a].unlocked == s.unlocked
  }

  lemma AddAccountIff(env: Env, s: Wallet, root: Node, account: nat, remark: string, nums: Nums, priv: Pass, r: Rand, secret: Ref, salt: nat)
    requires Inv(env, s) && secret !in s.secrets
    requires (s.managed != map[] ==> priv == s.priv) && ValidatePassphrase(priv)
    ensures var (s', ok) := AddAccount(env, s, root, account, remark, nums, priv, r, secret, salt);
      && (ok <==> CanAdd(env, s, root, account, nums)) && (!ok ==> s' == s)
      && (ok ==> Inv(env, s') && Added(env, s, AccountNode(env, root, account), remark, nums, priv, s'))
  {
    hide Sound, AddAccount, AccountNode, Derivable, NewBucket, ValidatePassphrase, Uniform;
    AddAccountKeeps(env, s, root, account, remark, nums, priv, r, secret, salt);
    var (s', ok) := AddAccount(env, s, root, account, remark, nums, priv, r, secret, salt);
    var a := AccountNode(env, root, account);
    SoundKeys(env, s);
    SoundKeys(env, s');
    forall c | c in s.managed ensures c in s.db && c in s'.managed && c in s'.db && s'.managed[c] == s.managed[c] && s'.db[c] == s.db[c] {
      AddAccountOthers(env, s, root, account, remark, nums, priv, r, secret, salt, c);
    }
    if ok {
      NewAccountReads(env, s', a);
      StoredReads(env, root, account, remark, nums, s.pubPass, priv, r);
    }
  }

  lemma StoredReads(env: Env, root: Node, account: nat, remark: string, nums: Nums, pub: Pass, priv: Pass, r: Rand)
    ensures var b := NewBucket(env, root, account, remark, nums, pub, priv, r); b.nums == nums && b.remark == remark && b.usage == account
  {
  }

  lemma NewAccountReads(env: Env, s: Wallet, a: Node)
    requires Inv(env, s) && a in s.managed
    ensures a in s.db && s.managed[a].remark == s.db[a].remark && s.managed[a].nums == s.db[a].nums && s.managed[a].unlocked == s.unlocked
  {
    hide Sound, BucketOk, ExpectedAddrs;
    SoundReads(env, s, a);
  }

  lemma KeepsAfterCheck(s: Wallet, s1: Wallet, s2: Wallet)
    requires SameAccounts(s, s1) && Keeps(s1, s2) && s.managed.Keys <= s.db.Keys
    ensures Keeps(s, s2)
  {
    forall c | c in s.managed ensures Kept(s, s2, c) {
      assert c in s1.managed && Kept(s1, s2, c);
    }
  }

  /** A passphrase for a new account: legal, not the public one, and the one the present accounts share. */
  ghost predicate MayUse(s: Wallet, pick: Node, priv: Pass) {
    ValidatePassphrase(priv) && priv != s.pubPass && (s.managed == map[] || Recognises(s, pick, priv))
  }

  /** NewKeystore succeeds exactly with a legal passphrase that is not the public one and that the present
      accounts share, a usable seed of 32 bytes, and an account that is not there yet. */
  lemma NewKeystoreIff(env: Env, s: Wallet, pick: Node, seed: string, priv: Pass, remark: string, r: Rand, secret: Ref, salt: nat)
    requires Inv(env, s) && Picks(s, pick) && secret !in s.secrets
    ensures var (s', ok) := NewKeystore(env, s, pick, seed, priv, remark, r, secret, salt);
      && (ok <==> MayUse(s, pick, priv) && |seed| == 32 && env.valid(Node(seed, [])) && CanAdd(env, s, Node(seed, []), 0, Nums(0, 0)))
      && (ok ==> Added(env, s, AccountNode(env, Node(seed, []), 0), remark, Nums(0, 0), priv, s'))
      && (!ok ==> SameAccounts(s, s'))
  {
    hide Sound, CheckOne, AddAccount, ValidatePassphrase, SameAccounts, AccountNode, Derivable, Intact, Keeps, Uniform;
    CheckOneIff(env, s, pick, priv);
    var s1 := CheckOne(s, pick, priv).0;
    SameEmpty(s, s1);
    SoundKeys(env, s);
    assert ValidatePassphrase(s.pubPass);
    if CheckOne(s, pick, priv).1 && ValidatePassphrase(priv) {
      AddAccountIff(env, s1, Node(seed, []), 0, remark, Nums(0, 0), priv, r, secret, salt);
      AddedAfterCheck(env, s, s1, AddAccount(env, s1, Node(seed, []), 0, remark, Nums(0, 0), priv, r, secret, salt).0, AccountNode(env, Node(seed, []), 0), remark, Nums(0, 0), priv);
    }
  }

  lemma AddedAfterCheck(env: Env, s: Wallet, s1: Wallet, s2: Wallet, a: Node, remark: string, nums: Nums, priv: Pass)
    requires SameAccounts(s, s1) && s.managed.Keys <= s.db.Keys
    ensures Added(env, s1, a, remark, nums, priv, s2) ==> Added(env, s, a, remark, nums, priv, s2)
  {
    if Added(env, s1, a, remark, nums, priv, s2) {
      KeepsAfterCheck(s, s1, s2);
    }
  }

  /** ImportKeystore succeeds exactly if in addition the given passphrase opens the file, into a wallet with or
      without accounts; it adds the file's account and keeps the others. */
  lemma ImportKeystoreIff(env: Env, s: Wallet, pick: Node, f: File, current: Pass, chosen: Pass, r: Rand, secret: Ref, salt: nat)
    requires Inv(env, s) && Picks(s, pick) && secret !in s.secrets
    ensures var (s', ok) := ImportKeystore(env, s, pick, f, current, chosen, r, secret, salt);
      var priv := if chosen == "" then current else chosen;
      && (ok <==> MayUse(s, pick, priv) && FileRoot(f, current).Some? && CanAdd(env, s, FileRoot(f, current).value, f.account, f.nums))
      && (ok ==> Added(env, s, AccountNode(env, FileRoot(f, current).value, f.account), f.remark, f.nums, priv, s'))
      && (!ok ==> SameAccounts(s, s'))
  {
    hide Sound, CheckOne, AddAccount, ValidatePassphrase, SameAccounts, AccountNode, Derivable, Intact, Keeps, FileRoot, Uniform;
    var priv, root := if chosen == "" then current else chosen, FileRoot(f, current);
    CheckOneIff(env, s, pick, priv);
    var s1 := CheckOne(s, pick, priv).0;
    SameEmpty(s, s1);
    SameSelf(s);
    SoundKeys(env, s);
    if CheckOne(s, pick, priv).1 && ValidatePassphrase(priv) && root.Some? {
      AddAccountIff(env, s1, root.value, f.account, f.remark, f.nums, priv, r, secret, salt);
      AddedAfterCheck(env, s, s1, AddAccount(env, s1, root.value, f.account, f.remark, f.nums, priv, r, secret, salt).0, AccountNode(env, root.value, f.account), f.remark, f.nums, priv);
    }
  }

  // Removing, exporting, locking

  /** Account `a` is gone from the database and from memory; of the others only a salt may have changed. */
  ghost predicate Removed(s: Wallet, a: Node, s': Wallet) {
    && s'.db == s.db - {a} && s'.managed.Keys == s.managed.Keys - {a} && s'.priv == s.priv && s'.pubPass == s.pubPass
    && forall c :: c in s'.managed ==> s'.managed[c] == s.managed[c].(salt := s'.managed[c].salt)
  }

  /** An account is deleted exactly with the passphrase it recognises; the others are kept. */
  lemma DeleteKeystoreIff(env: Env, s: Wallet, a: Node, pass: Pass)
    requires Inv(env, s)
    ensures var (s', ok) := DeleteKeystore(s, a, pass);
      && (ok <==> a in s.managed && Recognises(s, a, pass))
      && (if ok then Removed(s, a, s') else SameAccounts(s, s'))
  {
    hide Sound, Uniform, SafelyCheck, Intact, SameAccounts, Removed;
    if a in s.managed {
      SafelyCheckSame(env, s, a, pass);
      RemovedAfterCheck(s, SafelyCheck(s, a, pass).0, a);
    } else {
      UnknownRefused(s, a, pass);
      SameSelf(s);
    }
  }

  lemma UnknownRefused(s: Wallet, a: Node, pass: Pass)
    requires a !in s.managed
    ensures SafelyCheck(s, a, pass) == (s, false)
  {
    hide SafelyCheckPassword;
  }

  lemma RemovedAfterCheck(s: Wallet, s1: Wallet, a: Node)
    requires SameAccounts(s, s1)
    ensures Removed(s, a, s1.(db := s1.db - {a}, managed := s1.managed - {a}))
  {
  }

  /** A file comes out exactly with the passphrase the account recognises, and it is the account as stored. */
  lemma ExportKeystoreIff(env: Env, s: Wallet, a: Node, pass: Pass)
    requires Inv(env, s)
    ensures var (s', f) := ExportKeystore(s, a, pass);
      && SameAccounts(s, s') && (f.Some? <==> a in s.managed && Recognises(s, a, pass))
      && (f.Some? ==> a in s.db && f.value == File(s.db[a].remark, s.db[a].mhdpriv, s.db[a].mpriv, s.db[a].cpriv, s.db[a].usage, s.db[a].nums))
  {
    SoundKeys(env, s);
    if a in s.managed {
      SafelyCheckSame(env, s, a, pass);
    } else {
      SameSelf(s);
    }
    hide Sound, Uniform, SafelyCheckPassword, Intact, SameAccounts;
  }

  /** After Lock no private key, no key that opens one and no passphrase hash is left in memory. */
  lemma LockClears(s: Wallet)
    ensures var l := Lock(s);
      && l == s.(managed := l.managed, secrets := l.secrets, unlocked := false) && l.managed.Keys == s.managed.Keys
      && forall a :: a in s.managed ==>
           && !l.managed[a].unlocked && l.managed[a].hashed == None && l.managed[a].ckPriv == Zeroed && l.managed[a].acctPriv == None
           && l.managed[a].addrs.Keys == s.managed[a].addrs.Keys && (forall k :: k in l.managed[a].addrs ==> l.managed[a].addrs[k].priv == None)
           && (s.managed[a].secret in s.secrets ==> l.secrets[s.managed[a].secret].key == Zeroed)
  {
    forall a | a in s.managed ensures InUse(s, s.managed[a].secret) {}
  }

  /** Every manager points to the one new master key, which is live, and the master keys they pointed to
      before are zeroed. */
  ghost predicate AllRepointed(s: Wallet, s': Wallet, chosen: Pass, n: nat, secret: Ref) {
    && secret in s'.secrets && s'.secrets[secret].key == Scrypt(chosen, n) && s'.secrets[secret].params == Params(n, Scrypt(chosen, n))
    && s'.managed.Keys == s.managed.Keys
    && forall a :: a in s.managed ==>
         && s'.managed[a].secret == secret
         && s.managed[a].secret in s'.secrets && s'.secrets[s.managed[a].secret].key == Zeroed
  }

  lemma ChangePrivRepoints(env: Env, s: Wallet, order: seq<Node>, current: Pass, chosen: Pass, n: nat, secret: Ref, salts: map<Node, nat>)
    requires Inv(env, s) && Visits(s, order) && secret !in s.secrets && ChangePrivPassphrase(s, order, current, chosen, n, secret, salts).1
    ensures AllRepointed(s, ChangePrivPassphrase(s, order, current, chosen, n, secret, salts).0, chosen, n, secret)
  {
    hide Sound, Uniform, CheckAll, ValidatePassphrase, RekeyAllPriv, AllRepointed, Visits, SameAccounts;
    CheckAllVisits(env, s, order, current);
    SecretsThere(env, s);
    var s1 := CheckAll(s, order, current).0;
    assert ChangePrivPassphrase(s, order, current, chosen, n, secret, salts) == (RekeyAllPriv(s1, current, chosen, n, secret, salts), true);
    RekeyRepoints(s, s1, current, chosen, n, secret, salts);
  }

  lemma SecretsThere(env: Env, s: Wallet)
    requires Sound(env, s)
    ensures forall a :: a in s.managed ==> s.managed[a].secret in s.secrets
  {
    hide Sound;
    forall a | a in s.managed ensures s.managed[a].secret in s.secrets {
      SoundReads(env, s, a);
    }
  }

  lemma RekeyRepoints(s: Wallet, s1: Wallet, current: Pass, chosen: Pass, n: nat, secret: Ref, salts: map<Node, nat>)
    requires SameAccounts(s, s1) && secret !in s.secrets && s1.managed.Keys <= s1.db.Keys
    requires forall a :: a in s.managed ==> s.managed[a].secret in s.secrets
    ensures AllRepointed(s, RekeyAllPriv(s1, current, chosen, n, secret, salts), chosen, n, secret)
  {
    hide RekeyAllPriv, SameAccounts;
    SameKeys(s, s1);
    RekeyedSecrets(s1, current, chosen, n, secret, salts);
  }

  lemma SameKeys(s: Wallet, s1: Wallet)
    requires SameAccounts(s, s1)
    ensures s1.managed.Keys == s.managed.Keys && s1.secrets.Keys == s.secrets.Keys
    ensures forall a :: a in s.managed ==> s1.managed[a].secret == s.managed[a].secret
  {
  }

  lemma RekeyedSecrets(s: Wallet, current: Pass, chosen: Pass, n: nat, secret: Ref, salts: map<Node, nat>)
    requires secret !in s.secrets && s.managed.Keys <= s.db.Keys
    ensures var s' := RekeyAllPriv(s, current, chosen, n, secret, salts);
      && s'.managed.Keys == s.managed.Keys && secret in s'.secrets && s'.secrets[secret] == NewSecretKey(chosen, n)
      && (forall a :: a in s.managed ==> s'.managed[a].secret == secret)
      && (forall a :: a in s.managed && s.managed[a].secret in s.secrets ==>
            s.managed[a].secret in s'.secrets && s'.secrets[s.managed[a].secret].key == Zeroed)
  {
    hide RekeyPriv, NewSecretKey;
    forall a | a in s.managed ensures InUse(s, s.managed[a].secret) {}
  }

  lemma CheckAllVisits(env: Env, s: Wallet, order: seq<Node>, current: Pass)
    requires Sound(env, s) && Visits(s, order)
    ensures SameAccounts(s, CheckAll(s, order, current).0)
  {
    hide Sound, CheckAll;
    CheckAllIff(env, s, order, current);
  }

  /** The remark is changed in the database and in memory, of this account only. */
  lemma ChangeRemarkIff(env: Env, s: Wallet, a: Node, remark: string)
    requires Inv(env, s)
    ensures var (s', ok) := ChangeRemark(s, a, remark);
      && (ok <==> a in s.managed) && (!ok ==> s' == s)
      && (ok ==> a in s.db && s' == s.(db := s.db[a := s.db[a].(remark := remark)], managed := s.managed[a := s.managed[a].(remark := remark)]))
  {
    hide Sound, Uniform;
    SoundKeys(env, s);
  }
}
