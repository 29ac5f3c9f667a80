/** The keystore manager as an object: its fields, its loops over the managed accounts and over child
    indices, each method proved to take a step of the model and so to keep the invariant. */
module KeystoreManager {
  import opened Common
  import opened Keystore
  import opened KeystoreInvariant
  import opened KeystoreSteps
  import opened KeystoreRuns
  import E = KeystoreEffects

  lemma {:induction false} UseAllSnoc(env: Env, s: Wallet, done: seq<Node>, a: Node, pass: Pass)
    ensures var (s1, ok) := UseAll(env, s, done, pass);
      UseAll(env, s, done + [a], pass) == if ok then UseKeystore(env, s1, a, pass) else (s1, false)
    decreases |done|
  {
    hide UseKeystore;
    if done == [] {
      assert [] + [a] == [a] && [a][1..] == [];
      var s1 := UseKeystore(env, s, a, pass).0;
      assert UseAll(env, s1, [], pass) == (s1, true);
    } else {
      assert (done + [a])[1..] == done[1..] + [a];
      UseAllSnoc(env, UseKeystore(env, s, done[0], pass).0, done[1..], a, pass);
    }
  }

  lemma UseAllStops(env: Env, s: Wallet, done: seq<Node>, rest: seq<Node>, pass: Pass)
    requires !UseAll(env, s, done, pass).1
    ensures UseAll(env, s, done + rest, pass) == UseAll(env, s, done, pass)
    decreases |done|
  {
    hide UseKeystore;
    assert (done + rest)[1..] == done[1..] + rest;
    if UseKeystore(env, s, done[0], pass).1 {
      UseAllStops(env, UseKeystore(env, s, done[0], pass).0, done[1..], rest, pass);
    }
  }

  class KeystoreManagerForPoC {
    const env: Env
    var db: map<Node, Bucket>
    var managed: map<Node, Manager>
    var secrets: map<Ref, SecretKey>
    var unlocked: bool
    var pubPass: Pass
    ghost var priv: Pass

    ghost function View(): Wallet
      reads this
    {
      Wallet(db, managed, secrets, unlocked, pubPass, priv)
    }

    ghost predicate Valid()
      reads this
    {
      Inv(env, View())
    }

    /** A manager over an empty store. */
    constructor (env: Env, pub: Pass)
      requires ValidatePassphrase(pub)
      ensures Valid() && Initial(View()) && pubPass == pub && this.env == env
    {
      this.env := env;
      db, managed, secrets, unlocked, pubPass, priv := map[], map[], map[], false, pub, "";
    }

    /** Opens the account exactly with the common passphrase; if it is open already, only while its salt is
        intact and its master key live. Soundness is kept whether or not it opens. */
    method UseKeystore(a: Node, pass: Pass) returns (ok: bool)
      modifies this
      ensures (View(), ok) == Keystore.UseKeystore(env, old(View()), a, pass)
      ensures old(Sound(env, View())) && a in old(managed) ==>
        && Sound(env, View()) && a in managed && managed[a].unlocked == (ok || old(managed)[a].unlocked)
        && (ok <==> pass == old(priv) && (old(managed)[a].unlocked ==> Ready(old(View()), a)))
    {
      hide Sound, UseManager, Ready, OneOpened, OnlyOpened;
      if a in managed && Sound(env, View()) {
        UseOne(env, View(), a, pass);
        OpenedFlag(env, View(), a, pass);
      }
      if a !in managed || managed[a].secret !in secrets {
        return false;
      }
      var (m, sk, used) := UseManager(env, managed[a], secrets[managed[a].secret], pass);
      managed, secrets := managed[a := m], secrets[m.secret := sk];
      return used;
    }

    /** Ranging over a Go map: any order, each account once, until one fails. */
    method Unlock(pass: Pass) returns (ok: bool, ghost order: seq<Node>)
      requires Valid()
      modifies this
      ensures Visits(old(View()), order) && (View(), ok) == Keystore.Unlock(env, old(View()), order, pass)
      ensures Valid()
    {
      hide Inv, Keystore.UseKeystore, Progress, UseAll, Visits, OnlyOpened, Ready;
      ghost var s0 := View();
      var left := managed.Keys;
      order := [];
      ProgressBegins(env, s0, pass);
      while left != {}
        invariant Progress(s0, order, left) && UseAll(env, s0, order, pass) == (View(), true)
        decreases |left|
      {
        var a :| a in left;
        UseAllSnoc(env, s0, order, a, pass);
        ok := UseKeystore(a, pass);
        ProgressOne(s0, order, left, a);
        order, left := order + [a], left - {a};
        if !ok {
          UseAllStops(env, s0, order, Listed(left), pass);
          ProgressEnds(s0, order, left);
          order := order + Listed(left);
          UnlockKeeps(env, s0, order, pass);
          return;
        }
      }
      ProgressEnds(s0, order, left);
      assert order + [] == order;
      unlocked := true;
      ok := true;
      UnlockKeeps(env, s0, order, pass);
    }

    /** Every manager is cleared and its master key zeroed, also where several share one. */
    method Lock()
      requires Valid()
      modifies this
      ensures View() == Keystore.Lock(old(View())) && Valid()
    {
      hide Inv, LockProgress, ClearPrivKeys;
      ghost var s0 := View();
      var left := managed.Keys;
      LockBegins(s0);
      while left != {}
        invariant left <= managed.Keys && LockProgress(s0, View(), left)
        decreases |left|
      {
        var a :| a in left;
        LockOne(s0, View(), left, a);
        var m := managed[a];
        managed := managed[a := ClearPrivKeys(m)];
        if m.secret in secrets {
          secrets := secrets[m.secret := Zero(secrets[m.secret])];
        }
        left := left - {a};
      }
      LockEnds(s0, View());
      unlocked := false;
      LockKeepsInv(env, s0);
    }

    /** safelyCheckPassword of one managed account: passes exactly with the common passphrase and, if the
        account is open, an intact salt; no account, address or lock changes. */
    method SafelyCheck(a: Node, pass: Pass) returns (ok: bool)
      modifies this
      ensures (View(), ok) == Keystore.SafelyCheck(old(View()), a, pass)
      ensures old(Valid()) ==> Valid() && SameAccounts(old(View()), View())
      ensures old(Valid()) && a in old(managed) ==> (ok <==> pass == old(priv) && Accepts(old(View()), a))
    {
      hide Sound, SafelyCheckPassword, SameAccounts, Intact;
      if Valid() {
        SafelyCheckKeeps(env, View(), a, pass);
        if a in managed {
          SafelyCheckSame(env, View(), a, pass);
        }
      }
      if a !in managed || managed[a].secret !in secrets {
        return false;
      }
      var (m, sk, passed) := SafelyCheckPassword(managed[a], secrets[managed[a].secret], pass);
      managed, secrets := managed[a := m], secrets[m.secret := sk];
      return passed;
    }

    /** A file comes out exactly with the passphrase the account recognises. */
    method ExportKeystore(a: Node, pass: Pass) returns (f: Option<File>)
      requires Valid()
      modifies this
      ensures (View(), f) == Keystore.ExportKeystore(old(View()), a, pass) && Valid()
      ensures f.Some? <==> a in old(managed) && Recognises(old(View()), a, pass)
      ensures SameAccounts(old(View()), View())
    {
      hide Inv, Keystore.SafelyCheck, SameAccounts, Recognises;
      E.ExportKeystoreIff(env, View(), a, pass);
      SafelyCheckKeeps(env, View(), a, pass);
      SameEmpty(View(), Keystore.SafelyCheck(View(), a, pass).0);
      var ok := SafelyCheck(a, pass);
      f := if ok && a in db then Some(ExportFile(db[a])) else None;
    }

    /** Exactly with the passphrase the account recognises it is removed, and no other is. */
    method DeleteKeystore(a: Node, pass: Pass) returns (ok: bool)
      requires Valid()
      modifies this
      ensures (View(), ok) == Keystore.DeleteKeystore(old(View()), a, pass) && Valid()
      ensures ok <==> a in old(managed) && Recognises(old(View()), a, pass)
      ensures if ok then E.Removed(old(View()), a, View()) else SameAccounts(old(View()), View())
    {
      hide Inv, Keystore.SafelyCheck, E.Removed, SameAccounts, Recognises;
      E.DeleteKeystoreIff(env, View(), a, pass);
      DeleteKeystoreKeeps(env, View(), a, pass);
      ok := SafelyCheck(a, pass);
      if ok {
        db, managed := db - {a}, managed - {a};
      }
    }

    /** Issues `n` addresses on one branch; the nested search loop is NextIndices. The call succeeds exactly
        for a managed account with `n` usable indices left below the derivation limit, and moves the child
        number to just after the last one. */
    method NextAddresses(a: Node, internal: bool, n: nat) returns (issued: Option<seq<nat>>)
      requires Valid()
      modifies this
      ensures var br := if internal then INTERNAL else EXTERNAL;
        && issued == ToIssue(env, old(View()), a, br, n)
        && View() == Keystore.NextAddresses(env, old(View()), a, br, n).0
      ensures issued.Some? <==> E.CanIssue(env, old(View()), a, if internal then 1 else 0, n)
      ensures E.Issued(env, old(View()), a, if internal then 1 else 0, issued, View())
      ensures Valid()
    {
      hide Inv, Issue, GrownBucket, GrownManager, BranchKey, AccountKey, E.CanIssue, E.Issued;
      var br := if internal then INTERNAL else EXTERNAL;
      E.CanIssueIff(env, View(), a, br, n);
      E.NextEffect(env, View(), a, br, n);
      NextAddressesKeeps(env, View(), a, br, n);
      if a !in managed || a !in db {
        return None;
      }
      var m, next := managed[a], db[a].nums.At(br);
      if n > MAX_ADDRESSES_PER_ACCOUNT || (n + next) % U32 > MAX_ADDRESSES_PER_ACCOUNT || !HasChild(env, AccountKey(m), br) {
        return None;
      }
      issued := NextIndices(env, BranchKey(m, br), next, n);
      if issued.Some? {
        var b := GrownBucket(db[a], m, br, issued.value);
        db, managed := db[a := b], managed[a := GrownManager(b, m, br, issued.value)];
      }
    }

    /** One transaction checks every account and stages its new bucket; after it has committed, every
        manager is pointed to the new master key. `secret` is where that key lives. */
    method ChangePrivPassphrase(current: Pass, chosen: Pass, n: nat, secret: Ref, salts: map<Node, nat>) returns (ok: bool, ghost order: seq<Node>)
      requires Valid() && secret !in secrets
      modifies this
      ensures Visits(old(View()), order)
      ensures (View(), ok) == Keystore.ChangePrivPassphrase(old(View()), order, current, chosen, n, secret, salts)
      ensures Valid()
    {
      hide Inv, Visits, Keystore.ChangePrivPassphrase, PrivChanged, MayChangePriv, ValidatePassphrase;
      ghost var s0 := View();
      if !ValidatePassphrase(chosen) || chosen == pubPass || chosen == current {
        order := Listed(managed.Keys);
        ListedVisits(s0);
        RefusedEarly(s0, order, current, chosen, n, secret, salts);
        return false, order;
      }
      var sk := NewSecretKey(chosen, n);
      var staged;
      ok, staged, order := StageAll(current, sk);
      ChangePrivIff(env, s0, order, current, chosen, n, secret, salts);
      ChangeUnfolds(s0, order, current, chosen, n, secret, salts);
      if !ok {
        return;
      }
      StagedAfter(env, s0, View(), order, current, staged, sk);
      RepointAll(staged, current, chosen, n, secret, salts);
    }

    /** The loop inside the transaction. */
    method StageAll(current: Pass, sk: SecretKey) returns (ok: bool, staged: map<Node, Bucket>, ghost order: seq<Node>)
      modifies this`managed, this`secrets
      ensures Visits(old(View()), order) && (View(), ok) == CheckAll(old(View()), order, current)
      ensures ok ==> Staged(old(View()), staged, current, sk, {})
    {
      hide Keystore.CheckAccount, Progress, CheckAll, Visits, RekeyPriv;
      ghost var s0 := View();
      var left := managed.Keys;
      order, staged := [], map[];
      ProgressBegins(env, s0, current);
      NothingToCheck(s0, current);
      while left != {}
        invariant db == old(db) && Progress(s0, order, left) && CheckAll(s0, order, current) == (View(), true)
        invariant Staged(s0, staged, current, sk, left)
        decreases |left|
      {
        var a :| a in left;
        CheckAllSnoc(s0, order, a, current);
        ok := CheckAccount(a, current);
        ProgressOne(s0, order, left, a);
        order, left := order + [a], left - {a};
        if !ok {
          CheckAllStops(s0, order, Listed(left), current);
          ProgressEnds(s0, order, left);
          order := order + Listed(left);
          return;
        }
        staged := staged[a := RekeyPriv(db[a], current, sk)];
      }
      ProgressEnds(s0, order, left);
      assert order + [] == order;
      ok := true;
    }

    method CheckAccount(a: Node, current: Pass) returns (ok: bool)
      modifies this`managed, this`secrets
      ensures (View(), ok) == Keystore.CheckAccount(old(View()), a, current) && (ok ==> a in db)
    {
      if a !in managed || managed[a].secret !in secrets || a !in db {
        return false;
      }
      var (m, sk, passed) := CheckPassword(managed[a], secrets[managed[a].secret], current);
      managed, secrets := managed[a := m], secrets[m.secret := sk];
      return passed && OpensPriv(db[a], current);
    }

    /** Commits the staged buckets, then updates one manager after the other. */
    method RepointAll(staged: map<Node, Bucket>, current: Pass, chosen: Pass, n: nat, secret: Ref, salts: map<Node, nat>)
      requires managed.Keys <= db.Keys && secret !in secrets && Staged(View(), staged, current, NewSecretKey(chosen, n), {})
      modifies this
      ensures View() == RekeyAllPriv(old(View()), current, chosen, n, secret, salts)
    {
      hide RekeyPriv, NewSecretKey, RepointProgress, RekeyManager, Repointed, CommittedDb, Staged, RekeyAllPriv;
      ghost var s0 := View();
      CommitIs(s0, staged, current, NewSecretKey(chosen, n));
      db := map a | a in db :: if a in staged then staged[a] else db[a];
      var left := managed.Keys;
      RepointBegins(s0, View(), current, chosen, n, secret, salts);
      while left != {}
        invariant left <= managed.Keys && RepointProgress(s0, View(), left, current, chosen, n, secret, salts)
        decreases |left|
      {
        var a :| a in left;
        RepointOne(s0, View(), left, a, current, chosen, n, secret, salts);
        Repoint(a, chosen, secret, salts);
        left := left - {a};
      }
      RepointEnds(s0, View(), current, chosen, n, secret, salts);
      secrets := secrets[secret := NewSecretKey(chosen, n)];
      priv := chosen;
    }

    method Repoint(a: Node, chosen: Pass, secret: Ref, salts: map<Node, nat>)
      requires a in managed && a in db
      modifies this`managed, this`secrets
      ensures View() == Repointed(old(View()), a, chosen, secret, salts) && managed.Keys == old(managed).Keys
    {
      var m := managed[a];
      if m.secret in secrets {
        secrets := secrets[m.secret := Zero(secrets[m.secret])];
      }
      managed := managed[a := RekeyManager(m, db[a], chosen, secret, Salt(if a in salts then salts[a] else 0))];
    }

    method ChangeRemark(a: Node, remark: string) returns (ok: bool)
      requires Valid()
      modifies this
      ensures (View(), ok) == Keystore.ChangeRemark(old(View()), a, remark) && Valid()
    {
      hide Inv;
      ChangeRemarkKeeps(env, View(), a, remark);
      ok := a in managed && a in db;
      if ok {
        db, managed := db[a := db[a].(remark := remark)], managed[a := managed[a].(remark := remark)];
      }
    }
  }

  lemma OpenedFlag(env: Env, s: Wallet, a: Node, pass: Pass)
    requires Sound(env, s) && a in s.managed
    ensures var (s', ok) := Keystore.UseKeystore(env, s, a, pass); a in s'.managed && s'.managed[a].unlocked == (ok || s.managed[a].unlocked)
  {
    hide Sound, Keystore.UseKeystore, Intact, Live;
    SoundReads(env, s, a);
    UseKeystoreIff(env, s, a, pass);
  }

  // The index loops of an import

  /** The two loops of createManagerKeyScope: each derives the children of a public branch key below the
      child number and stores them. The retry inside does not advance, so a child that is invalid would
      never be left behind. */
  method SealImported(env: Env, acct: Node, nums: Nums, ck: Key) returns (stored: map<Slot, Cipher>)
    requires NoInvalidBelow(env, acct, nums) && nums.external <= HARDENED && nums.internal <= HARDENED
    ensures stored == SealedPubKeys(env, acct, nums, ck)
  {
    var inner := SealBranch(env, acct, INTERNAL, nums.internal, ck);
    var outer := SealBranch(env, acct, EXTERNAL, nums.external, ck);
    stored := inner + outer;
    SealedBoth(env, acct, nums, ck, inner, outer);
  }

  ghost predicate SealsBranch(m: map<Slot, Cipher>, acct: Node, br: nat, n: nat, ck: Key) {
    && (forall p :: p in m <==> p.0 == br && p.1 < n)
    && (forall p :: p in m ==> m[p] == Enc(ck, PubBytes(PubKey(SlotNode(acct, p)))))
  }

  method SealBranch(env: Env, acct: Node, br: nat, n: nat, ck: Key) returns (stored: map<Slot, Cipher>)
    requires n <= HARDENED && forall i: nat :: i < n ==> env.valid(SlotNode(acct, (br, i)))
    ensures SealsBranch(stored, acct, br, n, ck)
  {
    var branch := Pub(ChildNode(acct, br));
    var addressInfo: seq<PubKey> := [];
    for i := 0 to n
      invariant |addressInfo| == i && forall j :: 0 <= j < i ==> addressInfo[j] == PubKey(SlotNode(acct, (br, j)))
    {
      assert env.valid(SlotNode(acct, (br, i)));
      assert HasChild(env, branch, i);
      addressInfo := addressInfo + [PubKey(ChildNode(branch.node, i))];
    }
    stored := map[];
    for i := 0 to n
      invariant SealsBranch(stored, acct, br, i, ck)
    {
      stored := stored[(br, i) := Enc(ck, PubBytes(addressInfo[i]))];
    }
  }

  lemma SealedBoth(env: Env, acct: Node, nums: Nums, ck: Key, inner: map<Slot, Cipher>, outer: map<Slot, Cipher>)
    requires NoInvalidBelow(env, acct, nums)
    requires SealsBranch(inner, acct, INTERNAL, nums.internal, ck) && SealsBranch(outer, acct, EXTERNAL, nums.external, ck)
    ensures inner + outer == SealedPubKeys(env, acct, nums, ck)
  {
    hide SlotNode;
    forall p: Slot ensures p in inner + outer <==> p in Slots(env, acct, nums) {
      assert p.0 < 2 && p.1 < nums.At(p.0) ==> env.valid(SlotNode(acct, (p.0, p.1)));
    }
  }

  // The loop in Unlock

  /** `order` lists, once each, the accounts that are not left. */
  ghost predicate Progress(s: Wallet, order: seq<Node>, left: set<Node>) {
    Distinct(order) && left <= s.managed.Keys && forall a :: a in order <==> a in s.managed && a !in left
  }

  lemma ProgressBegins(env: Env, s: Wallet, pass: Pass)
    ensures Progress(s, [], s.managed.Keys) && UseAll(env, s, [], pass) == (s, true)
  {
  }

  lemma ProgressOne(s: Wallet, order: seq<Node>, left: set<Node>, a: Node)
    requires Progress(s, order, left) && a in left
    ensures Progress(s, order + [a], left - {a})
  {
    assert forall c :: c in order + [a] <==> c in order || c == a;
  }

  lemma ProgressEnds(s: Wallet, order: seq<Node>, left: set<Node>)
    requires Progress(s, order, left)
    ensures Visits(s, order + Listed(left)) && (left == {} ==> Listed(left) == [])
  {
    var rest := Listed(left);
    assert rest != [] ==> rest[0] in rest;
    assert forall c :: c in order + rest <==> c in order || c in rest;
    forall i, j | 0 <= i < j < |order + rest| ensures (order + rest)[i] != (order + rest)[j] {
      if i < |order| <= j {
        assert order[i] in order && rest[j - |order|] in rest;
      }
    }
  }

  ghost function Listed(left: set<Node>): (order: seq<Node>)
    ensures Distinct(order) && forall a :: a in order <==> a in left
  {
    if left == {} then [] else
      var a :| a in left;
      var rest := Listed(left - {a});
      [a] + rest
  }

  // The loop in Lock

  /** Some account outside `left` points to this master key. */
  ghost predicate UsedOutside(s: Wallet, left: set<Node>, r: Ref) {
    exists a :: a in s.managed && a !in left && s.managed[a].secret == r
  }

  ghost predicate LockProgress(s0: Wallet, s: Wallet, left: set<Node>) {
    && s.managed.Keys == s0.managed.Keys && s.secrets.Keys == s0.secrets.Keys
    && s.db == s0.db && s.unlocked == s0.unlocked && s.pubPass == s0.pubPass && s.priv == s0.priv
    && (forall a :: a in s.managed ==> s.managed[a] == if a in left then s0.managed[a] else ClearPrivKeys(s0.managed[a]))
    && (forall r :: r in s.secrets ==> s.secrets[r] == if UsedOutside(s0, left, r) then Zero(s0.secrets[r]) else s0.secrets[r])
  }

  lemma LockBegins(s: Wallet)
    ensures LockProgress(s, s, s.managed.Keys)
  {
  }

  lemma UsedByOneMore(s: Wallet, left: set<Node>, a: Node, r: Ref)
    requires a in left && a in s.managed
    ensures UsedOutside(s, left - {a}, r) <==> UsedOutside(s, left, r) || r == s.managed[a].secret
  {
    if r == s.managed[a].secret {
      assert a !in left - {a};
    }
  }

  function Cleared(s: Wallet, a: Node): Wallet
    requires a in s.managed
  {
    var m := s.managed[a];
    var s1 := s.(managed := s.managed[a := ClearPrivKeys(m)]);
    if m.secret in s.secrets then s1.(secrets := s.secrets[m.secret := Zero(s.secrets[m.secret])]) else s1
  }

  lemma LockOne(s0: Wallet, s: Wallet, left: set<Node>, a: Node)
    requires LockProgress(s0, s, left) && a in left && a in s.managed
    ensures LockProgress(s0, Cleared(s, a), left - {a})
  {
    hide ClearPrivKeys, UsedOutside;
    var s' := Cleared(s, a);
    forall r | r in s'.secrets
      ensures s'.secrets[r] == if UsedOutside(s0, left - {a}, r) then Zero(s0.secrets[r]) else s0.secrets[r]
    {
      UsedByOneMore(s0, left, a, r);
    }
  }

  lemma LockEnds(s0: Wallet, s: Wallet)
    requires LockProgress(s0, s, {})
    ensures s.(unlocked := false) == Keystore.Lock(s0)
  {
    hide ClearPrivKeys;
    forall r ensures UsedOutside(s0, {}, r) == InUse(s0, r) {}
    assert s.managed == Keystore.Lock(s0).managed;
    assert s.secrets == Keystore.Lock(s0).secrets;
  }

  // The loops in ChangePrivPassphrase

  lemma ListedVisits(s: Wallet)
    ensures Visits(s, Listed(s.managed.Keys))
  {
  }

  lemma RefusedEarly(s: Wallet, order: seq<Node>, current: Pass, chosen: Pass, n: nat, secret: Ref, salts: map<Node, nat>)
    requires !ValidatePassphrase(chosen) || chosen == s.pubPass || chosen == current
    ensures Keystore.ChangePrivPassphrase(s, order, current, chosen, n, secret, salts) == (s, false)
  {
  }

  lemma {:induction false} CheckAllSnoc(s: Wallet, done: seq<Node>, a: Node, current: Pass)
    ensures var (s1, ok) := CheckAll(s, done, current);
      CheckAll(s, done + [a], current) == if ok then CheckAccount(s1, a, current) else (s1, false)
    decreases |done|
  {
    hide CheckAccount;
    if done == [] {
      assert [] + [a] == [a] && [a][1..] == [];
      NothingToCheck(CheckAccount(s, a, current).0, current);
    } else {
      assert (done + [a])[1..] == done[1..] + [a];
      CheckAllSnoc(CheckAccount(s, done[0], current).0, done[1..], a, current);
    }
  }

  lemma {:induction false} CheckAllStops(s: Wallet, done: seq<Node>, rest: seq<Node>, current: Pass)
    requires !CheckAll(s, done, current).1
    ensures CheckAll(s, done + rest, current) == CheckAll(s, done, current)
    decreases |done|
  {
    hide CheckAccount;
    assert (done + rest)[1..] == done[1..] + rest;
    if CheckAccount(s, done[0], current).1 {
      CheckAllStops(CheckAccount(s, done[0], current).0, done[1..], rest, current);
    }
  }

  /** The new buckets of the accounts that are not left. */
  ghost predicate Staged(s: Wallet, staged: map<Node, Bucket>, current: Pass, sk: SecretKey, left: set<Node>) {
    && (forall a :: a in staged <==> a in s.managed && a !in left)
    && (forall a :: a in staged ==> a in s.db && staged[a] == RekeyPriv(s.db[a], current, sk))
  }

  lemma StagedAfter(env: Env, s0: Wallet, s1: Wallet, order: seq<Node>, current: Pass, staged: map<Node, Bucket>, sk: SecretKey)
    requires Inv(env, s0) && Visits(s0, order) && CheckAll(s0, order, current) == (s1, true) && Staged(s0, staged, current, sk, {})
    ensures Staged(s1, staged, current, sk, {}) && s1.managed.Keys <= s1.db.Keys && s1.secrets.Keys == s0.secrets.Keys
  {
    hide Sound, CheckAll, RekeyPriv;
    SoundKeys(env, s0);
    CheckAllIff(env, s0, order, current);
  }

  lemma ChangeUnfolds(s: Wallet, order: seq<Node>, current: Pass, chosen: Pass, n: nat, secret: Ref, salts: map<Node, nat>)
    requires ValidatePassphrase(chosen) && chosen != s.pubPass && chosen != current
    ensures var (s1, ok) := CheckAll(s, order, current);
      Keystore.ChangePrivPassphrase(s, order, current, chosen, n, secret, salts)
      == if !ok || !(s1.managed.Keys <= s1.db.Keys) then (s1, false) else (RekeyAllPriv(s1, current, chosen, n, secret, salts), true)
  {
    hide CheckAll, RekeyAllPriv;
  }

  ghost function CommittedDb(s: Wallet, current: Pass, sk: SecretKey): map<Node, Bucket> {
    map a | a in s.db :: if a in s.managed then RekeyPriv(s.db[a], current, sk) else s.db[a]
  }

  lemma CommitIs(s: Wallet, staged: map<Node, Bucket>, current: Pass, sk: SecretKey)
    requires Staged(s, staged, current, sk, {})
    ensures (map a | a in s.db :: if a in staged then staged[a] else s.db[a]) == CommittedDb(s, current, sk)
  {
    hide RekeyPriv;
  }

  ghost predicate RepointProgress(s0: Wallet, s: Wallet, left: set<Node>, current: Pass, chosen: Pass, n: nat, secret: Ref, salts: map<Node, nat>) {
    && s.managed.Keys == s0.managed.Keys <= s0.db.Keys && s.secrets.Keys == s0.secrets.Keys && secret !in s0.secrets
    && s.db == CommittedDb(s0, current, NewSecretKey(chosen, n)) && s.unlocked == s0.unlocked && s.pubPass == s0.pubPass && s.priv == s0.priv
    && (forall a :: a in s.managed ==> s.managed[a] == if a in left then s0.managed[a]
        else RekeyManager(s0.managed[a], RekeyPriv(s0.db[a], current, NewSecretKey(chosen, n)), chosen, secret, Salt(if a in salts then salts[a] else 0)))
    && (forall r :: r in s.secrets ==> s.secrets[r] == if UsedOutside(s0, left, r) then Zero(s0.secrets[r]) else s0.secrets[r])
  }

  lemma RepointBegins(s0: Wallet, s: Wallet, current: Pass, chosen: Pass, n: nat, secret: Ref, salts: map<Node, nat>)
    requires s0.managed.Keys <= s0.db.Keys && secret !in s0.secrets && s == s0.(db := CommittedDb(s0, current, NewSecretKey(chosen, n)))
    ensures RepointProgress(s0, s, s.managed.Keys, current, chosen, n, secret, salts)
  {
  }

  function Repointed(s: Wallet, a: Node, chosen: Pass, secret: Ref, salts: map<Node, nat>): Wallet
    requires a in s.managed && a in s.db
  {
    var m := s.managed[a];
    var s1 := if m.secret in s.secrets then s.(secrets := s.secrets[m.secret := Zero(s.secrets[m.secret])]) else s;
    s1.(managed := s.managed[a := RekeyManager(m, s.db[a], chosen, secret, Salt(if a in salts then salts[a] else 0))])
  }

  lemma RepointOne(s0: Wallet, s: Wallet, left: set<Node>, a: Node, current: Pass, chosen: Pass, n: nat, secret: Ref, salts: map<Node, nat>)
    requires RepointProgress(s0, s, left, current, chosen, n, secret, salts) && a in left && a in s.managed
    ensures a in s.db && RepointProgress(s0, Repointed(s, a, chosen, secret, salts), left - {a}, current, chosen, n, secret, salts)
  {
    hide RekeyManager, RekeyPriv, NewSecretKey, UsedOutside;
    var s' := Repointed(s, a, chosen, secret, salts);
    forall r | r in s'.secrets
      ensures s'.secrets[r] == if UsedOutside(s0, left - {a}, r) then Zero(s0.secrets[r]) else s0.secrets[r]
    {
      UsedByOneMore(s0, left, a, r);
    }
  }

  lemma RepointEnds(s0: Wallet, s: Wallet, current: Pass, chosen: Pass, n: nat, secret: Ref, salts: map<Node, nat>)
    requires RepointProgress(s0, s, {}, current, chosen, n, secret, salts)
    ensures s.(secrets := s.secrets[secret := NewSecretKey(chosen, n)], priv := chosen) == RekeyAllPriv(s0, current, chosen, n, secret, salts)
  {
    hide RekeyManager, RekeyPriv, NewSecretKey;
    forall r ensures UsedOutside(s0, {}, r) == InUse(s0, r) {}
    var t := RekeyAllPriv(s0, current, chosen, n, secret, salts);
    assert s.managed == t.managed && s.db == t.db;
    assert s.secrets[secret := NewSecretKey(chosen, n)] == t.secrets;
  }
}
