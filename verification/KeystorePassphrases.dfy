/** When the private passphrase stays different from the public one. The guard in ChangePubPassphrase asks
    an account whether the new public passphrase is its private one; an unlocked account answers from a
    salted hash, and checking an empty passphrase wipes the salt. */
module KeystorePassphrases {
  import opened Common
  import opened Keystore
  import opened KeystoreInvariant
  import opened KeystoreSteps
  import opened KeystoreRuns
  import opened KeystoreTheorems

  /** Every account recognises its passphrase. */
  ghost predicate Whole(s: Wallet) {
    forall a :: a in s.managed ==> Accepts(s, a)
  }

  ghost predicate Apart(s: Wallet) {
    s.managed != map[] ==> s.priv != s.pubPass
  }

  /** No call checks an empty passphrase. Imports and changes of the public passphrase never do. */
  predicate NoEmptyPassphrase(act: Action) {
    match act
    case ActNew(_, _, priv, _, _, _, _) => priv != ""
    case ActExport(_, pass) => pass != ""
    case ActDelete(_, pass) => pass != ""
    case ActUnlock(_, pass) => pass != ""
    case ActChangePriv(_, current, _, _, _, _) => current != ""
    case _ => true
  }

  // Recognition survives every other step

  lemma SafelyCheckManaged(s: Wallet, a: Node, pass: Pass)
    requires pass != ""
    ensures SafelyCheck(s, a, pass).0.managed == s.managed
  {
  }

  lemma CheckOneManaged(s: Wallet, a: Node, pass: Pass)
    requires pass != ""
    ensures CheckOne(s, a, pass).0.managed == s.managed && CheckOne(s, a, pass).0.unlocked == s.unlocked
  {
  }

  lemma UseManagerWhole(env: Env, m: Manager, sk: SecretKey, pass: Pass)
    requires pass != "" && (m.unlocked ==> Intact(m))
    ensures var m' := UseManager(env, m, sk, pass).0; m'.unlocked ==> Intact(m')
  {
    hide AllDerivable, WithPrivKeys, Decrypt;
  }

  lemma UseKeystoreWhole(env: Env, s: Wallet, a: Node, pass: Pass)
    requires Whole(s) && pass != ""
    ensures Whole(UseKeystore(env, s, a, pass).0)
  {
    hide UseManager, Intact;
    if Present(s, a) {
      assert Accepts(s, a);
      UseManagerWhole(env, s.managed[a], s.secrets[s.managed[a].secret], pass);
      var s' := UseKeystore(env, s, a, pass).0;
      forall c | c in s'.managed ensures Accepts(s', c) {
        assert c != a ==> Accepts(s, c);
      }
    }
  }

  lemma {:induction false} UnlockWhole(env: Env, s: Wallet, order: seq<Node>, pass: Pass)
    requires Whole(s) && pass != ""
    ensures Whole(Unlock(env, s, order, pass).0)
    decreases |order|
  {
    hide UseKeystore, Intact;
    if order == [] {
      WholeReads(s, s.(unlocked := true));
    } else {
      UseKeystoreWhole(env, s, order[0], pass);
      UnlockWhole(env, UseKeystore(env, s, order[0], pass).0, order[1..], pass);
    }
  }

  predicate SameHash(m: Manager, m': Manager) {
    m'.unlocked == m.unlocked && m'.salt == m.salt && m'.hashed == m.hashed
  }

  /** Whether an account recognises its passphrase depends on its manager alone. */
  lemma WholeReads(s: Wallet, s': Wallet)
    requires Whole(s)
    requires forall a :: a in s'.managed && s'.managed[a].unlocked ==> a in s.managed && SameHash(s.managed[a], s'.managed[a])
    ensures Whole(s')
  {
    forall a | a in s'.managed ensures Accepts(s', a) {
      if s'.managed[a].unlocked {
        assert Accepts(s, a);
      }
    }
  }

  lemma AddAccountWhole(env: Env, s: Wallet, root: Node, account: nat, remark: string, nums: Nums, priv: Pass, r: Rand, secret: Ref, salt: nat)
    requires Whole(s) && priv != ""
    ensures Whole(AddAccount(env, s, root, account, remark, nums, priv, r, secret, salt).0)
  {
    hide Derivable, NewBucket, UseKeystore, Intact, AccountNode;
    var a, b := AccountNode(env, root, account), NewBucket(env, root, account, remark, nums, s.pubPass, priv, r);
    var m := Load(env, b, s.pubPass, secret, salt);
    if m.Some? {
      LoadedLocked(env, b, s.pubPass, secret, salt);
      hide Load;
      var s1 := WithLoaded(s, a, b, m.value).(priv := priv);
      WholeReads(s, s1);
      UseKeystoreWhole(env, s1, a, priv);
    } else {
      WholeReads(s, s.(db := s.db[a := b]));
    }
  }

  lemma LoadedLocked(env: Env, b: Bucket, pub: Pass, secret: Ref, salt: nat)
    ensures Load(env, b, pub, secret, salt).Some? ==> !Load(env, b, pub, secret, salt).value.unlocked
  {
  }

  lemma {:induction false} CheckAllManaged(s: Wallet, order: seq<Node>, pass: Pass)
    requires pass != ""
    ensures CheckAll(s, order, pass).0.managed == s.managed
    decreases |order|
  {
    if order != [] {
      hide OpensPriv;
      assert CheckAccount(s, order[0], pass).0.managed == s.managed;
      CheckAllManaged(CheckAccount(s, order[0], pass).0, order[1..], pass);
    }
  }

  lemma RekeyAllPrivWhole(s: Wallet, current: Pass, chosen: Pass, n: nat, secret: Ref, salts: map<Node, nat>)
    requires s.managed.Keys <= s.db.Keys
    ensures Whole(RekeyAllPriv(s, current, chosen, n, secret, salts))
  {
    hide RekeyPriv, InUse, NewSecretKey;
  }

  lemma ChangePrivWhole(s: Wallet, order: seq<Node>, current: Pass, chosen: Pass, n: nat, secret: Ref, salts: map<Node, nat>)
    requires Whole(s) && current != ""
    ensures Whole(ChangePrivPassphrase(s, order, current, chosen, n, secret, salts).0)
  {
    hide CheckAll, ValidatePassphrase, RekeyAllPriv, Intact;
    CheckAllManaged(s, order, current);
    var s1 := CheckAll(s, order, current).0;
    WholeReads(s, s1);
    if s1.managed.Keys <= s1.db.Keys {
      RekeyAllPrivWhole(s1, current, chosen, n, secret, salts);
    }
  }

  lemma ChangePubWhole(s: Wallet, pick: Node, current: Pass, chosen: Pass, n: nat)
    requires Whole(s)
    ensures Whole(ChangePubPassphrase(s, pick, current, chosen, n).0)
  {
    var s' := ChangePubPassphrase(s, pick, current, chosen, n).0;
    if chosen != "" {
      SafelyCheckManaged(s, pick, chosen);
    }
    hide SafelyCheck, OpensPub, RekeyPub, Intact, Accepts;
    assert s'.managed == s.managed;
    WholeReads(s, s');
  }

  lemma NewWhole(env: Env, s: Wallet, act: Action)
    requires Whole(s) && (act.ActNew? || act.ActImport?) && Enabled(env, s, act) && NoEmptyPassphrase(act)
    ensures Whole(Apply(env, s, act).0)
  {
    hide CheckOne, AddAccount, FileRoot, Intact, NoInvalidBelow, AccountNode, Accepts;
    match act {
      case ActNew(pick, seed, priv, remark, r, secret, salt) =>
        CheckOneManaged(s, pick, priv);
        WholeReads(s, CheckOne(s, pick, priv).0);
        AddAccountWhole(env, CheckOne(s, pick, priv).0, Node(seed, []), 0, remark, Nums(0, 0), priv, r, secret, salt);
      case ActImport(pick, f, current, chosen, r, secret, salt) =>
        var priv := if chosen == "" then current else chosen;
        if ValidatePassphrase(priv) {
          CheckOneManaged(s, pick, priv);
          WholeReads(s, CheckOne(s, pick, priv).0);
          if FileRoot(f, current).Some? {
            AddAccountWhole(env, CheckOne(s, pick, priv).0, FileRoot(f, current).value, f.account, f.remark, f.nums, priv, r, secret, salt);
          }
        }
    }
  }

  lemma CheckedWhole(s: Wallet, a: Node, pass: Pass)
    requires Whole(s) && pass != ""
    ensures Whole(SafelyCheck(s, a, pass).0) && Whole(DeleteKeystore(s, a, pass).0)
  {
    SafelyCheckManaged(s, a, pass);
    hide SafelyCheck, Intact, Accepts;
    WholeReads(s, SafelyCheck(s, a, pass).0);
    WholeReads(s, DeleteKeystore(s, a, pass).0);
  }

  lemma RestartWhole(env: Env, s: Wallet, pub: Pass, refs: map<Node, Ref>, salts: map<Node, nat>)
    requires Whole(s) && Covers(s, refs, salts)
    ensures Whole(Restart(env, s, pub, refs, salts).0)
  {
    hide Load, Intact, Accepts, ValidatePassphrase, Unmarshalled;
    forall a | a in s.db ensures Load(env, s.db[a], pub, refs[a], salts[a]).Some? ==> !Load(env, s.db[a], pub, refs[a], salts[a]).value.unlocked {
      LoadedLocked(env, s.db[a], pub, refs[a], salts[a]);
    }
    WholeReads(s, Restart(env, s, pub, refs, salts).0);
  }

  lemma LockWhole(s: Wallet)
    requires Whole(s)
    ensures Whole(Lock(s))
  {
    hide Intact, Accepts, InUse;
    WholeReads(s, Lock(s));
  }

  lemma NextWhole(env: Env, s: Wallet, a: Node, br: nat, n: nat)
    requires Whole(s)
    ensures Whole(NextAddresses(env, s, a, br, n).0)
  {
    ToIssueNeedsAccount(env, s, a, br, n);
    hide Intact, Accepts, ToIssue, IssuedAddrs, GrownBucket, BranchKey;
    WholeReads(s, NextAddresses(env, s, a, br, n).0);
  }

  lemma RemarkWhole(s: Wallet, a: Node, remark: string)
    requires Whole(s)
    ensures Whole(ChangeRemark(s, a, remark).0)
  {
    hide Intact, Accepts;
    WholeReads(s, ChangeRemark(s, a, remark).0);
  }

  lemma StepWhole(env: Env, s: Wallet, act: Action, s': Wallet)
    requires Whole(s) && Step(env, s, act, s') && NoEmptyPassphrase(act)
    ensures Whole(s')
  {
    hide Whole, ChangePrivPassphrase, ChangePubPassphrase, Unlock, Visits, NoInvalidBelow, FileRoot, NewKeystore, ImportKeystore,
         SafelyCheck, DeleteKeystore, Restart, Lock, NextAddresses, ChangeRemark, Covers, Injective;
    match act {
      case ActNew(_, _, _, _, _, _, _) => NewWhole(env, s, act);
      case ActImport(_, _, _, _, _, _, _) => NewWhole(env, s, act);
      case ActUnlock(order, pass) => UnlockWhole(env, s, order, pass);
      case ActChangePriv(order, current, chosen, n, secret, salts) => ChangePrivWhole(s, order, current, chosen, n, secret, salts);
      case ActChangePub(pick, current, chosen, n) => ChangePubWhole(s, pick, current, chosen, n);
      case ActExport(a, pass) => CheckedWhole(s, a, pass);
      case ActDelete(a, pass) => CheckedWhole(s, a, pass);
      case ActRestart(pub, refs, salts) => RestartWhole(env, s, pub, refs, salts);
      case ActLock => LockWhole(s);
      case ActNext(a, br, n) => NextWhole(env, s, a, br, n);
      case ActRemark(a, remark) => RemarkWhole(s, a, remark);
    }
  }

  // The two passphrases

  ghost predicate SamePassphrases(s: Wallet, s': Wallet) {
    s'.priv == s.priv && s'.pubPass == s.pubPass && (s.managed == map[] ==> s'.managed == map[])
  }

  lemma QuietSame(env: Env, s: Wallet, act: Action)
    requires Inv(env, s) && Enabled(env, s, act)
    requires act.ActExport? || act.ActDelete? || act.ActLock? || act.ActNext? || act.ActRemark? || act.ActUnlock?
    ensures SamePassphrases(s, Apply(env, s, act).0)
  {
    if act.ActUnlock? {
      hide Inv, Unlock, Visits, Ready;
      UnlockKeeps(env, s, act.order, act.pass);
      assert Unlock(env, s, act.order, act.pass).0.managed.Keys == s.managed.Keys;
    } else {
      hide Inv, SafelyCheckPassword, ClearPrivKeys, InUse, GrownBucket, GrownManager, Visits;
      if act.ActNext? {
        ToIssueNeedsAccount(env, s, act.a, act.br, act.n);
      }
      hide ToIssue;
    }
  }

  lemma AddedApart(env: Env, s: Wallet, act: Action)
    requires Inv(env, s) && Apart(s) && (act.ActNew? || act.ActImport?) && Enabled(env, s, act)
    ensures Apart(Apply(env, s, act).0)
  {
    hide Inv, CheckOne, AddAccount, ValidatePassphrase, SameAccounts, FileRoot, NoInvalidBelow, AccountNode, NewBucket, CanAdd;
    var priv := if act.ActNew? then act.priv else if act.chosen == "" then act.current else act.chosen;
    CheckedKeeps(env, s, act.pick, priv);
    var (s1, ok) := CheckOne(s, act.pick, priv);
    SameEmpty(s, s1);
    if ok && ValidatePassphrase(priv) {
      if act.ActNew? {
        AddAccountKeeps(env, s1, Node(act.seed, []), 0, act.remark, Nums(0, 0), priv, act.r, act.secret, act.salt);
      } else if FileRoot(act.f, act.current).Some? {
        AddAccountKeeps(env, s1, FileRoot(act.f, act.current).value, act.f.account, act.f.remark, act.f.nums, priv, act.r, act.secret, act.salt);
      }
    }
  }

  lemma StepApart(env: Env, s: Wallet, act: Action, s': Wallet)
    requires Inv(env, s) && Whole(s) && Apart(s) && Step(env, s, act, s')
    ensures Apart(s')
  {
    hide Inv, NewKeystore, ImportKeystore, SafelyCheck, DeleteKeystore, Unlock, Lock, NextAddresses, ChangePrivPassphrase, ChangePubPassphrase,
         ChangeRemark, Restart, Visits, FileRoot, NoInvalidBelow, Covers, Injective, AllAccept, ValidatePassphrase, ExportKeystore, Intact;
    match act {
      case ActNew(_, _, _, _, _, _, _) => AddedApart(env, s, act);
      case ActImport(_, _, _, _, _, _, _) => AddedApart(env, s, act);
      case ActChangePriv(order, current, chosen, n, secret, salts) =>
        ChangePrivIff(env, s, order, current, chosen, n, secret, salts);
        SameKeysEmpty(s, s');
      case ActChangePub(pick, current, chosen, n) =>
        ChangePubIff(env, s, pick, current, chosen, n);
        SameKeysEmpty(s, s');
        assert s.managed != map[] ==> Accepts(s, pick);
      case ActRestart(pub, refs, salts) =>
        RestartIff(env, s, pub, refs, salts);
        ReopenedEmpty(env, s, s');
      case _ => QuietSame(env, s, act);
    }
  }

  lemma SameKeysEmpty(s: Wallet, s': Wallet)
    requires s'.managed.Keys == s.managed.Keys
    ensures s.managed == map[] <==> s'.managed == map[]
  {
    assert s.managed == map[] <==> s.managed.Keys == {};
    assert s'.managed == map[] <==> s'.managed.Keys == {};
  }

  lemma ReopenedEmpty(env: Env, s: Wallet, s': Wallet)
    requires Inv(env, s) && Inv(env, s') && s'.db == s.db
    ensures s.managed == map[] <==> s'.managed == map[]
  {
    hide Sound;
    SoundKeys(env, s);
    SoundKeys(env, s');
    SameKeysEmpty(s, s');
  }

  /** Over runs from an empty store in which no call passes an empty passphrase, the private passphrase
      all accounts share differs from the public one, and every account recognises it. */
  lemma {:induction false} PassphrasesStayApart(env: Env, ss: seq<Wallet>, acts: seq<Action>, n: nat)
    requires IsRun(env, ss, acts) && n < |ss| && forall i :: 0 <= i < n ==> NoEmptyPassphrase(acts[i])
    ensures Apart(ss[n]) && Whole(ss[n])
  {
    if n > 0 {
      hide Step, Inv, Apart, Whole;
      PassphrasesStayApart(env, ss, acts, n - 1);
      EveryRunKeeps(env, ss, acts, n - 1);
      StepApart(env, ss[n - 1], acts[n - 1], ss[n]);
      StepWhole(env, ss[n - 1], acts[n - 1], ss[n]);
    }
  }

  /** The exception: on an unlocked wallet, an export attempt with an empty passphrase fails but wipes the
      salt, and the public passphrase can then be set to the private one. */
  lemma EmptyCheckDisarmsTheGuard(env: Env, s: Wallet, a: Node, n: nat)
    requires Inv(env, s) && Apart(s) && s.unlocked && a in s.managed && s.managed[a].hashed.Some? && s.managed[a].hashed.value.0 != ZeroSalt
    ensures var (s1, f) := ExportKeystore(s, a, "");
      var (s2, ok) := ChangePubPassphrase(s1, a, s.pubPass, s.priv, n);
      f.None? && ok && s2.managed != map[] && s2.pubPass == s2.priv
  {
    SoundReads(env, s, a);
    SafelyCheckKeeps(env, s, a, "");
    SafelyCheckSame(env, s, a, "");
    var s1 := SafelyCheck(s, a, "").0;
    assert s1.managed[a].salt == ZeroSalt && s1.managed[a].unlocked && !Accepts(s1, a);
    assert ValidatePassphrase(s.priv);
    hide Inv, SafelyCheck, ChangePubPassphrase, ManagerOk, BucketOk, ValidatePassphrase, SameAccounts;
    SameEmpty(s, s1);
    ChangePubIff(env, s1, a, s.pubPass, s.priv, n);
    SameKeysEmpty(s1, ChangePubPassphrase(s1, a, s.pubPass, s.priv, n).0);
  }

  // A run that reaches the exception

  lemma FirstAccount(env: Env, s: Wallet, pick: Node, seed: string, priv: Pass, r: Rand, secret: Ref, salt: nat)
    requires Initial(s) && Derivable(env, Node(seed, []), 0) && env.valid(Node(seed, [])) && |seed| == 32
    requires ValidatePassphrase(priv) && priv != s.pubPass
    ensures var (s', ok) := NewKeystore(env, s, pick, seed, priv, "", r, secret, salt);
      var a := AccountNode(env, Node(seed, []), 0);
      ok && Inv(env, s') && s'.managed.Keys == {a} && s'.priv == priv && s'.pubPass == s.pubPass && !s'.unlocked && s'.managed[a].salt == Salt(salt)
  {
    InitialOk(env, s);
    hide Inv, Derivable, NewBucket, ValidatePassphrase, AccountNode, UseKeystore, Load;
    assert CanAdd(env, s, Node(seed, []), 0, Nums(0, 0));
    AddAccountKeeps(env, s, Node(seed, []), 0, "", Nums(0, 0), priv, r, secret, salt);
    LoadedSalt(env, NewBucket(env, Node(seed, []), 0, "", Nums(0, 0), s.pubPass, priv, r), s.pubPass, secret, salt);
  }

  lemma LoadedSalt(env: Env, b: Bucket, pub: Pass, secret: Ref, salt: nat)
    ensures Load(env, b, pub, secret, salt).Some? ==> Load(env, b, pub, secret, salt).value.salt == Salt(salt)
  {
  }

  lemma UseManagerHash(env: Env, m: Manager, sk: SecretKey, pass: Pass)
    requires pass != "" && !m.unlocked
    ensures var (m', _, ok) := UseManager(env, m, sk, pass); ok ==> m'.hashed == Some((m.salt, pass)) && m'.salt == m.salt
  {
    hide AllDerivable, WithPrivKeys, Decrypt;
  }

  lemma UnlockOne(env: Env, s: Wallet, a: Node, pass: Pass)
    requires Present(s, a)
    ensures var (m, sk, ok) := UseManager(env, s.managed[a], s.secrets[s.managed[a].secret], pass);
      ok ==> Unlock(env, s, [a], pass) == (Replaced(s, a, m, sk).(unlocked := true), true)
  {
    hide UseManager;
    var s1 := UseKeystore(env, s, a, pass).0;
    assert [a][1..] == [] && UseAll(env, s1, [], pass) == (s1, true);
  }

  lemma OpenedHash(env: Env, s: Wallet, a: Node, pass: Pass)
    requires Inv(env, s) && s.managed.Keys == {a} && !s.unlocked && pass == s.priv && Visits(s, [a])
    ensures var (s', ok) := Unlock(env, s, [a], pass);
      ok && Inv(env, s') && s'.unlocked && s'.managed.Keys == {a} && s'.priv == s.priv && s'.pubPass == s.pubPass
      && s'.managed[a].hashed == Some((s.managed[a].salt, pass)) && s'.managed[a].salt == s.managed[a].salt
  {
    hide Sound, Unlock, UseManager, Ready, ManagerOk, BucketOk, Intact, Live;
    SoundReads(env, s, a);
    UnlockKeeps(env, s, [a], pass);
    UseManagerIff(env, a, s.db[a], s.managed[a], s.secrets[s.managed[a].secret], s.pubPass, s.priv, pass);
    UseManagerHash(env, s.managed[a], s.secrets[s.managed[a].secret], pass);
    UnlockOne(env, s, a, pass);
  }

  /** The calls of the run below, one state after the other. */
  lemma GuardLostFrom(env: Env, s0: Wallet, pick: Node, seed: string, priv: Pass, r: Rand, secret: Ref, salt: nat, n: nat)
      returns (ss: seq<Wallet>, acts: seq<Action>)
    requires Initial(s0) && Derivable(env, Node(seed, []), 0) && env.valid(Node(seed, [])) && |seed| == 32
    requires ValidatePassphrase(priv) && priv != s0.pubPass
    ensures IsRun(env, ss, acts) && ss[|acts|].managed != map[] && ss[|acts|].pubPass == ss[|acts|].priv
  {
    hide Inv, NewKeystore, Unlock, ChangePubPassphrase, SafelyCheck, Derivable, ValidatePassphrase, AccountNode, Visits, SameAccounts;
    var a := AccountNode(env, Node(seed, []), 0);
    FirstAccount(env, s0, pick, seed, priv, r, secret, salt);
    var s1 := NewKeystore(env, s0, pick, seed, priv, "", r, secret, salt).0;
    VisitsOne(s1, a);
    OpenedHash(env, s1, a, priv);
    var s2 := Unlock(env, s1, [a], priv).0;
    EmptyCheckDisarmsTheGuard(env, s2, a, n);
    SafelyCheckKeeps(env, s2, a, "");
    var s3 := ExportKeystore(s2, a, "").0;
    SameAccountsManaged(s2, s3);
    var s4 := ChangePubPassphrase(s3, a, s2.pubPass, s2.priv, n).0;
    acts := [ActNew(pick, seed, priv, "", r, secret, salt), ActUnlock([a], priv), ActExport(a, ""), ActChangePub(a, s2.pubPass, s2.priv, n)];
    ss := [s0, s1, s2, s3, s4];
    assert Step(env, s0, acts[0], s1) && Step(env, s1, acts[1], s2) && Step(env, s2, acts[2], s3) && Step(env, s3, acts[3], s4);
  }

  lemma SameAccountsManaged(s: Wallet, s': Wallet)
    requires SameAccounts(s, s')
    ensures s'.managed.Keys == s.managed.Keys
  {
  }

  lemma VisitsOne(s: Wallet, a: Node)
    requires s.managed.Keys == {a}
    ensures Visits(s, [a])
  {
  }

  /** One account, unlocked, asked to export with an empty passphrase: now the public passphrase can
      become the private one. */
  lemma GuardCanBeLost() returns (env: Env, ss: seq<Wallet>, acts: seq<Action>)
    ensures IsRun(env, ss, acts) && ss[|acts|].managed != map[] && ss[|acts|].pubPass == ss[|acts|].priv
  {
    hide IsRun;
    env := Env(_ => true, 297);
    var seed := seq(32, _ => 's');
    ss, acts := GuardLostFrom(env, Wallet(map[], map[], map[], false, "public1", ""), Node("", []), seed, "secret1", Rand(1, 2, 3, 4), 0, 5, 6);
  }

  /** One account, unlocked and exported with the right passphrase: now the right passphrase is refused. */
  lemma UnlockCanFail() returns (env: Env, ss: seq<Wallet>, acts: seq<Action>)
    ensures IsRun(env, ss, acts) && |acts| == 4 && acts[3].ActUnlock? && acts[3].pass == ss[3].priv && !Unlock(env, ss[3], acts[3].order, acts[3].pass).1
  {
    hide IsRun, Unlock;
    env := Env(_ => true, 297);
    var seed := seq(32, _ => 's');
    ss, acts := UnlockFailsFrom(env, Wallet(map[], map[], map[], false, "public1", ""), Node("", []), seed, "secret1", Rand(1, 2, 3, 4), 0, 5);
  }

  lemma UnlockFailsFrom(env: Env, s0: Wallet, pick: Node, seed: string, priv: Pass, r: Rand, secret: Ref, salt: nat)
      returns (ss: seq<Wallet>, acts: seq<Action>)
    requires Initial(s0) && Derivable(env, Node(seed, []), 0) && env.valid(Node(seed, [])) && |seed| == 32
    requires ValidatePassphrase(priv) && priv != s0.pubPass
    ensures IsRun(env, ss, acts) && |acts| == 4 && acts[3].ActUnlock? && acts[3].pass == ss[3].priv && !Unlock(env, ss[3], acts[3].order, acts[3].pass).1
  {
    hide Inv, NewKeystore, Unlock, SafelyCheck, Derivable, ValidatePassphrase, AccountNode, Visits, SameAccounts;
    var a := AccountNode(env, Node(seed, []), 0);
    FirstAccount(env, s0, pick, seed, priv, r, secret, salt);
    var s1 := NewKeystore(env, s0, pick, seed, priv, "", r, secret, salt).0;
    VisitsOne(s1, a);
    OpenedHash(env, s1, a, priv);
    var s2 := Unlock(env, s1, [a], priv).0;
    ExportWorks(env, s2, a);
    var s3 := ExportKeystore(s2, a, priv).0;
    VisitsOne(s3, a);
    ExportThenUnlockFails(env, s2, a, priv, [a]);
    acts := [ActNew(pick, seed, priv, "", r, secret, salt), ActUnlock([a], priv), ActExport(a, priv), ActUnlock([a], priv)];
    ss := [s0, s1, s2, s3, Unlock(env, s3, [a], priv).0];
    assert Step(env, s0, acts[0], s1) && Step(env, s1, acts[1], s2) && Step(env, s2, acts[2], s3) && Step(env, s3, acts[3], ss[4]);
  }

  lemma ExportWorks(env: Env, s: Wallet, a: Node)
    requires Inv(env, s) && a in s.managed && Accepts(s, a)
    ensures var (s', f) := ExportKeystore(s, a, s.priv); f.Some? && s'.managed.Keys == s.managed.Keys && s'.priv == s.priv
  {
    hide Sound, SafelyCheck, Intact;
    SoundKeys(env, s);
    SafelyCheckSame(env, s, a, s.priv);
  }
}
