/** Runs of the keystore: the invariant in every reachable state, and how the child numbers evolve. */
module KeystoreRuns {
  import opened Common
  import opened Keystore
  import opened KeystoreInvariant
  import opened KeystoreSteps

  ghost predicate Step(env: Env, s: Wallet, act: Action, s': Wallet) {
    Enabled(env, s, act) && s' == Apply(env, s, act).0
  }

  ghost predicate IsRun(env: Env, ss: seq<Wallet>, acts: seq<Action>) {
    && |ss| == |acts| + 1 && Initial(ss[0])
    && forall i :: 0 <= i < |acts| ==> Step(env, ss[i], acts[i], ss[i + 1])
  }

  lemma RunStep(env: Env, ss: seq<Wallet>, acts: seq<Action>, i: nat)
    requires IsRun(env, ss, acts) && i + 1 < |ss|
    ensures |ss| == |acts| + 1 && Step(env, ss[i], acts[i], ss[i + 1])
  {
    hide Step, Initial;
  }

  // Steps

  lemma CheckedKeeps(env: Env, s: Wallet, pick: Node, pass: Pass)
    requires Inv(env, s) && Picks(s, pick)
    ensures var (s1, ok) := CheckOne(s, pick, pass);
      && Inv(env, s1) && SameAccounts(s, s1) && (ok && s1.managed != map[] ==> pass == s1.priv)
  {
    hide Sound, Uniform, CheckOne, SameAccounts;
    CheckOneSame(env, s, pick, pass);
    SameReads(s, CheckOne(s, pick, pass).0);
    SameEmpty(s, CheckOne(s, pick, pass).0);
  }

  lemma SameEmpty(s: Wallet, s': Wallet)
    requires SameAccounts(s, s')
    ensures (s'.managed == map[] <==> s.managed == map[]) && s'.priv == s.priv && s'.pubPass == s.pubPass && s'.db == s.db
    ensures s'.secrets.Keys == s.secrets.Keys && s'.unlocked == s.unlocked
  {
    assert s'.managed.Keys == s.managed.Keys;
    assert s.managed == map[] <==> s.managed.Keys == {};
    assert s'.managed == map[] <==> s'.managed.Keys == {};
  }

  lemma NewKeeps(env: Env, s: Wallet, act: Action)
    requires Inv(env, s) && act.ActNew? && Enabled(env, s, act)
    ensures Inv(env, Apply(env, s, act).0)
  {
    hide Inv, CheckOne, AddAccount, ValidatePassphrase, SameAccounts;
    CheckedKeeps(env, s, act.pick, act.priv);
    var (s1, ok) := CheckOne(s, act.pick, act.priv);
    SameEmpty(s, s1);
    if ok && ValidatePassphrase(act.priv) {
      AddAccountKeeps(env, s1, Node(act.seed, []), 0, act.remark, Nums(0, 0), act.priv, act.r, act.secret, act.salt);
    }
  }

  lemma ImportKeeps(env: Env, s: Wallet, act: Action)
    requires Inv(env, s) && act.ActImport? && Enabled(env, s, act)
    ensures Inv(env, Apply(env, s, act).0)
  {
    hide Inv, CheckOne, AddAccount, ValidatePassphrase, SameAccounts, FileRoot, NoInvalidBelow, AccountNode;
    var priv := if act.chosen == "" then act.current else act.chosen;
    CheckedKeeps(env, s, act.pick, priv);
    var (s1, ok) := CheckOne(s, act.pick, priv);
    SameEmpty(s, s1);
    var root := FileRoot(act.f, act.current);
    if ok && root.Some? && ValidatePassphrase(priv) {
      AddAccountKeeps(env, s1, root.value, act.f.account, act.f.remark, act.f.nums, priv, act.r, act.secret, act.salt);
    }
  }

  lemma UnlockKeeps(env: Env, s: Wallet, order: seq<Node>, pass: Pass)
    requires Inv(env, s) && Visits(s, order)
    ensures var (s', ok) := Unlock(env, s, order, pass);
      && Inv(env, s') && OnlyOpened(s, s', order, ok)
      && (ok <==> order == [] || (pass == s.priv && (s.unlocked ==> forall a :: a in order ==> Ready(s, a))))
  {
    hide Sound, Unlock, Ready;
    UnlockIff(env, s, order, pass, s.unlocked);
  }

  lemma StepKeeps(env: Env, s: Wallet, act: Action, s': Wallet)
    requires Inv(env, s) && Step(env, s, act, s')
    ensures Inv(env, s')
  {
    hide Inv, NewKeystore, ImportKeystore, SafelyCheck, DeleteKeystore, Unlock, Lock, NextAddresses, ChangePrivPassphrase,
         ChangePubPassphrase, ChangeRemark, Restart, Visits, FileRoot, NoInvalidBelow, Covers, Injective, PrivChanged, OnlyOpened, SameAccounts;
    match act {
      case ActNew(_, _, _, _, _, _, _) => NewKeeps(env, s, act);
      case ActImport(_, _, _, _, _, _, _) => ImportKeeps(env, s, act);
      case ActExport(a, pass) => SafelyCheckKeeps(env, s, a, pass);
      case ActDelete(a, pass) => DeleteKeystoreKeeps(env, s, a, pass);
      case ActUnlock(order, pass) => UnlockKeeps(env, s, order, pass);
      case ActLock => LockKeepsInv(env, s);
      case ActNext(a, br, n) => NextAddressesKeeps(env, s, a, br, n);
      case ActChangePriv(order, current, chosen, n, secret, salts) => ChangePrivIff(env, s, order, current, chosen, n, secret, salts);
      case ActChangePub(pick, current, chosen, n) => ChangePubIff(env, s, pick, current, chosen, n);
      case ActRemark(a, remark) => ChangeRemarkKeeps(env, s, a, remark);
      case ActRestart(pub, refs, salts) => RestartIff(env, s, pub, refs, salts);
    }
  }

  lemma LockKeepsInv(env: Env, s: Wallet)
    requires Inv(env, s)
    ensures Inv(env, Lock(s))
  {
    hide Sound, Lock;
    LockKeeps(env, s);
  }

  lemma InitialOk(env: Env, s: Wallet)
    requires Initial(s)
    ensures Inv(env, s)
  {
  }

  /** In every reachable state the database holds what account creation would have written for the
      current passphrases and child numbers, memory agrees with it, and all accounts share one private
      passphrase and one lock state. */
  lemma {:induction false} EveryRunKeeps(env: Env, ss: seq<Wallet>, acts: seq<Action>, n: nat)
    requires IsRun(env, ss, acts) && n < |ss|
    ensures Inv(env, ss[n])
  {
    hide Inv, Step, Initial;
    if n == 0 {
      InitialOk(env, ss[0]);
    } else {
      hide IsRun;
      RunStep(env, ss, acts, n - 1);
      EveryRunKeeps(env, ss, acts, n - 1);
      StepKeeps(env, ss[n - 1], acts[n - 1], ss[n]);
    }
  }

  // Child numbers

  lemma UnlockKeepsDb(env: Env, s: Wallet, order: seq<Node>, pass: Pass)
    ensures Unlock(env, s, order, pass).0.db == s.db
    decreases |order|
  {
    hide UseManager;
    if order != [] {
      UnlockKeepsDb(env, UseKeystore(env, s, order[0], pass).0, order[1..], pass);
    }
  }

  lemma CheckAllKeepsDb(s: Wallet, order: seq<Node>, pass: Pass)
    ensures CheckAll(s, order, pass).0.db == s.db
    decreases |order|
  {
    if order != [] {
      hide CheckPassword, OpensPriv;
      CheckAllKeepsDb(CheckAccount(s, order[0], pass).0, order[1..], pass);
    }
  }

  /** A new account: its child numbers fit the non-hardened range. Otherwise an account's child numbers
      only change when addresses are issued on it. */
  ghost predicate NumsChange(env: Env, s: Wallet, act: Action, s': Wallet, a: Node) {
    a in s'.db ==>
      if a !in s.db then s'.db[a].nums.external <= HARDENED && s'.db[a].nums.internal <= HARDENED
      else if act.ActNext? && act.a == a && ToIssue(env, s, a, act.br, act.n).Some?
      then s'.db[a].nums == s.db[a].nums.With(act.br, After(s.db[a].nums.At(act.br), ToIssue(env, s, a, act.br, act.n).value))
      else s'.db[a].nums == s.db[a].nums
  }

  lemma AddAccountNums(env: Env, s: Wallet, root: Node, account: nat, remark: string, nums: Nums, priv: Pass, r: Rand, secret: Ref, salt: nat, a: Node)
    ensures var db := AddAccount(env, s, root, account, remark, nums, priv, r, secret, salt).0.db;
      && (a in s.db ==> a in db && db[a] == s.db[a])
      && (a in db && a !in s.db ==> db[a].nums.external <= HARDENED && db[a].nums.internal <= HARDENED)
  {
    hide Derivable, Load, UseManager, SealedPubKeys, AccountNode;
  }

  lemma ToIssueNeedsAccount(env: Env, s: Wallet, a: Node, br: nat, n: nat)
    ensures ToIssue(env, s, a, br, n).Some? ==> a in s.db && a in s.managed
  {
  }

  ghost predicate SameNums(s: Wallet, s': Wallet, a: Node) {
    a in s'.db ==> a in s.db && s'.db[a].nums == s.db[a].nums
  }

  lemma QuietNums(env: Env, s: Wallet, act: Action, s': Wallet, a: Node)
    requires Step(env, s, act, s') && (act.ActExport? || act.ActDelete? || act.ActUnlock? || act.ActLock? || act.ActRemark? || act.ActRestart?)
    ensures SameNums(s, s', a)
  {
    hide Unlock, SafelyCheckPassword, Load, ValidatePassphrase, Injective, Visits, LoadsAll, Unmarshalled, ClearPrivKeys, InUse;
    if act.ActUnlock? {
      UnlockKeepsDb(env, s, act.order, act.pass);
    }
  }

  lemma ChangePrivNums(s: Wallet, order: seq<Node>, current: Pass, chosen: Pass, n: nat, secret: Ref, salts: map<Node, nat>, a: Node)
    ensures SameNums(s, ChangePrivPassphrase(s, order, current, chosen, n, secret, salts).0, a)
  {
    hide CheckAll, ValidatePassphrase, Reseal, InUse, RekeyManager, NewSecretKey;
    CheckAllKeepsDb(s, order, current);
  }

  lemma ChangePubNums(s: Wallet, pick: Node, current: Pass, chosen: Pass, n: nat, a: Node)
    ensures SameNums(s, ChangePubPassphrase(s, pick, current, chosen, n).0, a)
  {
    hide SafelyCheckPassword, ValidatePassphrase, Reseal, NewSecretKey, OpensPub;
  }

  lemma NewNums(env: Env, s: Wallet, act: Action, s': Wallet, a: Node)
    requires Step(env, s, act, s') && (act.ActNew? || act.ActImport?)
    ensures NumsChange(env, s, act, s', a)
  {
    hide AddAccount, ValidatePassphrase, FileRoot, SafelyCheckPassword, NoInvalidBelow, AccountNode;
    match act {
      case ActNew(pick, seed, priv, remark, r, secret, salt) =>
        AddAccountNums(env, CheckOne(s, pick, priv).0, Node(seed, []), 0, remark, Nums(0, 0), priv, r, secret, salt, a);
      case ActImport(pick, f, current, chosen, r, secret, salt) =>
        var priv, root := if chosen == "" then current else chosen, FileRoot(f, current);
        if root.Some? {
          AddAccountNums(env, CheckOne(s, pick, priv).0, root.value, f.account, f.remark, f.nums, priv, r, secret, salt, a);
        }
    }
  }

  lemma NextNums(env: Env, s: Wallet, act: Action, s': Wallet, a: Node)
    requires Step(env, s, act, s') && act.ActNext?
    ensures NumsChange(env, s, act, s', a) && act.br < 2
  {
    hide ToIssue, BranchKey, After, IssuedSealed, GrownManager;
    ToIssueNeedsAccount(env, s, act.a, act.br, act.n);
  }

  lemma NumsStep(env: Env, s: Wallet, act: Action, s': Wallet, a: Node)
    requires Step(env, s, act, s')
    ensures NumsChange(env, s, act, s', a)
  {
    if act.ActNew? || act.ActImport? {
      NewNums(env, s, act, s', a);
    } else if act.ActNext? {
      NextNums(env, s, act, s', a);
    } else if act.ActChangePriv? {
      ChangePrivNums(s, act.order, act.current, act.chosen, act.salt, act.secret, act.salts, a);
      hide ChangePrivPassphrase, Visits;
    } else if act.ActChangePub? {
      ChangePubNums(s, act.pick, act.current, act.chosen, act.salt, a);
      hide ChangePubPassphrase;
    } else {
      QuietNums(env, s, act, s', a);
      hide Step;
    }
  }

  lemma StepNumsMonotone(env: Env, s: Wallet, act: Action, s': Wallet, a: Node, br: nat)
    requires Step(env, s, act, s') && a in s.db && a in s'.db && br < 2
    ensures s.db[a].nums.At(br) <= s'.db[a].nums.At(br)
  {
    hide Step, ToIssue, Issue, After;
    NumsStep(env, s, act, s', a);
    if act.ActNext? && act.a == a && ToIssue(env, s, a, act.br, act.n).Some? {
      IssuedAre(env, s, a, act.br, act.n);
    }
  }

  /** One call: the issued indices start at the child number, increase, are all usable, and leave out no
      usable index below the new child number. */
  lemma IssuedAre(env: Env, s: Wallet, a: Node, br: nat, n: nat)
    requires ToIssue(env, s, a, br, n).Some?
    ensures a in s.db
    ensures var ix, next := ToIssue(env, s, a, br, n).value, s.db[a].nums.At(br);
      && |ix| == n && StrictlyIncreasing(ix) && next <= After(next, ix)
      && forall j :: j in ix <==> next <= j < After(next, ix) && HasChild(env, BranchKey(s.managed[a], br), j)
  {
    hide Issue;
    IssueIs(env, BranchKey(s.managed[a], br), s.db[a].nums.At(br), n);
  }

  lemma {:induction false} NumsMonotone(env: Env, ss: seq<Wallet>, acts: seq<Action>, a: Node, br: nat, i: nat, n: nat)
    requires IsRun(env, ss, acts) && i <= n < |ss| && br < 2 && forall k :: i <= k <= n ==> a in ss[k].db
    ensures ss[i].db[a].nums.At(br) <= ss[n].db[a].nums.At(br)
  {
    hide IsRun, Step;
    if i < n {
      RunStep(env, ss, acts, n - 1);
      NumsMonotone(env, ss, acts, a, br, i, n - 1);
      StepNumsMonotone(env, ss[n - 1], acts[n - 1], ss[n], a, br);
    }
  }

  /** Over any run, as long as the account is not deleted in between, a later call on the same branch
      issues only larger indices, whatever was locked, skipped or changed meanwhile. */
  lemma IndicesIncrease(env: Env, ss: seq<Wallet>, acts: seq<Action>, a: Node, br: nat, i: nat, j: nat, x: nat, y: nat)
    requires IsRun(env, ss, acts) && i < j < |acts| && br < 2 && forall k :: i <= k <= j ==> a in ss[k].db
    requires acts[i].ActNext? && acts[i].a == a && acts[i].br == br && acts[j].ActNext? && acts[j].a == a && acts[j].br == br
    requires ToIssue(env, ss[i], a, br, acts[i].n).Some? && x in ToIssue(env, ss[i], a, br, acts[i].n).value
    requires ToIssue(env, ss[j], a, br, acts[j].n).Some? && y in ToIssue(env, ss[j], a, br, acts[j].n).value
    ensures x < ss[i + 1].db[a].nums.At(br) <= y
  {
    hide ToIssue, Issue, Step;
    assert Step(env, ss[i], acts[i], ss[i + 1]);
    NumsStep(env, ss[i], acts[i], ss[i + 1], a);
    IssuedAre(env, ss[i], a, br, acts[i].n);
    NumsMonotone(env, ss, acts, a, br, i + 1, j);
    IssuedAre(env, ss[j], a, br, acts[j].n);
  }

  // Without an invalid child below them, child numbers stay in the non-hardened range

  ghost predicate BranchFits(env: Env, a: Node, br: nat, n: nat) {
    (forall i: nat :: i < n ==> env.valid(SlotNode(a, (br, i)))) ==> n <= HARDENED
  }

  ghost predicate NumsFit(env: Env, s: Wallet) {
    forall a :: a in s.db ==> BranchFits(env, a, EXTERNAL, s.db[a].nums.external) && BranchFits(env, a, INTERNAL, s.db[a].nums.internal)
  }

  lemma IssuedFits(env: Env, s: Wallet, a: Node, br: nat, n: nat)
    requires Inv(env, s) && br < 2 && ToIssue(env, s, a, br, n).Some? && a in s.db && BranchFits(env, a, br, s.db[a].nums.At(br))
    ensures BranchFits(env, a, br, After(s.db[a].nums.At(br), ToIssue(env, s, a, br, n).value))
  {
    hide Sound, Issue, BranchFits, After;
    IssuedAre(env, s, a, br, n);
    ToIssueNeedsAccount(env, s, a, br, n);
    BranchNode(env, s, a, br);
    EndFits(env, BranchKey(s.managed[a], br), a, br, ToIssue(env, s, a, br, n).value, s.db[a].nums.At(br));
  }

  lemma BranchNode(env: Env, s: Wallet, a: Node, br: nat)
    requires Sound(env, s) && a in s.managed
    ensures BranchKey(s.managed[a], br).node == ChildNode(a, br)
  {
    hide Sound, BucketOk;
    SoundReads(env, s, a);
  }

  lemma EndFits(env: Env, x: ExtendedKey, a: Node, br: nat, ix: seq<nat>, next: nat)
    requires x.node == ChildNode(a, br) && BranchFits(env, a, br, next) && StrictlyIncreasing(ix) && next <= After(next, ix)
    requires |ix| <= MAX_ADDRESSES_PER_ACCOUNT && (|ix| + next) % U32 <= MAX_ADDRESSES_PER_ACCOUNT
    requires forall j :: j in ix <==> next <= j < After(next, ix) && HasChild(env, x, j)
    ensures BranchFits(env, a, br, After(next, ix))
  {
    var end := After(next, ix);
    if ix != [] && forall i: nat :: i < end ==> env.valid(SlotNode(a, (br, i))) {
      assert forall i: nat :: i < next ==> env.valid(SlotNode(a, (br, i)));
      assert next <= HARDENED && next + |ix| <= MAX_ADDRESSES_PER_ACCOUNT;
      AtLeast(ix, next, |ix| - 1);
      forall j: nat | next <= j < next + |ix| ensures j in ix {
        assert env.valid(SlotNode(a, (br, j)));
      }
      Consecutive(ix, next, |ix| - 1);
    }
  }

  lemma {:induction false} AtLeast(ix: seq<nat>, next: nat, k: nat)
    requires StrictlyIncreasing(ix) && (forall j :: j in ix ==> next <= j) && k < |ix|
    ensures ix[k] >= next + k
  {
    if k > 0 {
      AtLeast(ix, next, k - 1);
    } else {
      assert ix[0] in ix;
    }
  }

  lemma {:induction false} Consecutive(ix: seq<nat>, next: nat, k: nat)
    requires StrictlyIncreasing(ix) && (forall j :: j in ix ==> next <= j) && k < |ix|
    requires forall j :: next <= j < next + |ix| ==> j in ix
    ensures ix[k] == next + k
  {
    if k > 0 {
      Consecutive(ix, next, k - 1);
    }
    assert next + k in ix;
    var p :| 0 <= p < |ix| && ix[p] == next + k;
    AtLeast(ix, next, p);
    AtLeast(ix, next, k);
  }

  lemma AccountFits(env: Env, s: Wallet, act: Action, s': Wallet, a: Node)
    requires Inv(env, s) && NumsFit(env, s) && Step(env, s, act, s') && a in s'.db
    ensures BranchFits(env, a, EXTERNAL, s'.db[a].nums.external) && BranchFits(env, a, INTERNAL, s'.db[a].nums.internal)
  {
    hide Step, ToIssue, Inv, After, BranchFits;
    NumsStep(env, s, act, s', a);
    if a !in s.db {
      SmallFits(env, a, s'.db[a].nums);
    } else if act.ActNext? && act.a == a && ToIssue(env, s, a, act.br, act.n).Some? {
      NextNums(env, s, act, s', a);
      IssuedFits(env, s, a, act.br, act.n);
    }
  }

  lemma StepFits(env: Env, s: Wallet, act: Action, s': Wallet)
    requires Inv(env, s) && NumsFit(env, s) && Step(env, s, act, s')
    ensures NumsFit(env, s')
  {
    forall a | a in s'.db
      ensures BranchFits(env, a, EXTERNAL, s'.db[a].nums.external) && BranchFits(env, a, INTERNAL, s'.db[a].nums.internal)
    {
      AccountFits(env, s, act, s', a);
    }
    hide Step, Inv, BranchFits;
  }

  lemma SmallFits(env: Env, a: Node, nums: Nums)
    requires nums.external <= HARDENED && nums.internal <= HARDENED
    ensures BranchFits(env, a, EXTERNAL, nums.external) && BranchFits(env, a, INTERNAL, nums.internal)
  {
  }

  lemma {:induction false} EveryRunFits(env: Env, ss: seq<Wallet>, acts: seq<Action>, n: nat)
    requires IsRun(env, ss, acts) && n < |ss|
    ensures NumsFit(env, ss[n])
  {
    if n == 0 {
      hide Step;
    } else {
      hide IsRun, Step, NumsFit, Inv;
      RunStep(env, ss, acts, n - 1);
      EveryRunFits(env, ss, acts, n - 1);
      EveryRunKeeps(env, ss, acts, n - 1);
      StepFits(env, ss[n - 1], acts[n - 1], ss[n]);
    }
  }
}
