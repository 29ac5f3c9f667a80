/** The HD keystore: a bucket database and the address managers that cache it. Cryptography is symbolic.
    A node of the key tree is its seed and path, so a private key and the public key of the same node
    belong together and public derivation agrees with private derivation for non-hardened children (the
    BIP-32 law); a ciphertext remembers its key and opens under no other; a digest determines what was
    hashed. Randomness arrives as arguments. Master private keys live behind references, because a
    passphrase change makes all managers share one. */
module Keystore {
  import opened Common

  type Pass = string
  type Ref = nat

  // Key tree

  const HARDENED: nat := 0x8000_0000
  const MAX_ACCOUNT_NUM: nat := HARDENED - 2
  const MAX_ADDRESSES_PER_ACCOUNT: nat := HARDENED - 1
  const PURPOSE: nat := 44
  const EXTERNAL: nat := 0
  const INTERNAL: nat := 1

  datatype Node = Node(seed: string, path: seq<nat>)

  datatype ExtendedKey = Priv(node: Node) | Pub(node: Node)

  /** Which nodes have a usable key, and the coin type of the network. */
  datatype Env = Env(valid: Node -> bool, coin: nat)

  function ChildNode(n: Node, i: nat): Node {
    Node(n.seed, n.path + [i])
  }

  /** ExtendedKey.Child fails for a hardened child of a public key and for an invalid child. */
  predicate HasChild(env: Env, x: ExtendedKey, i: nat) {
    (x.Priv? || i < HARDENED) && env.valid(ChildNode(x.node, i))
  }

  /** m/44'/coin'/account' below `root` */
  function AccountNode(env: Env, root: Node, account: nat): Node {
    Node(root.seed, root.path + [PURPOSE + HARDENED, env.coin + HARDENED, account + HARDENED])
  }

  /** deriveCoinTypeKey, deriveAccountKey and checkBranchKeys succeed. */
  predicate Derivable(env: Env, root: Node, account: nat) {
    && env.coin < HARDENED && account <= MAX_ACCOUNT_NUM
    && var purpose := ChildNode(root, PURPOSE + HARDENED);
    && var coin := ChildNode(purpose, env.coin + HARDENED);
    && env.valid(purpose) && env.valid(coin) && env.valid(ChildNode(coin, account + HARDENED))
    && env.valid(ChildNode(AccountNode(env, root, account), EXTERNAL))
    && env.valid(ChildNode(AccountNode(env, root, account), INTERNAL))
  }

  datatype PubKey = PubKey(node: Node)
  datatype PrivKey = PrivKey(node: Node)

  // Symbolic cryptography

  datatype Key = Scrypt(pass: Pass, salt: nat) | Random(id: nat) | Zeroed

  datatype Payload = KeyBytes(key: Key) | PrivExt(node: Node) | PubExt(node: Node) | PubBytes(pk: PubKey)

  datatype Cipher = Enc(key: Key, payload: Payload) | Malformed

  function Decrypt(k: Key, c: Cipher): Option<Payload> {
    if c.Enc? && c.key == k then Some(c.payload) else None
  }

  /** What snacl stores to derive a key again: the scrypt salt and the digest of the key. */
  datatype Params = Params(salt: nat, digest: Key)

  datatype SecretKey = SecretKey(key: Key, params: Params)

  function NewSecretKey(pass: Pass, salt: nat): SecretKey {
    SecretKey(Scrypt(pass, salt), Params(salt, Scrypt(pass, salt)))
  }

  /** DeriveKey overwrites the key in memory before it looks at the digest. */
  function DeriveKey(sk: SecretKey, pass: Pass): (SecretKey, bool) {
    var k := Scrypt(pass, sk.params.salt);
    (sk.(key := k), k == sk.params.digest)
  }

  function Zero(sk: SecretKey): SecretKey {
    sk.(key := Zeroed)
  }

  // The database

  datatype Nums = Nums(external: nat, internal: nat) {
    function At(branch: nat): nat {
      if branch == INTERNAL then internal else external
    }

    function With(branch: nat, n: nat): Nums {
      if branch == INTERNAL then this.(internal := n) else this.(external := n)
    }
  }

  type Slot = (nat, nat)

  /** One account bucket. */
  datatype Bucket = Bucket(
    coin: nat, usage: nat, remark: string,
    mpub: Params, mpriv: Params, cpub: Cipher, cpriv: Cipher, mhdpriv: Cipher,
    acctPub: Cipher, acctPriv: Cipher, exBranch: Cipher, inBranch: Cipher,
    nums: Nums, pubKeys: map<Slot, Cipher>)

  /** The random values drawn when an account is created. */
  datatype Rand = Rand(saltPub: nat, saltPriv: nat, keyPub: nat, keyPriv: nat)

  function SlotNode(acct: Node, p: Slot): Node {
    ChildNode(ChildNode(acct, p.0), p.1)
  }

  /** The usable indices below the child numbers of both branches. */
  ghost function Slots(env: Env, acct: Node, nums: Nums): set<Slot> {
    set br: nat, i: nat | br < 2 && i < nums.At(br) && env.valid(SlotNode(acct, (br, i))) :: (br, i)
  }

  ghost function SealedPubKeys(env: Env, acct: Node, nums: Nums, ck: Key): map<Slot, Cipher> {
    map p | p in Slots(env, acct, nums) :: Enc(ck, PubBytes(PubKey(SlotNode(acct, p))))
  }

  /** What create (with no addresses) and ImportKeystore (with addresses) write for one account. */
  ghost function NewBucket(env: Env, root: Node, account: nat, remark: string, nums: Nums, pub: Pass, priv: Pass, r: Rand): Bucket {
    var acct := AccountNode(env, root, account);
    var mpub, mpriv, ckPub, ckPriv := NewSecretKey(pub, r.saltPub), NewSecretKey(priv, r.saltPriv), Random(r.keyPub), Random(r.keyPriv);
    Bucket(
      env.coin, account, remark,
      mpub.params, mpriv.params, Enc(mpub.key, KeyBytes(ckPub)), Enc(mpriv.key, KeyBytes(ckPriv)), Enc(ckPriv, PrivExt(root)),
      Enc(ckPub, PubExt(acct)), Enc(ckPriv, PrivExt(acct)),
      Enc(ckPub, PubExt(ChildNode(acct, EXTERNAL))), Enc(ckPub, PubExt(ChildNode(acct, INTERNAL))),
      nums, SealedPubKeys(env, acct, nums, ckPub))
  }

  /** The retry loop of the import does not advance on an invalid child, so it ends only without one. */
  ghost predicate NoInvalidBelow(env: Env, acct: Node, nums: Nums) {
    forall br: nat, i: nat :: br < 2 && i < nums.At(br) ==> env.valid(SlotNode(acct, (br, i)))
  }

  // Memory

  datatype Address = Address(branch: nat, index: nat, pub: PubKey, priv: Option<PrivKey>)

  datatype Salt = Salt(value: nat) | ZeroSalt

  /** AddrManager. `hashed` is the salted hash of the passphrase, None when zeroed. */
  datatype Manager = Manager(
    remark: string, usage: nat, unlocked: bool,
    secret: Ref, cpriv: Cipher, ckPub: Key, ckPriv: Key,
    acctPrivEnc: Cipher, acctPub: Node, acctPriv: Option<Node>,
    nums: Nums, addrs: map<PubKey, Address>,
    salt: Salt, hashed: Option<(Salt, Pass)>)

  /** KeystoreManagerForPoC with its database and the secret keys the managers point to. `priv` is
      history: the passphrase given when the first account was made, or at the last change. */
  datatype Wallet = Wallet(
    db: map<Node, Bucket>, managed: map<Node, Manager>, secrets: map<Ref, SecretKey>,
    unlocked: bool, pubPass: Pass, priv: Pass)

  // Passphrases

  predicate PassChar(c: char) {
    '0' <= c <= '9' || 'a' <= c <= 'z' || 'A' <= c <= 'Z' || c == '@' || c == '#' || c == '$' || c == '%' || c == '^' || c == '&'
  }

  predicate ValidatePassphrase(p: Pass) {
    6 <= |p| <= 40 && forall i :: 0 <= i < |p| ==> PassChar(p[i])
  }

  /** checkPassword. Unlocked, it hashes salt and passphrase; with an empty passphrase the slice that is
      wiped afterwards is the salt itself. Locked, it derives the master key. */
  function CheckPassword(m: Manager, sk: SecretKey, pass: Pass): (Manager, SecretKey, bool) {
    if m.unlocked then (if pass == "" then m.(salt := ZeroSalt) else m, sk, m.hashed == Some((m.salt, pass)))
    else
      var (sk', ok) := DeriveKey(sk, pass);
      (m, sk', ok)
  }

  /** safelyCheckPassword */
  function SafelyCheckPassword(m: Manager, sk: SecretKey, pass: Pass): (Manager, SecretKey, bool) {
    var (m', sk', ok) := CheckPassword(m, sk, pass);
    (m', if ok then Zero(sk') else sk', ok)
  }

  /** Account `a` after its manager and the master key it points to changed in memory. */
  function Replaced(s: Wallet, a: Node, m: Manager, sk: SecretKey): Wallet {
    s.(managed := s.managed[a := m], secrets := s.secrets[m.secret := sk])
  }

  predicate Present(s: Wallet, a: Node) {
    a in s.managed && s.managed[a].secret in s.secrets
  }

  function SafelyCheck(s: Wallet, a: Node, pass: Pass): (Wallet, bool) {
    if !Present(s, a) then (s, false) else
    var (m, sk, ok) := SafelyCheckPassword(s.managed[a], s.secrets[s.managed[a].secret], pass);
    (Replaced(s, a, m, sk), ok)
  }

  // Loading an account

  ghost function DecryptPub(ck: Key, c: Cipher): Option<PubKey> {
    var d := Decrypt(ck, c);
    if d.Some? && d.value.PubBytes? then Some(d.value.pk) else None
  }

  ghost function LoadedKeys(b: Bucket, ck: Key): set<PubKey> {
    set p | p in b.pubKeys && DecryptPub(ck, b.pubKeys[p]).Some? :: DecryptPub(ck, b.pubKeys[p]).value
  }

  ghost function LoadAddrs(b: Bucket, ck: Key): map<PubKey, Address> {
    map k | k in LoadedKeys(b, ck) :: Address(StoredAt(b, ck, k).0, StoredAt(b, ck, k).1, k, None)
  }

  ghost function StoredAt(b: Bucket, ck: Key, k: PubKey): (p: Slot)
    requires k in LoadedKeys(b, ck)
    ensures p in b.pubKeys && DecryptPub(ck, b.pubKeys[p]) == Some(k)
  {
    var p: Slot :| p in b.pubKeys && DecryptPub(ck, b.pubKeys[p]) == Some(k);
    p
  }

  /** loadAddrManager; `secret` is where the unmarshalled master key goes. */
  ghost function Load(env: Env, b: Bucket, pub: Pass, secret: Ref, salt: nat): Option<Manager> {
    if b.coin != env.coin || Scrypt(pub, b.mpub.salt) != b.mpub.digest then None else
    var k := Decrypt(Scrypt(pub, b.mpub.salt), b.cpub);
    if k.None? || !k.value.KeyBytes? then None else
    var ck := k.value.key;
    var x, e, i := Decrypt(ck, b.acctPub), Decrypt(ck, b.exBranch), Decrypt(ck, b.inBranch);
    if x.None? || !x.value.PubExt? || e.None? || !e.value.PubExt? || i.None? || !i.value.PubExt? then None
    else if exists p :: p in b.pubKeys && DecryptPub(ck, b.pubKeys[p]).None? then None
    else Some(Manager(b.remark, b.usage, false, secret, b.cpriv, ck, Zeroed, b.acctPriv, x.value.node, None,
                      b.nums, LoadAddrs(b, ck), Salt(salt), None))
  }

  /** The state after loading account `a`. */
  ghost function WithLoaded(s: Wallet, a: Node, b: Bucket, m: Manager): Wallet {
    s.(db := s.db[a := b], managed := s.managed[a := m], secrets := s.secrets[m.secret := SecretKey(Zeroed, b.mpriv)])
  }

  // Unlocking

  /** Where updatePrivKeys looks for the private key of an address. */
  function DerivedNode(acct: Node, x: Address): Node {
    SlotNode(acct, (if x.branch == EXTERNAL then EXTERNAL else INTERNAL, x.index))
  }

  function WithPrivKeys(m: Manager, acct: Node): map<PubKey, Address> {
    map k | k in m.addrs :: m.addrs[k].(priv := Some(PrivKey(DerivedNode(acct, m.addrs[k]))))
  }

  predicate AllDerivable(env: Env, m: Manager, acct: Node) {
    && env.valid(ChildNode(acct, EXTERNAL)) && env.valid(ChildNode(acct, INTERNAL))
    && forall k :: k in m.addrs ==> env.valid(DerivedNode(acct, m.addrs[k]))
  }

  /** updatePrivKeys */
  function UpdatePrivKeys(env: Env, m: Manager, key: Key): Option<Manager> {
    var k := Decrypt(key, m.cpriv);
    if k.None? || !k.value.KeyBytes? then None else
    var x := Decrypt(k.value.key, m.acctPrivEnc);
    if x.None? || !x.value.PrivExt? then None else
    var acct := x.value.node;
    if !AllDerivable(env, m, acct) then None
    else Some(m.(ckPriv := k.value.key, acctPriv := Some(acct), addrs := WithPrivKeys(m, acct), unlocked := true))
  }

  /** useKeystore on one manager */
  function UseManager(env: Env, m: Manager, sk: SecretKey, pass: Pass): (Manager, SecretKey, bool) {
    var (m1, sk1, ok) := CheckPassword(m, sk, pass);
    if !ok then (m1, sk1, false) else
    var hashed := m1.(hashed := Some((m1.salt, pass)), salt := if pass == "" then ZeroSalt else m1.salt);
    var unsealed := UpdatePrivKeys(env, hashed, sk1.key);
    if unsealed.None? then (hashed, sk1, false) else (unsealed.value, sk1, true)
  }

  function UseKeystore(env: Env, s: Wallet, a: Node, pass: Pass): (Wallet, bool) {
    if !Present(s, a) then (s, false) else
    var (m, sk, ok) := UseManager(env, s.managed[a], s.secrets[s.managed[a].secret], pass);
    (Replaced(s, a, m, sk), ok)
  }

  /** The loop in Unlock: the accounts in the order the map iteration happens to take, up to the first failure. */
  function UseAll(env: Env, s: Wallet, order: seq<Node>, pass: Pass): (Wallet, bool)
    decreases |order|
  {
    if order == [] then (s, true) else
    var (s1, ok) := UseKeystore(env, s, order[0], pass);
    if !ok then (s1, false) else UseAll(env, s1, order[1..], pass)
  }

  function Unlock(env: Env, s: Wallet, order: seq<Node>, pass: Pass): (Wallet, bool) {
    var (s1, ok) := UseAll(env, s, order, pass);
    if ok then (s1.(unlocked := true), true) else (s1, false)
  }

  function ClearPrivKeys(m: Manager): Manager {
    m.(unlocked := false, acctPriv := None, ckPriv := Zeroed, hashed := None,
       addrs := map k | k in m.addrs :: m.addrs[k].(priv := None))
  }

  predicate InUse(s: Wallet, r: Ref) {
    exists a :: a in s.managed && s.managed[a].secret == r
  }

  function Lock(s: Wallet): Wallet {
    s.(managed := map a | a in s.managed :: ClearPrivKeys(s.managed[a]),
       secrets := map r | r in s.secrets :: if InUse(s, r) then Zero(s.secrets[r]) else s.secrets[r],
       unlocked := false)
  }

  // Creating, importing, exporting and deleting accounts

  /** The first check of NewKeystore, ImportKeystore and ChangePubPassphrase tries one account, `pick`. */
  ghost function CheckOne(s: Wallet, pick: Node, pass: Pass): (Wallet, bool) {
    if s.managed == map[] then (s, true) else SafelyCheck(s, pick, pass)
  }

  /** Common end of NewKeystore and ImportKeystore: store, load, and unlock if the wallet is unlocked. */
  ghost function AddAccount(env: Env, s: Wallet, root: Node, account: nat, remark: string, nums: Nums, priv: Pass, r: Rand, secret: Ref, salt: nat): (Wallet, bool) {
    var a := AccountNode(env, root, account);
    if !Derivable(env, root, account) || a in s.db || nums.external > HARDENED || nums.internal > HARDENED then (s, false) else
    var b := NewBucket(env, root, account, remark, nums, s.pubPass, priv, r);
    var m := Load(env, b, s.pubPass, secret, salt);
    if m.None? then (s.(db := s.db[a := b]), false) else
    var s1 := WithLoaded(s, a, b, m.value).(priv := priv);
    if s.unlocked then UseKeystore(env, s1, a, priv) else (s1, true)
  }

  ghost function NewKeystore(env: Env, s: Wallet, pick: Node, seed: string, priv: Pass, remark: string, r: Rand, secret: Ref, salt: nat): (Wallet, bool) {
    var (s1, ok) := CheckOne(s, pick, priv);
    if !ok || !ValidatePassphrase(priv) || !ValidatePassphrase(s.pubPass) || priv == s.pubPass || |seed| != 32 || !env.valid(Node(seed, [])) then (s1, false)
    else AddAccount(env, s1, Node(seed, []), 0, remark, Nums(0, 0), priv, r, secret, salt)
  }

  /** An exported keystore file. */
  datatype File = File(remark: string, mhdpriv: Cipher, privParams: Params, cpriv: Cipher, account: nat, nums: Nums)

  function ExportFile(b: Bucket): File {
    File(b.remark, b.mhdpriv, b.mpriv, b.cpriv, b.usage, b.nums)
  }

  /** The master HD key in a file, if `pass` opens it. */
  ghost function FileRoot(f: File, pass: Pass): Option<Node> {
    if Scrypt(pass, f.privParams.salt) != f.privParams.digest then None else
    var k := Decrypt(Scrypt(pass, f.privParams.salt), f.cpriv);
    if k.None? || !k.value.KeyBytes? then None else
    var x := Decrypt(k.value.key, f.mhdpriv);
    if x.Some? && x.value.PrivExt? then Some(x.value.node) else None
  }

  ghost function ImportKeystore(env: Env, s: Wallet, pick: Node, f: File, current: Pass, chosen: Pass, r: Rand, secret: Ref, salt: nat): (Wallet, bool) {
    var priv := if chosen == "" then current else chosen;
    if !ValidatePassphrase(priv) || priv == s.pubPass then (s, false) else
    var (s1, ok) := CheckOne(s, pick, priv);
    var root := FileRoot(f, current);
    if !ok || root.None? then (s1, false)
    else AddAccount(env, s1, root.value, f.account, f.remark, f.nums, priv, r, secret, salt)
  }

  function ExportKeystore(s: Wallet, a: Node, pass: Pass): (Wallet, Option<File>) {
    var (s1, ok) := SafelyCheck(s, a, pass);
    (s1, if ok && a in s.db then Some(ExportFile(s.db[a])) else None)
  }

  function DeleteKeystore(s: Wallet, a: Node, pass: Pass): (Wallet, bool) {
    var (s1, ok) := SafelyCheck(s, a, pass);
    if !ok then (s1, false)
    else (s1.(db := s1.db - {a}, managed := s1.managed - {a}), true)
  }

  // Addresses

  /** Derivation stops at the hardened range for a public key. For a private key the counter wraps at
      2^32; that is left out, so the search ends there. */
  function Limit(x: ExtendedKey): nat {
    if x.Pub? then HARDENED else U32 - 1
  }

  /** The inner loop of nextAddresses: the next index with a usable child. */
  function NextUsable(env: Env, x: ExtendedKey, next: nat): Option<nat>
    decreases Limit(x) - next
  {
    if next >= Limit(x) then None
    else if HasChild(env, x, next) then Some(next)
    else NextUsable(env, x, next + 1)
  }

  /** The outer loop: `n` usable indices from `next` on. */
  function Issue(env: Env, x: ExtendedKey, next: nat, n: nat): Option<seq<nat>>
    decreases n
  {
    if n == 0 then Some([]) else
    var i := NextUsable(env, x, next);
    if i.None? then None else
    var rest := Issue(env, x, i.value + 1, n - 1);
    if rest.None? then None else Some([i.value] + rest.value)
  }

  function After(next: nat, issued: seq<nat>): nat {
    if issued == [] then next else issued[|issued| - 1] + 1
  }

  function IssuedKeys(branch: Node, issued: seq<nat>): set<PubKey> {
    set i | i in issued :: PubKey(ChildNode(branch, i))
  }

  function LastIndex(n: Node): nat {
    if n.path == [] then 0 else n.path[|n.path| - 1]
  }

  /** The managed addresses made from the issued indices; with a private key they carry private keys. */
  function IssuedAddrs(branch: Node, br: nat, issued: seq<nat>, private: bool): map<PubKey, Address> {
    map k | k in IssuedKeys(branch, issued) :: Address(br, LastIndex(k.node), k, if private then Some(PrivKey(k.node)) else None)
  }

  function AccountKey(m: Manager): ExtendedKey {
    if m.acctPriv.Some? then Priv(m.acctPriv.value) else Pub(m.acctPub)
  }

  function BranchKey(m: Manager, br: nat): ExtendedKey {
    var x := AccountKey(m);
    if x.Priv? then Priv(ChildNode(x.node, br)) else Pub(ChildNode(x.node, br))
  }

  /** The indices the next call would issue; None when the call fails. */
  function ToIssue(env: Env, s: Wallet, a: Node, br: nat, n: nat): Option<seq<nat>> {
    if a !in s.managed || a !in s.db then None else
    var next := s.db[a].nums.At(br);
    if n > MAX_ADDRESSES_PER_ACCOUNT || (n + next) % U32 > MAX_ADDRESSES_PER_ACCOUNT then None
    else if !HasChild(env, AccountKey(s.managed[a]), br) then None
    else Issue(env, BranchKey(s.managed[a], br), next, n)
  }

  /** What putEncryptedPubKey stores for the issued indices. */
  function IssuedSealed(branch: Node, br: nat, issued: seq<nat>, ck: Key): map<Slot, Cipher> {
    map i | i in issued :: (br, i) := Enc(ck, PubBytes(PubKey(ChildNode(branch, i))))
  }

  function GrownBucket(b: Bucket, m: Manager, br: nat, issued: seq<nat>): Bucket {
    b.(nums := b.nums.With(br, After(b.nums.At(br), issued)),
       pubKeys := b.pubKeys + IssuedSealed(BranchKey(m, br).node, br, issued, m.ckPub))
  }

  /** updateManagedAddress */
  function GrownManager(b: Bucket, m: Manager, br: nat, issued: seq<nat>): Manager {
    var x := BranchKey(m, br);
    m.(nums := b.nums, addrs := m.addrs + IssuedAddrs(x.node, br, issued, x.Priv?))
  }

  function NextAddresses(env: Env, s: Wallet, a: Node, br: nat, n: nat): (Wallet, bool) {
    var issued := ToIssue(env, s, a, br, n);
    if issued.None? then (s, false) else
    var b := GrownBucket(s.db[a], s.managed[a], br, issued.value);
    (s.(db := s.db[a := b], managed := s.managed[a := GrownManager(b, s.managed[a], br, issued.value)]), true)
  }

  // Passphrase changes

  /** The checks of changePrivPassphrase on one account: in memory, and against the stored parameters. */
  function CheckAccount(s: Wallet, a: Node, current: Pass): (Wallet, bool) {
    if !Present(s, a) || a !in s.db then (s, false) else
    var (m, sk, ok) := CheckPassword(s.managed[a], s.secrets[s.managed[a].secret], current);
    (Replaced(s, a, m, sk), ok && OpensPriv(s.db[a], current))
  }

  predicate OpensPriv(b: Bucket, pass: Pass) {
    Scrypt(pass, b.mpriv.salt) == b.mpriv.digest && Decrypt(Scrypt(pass, b.mpriv.salt), b.cpriv).Some?
  }

  function CheckAll(s: Wallet, order: seq<Node>, current: Pass): (Wallet, bool)
    decreases |order|
  {
    if order == [] then (s, true) else
    var (s1, ok) := CheckAccount(s, order[0], current);
    if !ok then (s1, false) else CheckAll(s1, order[1..], current)
  }

  function Reseal(from: Key, to: Key, c: Cipher): Cipher {
    var d := Decrypt(from, c);
    if d.None? then Malformed else Enc(to, d.value)
  }

  /** New parameters and the same crypto key under the new master key. */
  function RekeyPriv(b: Bucket, current: Pass, sk: SecretKey): Bucket {
    b.(mpriv := sk.params, cpriv := Reseal(Scrypt(current, b.mpriv.salt), sk.key, b.cpriv))
  }

  function RekeyManager(m: Manager, b: Bucket, chosen: Pass, secret: Ref, salt: Salt): Manager {
    m.(cpriv := b.cpriv, secret := secret, salt := salt, hashed := if m.unlocked then Some((salt, chosen)) else None)
  }

  /** Every manager now points to the one new master key; the old ones are zeroed. */
  function RekeyAllPriv(s: Wallet, current: Pass, chosen: Pass, n: nat, secret: Ref, salts: map<Node, nat>): Wallet
    requires s.managed.Keys <= s.db.Keys
  {
    var sk := NewSecretKey(chosen, n);
    s.(db := map a | a in s.db :: if a in s.managed then RekeyPriv(s.db[a], current, sk) else s.db[a],
       managed := map a | a in s.managed ::
         RekeyManager(s.managed[a], RekeyPriv(s.db[a], current, sk), chosen, secret, Salt(if a in salts then salts[a] else 0)),
       secrets := (map r | r in s.secrets :: if InUse(s, r) then Zero(s.secrets[r]) else s.secrets[r])[secret := sk],
       priv := chosen)
  }

  /** The transaction fails as a whole: an account that rejects `current` leaves the database as it was. */
  function ChangePrivPassphrase(s: Wallet, order: seq<Node>, current: Pass, chosen: Pass, n: nat, secret: Ref, salts: map<Node, nat>): (Wallet, bool) {
    if !ValidatePassphrase(chosen) || chosen == s.pubPass || chosen == current then (s, false) else
    var (s1, ok) := CheckAll(s, order, current);
    if !ok || !(s1.managed.Keys <= s1.db.Keys) then (s1, false) else (RekeyAllPriv(s1, current, chosen, n, secret, salts), true)
  }

  function RekeyPub(b: Bucket, current: Pass, sk: SecretKey): Bucket {
    b.(mpub := sk.params, cpub := Reseal(Scrypt(current, b.mpub.salt), sk.key, b.cpub))
  }

  ghost function RekeyAllPub(s: Wallet, current: Pass, chosen: Pass, n: nat): Wallet {
    s.(db := map a | a in s.db :: if a in s.managed then RekeyPub(s.db[a], current, NewSecretKey(chosen, n)) else s.db[a], pubPass := chosen)
  }

  predicate OpensPub(b: Bucket, pass: Pass) {
    Scrypt(pass, b.mpub.salt) == b.mpub.digest && Decrypt(Scrypt(pass, b.mpub.salt), b.cpub).Some?
  }

  ghost function ChangePubPassphrase(s: Wallet, pick: Node, current: Pass, chosen: Pass, n: nat): (Wallet, bool) {
    if !ValidatePassphrase(chosen) || current == chosen then (s, false) else
    var (s1, same) := if s.managed == map[] then (s, false) else SafelyCheck(s, pick, chosen);
    if same || exists a :: a in s1.managed && (a !in s1.db || !OpensPub(s1.db[a], current)) then (s1, false)
    else (RekeyAllPub(s1, current, chosen, n), true)
  }

  // Remarks and restarts

  function ChangeRemark(s: Wallet, a: Node, remark: string): (Wallet, bool) {
    if a !in s.managed || a !in s.db then (s, false)
    else (s.(db := s.db[a := s.db[a].(remark := remark)], managed := s.managed[a := s.managed[a].(remark := remark)]), true)
  }

  ghost predicate Covers(s: Wallet, refs: map<Node, Ref>, salts: map<Node, nat>) {
    s.db.Keys <= refs.Keys && s.db.Keys <= salts.Keys
  }

  ghost predicate LoadsAll(env: Env, s: Wallet, pub: Pass, refs: map<Node, Ref>, salts: map<Node, nat>)
    requires Covers(s, refs, salts)
  {
    forall a :: a in s.db ==> Load(env, s.db[a], pub, refs[a], salts[a]).Some?
  }

  /** The master keys as they are unmarshalled, each under its own reference. */
  ghost function Unmarshalled(s: Wallet, refs: map<Node, Ref>): map<Ref, SecretKey> {
    map r | r in refs.Values :: var a :| a in refs && refs[a] == r; SecretKey(Zeroed, if a in s.db then s.db[a].mpriv else Params(0, Zeroed))
  }

  ghost function Reopened(env: Env, s: Wallet, pub: Pass, refs: map<Node, Ref>, salts: map<Node, nat>): Wallet
    requires Covers(s, refs, salts) && LoadsAll(env, s, pub, refs, salts)
  {
    Wallet(s.db, map a | a in s.db :: Load(env, s.db[a], pub, refs[a], salts[a]).value, Unmarshalled(s, refs), false, pub, s.priv)
  }

  /** NewKeystoreManagerForPoC on the stored accounts: `refs` is where the master keys are unmarshalled. */
  ghost function Restart(env: Env, s: Wallet, pub: Pass, refs: map<Node, Ref>, salts: map<Node, nat>): (Wallet, bool)
    requires Covers(s, refs, salts)
  {
    if !ValidatePassphrase(pub) || !LoadsAll(env, s, pub, refs, salts) then (s, false)
    else (Reopened(env, s, pub, refs, salts), true)
  }

  // Runs

  ghost predicate Initial(s: Wallet) {
    s == Wallet(map[], map[], map[], false, s.pubPass, s.priv) && ValidatePassphrase(s.pubPass)
  }

  datatype Action =
    | ActNew(pick: Node, seed: string, priv: Pass, remark: string, r: Rand, secret: Ref, salt: nat)
    | ActImport(pick: Node, f: File, current: Pass, chosen: Pass, r: Rand, secret: Ref, salt: nat)
    | ActExport(a: Node, pass: Pass)
    | ActDelete(a: Node, pass: Pass)
    | ActUnlock(order: seq<Node>, pass: Pass)
    | ActLock
    | ActNext(a: Node, br: nat, n: nat)
    | ActChangePriv(order: seq<Node>, current: Pass, chosen: Pass, salt: nat, secret: Ref, salts: map<Node, nat>)
    | ActChangePub(pick: Node, current: Pass, chosen: Pass, salt: nat)
    | ActRemark(a: Node, remark: string)
    | ActRestart(pub: Pass, refs: map<Node, Ref>, salts: map<Node, nat>)

  /** `order` visits every managed account once. */
  ghost predicate Visits(s: Wallet, order: seq<Node>) {
    && (forall a :: a in order <==> a in s.managed)
    && (forall i, j :: 0 <= i < j < |order| ==> order[i] != order[j])
  }

  ghost predicate Picks(s: Wallet, pick: Node) {
    s.managed != map[] ==> pick in s.managed
  }

  ghost predicate Injective(m: map<Node, Ref>) {
    forall a, b :: a in m && b in m && m[a] == m[b] ==> a == b
  }

  ghost predicate Enabled(env: Env, s: Wallet, act: Action) {
    match act
    case ActNew(pick, _, _, _, _, secret, _) => Picks(s, pick) && secret !in s.secrets
    case ActImport(pick, f, current, _, _, secret, _) =>
      && Picks(s, pick) && secret !in s.secrets
      && (FileRoot(f, current).Some? ==> NoInvalidBelow(env, AccountNode(env, FileRoot(f, current).value, f.account), f.nums))
    case ActUnlock(order, _) => Visits(s, order)
    case ActChangePriv(order, _, _, _, secret, _) => Visits(s, order) && secret !in s.secrets
    case ActChangePub(pick, _, _, _) => Picks(s, pick)
    case ActNext(_, br, _) => br < 2
    case ActRestart(_, refs, salts) => Covers(s, refs, salts) && Injective(refs)
    case _ => true
  }

  ghost function Apply(env: Env, s: Wallet, act: Action): (Wallet, bool)
    requires Enabled(env, s, act)
  {
    match act
    case ActNew(pick, seed, priv, remark, r, secret, salt) => NewKeystore(env, s, pick, seed, priv, remark, r, secret, salt)
    case ActImport(pick, f, current, chosen, r, secret, salt) => ImportKeystore(env, s, pick, f, current, chosen, r, secret, salt)
    case ActExport(a, pass) => var (s1, f) := ExportKeystore(s, a, pass); (s1, f.Some?)
    case ActDelete(a, pass) => DeleteKeystore(s, a, pass)
    case ActUnlock(order, pass) => Unlock(env, s, order, pass)
    case ActLock => (Lock(s), true)
    case ActNext(a, br, n) => NextAddresses(env, s, a, br, n)
    case ActChangePriv(order, current, chosen, salt, secret, salts) => ChangePrivPassphrase(s, order, current, chosen, salt, secret, salts)
    case ActChangePub(pick, current, chosen, salt) => ChangePubPassphrase(s, pick, current, chosen, salt)
    case ActRemark(a, remark) => ChangeRemark(s, a, remark)
    case ActRestart(pub, refs, salts) => Restart(env, s, pub, refs, salts)
  }
}
