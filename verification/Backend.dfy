/** The executor's account backend: accounts in a state trie, each with the root of its own storage trie and
    the digest of its code. Tries are their contents, addressed by root. */
module Backend {
  import opened ChainTypes

  type Slot = nat
  type Word = nat
  type SlotContents = map<Slot, Word>

  datatype Account = Account(nonce: nat, balance: nat, storageRoot: Hash, codeHash: Hash)
  type Accounts = map<Address, Account>

  /** Trie roots and the code digest. */
  datatype TrieEnv = TrieEnv(
    storageRootOf: SlotContents -> Hash,
    stateRootOf: Accounts -> Hash,
    codeDigest: Bytes -> Hash,
    rlpNull: Hash,
    nilData: Hash)

  const ZERO_HASH: Hash := 0

  /** Roots and digests identify what they are computed from; none of them is the zero hash. */
  ghost predicate EnvOk(env: TrieEnv) {
    && (forall a, b :: env.storageRootOf(a) == env.storageRootOf(b) ==> a == b)
    && (forall a, b :: env.stateRootOf(a) == env.stateRootOf(b) ==> a == b)
    && (forall a, b :: env.codeDigest(a) == env.codeDigest(b) ==> a == b)
    && env.storageRootOf(map[]) == env.rlpNull
    && env.codeDigest([]) == env.nilData
    && (forall c :: env.codeDigest(c) != ZERO_HASH)
  }

  datatype Basic = Basic(nonce: nat, balance: nat)

  datatype Apply =
    | Modify(address: Address, basic: Basic, code: Option<Bytes>, storage: seq<(Slot, Word)>, resetStorage: bool)
    | Delete(address: Address)

  datatype BackendState = BackendState(
    /** the open state trie, and the root of its last commit */
    trie: Accounts,
    root: Hash,
    /** what the trie database and the code table hold */
    storages: map<Hash, SlotContents>,
    states: map<Hash, Accounts>,
    codes: map<Hash, Bytes>,
    logs: seq<nat>)

  // ---------------------------------------------------------------- reading

  function BasicOf(s: BackendState, a: Address): Basic {
    if a in s.trie then Basic(s.trie[a].nonce, s.trie[a].balance) else Basic(0, 0)
  }

  function OpenStorage(env: TrieEnv, s: BackendState, root: Hash): SlotContents {
    if root != env.rlpNull && root in s.storages then s.storages[root] else map[]
  }

  function StorageOf(env: TrieEnv, s: BackendState, a: Address, i: Slot): Word {
    if a in s.trie then
      var slots := OpenStorage(env, s, s.trie[a].storageRoot);
      if i in slots then slots[i] else 0
    else 0
  }

  function CodeByHash(env: TrieEnv, s: BackendState, h: Hash): Bytes {
    if h != env.nilData && h in s.codes then s.codes[h] else []
  }

  function CodeOf(env: TrieEnv, s: BackendState, a: Address): Bytes {
    if a in s.trie then CodeByHash(env, s, s.trie[a].codeHash) else []
  }

  // ---------------------------------------------------------------- applying

  function InsertSlots(slots: SlotContents, writes: seq<(Slot, Word)>): SlotContents {
    if writes == [] then slots
    else InsertSlots(slots, writes[..|writes| - 1])[writes[|writes| - 1].0 := writes[|writes| - 1].1]
  }

  function OldAccount(env: TrieEnv, s: BackendState, a: Address): Account {
    if a in s.trie then s.trie[a] else Account(0, 0, env.rlpNull, env.nilData)
  }

  /** `apply` for one modified account, and whether the new account counts as empty. */
  function ModifyNext(env: TrieEnv, s: BackendState, m: Apply): (BackendState, bool)
    requires m.Modify?
  {
    var before := OldAccount(env, s, m.address);
    var base := if m.resetStorage then map[] else OpenStorage(env, s, before.storageRoot);
    var slots := InsertSlots(base, m.storage);
    var storageRoot := env.storageRootOf(slots);
    var changed := m.code.Some? && env.codeDigest(m.code.value) != before.codeHash;
    var codeHash := if changed then env.codeDigest(m.code.value) else before.codeHash;
    var account := Account(m.basic.nonce, m.basic.balance, storageRoot, codeHash);
    var trie := s.trie[m.address := account];
    var root := env.stateRootOf(trie);
    (s.(trie := trie, root := root,
        storages := s.storages[storageRoot := slots],
        states := s.states[root := trie],
        codes := if changed then s.codes[codeHash := m.code.value] else s.codes),
     account.balance == 0 && account.nonce == 0 && account.codeHash == ZERO_HASH)
  }

  function RemoveCommitted(env: TrieEnv, s: BackendState, a: Address): BackendState {
    var trie := s.trie - {a};
    s.(trie := trie, root := env.stateRootOf(trie), states := s.states[env.stateRootOf(trie) := trie])
  }

  /** A deletion changes the open trie but is not committed. */
  function ApplyOne(env: TrieEnv, s: BackendState, x: Apply, deleteEmpty: bool): BackendState {
    match x
    case Modify(a, _, _, _, _) =>
      var (t, isEmpty) := ModifyNext(env, s, x);
      if isEmpty && deleteEmpty then RemoveCommitted(env, t, a) else t
    case Delete(a) => s.(trie := s.trie - {a})
  }

  function ApplyAll(env: TrieEnv, s: BackendState, xs: seq<Apply>, deleteEmpty: bool): BackendState {
    if xs == [] then s
    else ApplyOne(env, ApplyAll(env, s, xs[..|xs| - 1], deleteEmpty), xs[|xs| - 1], deleteEmpty)
  }

  function ApplyBatch(env: TrieEnv, s: BackendState, xs: seq<Apply>, logs: seq<nat>, deleteEmpty: bool): BackendState {
    ApplyAll(env, s, xs, deleteEmpty).(logs := logs)
  }

  // ---------------------------------------------------------------- the flat view

  datatype FlatAccount = FlatAccount(nonce: nat, balance: nat, code: Bytes, slots: SlotContents)
  type Flat = map<Address, FlatAccount>

  function FlatOf(env: TrieEnv, s: BackendState): Flat {
    map a | a in s.trie ::
      FlatAccount(s.trie[a].nonce, s.trie[a].balance, CodeByHash(env, s, s.trie[a].codeHash),
                  OpenStorage(env, s, s.trie[a].storageRoot))
  }

  function FlatApply(f: Flat, x: Apply): Flat {
    match x
    case Modify(a, basic, code, storage, reset) =>
      var before := if a in f then f[a] else FlatAccount(0, 0, [], map[]);
      f[a := FlatAccount(basic.nonce, basic.balance,
                         if code.Some? then code.value else before.code,
                         InsertSlots(if reset then map[] else before.slots, storage))]
    case Delete(a) => f - {a}
  }

  function FlatApplyAll(f: Flat, xs: seq<Apply>): Flat {
    if xs == [] then f else FlatApply(FlatApplyAll(f, xs[..|xs| - 1]), xs[|xs| - 1])
  }

  /** Every stored root and digest names its own content, and every account's are stored. */
  ghost predicate Stored(env: TrieEnv, s: BackendState) {
    && (forall r :: r in s.storages ==> env.storageRootOf(s.storages[r]) == r)
    && (forall r :: r in s.states ==> env.stateRootOf(s.states[r]) == r)
    && (forall h :: h in s.codes ==> env.codeDigest(s.codes[h]) == h)
  }

  ghost predicate AccountStored(env: TrieEnv, s: BackendState, x: Account) {
    && (x.storageRoot == env.rlpNull || x.storageRoot in s.storages)
    && (x.codeHash == env.nilData || x.codeHash in s.codes)
  }

  ghost predicate AccountsStored(env: TrieEnv, s: BackendState, t: Accounts) {
    forall a :: a in t ==> AccountStored(env, s, t[a])
  }

  ghost predicate Valid(env: TrieEnv, s: BackendState) {
    && Stored(env, s) && AccountsStored(env, s, s.trie)
    && forall r :: r in s.states ==> AccountsStored(env, s, s.states[r])
  }

  /** The reads of the backend are reads of the flat map. */
  lemma ReadsAreFlat(env: TrieEnv, s: BackendState, a: Address, i: Slot)
    ensures BasicOf(s, a) ==
            if a in FlatOf(env, s) then Basic(FlatOf(env, s)[a].nonce, FlatOf(env, s)[a].balance) else Basic(0, 0)
    ensures CodeOf(env, s, a) == if a in FlatOf(env, s) then FlatOf(env, s)[a].code else []
    ensures StorageOf(env, s, a, i) ==
            if a in FlatOf(env, s) && i in FlatOf(env, s)[a].slots then FlatOf(env, s)[a].slots[i] else 0
  {
  }

  /** The database only grows, and never changes what a root or digest stands for. */
  ghost predicate Grows(s: BackendState, t: BackendState) {
    && (forall r :: r in s.storages ==> r in t.storages && t.storages[r] == s.storages[r])
    && (forall r :: r in s.states ==> r in t.states && t.states[r] == s.states[r])
    && (forall h :: h in s.codes ==> h in t.codes && t.codes[h] == s.codes[h])
  }

  lemma GrowsKeepsReads(env: TrieEnv, s: BackendState, t: BackendState, x: Account)
    requires Grows(s, t) && AccountStored(env, s, x)
    ensures AccountStored(env, t, x)
    ensures OpenStorage(env, t, x.storageRoot) == OpenStorage(env, s, x.storageRoot)
    ensures CodeByHash(env, t, x.codeHash) == CodeByHash(env, s, x.codeHash)
  {
  }

  lemma ModifyGrows(env: TrieEnv, s: BackendState, m: Apply)
    requires EnvOk(env) && Stored(env, s) && m.Modify?
    ensures Grows(s, ModifyNext(env, s, m).0) && Stored(env, ModifyNext(env, s, m).0)
  {
  }

  /** The account written by a modification reads back as the flat account. */
  lemma ModifiedAccount(env: TrieEnv, s: BackendState, m: Apply)
    requires EnvOk(env) && Valid(env, s) && m.Modify?
    ensures
      var t := ModifyNext(env, s, m).0;
      && AccountStored(env, t, t.trie[m.address])
      && FlatOf(env, t)[m.address] == FlatApply(FlatOf(env, s), m)[m.address]
      && !ModifyNext(env, s, m).1
  {
    var t := ModifyNext(env, s, m).0;
    var before := OldAccount(env, s, m.address);
    ModifyGrows(env, s, m);
    assert AccountStored(env, s, before);
    GrowsKeepsReads(env, s, t, before);
    var slots := InsertSlots(if m.resetStorage then map[] else OpenStorage(env, s, before.storageRoot), m.storage);
    assert OpenStorage(env, t, env.storageRootOf(slots)) == slots;
    assert CodeByHash(env, s, before.codeHash) == if m.address in s.trie then FlatOf(env, s)[m.address].code else [];
    if m.code.Some? {
      if env.codeDigest(m.code.value) == before.codeHash {
        assert CodeByHash(env, s, before.codeHash) == m.code.value;
      } else {
        assert CodeByHash(env, t, env.codeDigest(m.code.value)) == m.code.value;
      }
    }
    assert before.codeHash != ZERO_HASH;
  }

  lemma ModifyTrie(env: TrieEnv, s: BackendState, m: Apply)
    requires EnvOk(env) && Valid(env, s) && m.Modify?
    ensures var t := ModifyNext(env, s, m).0; AccountsStored(env, t, t.trie)
  {
    var t := ModifyNext(env, s, m).0;
    ModifyGrows(env, s, m);
    ModifiedAccount(env, s, m);
    forall a | a in t.trie
      ensures AccountStored(env, t, t.trie[a])
    {
      if a != m.address {
        GrowsKeepsReads(env, s, t, s.trie[a]);
      }
    }
  }

  lemma StatesStored(env: TrieEnv, s: BackendState, m: Apply, r: Hash)
    requires EnvOk(env) && Valid(env, s) && m.Modify? && r in ModifyNext(env, s, m).0.states
    ensures var t := ModifyNext(env, s, m).0; AccountsStored(env, t, t.states[r])
  {
    var t := ModifyNext(env, s, m).0;
    ModifyGrows(env, s, m);
    ModifyTrie(env, s, m);
    if t.states[r] != t.trie {
      forall a | a in s.states[r]
        ensures AccountStored(env, t, s.states[r][a])
      {
        GrowsKeepsReads(env, s, t, s.states[r][a]);
      }
    }
  }

  lemma ModifiedKeys(env: TrieEnv, s: BackendState, m: Apply)
    requires m.Modify?
    ensures
      var t := ModifyNext(env, s, m).0;
      && t.trie.Keys == s.trie.Keys + {m.address}
      && forall a :: a in s.trie && a != m.address ==> t.trie[a] == s.trie[a]
  {
  }

  lemma ModifyFlat(env: TrieEnv, s: BackendState, m: Apply)
    requires EnvOk(env) && Valid(env, s) && m.Modify?
    ensures FlatOf(env, ModifyNext(env, s, m).0) == FlatApply(FlatOf(env, s), m)
  {
    hide ModifyNext, InsertSlots, Grows, OpenStorage, CodeByHash, EnvOk;
    var t := ModifyNext(env, s, m).0;
    ModifiedKeys(env, s, m);
    ModifyGrows(env, s, m);
    ModifiedAccount(env, s, m);
    forall a | a in s.trie && a != m.address
      ensures FlatOf(env, t)[a] == FlatOf(env, s)[a]
    {
      GrowsKeepsReads(env, s, t, s.trie[a]);
    }
  }

  lemma ModifyKeepsValid(env: TrieEnv, s: BackendState, m: Apply)
    requires EnvOk(env) && Valid(env, s) && m.Modify?
    ensures Valid(env, ModifyNext(env, s, m).0)
  {
    ModifyGrows(env, s, m);
    ModifyTrie(env, s, m);
    var t := ModifyNext(env, s, m).0;
    forall r | r in t.states
      ensures AccountsStored(env, t, t.states[r])
    {
      StatesStored(env, s, m, r);
    }
  }

  /** One application refines the flat map; an account is never counted as empty, so the request to delete
      empty accounts changes nothing. */
  lemma ApplyOneRefines(env: TrieEnv, s: BackendState, x: Apply, deleteEmpty: bool)
    requires EnvOk(env) && Valid(env, s)
    ensures Valid(env, ApplyOne(env, s, x, deleteEmpty))
    ensures FlatOf(env, ApplyOne(env, s, x, deleteEmpty)) == FlatApply(FlatOf(env, s), x)
    ensures Grows(s, ApplyOne(env, s, x, deleteEmpty))
    ensures ApplyOne(env, s, x, deleteEmpty) == ApplyOne(env, s, x, false)
  {
    if x.Modify? {
      ModifiedAccount(env, s, x);
      ModifyKeepsValid(env, s, x);
      ModifyFlat(env, s, x);
      ModifyGrows(env, s, x);
      hide ModifyNext, Valid, Grows;
    }
  }

  /** Account backend refinement over any list of modifications and deletions. */
  lemma {:induction false} ApplyRefinesFlatMap(env: TrieEnv, s: BackendState, xs: seq<Apply>, deleteEmpty: bool)
    requires EnvOk(env) && Valid(env, s)
    ensures Valid(env, ApplyAll(env, s, xs, deleteEmpty))
    ensures FlatOf(env, ApplyAll(env, s, xs, deleteEmpty)) == FlatApplyAll(FlatOf(env, s), xs)
    ensures Grows(s, ApplyAll(env, s, xs, deleteEmpty))
  {
    if xs == [] {
      assert Grows(s, s);
    } else {
      hide Valid, FlatOf, FlatApply, ApplyOne, Grows;
      var m := ApplyAll(env, s, xs[..|xs| - 1], deleteEmpty);
      ApplyRefinesFlatMap(env, s, xs[..|xs| - 1], deleteEmpty);
      ApplyOneRefines(env, m, xs[|xs| - 1], deleteEmpty);
      GrowsTrans(s, m, ApplyAll(env, s, xs, deleteEmpty));
    }
  }

  lemma GrowsTrans(s: BackendState, t: BackendState, u: BackendState)
    requires Grows(s, t) && Grows(t, u)
    ensures Grows(s, u)
  {
  }

  /** A batch as the executor hands it over. */
  datatype Batch = Batch(values: seq<Apply>, logs: seq<nat>, deleteEmpty: bool)

  function ApplyBatches(env: TrieEnv, s: BackendState, bs: seq<Batch>): BackendState {
    if bs == [] then s
    else
      var b := bs[|bs| - 1];
      ApplyBatch(env, ApplyBatches(env, s, bs[..|bs| - 1]), b.values, b.logs, b.deleteEmpty)
  }

  function FlatBatches(f: Flat, bs: seq<Batch>): Flat {
    if bs == [] then f else FlatApplyAll(FlatBatches(f, bs[..|bs| - 1]), bs[|bs| - 1].values)
  }

  lemma LogsDoNotMatter(env: TrieEnv, s: BackendState, logs: seq<nat>)
    ensures FlatOf(env, s.(logs := logs)) == FlatOf(env, s) && (Valid(env, s) ==> Valid(env, s.(logs := logs)))
  {
    var t := s.(logs := logs);
    forall a | a in s.trie
      ensures FlatOf(env, t)[a] == FlatOf(env, s)[a]
    {
    }
    if Valid(env, s) {
      forall r | r in t.states
        ensures AccountsStored(env, t, t.states[r])
      {
        assert AccountsStored(env, s, s.states[r]);
      }
    }
  }

  /** For every sequence of batches, what is read afterwards is what the flat map says. */
  lemma {:induction false} BatchesRefineFlatMap(env: TrieEnv, s: BackendState, bs: seq<Batch>)
    requires EnvOk(env) && Valid(env, s)
    ensures Valid(env, ApplyBatches(env, s, bs))
    ensures FlatOf(env, ApplyBatches(env, s, bs)) == FlatBatches(FlatOf(env, s), bs)
    ensures Grows(s, ApplyBatches(env, s, bs))
  {
    if bs != [] {
      hide Valid, FlatOf, ApplyAll, FlatApplyAll;
      var b, m := bs[|bs| - 1], ApplyBatches(env, s, bs[..|bs| - 1]);
      BatchesRefineFlatMap(env, s, bs[..|bs| - 1]);
      ApplyRefinesFlatMap(env, m, b.values, b.deleteEmpty);
      LogsDoNotMatter(env, ApplyAll(env, m, b.values, b.deleteEmpty), b.logs);
    }
  }

  lemma {:induction false} LogsUntouched(env: TrieEnv, s: BackendState, xs: seq<Apply>, deleteEmpty: bool)
    ensures ApplyAll(env, s, xs, deleteEmpty).logs == s.logs
  {
    if xs != [] {
      LogsUntouched(env, s, xs[..|xs| - 1], deleteEmpty);
    }
  }

  /** The logs held are those of the last batch alone: batches replace logs, and nothing else changes them. */
  lemma LastLogs(env: TrieEnv, s: BackendState, bs: seq<Batch>)
    ensures ApplyBatches(env, s, bs).logs == if bs == [] then s.logs else bs[|bs| - 1].logs
    ensures forall xs, deleteEmpty :: ApplyAll(env, s, xs, deleteEmpty).logs == s.logs
  {
    forall xs, deleteEmpty
      ensures ApplyAll(env, s, xs, deleteEmpty).logs == s.logs
    {
      LogsUntouched(env, s, xs, deleteEmpty);
    }
  }

  /** The last write to a slot wins, and slots not written keep their word. */
  lemma {:induction false} LastWriteWins(slots: SlotContents, writes: seq<(Slot, Word)>, i: Slot)
    ensures i in InsertSlots(slots, writes) <==> i in slots || exists k :: 0 <= k < |writes| && writes[k].0 == i
    ensures forall k :: 0 <= k < |writes| && writes[k].0 == i && (forall l :: k < l < |writes| ==> writes[l].0 != i) ==>
              i in InsertSlots(slots, writes) && InsertSlots(slots, writes)[i] == writes[k].1
    ensures i in slots && (forall k :: 0 <= k < |writes| ==> writes[k].0 != i) ==>
              InsertSlots(slots, writes)[i] == slots[i]
  {
    if writes != [] {
      var last := |writes| - 1;
      LastWriteWins(slots, writes[..last], i);
      if writes[last].0 != i && i in InsertSlots(slots, writes[..last]) && i !in slots {
        var k :| 0 <= k < last && writes[..last][k].0 == i;
        assert writes[k].0 == i;
      }
    }
  }

  // ---------------------------------------------------------------- roots

  /** The root names the open trie, and the trie is stored under it. */
  ghost predicate RootCurrent(env: TrieEnv, s: BackendState) {
    s.root == env.stateRootOf(s.trie) && s.root in s.states && s.states[s.root] == s.trie
  }

  /** A modification always leaves a current root; a deletion leaves one exactly when there was nothing to
      delete. */
  lemma RootAfterApply(env: TrieEnv, s: BackendState, x: Apply, deleteEmpty: bool)
    requires EnvOk(env) && Valid(env, s)
    ensures x.Modify? ==> RootCurrent(env, ApplyOne(env, s, x, deleteEmpty))
    ensures x.Delete? && RootCurrent(env, s) ==>
              (RootCurrent(env, ApplyOne(env, s, x, deleteEmpty)) <==> x.address !in s.trie)
  {
    if x.Delete? && x.address !in s.trie {
      assert s.trie - {x.address} == s.trie;
    }
  }

  /** `from_root`: a new backend over the same database. */
  function Reopen(s: BackendState, root: Hash): BackendState
    requires root in s.states
  {
    s.(trie := s.states[root], root := root)
  }

  /** A root that was current once opens to the same accounts after any later batches. */
  lemma RootsArePersistent(env: TrieEnv, s: BackendState, bs: seq<Batch>)
    requires EnvOk(env) && Valid(env, s) && RootCurrent(env, s)
    ensures s.root in ApplyBatches(env, s, bs).states
    ensures FlatOf(env, Reopen(ApplyBatches(env, s, bs), s.root)) == FlatOf(env, s)
  {
    BatchesRefineFlatMap(env, s, bs);
    hide ApplyBatches;
    var t := ApplyBatches(env, s, bs);
    var u := Reopen(t, s.root);
    assert u.trie == s.trie;
    forall a | a in s.trie
      ensures FlatOf(env, u)[a] == FlatOf(env, s)[a]
    {
      assert AccountStored(env, s, s.trie[a]);
      GrowsKeepsReads(env, s, u, s.trie[a]);
    }
  }

  // ---------------------------------------------------------------- the object

  class AxonExecutorAdapter {
    const env: TrieEnv
    var trie: Accounts
    var root: Hash
    var storages: map<Hash, SlotContents>
    var states: map<Hash, Accounts>
    var codes: map<Hash, Bytes>
    var logs: seq<nat>

    constructor FromRoot(env: TrieEnv, db: BackendState, root: Hash)
      requires root in db.states
      ensures this.env == env && State() == Reopen(db, root)
    {
      this.env := env;
      trie, this.root := db.states[root], root;
      storages, states, codes, logs := db.storages, db.states, db.codes, db.logs;
    }

    ghost function State(): BackendState
      reads this
    {
      BackendState(trie, root, storages, states, codes, logs)
    }

    /** `get_logs` drains. */
    method GetLogs() returns (r: seq<nat>)
      modifies this`logs
      ensures r == old(logs) && logs == []
    {
      r, logs := logs, [];
    }

    method ApplyAccount(address: Address, basic: Basic, code: Option<Bytes>, storage: seq<(Slot, Word)>,
        resetStorage: bool)
      returns (isEmpty: bool)
      modifies this`trie, this`root, this`storages, this`states, this`codes
      ensures (State(), isEmpty) == ModifyNext(env, old(State()), Modify(address, basic, code, storage, resetStorage))
    {
      var before := if address in trie then trie[address] else Account(0, 0, env.rlpNull, env.nilData);
      var storageRoot := if resetStorage then env.rlpNull else before.storageRoot;
      var slots: SlotContents :=
        if storageRoot == env.rlpNull then map[]
        else if before.storageRoot in storages then storages[before.storageRoot] else map[];
      ghost var base := slots;
      for i := 0 to |storage|
        invariant slots == InsertSlots(base, storage[..i])
      {
        assert storage[..i + 1][..i] == storage[..i];
        slots := slots[storage[i].0 := storage[i].1];
      }
      assert storage[..|storage|] == storage;
      var newRoot := env.storageRootOf(slots);
      storages := storages[newRoot := slots];
      var account := Account(basic.nonce, basic.balance, newRoot, before.codeHash);
      if code.Some? {
        var digest := env.codeDigest(code.value);
        if digest != before.codeHash {
          codes := codes[digest := code.value];
          account := account.(codeHash := digest);
        }
      }
      trie := trie[address := account];
      root := env.stateRootOf(trie);
      states := states[root := trie];
      isEmpty := account.balance == 0 && account.nonce == 0 && account.codeHash == ZERO_HASH;
    }

    method ApplyValues(values: seq<Apply>, newLogs: seq<nat>, deleteEmpty: bool)
      modifies this
      ensures State() == ApplyBatch(env, old(State()), values, newLogs, deleteEmpty)
      ensures logs == newLogs
    {
      for i := 0 to |values|
        invariant State() == ApplyAll(env, old(State()), values[..i], deleteEmpty)
      {
        assert values[..i + 1][..i] == values[..i];
        match values[i] {
          case Modify(address, basic, code, storage, resetStorage) =>
            var isEmpty := ApplyAccount(address, basic, code, storage, resetStorage);
            if isEmpty && deleteEmpty {
              trie := trie - {address};
              root := env.stateRootOf(trie);
              states := states[root := trie];
            }
          case Delete(address) =>
            trie := trie - {address};
        }
      }
      assert values[..|values|] == values;
      logs := newLogs;
    }
  }
}
