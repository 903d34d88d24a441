/** System transactions: minting and burning the native token, run by `exec` over the account backend. */
module NativeToken {
  import opened ChainTypes
  import opened ByteStrings
  import opened Backend
  import opened Sums

  const U256_MAX: nat := 0xFFFFFFFF_FFFFFFFF_FFFFFFFF_FFFFFFFF_FFFFFFFF_FFFFFFFF_FFFFFFFF_FFFFFFFF
  const U64_MAX: nat := 0xFFFFFFFF_FFFFFFFF

  datatype SystemTx = SystemTx(gasPrice: nat, gasLimit: nat, value: nat, data: ByteString)

  datatype Resp = Resp(succeed: bool, ret: Option<nat>, gasUsed: nat, remainGas: nat, logs: seq<nat>)

  /** The state after a transaction and its response; `None` where the source panics: U256 overflow, a gas
      limit of zero on a refusal, or a gas limit above 64 bits. */
  type Outcome = Option<(BackendState, Resp)>

  function RevertResp(gasLimit: nat): Option<Resp> {
    if gasLimit == 0 || gasLimit - 1 > U64_MAX then None else Some(Resp(false, None, 1, gasLimit - 1, []))
  }

  predicate WellFormed(tx: SystemTx) {
    |tx.data| >= 21 && tx.data[0] <= 1
  }

  predicate IsMint(tx: SystemTx)
    requires WellFormed(tx)
  {
    tx.data[0] == 0
  }

  function Target(tx: SystemTx): Address
    requires WellFormed(tx)
  {
    FromBytes(tx.data[1..21])
  }

  /** The data of a call: the direction, the address in twenty bytes, anything else. */
  lemma EncodedCall(tx: SystemTx, kind: Byte, a: Address, rest: ByteString)
    requires tx.data == [kind] + ToBytes(a, 20) + rest && a < Pow256(20)
    ensures WellFormed(tx) <==> kind <= 1
    ensures kind <= 1 ==> Target(tx) == a && (IsMint(tx) <==> kind == 0)
  {
    FromToBytes(a, 20);
    assert tx.data[1..21] == ToBytes(a, 20);
  }

  /** Whether the transaction is carried out on this state. */
  predicate Accepted(s: BackendState, tx: SystemTx) {
    WellFormed(tx) && (IsMint(tx) || BasicOf(s, Target(tx)).balance >= tx.value)
  }

  function CallNativeToken(env: TrieEnv, s: BackendState, tx: SystemTx): Outcome {
    if !WellFormed(tx) then
      match RevertResp(tx.gasLimit)
      case None => None
      case Some(r) => Some((s, r))
    else
      var account := BasicOf(s, Target(tx));
      if !IsMint(tx) && account.balance < tx.value then
        match RevertResp(tx.gasLimit)
        case None => None
        case Some(r) => Some((s, r))
      else
        var balance := if IsMint(tx) then account.balance + tx.value else account.balance - tx.value;
        if balance > U256_MAX || account.nonce + 1 > U256_MAX || tx.gasLimit > U64_MAX then None
        else
          var x := Modify(Target(tx), Basic(account.nonce + 1, balance), None, [], false);
          var t := ApplyBatch(env, s, [x], [], false);
          Some((t, Resp(true, Some(balance), 0, tx.gasLimit, [])))
  }

  datatype ExecResult = ExecResult(state: BackendState, resps: seq<Resp>, gas: nat)

  /** `exec` on system transactions: each response takes the logs the backend holds at that moment. */
  function Exec(env: TrieEnv, s: BackendState, txs: seq<SystemTx>): Option<ExecResult> {
    if txs == [] then Some(ExecResult(s, [], 0))
    else
      match Exec(env, s, txs[..|txs| - 1])
      case None => None
      case Some(m) =>
        match CallNativeToken(env, m.state, txs[|txs| - 1])
        case None => None
        case Some((t, r)) =>
          Some(ExecResult(t.(logs := []), m.resps + [r.(logs := t.logs)], m.gas + r.gasUsed))
  }

  lemma {:induction false} ExecPanics(env: TrieEnv, s: BackendState, txs: seq<SystemTx>, i: nat)
    requires i <= |txs| && Exec(env, s, txs[..i]).None?
    ensures Exec(env, s, txs).None?
    decreases |txs|
  {
    if i < |txs| {
      assert txs[..|txs| - 1][..i] == txs[..i];
      ExecPanics(env, s, txs[..|txs| - 1], i);
    } else {
      assert txs[..i] == txs;
    }
  }

  // ---------------------------------------------------------------- conservation

  ghost function Balances(f: Flat): map<Address, nat> {
    map a | a in f :: f[a].balance
  }

  ghost function Supply(f: Flat): nat {
    SumOver(Balances(f), f.Keys)
  }

  ghost function Minted(txs: seq<SystemTx>, resps: seq<Resp>): nat
    requires |txs| == |resps|
  {
    if txs == [] then 0
    else
      var tx, r := txs[|txs| - 1], resps[|txs| - 1];
      Minted(txs[..|txs| - 1], resps[..|txs| - 1]) +
      (if r.succeed && WellFormed(tx) && IsMint(tx) then tx.value else 0)
  }

  ghost function Burned(txs: seq<SystemTx>, resps: seq<Resp>): nat
    requires |txs| == |resps|
  {
    if txs == [] then 0
    else
      var tx, r := txs[|txs| - 1], resps[|txs| - 1];
      Burned(txs[..|txs| - 1], resps[..|txs| - 1]) +
      (if r.succeed && WellFormed(tx) && !IsMint(tx) then tx.value else 0)
  }

  ghost function GasOf(resps: seq<Resp>): nat {
    if resps == [] then 0 else GasOf(resps[..|resps| - 1]) + resps[|resps| - 1].gasUsed
  }

  function Refusals(resps: seq<Resp>): nat {
    if resps == [] then 0 else Refusals(resps[..|resps| - 1]) + (if resps[|resps| - 1].succeed then 0 else 1)
  }

  /** Writing one account moves the supply by the change of that account's balance. */
  lemma SupplyAfterWrite(f: Flat, a: Address, x: FlatAccount)
    ensures Supply(f[a := x]) + Before(f, a).balance == Supply(f) + x.balance
  {
    var g := f[a := x];
    var rest := f.Keys - {a};
    assert g.Keys == rest + {a};
    SumRemove(Balances(g), g.Keys, a);
    assert g.Keys - {a} == rest;
    if a in f {
      SumRemove(Balances(f), f.Keys, a);
    } else {
      assert rest == f.Keys;
    }
    SumAgree(Balances(f), Balances(g), rest);
  }

  function Before(f: Flat, a: Address): FlatAccount {
    if a in f then f[a] else FlatAccount(0, 0, [], map[])
  }

  /** Whether the transaction is carried out on these accounts. */
  predicate Carried(f: Flat, tx: SystemTx) {
    WellFormed(tx) && (IsMint(tx) || Before(f, Target(tx)).balance >= tx.value)
  }

  /** The target's account after a transaction that is carried out: balance and nonce move, code and storage
      stay. */
  function After(f: Flat, tx: SystemTx): FlatAccount
    requires Carried(f, tx)
  {
    var before := Before(f, Target(tx));
    before.(nonce := before.nonce + 1,
            balance := if IsMint(tx) then before.balance + tx.value else before.balance - tx.value)
  }

  function Written(s: BackendState, tx: SystemTx): Apply
    requires Accepted(s, tx)
  {
    var account := BasicOf(s, Target(tx));
    Modify(Target(tx),
           Basic(account.nonce + 1, if IsMint(tx) then account.balance + tx.value else account.balance - tx.value),
           None, [], false)
  }

  lemma CallRefuses(env: TrieEnv, s: BackendState, tx: SystemTx)
    requires CallNativeToken(env, s, tx).Some? && !Accepted(s, tx)
    ensures
      var (t, r) := CallNativeToken(env, s, tx).value;
      t == s && r == Resp(false, None, 1, tx.gasLimit - 1, [])
  {
  }

  lemma CallCarriesOut(env: TrieEnv, s: BackendState, tx: SystemTx)
    requires CallNativeToken(env, s, tx).Some? && Accepted(s, tx)
    ensures
      var (t, r) := CallNativeToken(env, s, tx).value;
      && t == ApplyOne(env, s, Written(s, tx), false).(logs := [])
      && r == Resp(true, Some(Written(s, tx).basic.balance), 0, tx.gasLimit, [])
  {
    hide ApplyOne;
    var xs := [Written(s, tx)];
    assert xs[..0] == [];
    assert ApplyAll(env, s, xs[..0], false) == s;
  }

  lemma WrittenIsAfter(env: TrieEnv, s: BackendState, tx: SystemTx)
    requires Accepted(s, tx)
    ensures Carried(FlatOf(env, s), tx) && Written(s, tx).basic.balance == After(FlatOf(env, s), tx).balance
    ensures FlatApply(FlatOf(env, s), Written(s, tx)) == FlatOf(env, s)[Target(tx) := After(FlatOf(env, s), tx)]
  {
    ReadsAreFlat(env, s, Target(tx), 0);
    hide FlatOf, BasicOf;
  }

  /** What a single system transaction does to the flat accounts, and what it answers. */
  ghost predicate CallOk(env: TrieEnv, s: BackendState, tx: SystemTx, t: BackendState, r: Resp) {
    && Valid(env, t) && r.succeed == Carried(FlatOf(env, s), tx)
    && (!r.succeed ==> t == s && r.gasUsed == 1 && r.ret == None && r.remainGas + 1 == tx.gasLimit)
    && (r.succeed ==>
          && t.logs == [] && FlatOf(env, t) == FlatOf(env, s)[Target(tx) := After(FlatOf(env, s), tx)]
          && r.gasUsed == 0 && r.ret == Some(After(FlatOf(env, s), tx).balance) && r.remainGas == tx.gasLimit)
  }

  lemma AcceptedIsCarried(env: TrieEnv, s: BackendState, tx: SystemTx)
    ensures Accepted(s, tx) <==> Carried(FlatOf(env, s), tx)
  {
    if WellFormed(tx) {
      ReadsAreFlat(env, s, Target(tx), 0);
    }
  }

  /** The call returns, and does not panic, if and only if: carried out, the new balance and nonce are within 256 bits
      and the gas limit within 64; refused, the gas limit less one is. */
  lemma CallReturnsIff(env: TrieEnv, s: BackendState, tx: SystemTx)
    ensures CallNativeToken(env, s, tx).Some? <==>
            if Carried(FlatOf(env, s), tx) then
              var before := Before(FlatOf(env, s), Target(tx));
              && (if tx.data[0] == 0 then before.balance + tx.value else before.balance - tx.value) <= U256_MAX
              && before.nonce < U256_MAX && tx.gasLimit <= U64_MAX
            else 1 <= tx.gasLimit <= U64_MAX + 1
  {
    AcceptedIsCarried(env, s, tx);
    if WellFormed(tx) {
      ReadsAreFlat(env, s, Target(tx), 0);
    }
    hide FlatOf, BasicOf, ApplyBatch;
  }

  lemma CallEffect(env: TrieEnv, s: BackendState, tx: SystemTx)
    requires EnvOk(env) && Valid(env, s) && CallNativeToken(env, s, tx).Some?
    ensures CallOk(env, s, tx, CallNativeToken(env, s, tx).value.0, CallNativeToken(env, s, tx).value.1)
  {
    AcceptedIsCarried(env, s, tx);
    if !Accepted(s, tx) {
      CallReturnsIff(env, s, tx);
    }
    hide Valid, FlatOf, CallNativeToken, ApplyOne;
    if Accepted(s, tx) {
      CallCarriesOut(env, s, tx);
      ApplyOneRefines(env, s, Written(s, tx), false);
      WrittenIsAfter(env, s, tx);
      LogsDoNotMatter(env, ApplyOne(env, s, Written(s, tx), false), []);
    } else {
      CallRefuses(env, s, tx);
    }
  }

  ghost predicate ExecOk(env: TrieEnv, s: BackendState, txs: seq<SystemTx>, e: ExecResult) {
    && Valid(env, e.state) && |e.resps| == |txs|
    && Supply(FlatOf(env, e.state)) + Burned(txs, e.resps) == Supply(FlatOf(env, s)) + Minted(txs, e.resps)
    && e.gas == GasOf(e.resps) == Refusals(e.resps)
    && e.state.logs == (if txs == [] then s.logs else [])
    && (txs != [] ==> e.resps[0].logs == if e.resps[0].succeed then [] else s.logs)
    && forall i :: 0 < i < |txs| ==> e.resps[i].logs == []
  }

  /** The minted and burned values account for the change of one transaction. */
  lemma SupplyStep(env: TrieEnv, s: BackendState, tx: SystemTx, t: BackendState, r: Resp)
    requires CallOk(env, s, tx, t, r)
    ensures Supply(FlatOf(env, t)) + (if r.succeed && WellFormed(tx) && !IsMint(tx) then tx.value else 0) ==
            Supply(FlatOf(env, s)) + (if r.succeed && WellFormed(tx) && IsMint(tx) then tx.value else 0)
  {
    hide FlatOf, Valid, Supply, Accepted;
    if r.succeed {
      SupplyAfterWrite(FlatOf(env, s), Target(tx), After(FlatOf(env, s), tx));
    }
  }

  lemma TotalsStep(txs: seq<SystemTx>, resps: seq<Resp>, tx: SystemTx, r: Resp)
    requires |txs| == |resps|
    ensures Minted(txs + [tx], resps + [r]) ==
            Minted(txs, resps) + (if r.succeed && WellFormed(tx) && IsMint(tx) then tx.value else 0)
    ensures Burned(txs + [tx], resps + [r]) ==
            Burned(txs, resps) + (if r.succeed && WellFormed(tx) && !IsMint(tx) then tx.value else 0)
    ensures GasOf(resps + [r]) == GasOf(resps) + r.gasUsed
    ensures Refusals(resps + [r]) == Refusals(resps) + (if r.succeed then 0 else 1)
  {
    assert (txs + [tx])[..|txs|] == txs && (resps + [r])[..|txs|] == resps;
  }

  lemma ExecStep(env: TrieEnv, s: BackendState, txs: seq<SystemTx>, tx: SystemTx, m: ExecResult)
    requires EnvOk(env) && ExecOk(env, s, txs, m) && CallNativeToken(env, m.state, tx).Some?
    ensures
      var (t, r) := CallNativeToken(env, m.state, tx).value;
      ExecOk(env, s, txs + [tx], ExecResult(t.(logs := []), m.resps + [r.(logs := t.logs)], m.gas + r.gasUsed))
  {
    hide CallNativeToken, FlatOf, Valid, Supply, Minted, Burned, GasOf, Refusals, EnvOk, Accepted;
    var (t, r) := CallNativeToken(env, m.state, tx).value;
    CallEffect(env, m.state, tx);
    SupplyStep(env, m.state, tx, t, r);
    LogsDoNotMatter(env, t, []);
    TotalsStep(txs, m.resps, tx, r.(logs := t.logs));
  }

  lemma ExecNothing(env: TrieEnv, s: BackendState)
    requires Valid(env, s)
    ensures ExecOk(env, s, [], ExecResult(s, [], 0))
  {
    hide Valid, FlatOf, Supply;
  }

  /** For every list of system transactions that does not overflow: the supply changes by exactly the minted
      and burned values, responses correspond to transactions one to one, and the block's gas is the sum of
      theirs, one per refusal. */
  lemma {:induction false} SupplyIsConserved(env: TrieEnv, s: BackendState, txs: seq<SystemTx>)
    requires EnvOk(env) && Valid(env, s) && Exec(env, s, txs).Some?
    ensures ExecOk(env, s, txs, Exec(env, s, txs).value)
  {
    hide ExecOk, CallNativeToken, Valid, EnvOk;
    if txs == [] {
      ExecNothing(env, s);
    } else {
      var front := txs[..|txs| - 1];
      SupplyIsConserved(env, s, front);
      ExecStep(env, s, front, txs[|txs| - 1], Exec(env, s, front).value);
      assert front + [txs[|txs| - 1]] == txs;
    }
  }

  /** Response i says whether transaction i was carried out, judged on the accounts the first i left behind, with the
      balance it left; a refused one leaves the accounts untouched. */
  lemma EachAnswered(env: TrieEnv, s: BackendState, txs: seq<SystemTx>, i: nat)
    requires EnvOk(env) && Valid(env, s) && i < |txs| && Exec(env, s, txs[..i + 1]).Some?
    ensures Exec(env, s, txs[..i]).Some?
    ensures
      var m, e := Exec(env, s, txs[..i]).value, Exec(env, s, txs[..i + 1]).value;
      var f, tx := FlatOf(env, m.state), txs[i];
      && |e.resps| == i + 1 && e.resps[..i] == m.resps
      && e.resps[i].succeed == Carried(f, tx)
      && (if Carried(f, tx) then
            && FlatOf(env, e.state) == f[Target(tx) := After(f, tx)]
            && e.resps[i].ret == Some(After(f, tx).balance) && e.resps[i].remainGas == tx.gasLimit
          else
            && e.state == m.state.(logs := [])
            && e.resps[i].ret == None && e.resps[i].remainGas + 1 == tx.gasLimit)
  {
    assert txs[..i + 1][..i] == txs[..i];
    SupplyIsConserved(env, s, txs[..i]);
    var m := Exec(env, s, txs[..i]).value;
    CallEffect(env, m.state, txs[i]);
    LogsDoNotMatter(env, CallNativeToken(env, m.state, txs[i]).value.0, []);
    hide FlatOf, Valid, CallNativeToken;
  }

  // ---------------------------------------------------------------- blocks that fit

  /** Everything a list of transactions could mint. */
  ghost function MintValues(txs: seq<SystemTx>): nat {
    if txs == [] then 0
    else
      var tx := txs[|txs| - 1];
      MintValues(txs[..|txs| - 1]) + (if WellFormed(tx) && IsMint(tx) then tx.value else 0)
  }

  /** Known before the block is run: what exists and could be minted fits in 256 bits, so do the nonces even if every
      transaction raised the same one, and every gas limit lies between 1 and 2^64 - 1. */
  ghost predicate Fits(f: Flat, txs: seq<SystemTx>) {
    && Supply(f) + MintValues(txs) <= U256_MAX
    && |txs| <= U256_MAX && (forall a :: a in f ==> f[a].nonce + |txs| <= U256_MAX)
    && (forall i :: 0 <= i < |txs| ==> 1 <= txs[i].gasLimit <= U64_MAX)
  }

  lemma BalanceWithinSupply(f: Flat, a: Address)
    ensures Before(f, a).balance <= Supply(f)
  {
    if a in f {
      SumRemove(Balances(f), f.Keys, a);
    }
  }

  lemma {:induction false} MintedWithin(txs: seq<SystemTx>, resps: seq<Resp>)
    requires |txs| == |resps|
    ensures Minted(txs, resps) <= MintValues(txs)
  {
    if txs != [] {
      MintedWithin(txs[..|txs| - 1], resps[..|txs| - 1]);
    }
  }

  /** No nonce went up by more than n. */
  ghost predicate NoncesWithin(f: Flat, g: Flat, n: nat) {
    forall a :: a in g ==> g[a].nonce <= Before(f, a).nonce + n
  }

  lemma FitsFront(f: Flat, txs: seq<SystemTx>)
    requires txs != [] && Fits(f, txs)
    ensures Fits(f, txs[..|txs| - 1])
  {
    hide Supply;
  }

  /** The last transaction of a block that fits returns. */
  lemma LastCallReturns(env: TrieEnv, f: Flat, txs: seq<SystemTx>, m: BackendState)
    requires txs != [] && Fits(f, txs) && NoncesWithin(f, FlatOf(env, m), |txs| - 1)
    requires Supply(FlatOf(env, m)) <= Supply(f) + MintValues(txs[..|txs| - 1])
    ensures CallNativeToken(env, m, txs[|txs| - 1]).Some?
  {
    var tx := txs[|txs| - 1];
    CallReturnsIff(env, m, tx);
    hide FlatOf, Supply, CallNativeToken;
    if WellFormed(tx) {
      BalanceWithinSupply(FlatOf(env, m), Target(tx));
    }
  }

  lemma {:induction false} FittingBlockRuns(env: TrieEnv, s: BackendState, txs: seq<SystemTx>)
    requires EnvOk(env) && Valid(env, s) && Fits(FlatOf(env, s), txs)
    ensures Exec(env, s, txs).Some?
    ensures NoncesWithin(FlatOf(env, s), FlatOf(env, Exec(env, s, txs).value.state), |txs|)
  {
    hide FlatOf, Valid, CallNativeToken, Supply, Fits, EnvOk, Minted, Burned;
    if txs != [] {
      var f, front, tx := FlatOf(env, s), txs[..|txs| - 1], txs[|txs| - 1];
      FitsFront(f, txs);
      FittingBlockRuns(env, s, front);
      SupplyIsConserved(env, s, front);
      var m := Exec(env, s, front).value;
      MintedWithin(front, m.resps);
      LastCallReturns(env, f, txs, m.state);
      CallEffect(env, m.state, tx);
      LogsDoNotMatter(env, CallNativeToken(env, m.state, tx).value.0, []);
    }
  }

  /** A block that fits never panics, and conserves the supply. */
  lemma FittingBlock(env: TrieEnv, s: BackendState, txs: seq<SystemTx>)
    requires EnvOk(env) && Valid(env, s) && Fits(FlatOf(env, s), txs)
    ensures Exec(env, s, txs).Some? && ExecOk(env, s, txs, Exec(env, s, txs).value)
  {
    FittingBlockRuns(env, s, txs);
    SupplyIsConserved(env, s, txs);
  }

  method ExecSystem(env: TrieEnv, s: BackendState, txs: seq<SystemTx>) returns (r: Option<ExecResult>)
    ensures r == Exec(env, s, txs)
    ensures EnvOk(env) && Valid(env, s) && Fits(FlatOf(env, s), txs) ==> r.Some? && ExecOk(env, s, txs, r.value)
  {
    if EnvOk(env) && Valid(env, s) && Fits(FlatOf(env, s), txs) {
      FittingBlock(env, s, txs);
    }
    hide Valid, FlatOf, Fits, ExecOk, CallNativeToken;
    var state := s;
    var resps: seq<Resp> := [];
    var gas: nat := 0;
    for i := 0 to |txs|
      invariant Exec(env, s, txs[..i]) == Some(ExecResult(state, resps, gas))
    {
      assert txs[..i + 1][..i] == txs[..i];
      var called := CallNativeToken(env, state, txs[i]);
      if called.None? {
        ExecPanics(env, s, txs, i + 1);
        return None;
      }
      var (t, resp) := called.value;
      resps := resps + [resp.(logs := t.logs)];
      gas := gas + resp.gasUsed;
      state := t.(logs := []);
    }
    assert txs[..|txs|] == txs;
    return Some(ExecResult(state, resps, gas));
  }
}
