/** The records that consensus and synchronization exchange and store, and the outside world they call. */
module ChainTypes {

  type Hash = nat
  type Address = nat
  type Bytes = seq<nat>

  datatype Option<+T> = None | Some(value: T)

  datatype ConsensusError =
    | LockInSync
    | OutdatedCommit
    | InvalidProof
    | InvalidTimestamp
    | InvalidOrderSignedTransactionsHash
    | InvalidOrderRoot
    | InvalidStateRoot
    | InvalidReceiptsRoot
    | StorageItemNotFound
    | PreviousBlockHash
    | HeightMismatch
    | HashMismatch
    | ConfusedMetadata
    | BitMap
    | UnknownValidator
    | Weight
    | Signature
    | VerifyTransaction
    | FullTxsUnavailable
    | ExecFailed
    | MetadataFailed
    | WalFailed
    | StoreFailed
    | MempoolFailed
    | NetworkFailed
    | RemoteFailed

  datatype Result<+T> = Ok(value: T) | Err(error: ConsensusError)
  {
    predicate IsFailure() { Err? }

    function PropagateFailure<U>(): Result<U>
      requires Err?
    {
      Err(error)
    }

    function Extract(): T
      requires Ok?
    {
      value
    }
  }

  datatype Proof = Proof(number: nat, round: nat, blockHash: Hash, signature: Bytes, bitmap: Bytes)

  datatype Proposal = Proposal(
    prevHash: Hash, proposer: Address, transactionsRoot: Hash, signedTxsHash: Hash, timestamp: nat,
    number: nat, gasLimit: nat, extraData: Bytes, mixedHash: Option<Hash>, baseFeePerGas: nat,
    proof: Proof, lastCheckpointBlockHash: Hash, chainId: nat, txHashes: seq<Hash>)

  datatype Header = Header(
    prevHash: Hash, proposer: Address, stateRoot: Hash, transactionsRoot: Hash, signedTxsHash: Hash,
    receiptsRoot: Hash, logBloom: nat, difficulty: nat, timestamp: nat, number: nat, gasUsed: nat,
    gasLimit: nat, extraData: Bytes, mixedHash: Option<Hash>, nonce: nat, baseFeePerGas: nat,
    proof: Proof, lastCheckpointBlockHash: Hash, chainId: nat)

  datatype Block = Block(header: Header, txHashes: seq<Hash>)

  datatype SignedTx = SignedTx(hash: Hash, sender: Address, body: Bytes)

  datatype TxResp = TxResp(exitReason: nat, ret: Bytes, gasUsed: nat, logs: seq<nat>, codeAddress: Option<Hash>)

  datatype ExecResp = ExecResp(stateRoot: Hash, receiptRoot: Hash, gasUsed: nat, txResp: seq<TxResp>)

  datatype Receipt = Receipt(
    txHash: Hash, blockNumber: nat, blockHash: Hash, txIndex: nat, stateRoot: Hash, usedGas: nat,
    logsBloom: nat, logs: seq<nat>, codeAddress: Option<Hash>, sender: Address, ret: nat)

  datatype Validator = Validator(pubKey: Address, blsPubKey: Bytes, proposeWeight: nat, voteWeight: nat)

  datatype Metadata = Metadata(
    start: nat, end: nat, verifierList: seq<Validator>, txNumLimit: nat, gasLimit: nat, maxTxSize: nat,
    lastCheckpointBlockHash: Hash)

  datatype CurrentStatus = CurrentStatus(
    prevHash: Hash, lastNumber: nat, lastStateRoot: Hash, txNumLimit: nat, gasLimit: nat,
    maxTxSize: nat, baseFeePerGas: nat, proof: Proof, lastCheckpointBlockHash: Hash)

  datatype Vote = Vote(height: nat, round: nat, blockHash: Hash)

  /** Everything the node calls but does not define: digests, the Merkle root, the executor, the metadata
      contract, Overlord's bitmap decoding and the aggregated signature check. */
  datatype Env = Env(
    headerHash: Header -> Hash,
    proposalHash: Proposal -> Hash,
    digestTxs: seq<SignedTx> -> Hash,
    merkleRoot: seq<Hash> -> Hash,
    logsBloom: seq<nat> -> nat,
    exec: (Hash, Proposal, seq<SignedTx>) -> Option<ExecResp>,
    metadata: nat -> Metadata,
    extractVoters: (seq<Validator>, Bytes) -> Option<seq<Address>>,
    signatureOk: (Vote, Bytes, seq<Bytes>) -> bool)

  /** No two proposals share a digest. */
  ghost predicate ProposalHashInjective(env: Env) {
    forall p, q :: env.proposalHash(p) == env.proposalHash(q) ==> p == q
  }

  /** Nor do two headers, two proposals or two transaction lists. */
  ghost predicate DigestsInjective(env: Env) {
    && ProposalHashInjective(env)
    && (forall h, k :: env.headerHash(h) == env.headerHash(k) ==> h == k)
    && (forall a, b :: env.digestTxs(a) == env.digestTxs(b) ==> a == b)
  }

  function NewBlock(env: Env, p: Proposal, r: ExecResp): Block {
    var blooms := seq<nat>(|r.txResp|, i requires 0 <= i < |r.txResp| => env.logsBloom(r.txResp[i].logs));
    Block(
      Header(p.prevHash, p.proposer, r.stateRoot, p.transactionsRoot, p.signedTxsHash, r.receiptRoot,
             env.logsBloom(blooms), 1, p.timestamp, p.number, r.gasUsed, p.gasLimit, p.extraData,
             p.mixedHash, 0, p.baseFeePerGas, p.proof, p.lastCheckpointBlockHash, p.chainId),
      p.txHashes)
  }

  function ProposalOf(b: Block): Proposal {
    var h := b.header;
    Proposal(h.prevHash, h.proposer, h.transactionsRoot, h.signedTxsHash, h.timestamp, h.number,
             h.gasLimit, h.extraData, h.mixedHash, h.baseFeePerGas, h.proof,
             h.lastCheckpointBlockHash, h.chainId, b.txHashes)
  }

  /** Turning an executed proposal into a block loses nothing of it. */
  lemma ProposalRoundTrip(env: Env, p: Proposal, r: ExecResp)
    ensures ProposalOf(NewBlock(env, p, r)) == p && NewBlock(env, p, r).header.number == p.number
  {
  }

  function TxHashes(txs: seq<SignedTx>): seq<Hash> {
    seq(|txs|, i requires 0 <= i < |txs| => txs[i].hash)
  }

  /** `generate_receipts_and_logs`: one receipt per transaction that has a response. */
  function Receipts(env: Env, block: Block, txs: seq<SignedTx>, resp: ExecResp): seq<Receipt> {
    var n := if |txs| < |resp.txResp| then |txs| else |resp.txResp|;
    seq(n, i requires 0 <= i < n =>
      var res := resp.txResp[i];
      Receipt(txs[i].hash, block.header.number, env.headerHash(block.header), i, block.header.stateRoot,
              res.gasUsed, env.logsBloom(res.logs), res.logs, res.codeAddress, txs[i].sender,
              res.exitReason))
  }

  ghost predicate NoDup<T>(s: seq<T>) {
    forall i, j :: 0 <= i < j < |s| ==> s[i] != s[j]
  }

  lemma NoDupConcat<T>(a: seq<T>, b: seq<T>)
    requires NoDup(a) && NoDup(b) && forall x :: x in a ==> x !in b
    ensures NoDup(a + b)
  {
    forall i, j | 0 <= i < j < |a + b|
      ensures (a + b)[i] != (a + b)[j]
    {
      if i < |a| <= j {
        assert a[i] in a && b[j - |a|] in b;
      }
    }
  }

  ghost function Elements<T>(s: seq<T>): set<T> {
    set x | x in s
  }

  lemma {:induction false} NoDupSize<T>(s: seq<T>)
    requires NoDup(s)
    ensures |Elements(s)| == |s|
  {
    if s != [] {
      var last := |s| - 1;
      NoDupSize(s[..last]);
      assert Elements(s) == Elements(s[..last]) + {s[last]};
    }
  }
}
