/** Chain storage as plain maps, and the individual writes that saving a block consists of. */
module ChainStore {
  import opened ChainTypes

  datatype Store = Store(
    blocks: map<nat, Block>,
    headers: map<nat, Header>,
    blockNumbers: map<Hash, nat>,
    txs: map<(nat, Hash), SignedTx>,
    txNumbers: map<Hash, nat>,
    receipts: map<(nat, Hash), Receipt>,
    latestBlock: Option<Block>,
    latestProof: Option<Proof>)

  /** One atomic write to the database. */
  datatype Write =
    | PutTxs(number: nat, txs: seq<SignedTx>)
    | PutReceipts(number: nat, receipts: seq<Receipt>)
    | PutTxNumbers(number: nat, hashes: seq<Hash>)
    | PutProof(proof: Proof)
    | PutBlock(block: Block)
    | PutHeader(header: Header)
    | PutBlockNumber(hash: Hash, number: nat)
    | PutLatest(block: Block)

  function InsertTxs(m: map<(nat, Hash), SignedTx>, n: nat, txs: seq<SignedTx>): map<(nat, Hash), SignedTx> {
    if txs == [] then m
    else
      var last := txs[|txs| - 1];
      InsertTxs(m, n, txs[..|txs| - 1])[(n, last.hash) := last]
  }

  function InsertReceipts(m: map<(nat, Hash), Receipt>, n: nat, rs: seq<Receipt>): map<(nat, Hash), Receipt> {
    if rs == [] then m
    else
      var last := rs[|rs| - 1];
      InsertReceipts(m, n, rs[..|rs| - 1])[(n, last.txHash) := last]
  }

  function InsertNumbers(m: map<Hash, nat>, n: nat, hashes: seq<Hash>): map<Hash, nat> {
    if hashes == [] then m
    else InsertNumbers(m, n, hashes[..|hashes| - 1])[hashes[|hashes| - 1] := n]
  }

  function Apply(s: Store, w: Write): Store {
    match w
    case PutTxs(n, txs) => s.(txs := InsertTxs(s.txs, n, txs))
    case PutReceipts(n, rs) => s.(receipts := InsertReceipts(s.receipts, n, rs))
    case PutTxNumbers(n, hashes) => s.(txNumbers := InsertNumbers(s.txNumbers, n, hashes))
    case PutProof(p) => s.(latestProof := Some(p))
    case PutBlock(b) => s.(blocks := s.blocks[b.header.number := b])
    case PutHeader(h) => s.(headers := s.headers[h.number := h])
    case PutBlockNumber(hash, n) => s.(blockNumbers := s.blockNumbers[hash := n])
    case PutLatest(b) => s.(latestBlock := Some(b))
  }

  function Replay(s: Store, ws: seq<Write>): Store {
    if ws == [] then s else Apply(Replay(s, ws[..|ws| - 1]), ws[|ws| - 1])
  }

  function ReceiptHashes(rs: seq<Receipt>): seq<Hash> {
    seq(|rs|, i requires 0 <= i < |rs| => rs[i].txHash)
  }

  /** `insert_transactions` and `insert_receipts`. */
  function BodyWrites(n: nat, txs: seq<SignedTx>, rs: seq<Receipt>): seq<Write> {
    [PutTxs(n, txs), PutTxNumbers(n, TxHashes(txs)), PutReceipts(n, rs), PutTxNumbers(n, ReceiptHashes(rs))]
  }

  /** `insert_block`: the block, its header, its hash, then the latest-block record. */
  function BlockWrites(env: Env, b: Block): seq<Write> {
    [PutBlock(b), PutHeader(b.header), PutBlockNumber(env.headerHash(b.header), b.header.number), PutLatest(b)]
  }

  /** The store after the first `budget` writes, and whether that was all of them. */
  function WriteAll(s: Store, ws: seq<Write>, budget: nat): (r: (Store, bool)) {
    if |ws| <= budget then (Replay(s, ws), true) else (Replay(s, ws[..budget]), false)
  }

  function BlockAt(s: Store, n: int): Option<Block> {
    if n >= 0 && n in s.blocks then Some(s.blocks[n]) else None
  }

  /** `get_block_header`: the header column first, then the block itself. */
  function HeaderAt(s: Store, n: int): Option<Header> {
    if n >= 0 && n in s.headers then Some(s.headers[n])
    else if n >= 0 && n in s.blocks then Some(s.blocks[n].header)
    else None
  }

  /** The writes of one block stay at its own height. */
  predicate AtHeight(w: Write, n: nat) {
    match w
    case PutTxs(m, _) => m == n
    case PutReceipts(m, _) => m == n
    case PutBlock(b) => b.header.number == n
    case PutHeader(h) => h.number == n
    case _ => true
  }

  /** The blocks, headers, transactions and receipts below height n are the same in both stores. */
  ghost predicate SameBelow(s: Store, t: Store, n: nat) {
    && (forall i :: 0 <= i < n ==> BlockAt(s, i) == BlockAt(t, i) && HeaderAt(s, i) == HeaderAt(t, i))
    && (forall i, h :: 0 <= i < n ==> ((i, h) in s.txs <==> (i, h) in t.txs))
    && (forall i, h :: 0 <= i < n && (i, h) in s.txs ==> (i, h) in t.txs && s.txs[(i, h)] == t.txs[(i, h)])
    && (forall i, h :: 0 <= i < n ==> ((i, h) in s.receipts <==> (i, h) in t.receipts))
    && (forall i, h :: 0 <= i < n && (i, h) in s.receipts ==>
          (i, h) in t.receipts && s.receipts[(i, h)] == t.receipts[(i, h)])
  }

  lemma {:induction false} InsertTxsFrame(m: map<(nat, Hash), SignedTx>, n: nat, txs: seq<SignedTx>, k: (nat, Hash))
    requires k.0 != n
    ensures k in InsertTxs(m, n, txs) <==> k in m
    ensures k in m ==> InsertTxs(m, n, txs)[k] == m[k]
  {
    if txs != [] {
      InsertTxsFrame(m, n, txs[..|txs| - 1], k);
    }
  }

  lemma {:induction false} InsertReceiptsFrame(m: map<(nat, Hash), Receipt>, n: nat, rs: seq<Receipt>, k: (nat, Hash))
    requires k.0 != n
    ensures k in InsertReceipts(m, n, rs) <==> k in m
    ensures k in m ==> InsertReceipts(m, n, rs)[k] == m[k]
  {
    if rs != [] {
      InsertReceiptsFrame(m, n, rs[..|rs| - 1], k);
    }
  }

  lemma ApplyFrame(s: Store, w: Write, n: nat)
    requires AtHeight(w, n)
    ensures SameBelow(s, Apply(s, w), n)
  {
    match w
    case PutTxs(m, txs) =>
      forall k: (nat, Hash) | k.0 < n
        ensures k in InsertTxs(s.txs, m, txs) <==> k in s.txs
        ensures k in s.txs ==> InsertTxs(s.txs, m, txs)[k] == s.txs[k]
      {
        InsertTxsFrame(s.txs, m, txs, k);
      }
    case PutReceipts(m, rs) =>
      forall k: (nat, Hash) | k.0 < n
        ensures k in InsertReceipts(s.receipts, m, rs) <==> k in s.receipts
        ensures k in s.receipts ==> InsertReceipts(s.receipts, m, rs)[k] == s.receipts[k]
      {
        InsertReceiptsFrame(s.receipts, m, rs, k);
      }
    case _ =>
  }

  /** Any prefix of a block's writes leaves everything below that block alone. */
  lemma {:induction false} ReplayFrame(s: Store, ws: seq<Write>, n: nat)
    requires forall w :: w in ws ==> AtHeight(w, n)
    ensures SameBelow(s, Replay(s, ws), n)
  {
    if ws != [] {
      var front := ws[..|ws| - 1];
      assert forall w :: w in front ==> w in ws;
      ReplayFrame(s, front, n);
      ApplyFrame(Replay(s, front), ws[|ws| - 1], n);
    }
  }

  lemma WriteAllFrame(s: Store, ws: seq<Write>, budget: nat, n: nat)
    requires forall w :: w in ws ==> AtHeight(w, n)
    ensures SameBelow(s, WriteAll(s, ws, budget).0, n)
  {
    if |ws| <= budget {
      ReplayFrame(s, ws, n);
    } else {
      assert forall w :: w in ws[..budget] ==> w in ws;
      ReplayFrame(s, ws[..budget], n);
    }
  }

  /** Replay in the order of the writes, one at a time. */
  lemma ReplayStep(s: Store, ws: seq<Write>, w: Write)
    ensures Replay(s, ws + [w]) == Apply(Replay(s, ws), w)
  {
    assert (ws + [w])[..|ws|] == ws;
  }

  lemma {:induction false} ReplayConcat(s: Store, a: seq<Write>, b: seq<Write>)
    ensures Replay(s, a + b) == Replay(Replay(s, a), b)
  {
    if b == [] {
      assert a + b == a;
    } else {
      assert a + b == a + b[..|b| - 1] + [b[|b| - 1]];
      ReplayStep(s, a + b[..|b| - 1], b[|b| - 1]);
      ReplayConcat(s, a, b[..|b| - 1]);
    }
  }

  /** What the four block writes leave behind. */
  lemma ReplayBlock(env: Env, s: Store, b: Block)
    ensures Replay(s, BlockWrites(env, b)) ==
            s.(blocks := s.blocks[b.header.number := b],
               headers := s.headers[b.header.number := b.header],
               blockNumbers := s.blockNumbers[env.headerHash(b.header) := b.header.number],
               latestBlock := Some(b))
  {
    var ws := BlockWrites(env, b);
    assert ws == [] + [ws[0]] + [ws[1]] + [ws[2]] + [ws[3]];
    ReplayStep(s, [], ws[0]);
    ReplayStep(s, [] + [ws[0]], ws[1]);
    ReplayStep(s, [] + [ws[0]] + [ws[1]], ws[2]);
    ReplayStep(s, [] + [ws[0]] + [ws[1]] + [ws[2]], ws[3]);
  }

  lemma ReplayBody(s: Store, n: nat, txs: seq<SignedTx>, rs: seq<Receipt>)
    ensures Replay(s, BodyWrites(n, txs, rs)) ==
            s.(txs := InsertTxs(s.txs, n, txs),
               txNumbers := InsertNumbers(InsertNumbers(s.txNumbers, n, TxHashes(txs)), n, ReceiptHashes(rs)),
               receipts := InsertReceipts(s.receipts, n, rs))
  {
    var ws := BodyWrites(n, txs, rs);
    assert ws == [] + [ws[0]] + [ws[1]] + [ws[2]] + [ws[3]];
    ReplayStep(s, [], ws[0]);
    ReplayStep(s, [] + [ws[0]], ws[1]);
    ReplayStep(s, [] + [ws[0]] + [ws[1]], ws[2]);
    ReplayStep(s, [] + [ws[0]] + [ws[1]] + [ws[2]], ws[3]);
  }
}
