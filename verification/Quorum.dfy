/** The weight test behind a block proof, in the 64-bit arithmetic of `verify_proof_weight`, and what two
    accepted proofs have in common. */
module Quorum {
  import opened ChainTypes
  import opened Sums

  const U64: nat := 0x1_0000_0000_0000_0000
  const U32: nat := 0x1_0000_0000

  /** The address-to-weight map collected from the verifier list; a repeated key keeps its last weight. */
  function WeightMap(vs: seq<Validator>): (m: map<Address, nat>)
    ensures |m| <= |vs|
  {
    if vs == [] then map[] else
      var last := vs[|vs| - 1];
      var rest := WeightMap(vs[..|vs| - 1]);
      var m := rest[last.pubKey := last.voteWeight];
      assert m.Keys == rest.Keys + {last.pubKey};
      m
  }

  /** A verifier's weight is the one it is listed with last. */
  lemma {:induction false} LastWeightCounts(vs: seq<Validator>, k: nat)
    requires k < |vs| && forall l :: k < l < |vs| ==> vs[l].pubKey != vs[k].pubKey
    ensures vs[k].pubKey in WeightMap(vs) && WeightMap(vs)[vs[k].pubKey] == vs[k].voteWeight
    ensures forall a :: a in WeightMap(vs) ==> exists l :: 0 <= l < |vs| && vs[l].pubKey == a
    decreases |vs|
  {
    var last := |vs| - 1;
    if k < last {
      LastWeightCounts(vs[..last], k);
    }
    forall a | a in WeightMap(vs)
      ensures exists l :: 0 <= l < |vs| && vs[l].pubKey == a
    {
      var v := WeightedIsListed(vs, a);
    }
  }

  ghost predicate Known(weights: map<Address, nat>, voters: seq<Address>) {
    forall i :: 0 <= i < |voters| ==> voters[i] in weights
  }

  ghost function SeqWeight(weights: map<Address, nat>, voters: seq<Address>): nat
    requires Known(weights, voters)
  {
    if voters == [] then 0
    else SeqWeight(weights, voters[..|voters| - 1]) + weights[voters[|voters| - 1]]
  }

  ghost function Total(weights: map<Address, nat>): nat {
    SumOver(weights, weights.Keys)
  }

  /** The decision with every addition and product taken modulo 2^64. */
  ghost function WeightCheck(weights: map<Address, nat>, voters: seq<Address>): Result<()> {
    if !Known(weights, voters) then Err(UnknownValidator)
    else if 3 * (SeqWeight(weights, voters) % U64) % U64 <= 2 * (Total(weights) % U64) % U64 then Err(Weight)
    else Ok(())
  }

  lemma ModAdd(a: nat, b: nat)
    ensures (a % U64 + b) % U64 == (a + b) % U64
  {
    var q := a / U64;
    assert a + b == q * U64 + (a % U64 + b);
    var c := a % U64 + b;
    assert c == c / U64 * U64 + c % U64;
    assert (a + b) % U64 == c % U64;
  }

  method VerifyProofWeight(weights: map<Address, nat>, voters: seq<Address>) returns (r: Result<()>)
    ensures r == WeightCheck(weights, voters)
  {
    var total, rest := 0, weights.Keys;
    ghost var done: set<Address> := {};
    while rest != {}
      invariant rest + done == weights.Keys && rest !! done
      invariant total == SumOver(weights, done) % U64
      decreases rest
    {
      var a :| a in rest;
      SumInsert(weights, done, a);
      ModAdd(SumOver(weights, done), weights[a]);
      total := (total + weights[a]) % U64;
      rest, done := rest - {a}, done + {a};
    }
    assert done == weights.Keys;
    var accumulator := 0;
    for i := 0 to |voters|
      invariant Known(weights, voters[..i])
      invariant accumulator == SeqWeight(weights, voters[..i]) % U64
    {
      if voters[i] in weights {
        assert voters[..i + 1][..i] == voters[..i];
        ModAdd(SeqWeight(weights, voters[..i]), weights[voters[i]]);
        accumulator := (accumulator + weights[voters[i]]) % U64;
      } else {
        return Err(UnknownValidator);
      }
    }
    assert voters[..|voters|] == voters;
    if 3 * accumulator % U64 <= 2 * total % U64 {
      return Err(Weight);
    }
    return Ok(());
  }

  ghost function VoterSet(voters: seq<Address>): set<Address> {
    set i | 0 <= i < |voters| :: voters[i]
  }

  ghost predicate SaneWeights(weights: map<Address, nat>) {
    && |weights| <= 0x4000_0000
    && forall a :: a in weights ==> weights[a] < U32
  }

  /** Without repeated voters the accumulated weight is the weight of the set of voters. */
  lemma {:induction false} SeqWeightIsSetWeight(weights: map<Address, nat>, voters: seq<Address>)
    requires Known(weights, voters) && NoDup(voters)
    ensures VoterSet(voters) <= weights.Keys
    ensures SeqWeight(weights, voters) == SumOver(weights, VoterSet(voters))
  {
    if voters != [] {
      var front, last := voters[..|voters| - 1], voters[|voters| - 1];
      SeqWeightIsSetWeight(weights, front);
      assert VoterSet(voters) == VoterSet(front) + {last};
      SumInsert(weights, VoterSet(front), last);
    }
  }

  lemma NoWrap(accumulated: nat, total: nat)
    requires accumulated <= total <= 0xFFFF_FFFF * 0x4000_0000
    ensures accumulated % U64 == accumulated && total % U64 == total
    ensures 3 * accumulated % U64 == 3 * accumulated && 2 * total % U64 == 2 * total
    ensures 3 * total < U64
  {
  }

  /** For up to 2^30 verifiers with 32-bit weights no sum or product wraps, so the 64-bit test is the exact
      two-thirds test. */
  lemma WeightCheckExact(weights: map<Address, nat>, voters: seq<Address>)
    requires SaneWeights(weights) && NoDup(voters)
    ensures WeightCheck(weights, voters).Ok? <==>
              Known(weights, voters) && 3 * SeqWeight(weights, voters) > 2 * Total(weights)
    ensures 3 * Total(weights) < U64
    ensures Known(weights, voters) ==> SeqWeight(weights, voters) <= Total(weights)
  {
    SumBounded(weights, weights.Keys, 0xFFFF_FFFF);
    assert |weights.Keys| == |weights|;
    NoWrap(0, Total(weights));
    if Known(weights, voters) {
      SeqWeightIsSetWeight(weights, voters);
      SumMonotone(weights, VoterSet(voters), weights.Keys);
      NoWrap(SeqWeight(weights, voters), Total(weights));
    }
  }

  /** Two accepted voter lists share voters holding strictly more than a third of the weight. */
  lemma QuorumIntersection(weights: map<Address, nat>, a: seq<Address>, b: seq<Address>)
    requires SaneWeights(weights) && NoDup(a) && NoDup(b)
    requires WeightCheck(weights, a).Ok? && WeightCheck(weights, b).Ok?
    ensures VoterSet(a) * VoterSet(b) <= weights.Keys
    ensures 3 * SumOver(weights, VoterSet(a) * VoterSet(b)) > Total(weights)
  {
    WeightCheckExact(weights, a);
    WeightCheckExact(weights, b);
    SeqWeightIsSetWeight(weights, a);
    SeqWeightIsSetWeight(weights, b);
    SumUnionIntersection(weights, VoterSet(a), VoterSet(b));
    SumMonotone(weights, VoterSet(a) + VoterSet(b), weights.Keys);
  }

  function Voters(env: Env, proof: Proof): Option<seq<Address>> {
    env.extractVoters(env.metadata(proof.number).verifierList, proof.bitmap)
  }

  function VoterKeys(vs: seq<Validator>, voters: seq<Address>): seq<Bytes> {
    if vs == [] then []
    else
      VoterKeys(vs[..|vs| - 1], voters) +
      (if vs[|vs| - 1].pubKey in voters then [vs[|vs| - 1].blsPubKey] else [])
  }

  /** `verify_proof`: block 0 needs no proof. */
  ghost function ProofCheck(env: Env, block: Block, proof: Proof): Result<()> {
    if block.header.number == 0 then Ok(())
    else if block.header.number != proof.number then Err(HeightMismatch)
    else if env.proposalHash(ProposalOf(block)) != proof.blockHash then Err(HashMismatch)
    else
      var metadata := env.metadata(block.header.number);
      if !(metadata.start <= block.header.number < metadata.end) then Err(ConfusedMetadata)
      else match Voters(env, proof)
        case None => Err(BitMap)
        case Some(voters) =>
          var _ :- WeightCheck(WeightMap(metadata.verifierList), voters);
          if env.signatureOk(Vote(proof.number, proof.round, proof.blockHash), proof.signature,
                             VoterKeys(metadata.verifierList, voters))
          then Ok(())
          else Err(Signature)
  }

  // ---------------------------------------------------------------- what acceptance means

  /** `picks` goes up through the list and meets exactly the verifiers among the voters; `keys` are theirs. */
  ghost predicate PicksVoters(vs: seq<Validator>, voters: seq<Address>, keys: seq<Bytes>, picks: seq<nat>) {
    && |picks| == |keys|
    && (forall i, j :: 0 <= i < j < |picks| ==> picks[i] < picks[j])
    && (forall j :: 0 <= j < |picks| ==>
          picks[j] < |vs| && vs[picks[j]].pubKey in voters && keys[j] == vs[picks[j]].blsPubKey)
    && (forall k :: 0 <= k < |vs| && vs[k].pubKey in voters ==> k in picks)
  }

  /** The keys of the verifiers among the voters, in list order. */
  ghost predicate KeysOfVoters(vs: seq<Validator>, voters: seq<Address>, keys: seq<Bytes>) {
    exists picks :: PicksVoters(vs, voters, keys, picks)
  }

  lemma {:induction false} VoterKeysPick(vs: seq<Validator>, voters: seq<Address>) returns (picks: seq<nat>)
    ensures PicksVoters(vs, voters, VoterKeys(vs, voters), picks)
  {
    if vs == [] {
      picks := [];
    } else {
      var last := |vs| - 1;
      var front := VoterKeysPick(vs[..last], voters);
      picks := if vs[last].pubKey in voters then front + [last] else front;
      PicksOneMore(vs, voters, VoterKeys(vs[..last], voters), front);
    }
  }

  lemma PicksOneMore(vs: seq<Validator>, voters: seq<Address>, keys: seq<Bytes>, picks: seq<nat>)
    requires |vs| > 0 && PicksVoters(vs[..|vs| - 1], voters, keys, picks)
    ensures
      var last := |vs| - 1;
      if vs[last].pubKey in voters then PicksVoters(vs, voters, keys + [vs[last].blsPubKey], picks + [last])
      else PicksVoters(vs, voters, keys, picks)
  {
    var last := |vs| - 1;
    var all := if vs[last].pubKey in voters then picks + [last] else picks;
    forall k | 0 <= k < |vs| && vs[k].pubKey in voters
      ensures k in all
    {
      if k == last {
        assert all[|picks|] == last;
      } else {
        assert vs[..last][k] == vs[k];
        assert k in picks;
      }
    }
  }

  lemma PicksOneLess(vs: seq<Validator>, voters: seq<Address>, keys: seq<Bytes>, picks: seq<nat>)
    requires |vs| > 0 && PicksVoters(vs, voters, keys, picks)
    ensures
      var last, end := |vs| - 1, |picks| - 1;
      if vs[last].pubKey in voters then
        end >= 0 && picks[end] == last && PicksVoters(vs[..last], voters, keys[..end], picks[..end])
      else PicksVoters(vs[..last], voters, keys, picks)
  {
    var last, end := |vs| - 1, |picks| - 1;
    if vs[last].pubKey in voters {
      var j :| 0 <= j < |picks| && picks[j] == last;
      assert picks[end] == last;
      forall k | 0 <= k < last && vs[..last][k].pubKey in voters
        ensures k in picks[..end]
      {
        assert vs[k].pubKey in voters;
        var i :| 0 <= i < |picks| && picks[i] == k;
        assert picks[..end][i] == k;
      }
    }
  }

  /** There is only one such list of keys. */
  lemma {:induction false} PickedKeys(vs: seq<Validator>, voters: seq<Address>, keys: seq<Bytes>, picks: seq<nat>)
    requires PicksVoters(vs, voters, keys, picks)
    ensures keys == VoterKeys(vs, voters)
    decreases |vs|
  {
    if vs != [] {
      var last, end := |vs| - 1, |picks| - 1;
      PicksOneLess(vs, voters, keys, picks);
      if vs[last].pubKey in voters {
        PickedKeys(vs[..last], voters, keys[..end], picks[..end]);
        assert keys == keys[..end] + [keys[end]];
      } else {
        PickedKeys(vs[..last], voters, keys, picks);
      }
    }
  }

  /** What `verify_proof` accepts for a block above genesis: its height and hash, from verifiers of that height
      holding enough weight, with a signature of that very vote by exactly their keys. */
  ghost predicate Proves(env: Env, block: Block, proof: Proof, voters: seq<Address>, keys: seq<Bytes>) {
    var n := block.header.number;
    var metadata := env.metadata(n);
    && proof.number == n && proof.blockHash == env.proposalHash(ProposalOf(block))
    && metadata.start <= n < metadata.end
    && env.extractVoters(metadata.verifierList, proof.bitmap) == Some(voters)
    && WeightCheck(WeightMap(metadata.verifierList), voters).Ok?
    && KeysOfVoters(metadata.verifierList, voters, keys)
    && env.signatureOk(Vote(n, proof.round, env.proposalHash(ProposalOf(block))), proof.signature, keys)
  }

  lemma ProofAcceptedIff(env: Env, block: Block, proof: Proof)
    ensures ProofCheck(env, block, proof).Ok? <==>
            block.header.number == 0 || exists voters, keys :: Proves(env, block, proof, voters, keys)
  {
    hide WeightCheck, WeightMap;
    var vs := env.metadata(block.header.number).verifierList;
    if block.header.number > 0 && ProofCheck(env, block, proof).Ok? {
      var voters := Voters(env, proof).value;
      var picks := VoterKeysPick(vs, voters);
      assert Proves(env, block, proof, voters, VoterKeys(vs, voters));
    }
    if voters, keys :| Proves(env, block, proof, voters, keys) {
      var picks :| PicksVoters(vs, voters, keys, picks);
      PickedKeys(vs, voters, keys, picks);
    }
  }

  method VerifyProof(env: Env, block: Block, proof: Proof) returns (r: Result<()>)
    ensures r == ProofCheck(env, block, proof)
    ensures r.Ok? <==> block.header.number == 0 || exists voters, keys :: Proves(env, block, proof, voters, keys)
  {
    ProofAcceptedIff(env, block, proof);
    hide Proves;
    if block.header.number == 0 {
      return Ok(());
    }
    if block.header.number != proof.number {
      return Err(HeightMismatch);
    }
    if env.proposalHash(ProposalOf(block)) != proof.blockHash {
      return Err(HashMismatch);
    }
    var metadata := env.metadata(block.header.number);
    if !(metadata.start <= block.header.number < metadata.end) {
      return Err(ConfusedMetadata);
    }
    var decoded := env.extractVoters(metadata.verifierList, proof.bitmap);
    if decoded.None? {
      return Err(BitMap);
    }
    var weight := VerifyProofWeight(WeightMap(metadata.verifierList), decoded.value);
    if weight.Err? {
      return weight;
    }
    if !env.signatureOk(Vote(proof.number, proof.round, proof.blockHash), proof.signature,
                        VoterKeys(metadata.verifierList, decoded.value)) {
      return Err(Signature);
    }
    return Ok(());
  }

  /** Voters named by both proofs although the proofs are for different block hashes. */
  ghost function DoubleVoters(env: Env, p: Proof, q: Proof): set<Address>
    requires Voters(env, p).Some? && Voters(env, q).Some?
  {
    VoterSet(Voters(env, p).value) * VoterSet(Voters(env, q).value)
  }

  ghost predicate SaneVerifiers(env: Env, number: nat) {
    && |env.metadata(number).verifierList| <= 0x4000_0000
    && forall v :: v in env.metadata(number).verifierList ==> v.voteWeight < U32
  }

  /** Overlord's bitmap names each verifier at most once. */
  ghost predicate DistinctVoters(env: Env) {
    forall vs, bitmap ::
      env.extractVoters(vs, bitmap).Some? ==> NoDup(env.extractVoters(vs, bitmap).value)
  }

  lemma {:induction false} WeightMapSane(vs: seq<Validator>)
    requires forall v :: v in vs ==> v.voteWeight < U32
    ensures forall a :: a in WeightMap(vs) ==> WeightMap(vs)[a] < U32
  {
    if vs != [] {
      assert forall v :: v in vs[..|vs| - 1] ==> v in vs;
      WeightMapSane(vs[..|vs| - 1]);
    }
  }

  /** Two blocks proved at one height are the same proposal, unless verifiers with more than a third of the
      weight put their name to both votes. */
  lemma ConflictNeedsAThird(env: Env, a: Block, p: Proof, b: Block, q: Proof)
    requires ProposalHashInjective(env) && DistinctVoters(env)
    requires a.header.number == b.header.number > 0 && SaneVerifiers(env, a.header.number)
    requires ProofCheck(env, a, p).Ok? && ProofCheck(env, b, q).Ok?
    ensures Voters(env, p).Some? && Voters(env, q).Some?
    ensures
      var weights := WeightMap(env.metadata(a.header.number).verifierList);
      && DoubleVoters(env, p, q) <= weights.Keys
      && 3 * SumOver(weights, DoubleVoters(env, p, q)) > Total(weights)
    ensures ProposalOf(a) != ProposalOf(b) <==> p.blockHash != q.blockHash
  {
    var metadata := env.metadata(a.header.number);
    WeightMapSane(metadata.verifierList);
    QuorumIntersection(WeightMap(metadata.verifierList), Voters(env, p).value, Voters(env, q).value);
  }

  /** Who signed what. An accepted aggregate means that each honest key in it signed that vote, and an honest key
      signs one hash per height and round. */
  ghost predicate Unforgeable(env: Env, honest: iset<Bytes>, signed: iset<(Bytes, Vote)>) {
    && (forall vote, signature, keys, k ::
          env.signatureOk(vote, signature, keys) && k in keys && k in honest ==> (k, vote) in signed)
    && (forall k, v, w ::
          k in honest && (k, v) in signed && (k, w) in signed && v.height == w.height && v.round == w.round ==>
            v.blockHash == w.blockHash)
  }

  /** Verifiers outside the faulty set have honest keys. */
  ghost predicate HonestOutside(vs: seq<Validator>, faulty: set<Address>, honest: iset<Bytes>) {
    forall v :: v in vs && v.pubKey !in faulty ==> v.blsPubKey in honest
  }

  lemma {:induction false} WeightedIsListed(vs: seq<Validator>, a: Address) returns (v: Validator)
    requires a in WeightMap(vs)
    ensures v in vs && v.pubKey == a
  {
    var last := vs[|vs| - 1];
    if last.pubKey == a {
      v := last;
    } else {
      v := WeightedIsListed(vs[..|vs| - 1], a);
    }
  }

  lemma {:induction false} VoterKeyListed(vs: seq<Validator>, voters: seq<Address>, v: Validator)
    requires v in vs && v.pubKey in voters
    ensures v.blsPubKey in VoterKeys(vs, voters)
  {
    var last := |vs| - 1;
    if v != vs[last] {
      assert v in vs[..last];
      VoterKeyListed(vs[..last], voters, v);
    }
  }

  /** An honest verifier among the voters of an accepted proof signed its vote. */
  lemma HonestVoterSigned(env: Env, b: Block, p: Proof, a: Address, v: Validator, honest: iset<Bytes>,
                          signed: iset<(Bytes, Vote)>)
    requires Unforgeable(env, honest, signed) && b.header.number > 0 && ProofCheck(env, b, p).Ok?
    requires v in env.metadata(b.header.number).verifierList && v.pubKey == a && v.blsPubKey in honest
    requires Voters(env, p).Some? && a in Voters(env, p).value
    ensures (v.blsPubKey, Vote(p.number, p.round, p.blockHash)) in signed
  {
    hide WeightCheck, WeightMap;
    VoterKeyListed(env.metadata(b.header.number).verifierList, Voters(env, p).value, v);
  }

  /** With at most a third of the weight in faulty hands and signatures that cannot be forged, all proofs of a
      height and round prove the same proposal. */
  lemma ProofsAgree(env: Env, a: Block, p: Proof, b: Block, q: Proof, faulty: set<Address>, honest: iset<Bytes>,
                    signed: iset<(Bytes, Vote)>)
    requires ProposalHashInjective(env) && DistinctVoters(env) && Unforgeable(env, honest, signed)
    requires a.header.number == b.header.number > 0 && SaneVerifiers(env, a.header.number)
    requires ProofCheck(env, a, p).Ok? && ProofCheck(env, b, q).Ok? && p.round == q.round
    requires HonestOutside(env.metadata(a.header.number).verifierList, faulty, honest)
    requires faulty <= WeightMap(env.metadata(a.header.number).verifierList).Keys
    requires
      var weights := WeightMap(env.metadata(a.header.number).verifierList);
      3 * SumOver(weights, faulty) <= Total(weights)
    ensures ProposalOf(a) == ProposalOf(b)
  {
    ConflictNeedsAThird(env, a, p, b, q);
    var vs := env.metadata(a.header.number).verifierList;
    var weights := WeightMap(vs);
    var both := DoubleVoters(env, p, q);
    if both <= faulty {
      SumMonotone(weights, both, faulty);
      assert false;
    }
    var voter :| voter in both && voter !in faulty;
    var v := WeightedIsListed(vs, voter);
    HonestVoterSigned(env, a, p, voter, v, honest, signed);
    HonestVoterSigned(env, b, q, voter, v, honest, signed);
    ProofNumber(env, a, p);
    ProofNumber(env, b, q);
  }

  lemma ProofNumber(env: Env, b: Block, p: Proof)
    requires ProofCheck(env, b, p).Ok? && b.header.number > 0
    ensures p.number == b.header.number
  {
  }
}
