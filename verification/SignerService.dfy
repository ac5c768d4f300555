/** What the file-backed signer is for: a validator gets through its rounds, and the votes it signs are accepted
    (privval/file.go, types/vote.go). */
module SignerService {
  import opened Prelude
  import opened BlockIDs
  import opened Signing
  import opened FilePVs
  import VoteSetModel
  import VoteSetInvariant

  // ---------------------------------------------------------------- a round

  /** Nothing of this round, or of a later one, was signed. */
  predicate BeforeRound(s: SignState, height: int, round: int) {
    s.hrs.height < height || (s.hrs.height == height && s.hrs.round < round)
  }

  /** The key is there and signs. */
  ghost predicate Able(env: Signer, quorumHash: Bytes) {
    env.hasKey(quorumHash) && forall digest: Hash32 :: env.signDigest(quorumHash, digest).Some?
  }

  /** A vote of the round whose extensions, if any, can be signed. */
  predicate Signable(p: Primitives, c: Context, v: Vote, typ: MsgType, height: int, round: int) {
    && v.typ == typ && v.height == height && v.round == round
    && AllRecoverable(v) && SignItems(p, c, height, round, Recoverables(v.exts)).Some?
    && (typ != Precommit ==> v.exts == [])
  }

  lemma {:induction false} SignAllSigns(env: Signer, quorumHash: Bytes, items: seq<SignItem>)
    ensures var r := SignAll(env, quorumHash, items);
            && (r.Some? ==>
                  forall i :: 0 <= i < |items| ==> env.signDigest(quorumHash, items[i].signHash) == Some(r.value[i]))
            && (Able(env, quorumHash) ==> r.Some?)
  {
    if items == [] {
    } else {
      SignAllSigns(env, quorumHash, items[1..]);
    }
  }

  /** A vote ahead of what was signed is released when the key signs and the save succeeds. */
  lemma AheadReleased(env: Signer, pv: PV, c: Context, v: Vote)
    requires v.typ in {Prevote, Precommit} && Signable(env.p, c, v, v.typ, v.height, v.round)
    requires Able(env, c.quorumHash) && pv.mem.hrs.Before(HRS(v.height, v.round, VoteStep(v.typ).value))
    ensures var (pv', reply) := SignVote(env, pv, c, v, true);
            && reply.Released? && reply.hrs == pv'.mem.hrs == HRS(v.height, v.round, VoteStep(v.typ).value)
            && reply.signBytes == env.p.voteSignBytes(c.chainID, v.typ, v.height, v.round, v.blockID)
            && pv'.mem == pv'.disk
  {
    CheckHRSOrder(pv.mem, HRS(v.height, v.round, VoteStep(v.typ).value));
    hide CheckHRS;
    var items := SignItems(env.p, c, v.height, v.round, Recoverables(v.exts)).value;
    SignAllSigns(env, c.quorumHash, items);
    RecoverablesAll(v.exts);
    hide SignAll;
    hide SignItems;
  }

  /** From any state before the round a proposal, a prevote and a precommit of the round are all released, in that
      order; and then nothing earlier of the round is. */
  lemma RoundSigned(env: Signer, pv: PV, c: Context, proposal: Request, prevote: Vote, precommit: Vote)
    requires proposal.ProposalRequest? && proposal.quorumHash == c.quorumHash
    requires Signable(env.p, c, prevote, Prevote, proposal.height, proposal.round)
    requires Signable(env.p, c, precommit, Precommit, proposal.height, proposal.round)
    requires Able(env, c.quorumHash) && BeforeRound(pv.mem, proposal.height, proposal.round)
    ensures var (pv1, reply1) := SignProposal(env, pv, proposal, true);
            var (pv2, reply2) := SignVote(env, pv1, c, prevote, true);
            var (pv3, reply3) := SignVote(env, pv2, c, precommit, true);
            && reply1.Released? && reply1.signBytes == proposal.signBytes
            && env.signDigest(proposal.quorumHash, proposal.signHash) == Some(reply1.sign)
            && reply2.Released? && reply3.Released?
            && SignProposal(env, pv2, proposal, true) == (pv2, Refused)
            && SignProposal(env, pv3, proposal, true) == (pv3, Refused)
            && SignVote(env, pv3, c, prevote, true) == (pv3, Refused)
            && pv3.mem.hrs.height == proposal.height && pv3.mem.hrs.round == proposal.round
  {
    hide SignAll;
    hide SignItems;
    var (pv1, reply1) := SignProposal(env, pv, proposal, true);
    assert reply1.Released? && pv1.mem.hrs == HRS(proposal.height, proposal.round, STEP_PROPOSE);
    AheadReleased(env, pv1, c, prevote);
    var pv2 := SignVote(env, pv1, c, prevote, true).0;
    AheadReleased(env, pv2, c, precommit);
    hide SignVote;
    var pv3 := SignVote(env, pv2, c, precommit, true).0;
    EarlierRefused(env, pv3, c, prevote);
  }

  lemma EarlierRefused(env: Signer, pv: PV, c: Context, v: Vote)
    requires VoteStep(v.typ).Some? && HRS(v.height, v.round, VoteStep(v.typ).value).Before(pv.mem.hrs)
    ensures SignVote(env, pv, c, v, true) == (pv, Refused)
  {
    CheckHRSOrder(pv.mem, HRS(v.height, v.round, VoteStep(v.typ).value));
    hide CheckHRS;
    hide MakeQuorumSigns;
    hide ExtensionSigns;
  }

  // ---------------------------------------------------------------- signed votes are good

  /** The digest of a vote of this height and round with these sign bytes. */
  function VoteDigest(p: Primitives, c: Context, height: int, round: int, signBytes: Bytes): Hash32 {
    SignHash(p, c, RequestID(p, DPBVOTE, height, round), p.checksum(signBytes))
  }

  /** The signature kept for a vote is one over that vote. */
  predicate Genuine(env: Signer, c: Context, s: SignState) {
    s.hrs.step != STEP_PROPOSE && s.signBytes != [] ==>
      env.signDigest(c.quorumHash, VoteDigest(env.p, c, s.hrs.height, s.hrs.round, s.signBytes)) == Some(s.sign)
  }

  /** All votes are asked for under one chain and quorum. */
  ghost predicate OneContext(c: Context, events: seq<Event>) {
    forall i :: 0 <= i < |events| && events[i].Ask? && events[i].request.VoteRequest? ==> events[i].request.context == c
  }

  lemma NextGenuine(env: Signer, c: Context, w: World, e: Event)
    requires Genuine(env, c, w.pv.mem) && Genuine(env, c, w.pv.disk)
    requires e.Ask? && e.request.VoteRequest? ==> e.request.context == c
    ensures Genuine(env, c, Next(env, w, e).pv.mem) && Genuine(env, c, Next(env, w, e).pv.disk)
  {
    hide ExtensionSigns;
    hide SignItems;
    hide CheckHRS;
    hide RequestID;
    hide SignHash;
  }

  lemma {:induction false} RunGenuine(env: Signer, c: Context, events: seq<Event>)
    requires OneContext(c, events)
    ensures var w := Run(env, START, events); Genuine(env, c, w.pv.mem) && Genuine(env, c, w.pv.disk)
  {
    hide Next;
    if events == [] {
    } else {
      var n := |events| - 1;
      RunGenuine(env, c, events[..n]);
      NextGenuine(env, c, Run(env, START, events[..n]), events[n]);
    }
  }

  function WithSigns(es: seq<Ext>, signs: seq<Bytes>): (r: seq<Ext>)
    requires |es| == |signs|
    ensures |r| == |es| && Signatures(r) == signs
    ensures forall i :: 0 <= i < |es| ==> r[i].Unsigned() == es[i].Unsigned()
  {
    seq(|es|, i requires 0 <= i < |es| => es[i].(signature := signs[i]))
  }

  /** The vote with the signatures it was given. */
  function Completed(v: Vote, reply: Reply): Vote
    requires reply.Released? && |v.exts| == |reply.extSigns|
  {
    v.(blockSign := reply.sign, exts := WithSigns(v.exts, reply.extSigns))
  }

  /** What the signer signs verifies under the key. */
  ghost predicate Trusts(env: Signer, quorumHash: Bytes, key: PubKey) {
    && |key.bytes| == PUB_KEY_SIZE
    && forall digest: Hash32 :: env.signDigest(quorumHash, digest).Some? ==>
         var sig := env.signDigest(quorumHash, digest).value;
         |sig| == SIGNATURE_SIZE && env.p.verifyDigest(key, digest, sig)
  }

  /** Where the signatures of a released vote come from. */
  lemma ReleasedSigns(env: Signer, pv: PV, c: Context, v: Vote, saveOk: bool)
    requires SignVote(env, pv, c, v, saveOk).1.Released?
    ensures var reply := SignVote(env, pv, c, v, saveOk).1;
            var items := SignItems(env.p, c, v.height, v.round, Recoverables(v.exts));
            var signBytes := env.p.voteSignBytes(c.chainID, v.typ, v.height, v.round, v.blockID);
            && items.Some? && |v.exts| == |reply.extSigns| == |items.value| && AllRecoverable(v)
            && (v.typ != Precommit ==> v.exts == [])
            && (forall i :: 0 <= i < |items.value| ==>
                  env.signDigest(c.quorumHash, items.value[i].signHash) == Some(reply.extSigns[i]))
            && (|| env.signDigest(c.quorumHash, VoteDigest(env.p, c, v.height, v.round, signBytes)) == Some(reply.sign)
                || (&& pv.mem.hrs.height == v.height && pv.mem.hrs.round == v.round && pv.mem.hrs.step > STEP_PROPOSE
                    && pv.mem.signBytes == signBytes != [] && reply.sign == pv.mem.sign))
  {
    ReleasedExtensions(env, pv, c, v, saveOk);
    CheckHRSOrder(pv.mem, HRS(v.height, v.round, VoteStep(v.typ).value));
    var data := MakeQuorumSigns(env.p, c, v.typ, v.height, v.round, v.blockID, v.exts).value;
    SignAllSigns(env, c.quorumHash, data.exts);
    RecoverablesAll(v.exts);
    hide CheckHRS;
    hide SignAll;
    hide SignItems;
    hide RequestID;
    hide SignHash;
  }

  /** A vote whose signatures are over its own digests passes verification, unless it has too many extensions. */
  lemma SignedVerifies(env: Signer, c: Context, v: Vote, reply: Reply, key: PubKey)
    requires reply.Released? && |v.exts| == |reply.extSigns| && Trusts(env, c.quorumHash, key) && AllRecoverable(v)
    requires v.typ != Precommit ==> v.exts == []
    requires var items := SignItems(env.p, c, v.height, v.round, Recoverables(v.exts));
             && items.Some? && |items.value| == |v.exts|
             && forall i :: 0 <= i < |items.value| ==>
                  env.signDigest(c.quorumHash, items.value[i].signHash) == Some(reply.extSigns[i])
    ensures VerifyVote(env.p, c, Completed(v, reply), Some(key), v.proTxHash, None).Ok? <==>
              && |v.exts| <= MAX_VOTE_EXTENSIONS
              && VerifySignature(env.p, key, BlockSignItem(env.p, c, v.typ, v.height, v.round, v.blockID), reply.sign)
  {
    hide SignItems;
    hide BlockSignItem;
    hide VerifyQuorum;
    hide Recoverables;
    hide WithSigns;
    hide AllRecoverable;
    CompletedSignData(env.p, c, v, reply);
    var items := SignItems(env.p, c, v.height, v.round, Recoverables(v.exts)).value;
    var data := QuorumSignData(BlockSignItem(env.p, c, v.typ, v.height, v.round, v.blockID), items);
    VerifyQuorumMeaning(env.p, key, data, QuorumSigns(reply.sign, reply.extSigns), None);
  }

  /** Filling in signatures changes nothing of what is signed. */
  lemma CompletedSignData(p: Primitives, c: Context, v: Vote, reply: Reply)
    requires reply.Released? && |v.exts| == |reply.extSigns| && AllRecoverable(v)
    ensures var v' := Completed(v, reply);
            && VoteSigns(v') == QuorumSigns(reply.sign, reply.extSigns)
            && VoteSignData(p, c, v') == VoteSignData(p, c, v)
            && |v'.exts| == |v.exts| && v'.typ == v.typ && v'.proTxHash == v.proTxHash
  {
    hide SignItems;
    hide BlockSignItem;
    var v' := Completed(v, reply);
    RecoverablesAll(v.exts);
    RecoverablesAll(v'.exts);
    SignItemsIgnoreSignatures(p, c, v.height, v.round, v.exts, v'.exts);
  }

  /** In every run of a fresh validator under one chain and quorum, with crashes and failed saves anywhere, a vote
      that is released passes full verification if and only if it has no more extensions than verification allows. */
  lemma ReleasedVoteVerifies(env: Signer, c: Context, events: seq<Event>, v: Vote, saveOk: bool, key: PubKey)
    requires OneContext(c, events) && Trusts(env, c.quorumHash, key)
    requires SignVote(env, Run(env, START, events).pv, c, v, saveOk).1.Released?
    ensures var reply := SignVote(env, Run(env, START, events).pv, c, v, saveOk).1;
            && |v.exts| == |reply.extSigns|
            && (VerifyVote(env.p, c, Completed(v, reply), Some(key), v.proTxHash, None).Ok? <==>
                  |v.exts| <= MAX_VOTE_EXTENSIONS)
  {
    hide SignVote;
    hide SignItems;
    hide VerifyVote;
    hide RequestID;
    hide SignHash;
    hide Run;
    var pv := Run(env, START, events).pv;
    RunGenuine(env, c, events);
    ReleasedSigns(env, pv, c, v, saveOk);
    SignedVerifies(env, c, v, SignVote(env, pv, c, v, saveOk).1, key);
  }

  /** So the vote set of its height, round and type records it. */
  lemma ReleasedVoteRecorded(cfg: VoteSetModel.Config, env: Signer, events: seq<Event>, v: Vote, saveOk: bool, i: nat)
    requires env.p == cfg.p && OneContext(cfg.Context(), events) && i < cfg.Size() && v.index == i
    requires v.typ == cfg.typ && v.height == cfg.height && v.round == cfg.round
    requires v.proTxHash == cfg.vals.validators[i].proTxHash && cfg.vals.validators[i].pubKey.Some?
    requires Trusts(env, cfg.vals.quorumHash, cfg.vals.validators[i].pubKey.value)
    requires SignVote(env, Run(env, START, events).pv, cfg.Context(), v, saveOk).1.Released?
    ensures var reply := SignVote(env, Run(env, START, events).pv, cfg.Context(), v, saveOk).1;
            && |v.exts| == |reply.extSigns|
            && (VoteSetInvariant.Recorded(cfg, Completed(v, reply), i) <==> |v.exts| <= MAX_VOTE_EXTENSIONS)
  {
    hide SignVote;
    hide VerifyVote;
    hide Run;
    ReleasedVoteVerifies(env, cfg.Context(), events, v, saveOk, cfg.vals.validators[i].pubKey.value);
  }

  // ---------------------------------------------------------------- one quorum at a time

  /** Asked again for a vote under another quorum of the same chain, the signer hands out the signature made under
      the first one: the vote verifies if and only if that signature happens to verify under the other. */
  lemma AskedUnderAnother(env: Signer, pv: PV, c: Context, c': Context, v: Vote, key: PubKey)
    requires SignVote(env, pv, c, v, true).1.Released? && SignVote(env, pv, c, v, true).1.signBytes != []
    requires c'.chainID == c.chainID && Trusts(env, c'.quorumHash, key) && |v.exts| <= MAX_VOTE_EXTENSIONS
    requires SignVote(env, SignVote(env, pv, c, v, true).0, c', v, true).1.Released?
    ensures var (pv', reply) := SignVote(env, pv, c, v, true);
            var reply' := SignVote(env, pv', c', v, true).1;
            && reply'.sign == reply.sign && |v.exts| == |reply'.extSigns|
            && var item := BlockSignItem(env.p, c', v.typ, v.height, v.round, v.blockID);
            VerifyVote(env.p, c', Completed(v, reply'), Some(key), v.proTxHash, None).Ok? <==>
              VerifySignature(env.p, key, item, reply.sign)
  {
    var (pv', reply) := SignVote(env, pv, c, v, true);
    SameSign(env, pv, c, c', v);
    hide SignVote;
    hide SignItems;
    hide VerifyVote;
    hide BlockSignItem;
    ReleasedSigns(env, pv', c', v, true);
    SignedVerifies(env, c', v, SignVote(env, pv', c', v, true).1, key);
  }

  lemma SameSign(env: Signer, pv: PV, c: Context, c': Context, v: Vote)
    requires SignVote(env, pv, c, v, true).1.Released? && SignVote(env, pv, c, v, true).1.signBytes != []
    requires c'.chainID == c.chainID
    requires SignVote(env, SignVote(env, pv, c, v, true).0, c', v, true).1.Released?
    ensures SignVote(env, SignVote(env, pv, c, v, true).0, c', v, true).1.sign == SignVote(env, pv, c, v, true).1.sign
  {
    hide SignItems;
    hide ExtensionSigns;
    hide SignHash;
    hide RequestID;
  }

  // ---------------------------------------------------------------- the assumptions can be met

  /** A signer and a check that fit. */
  function Plain(p: Primitives): Signer {
    Signer(p.(verifyDigest := (key: PubKey, digest: Hash32, sig: Bytes) => sig == digest + digest + digest),
           (quorumHash: Bytes) => true, (quorumHash: Bytes, digest: Hash32) => Some(digest + digest + digest))
  }

  lemma PlainTrusted(p: Primitives, quorumHash: Bytes, key: PubKey)
    requires |key.bytes| == PUB_KEY_SIZE
    ensures Able(Plain(p), quorumHash) && Trusts(Plain(p), quorumHash, key)
  {
  }
}
