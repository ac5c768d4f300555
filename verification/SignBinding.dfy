/** A signature stands for one vote: digests determine what was signed, as far as nothing hashed on the way collides
    (types/quorum_sign_data.go, types/vote_extension.go, types/vote_set.go). */
module SignBinding {
  import opened Prelude
  import opened BlockIDs
  import opened Signing
  import opened Validators
  import opened Commits
  import opened Merkle
  import opened VoteSetModel
  import opened VoteSetInvariant
  import opened VoteSetRuns

  // ---------------------------------------------------------------- numbers in request IDs

  function Power256(k: nat): nat {
    if k == 0 then 1 else 256 * Power256(k - 1)
  }

  lemma {:induction false} LittleEndianInjective(m: int, n: int, k: nat)
    requires LittleEndian(m, k) == LittleEndian(n, k) && m - n < Power256(k) && n - m < Power256(k)
    ensures m == n
    decreases k
  {
    if k == 0 {
    } else {
      assert LittleEndian(m, k)[0] == m % 256 && LittleEndian(n, k)[0] == n % 256;
      assert LittleEndian(m, k)[1..] == LittleEndian(m / 256, k - 1);
      assert LittleEndian(n, k)[1..] == LittleEndian(n / 256, k - 1);
      assert m - n == 256 * (m / 256 - n / 256);
      LittleEndianInjective(m / 256, n / 256, k - 1);
    }
  }

  /** Heights are 64-bit and rounds 32-bit integers. */
  predicate Sized(height: int, round: int) {
    -0x8000_0000_0000_0000 <= height < 0x8000_0000_0000_0000 && -0x8000_0000 <= round < 0x8000_0000
  }

  lemma Powers256()
    ensures Power256(4) == 0x1_0000_0000 && Power256(8) == 0x1_0000_0000_0000_0000
  {
    assert Power256(2) == 0x1_0000;
    assert Power256(3) == 256 * Power256(2);
    assert Power256(4) == 256 * Power256(3);
    assert Power256(5) == 256 * Power256(4);
    assert Power256(6) == 256 * Power256(5);
    assert Power256(7) == 256 * Power256(6);
    assert Power256(8) == 256 * Power256(7);
  }

  /** What the request ID of a height and round is the checksum of. */
  function RequestInput(prefix: Bytes, height: int, round: int): Bytes {
    prefix + LittleEndian(height, 8) + LittleEndian(round, 4)
  }

  lemma RequestInputInjective(prefix: Bytes, height: int, round: int, prefix': Bytes, height': int, round': int)
    requires |prefix| == |prefix'| && Sized(height, round) && Sized(height', round')
    requires RequestInput(prefix, height, round) == RequestInput(prefix', height', round')
    ensures prefix == prefix' && height == height' && round == round'
  {
    var x, n := RequestInput(prefix, height, round), |prefix|;
    assert x[..n] == prefix && x[n..n + 8] == LittleEndian(height, 8) && x[n + 8..] == LittleEndian(round, 4);
    var y := RequestInput(prefix', height', round');
    assert y[..n] == prefix' && y[n..n + 8] == LittleEndian(height', 8) && y[n + 8..] == LittleEndian(round', 4);
    Powers256();
    LittleEndianInjective(height, height', 8);
    LittleEndianInjective(round, round', 4);
  }

  lemma ReverseInjective(x: Bytes, y: Bytes)
    requires Reverse(x) == Reverse(y)
    ensures x == y
  {
    assert |x| == |y|;
    forall i | 0 <= i < |x|
      ensures x[i] == y[i]
    {
      assert Reverse(x)[|x| - 1 - i] == x[i] && Reverse(y)[|y| - 1 - i] == y[i];
    }
  }

  // ---------------------------------------------------------------- digests

  /** What a sign hash is made of. */
  datatype Session = Session(context: Context, requestID: Bytes, msgHash: Bytes)

  function HashOf(p: Primitives, s: Session): Hash32 {
    SignHash(p, s.context, s.requestID, s.msgHash)
  }

  /** The same quorum, request and message. */
  predicate SameSession(s: Session, s': Session) {
    && s.context.llmqType == s'.context.llmqType && s.context.quorumHash == s'.context.quorumHash
    && s.requestID == s'.requestID && s.msgHash == s'.msgHash
  }

  /** The three byte strings as they go into the hash, in order. */
  function Hashed(s: Session): (LLMQType, Bytes, Bytes, Bytes) {
    (s.context.llmqType, Reverse(s.context.quorumHash), Reverse(s.requestID), Reverse(s.msgHash))
  }

  /** The sign hash does not collide on two sessions. */
  ghost predicate TellsSessions(p: Primitives, s: Session, s': Session) {
    var (t, q, r, m) := Hashed(s);
    var (t', q', r', m') := Hashed(s');
    p.buildSignHash(t, q, r, m) == p.buildSignHash(t', q', r', m') ==> Hashed(s) == Hashed(s')
  }

  lemma HashBinds(p: Primitives, s: Session, s': Session)
    requires TellsSessions(p, s, s') && HashOf(p, s) == HashOf(p, s')
    ensures SameSession(s, s')
  {
    ReverseInjective(s.context.quorumHash, s'.context.quorumHash);
    ReverseInjective(s.requestID, s'.requestID);
    ReverseInjective(s.msgHash, s'.msgHash);
  }

  // ---------------------------------------------------------------- votes

  /** What identifies a vote's subject. */
  datatype Ballot = Ballot(typ: MsgType, height: int, round: int, id: BlockID)

  function BallotOf(v: Vote): Ballot {
    Ballot(v.typ, v.height, v.round, v.blockID)
  }

  function BallotBytes(p: Primitives, c: Context, b: Ballot): Bytes {
    p.voteSignBytes(c.chainID, b.typ, b.height, b.round, b.id)
  }

  function BallotDigest(p: Primitives, c: Context, b: Ballot): Hash32 {
    BlockSignItem(p, c, b.typ, b.height, b.round, b.id).signHash
  }

  function BallotSession(p: Primitives, c: Context, b: Ballot): Session {
    Session(c, p.checksum(RequestInput(DPBVOTE, b.height, b.round)), p.checksum(BallotBytes(p, c, b)))
  }

  function BallotInputs(p: Primitives, c: Context, b: Ballot): set<Bytes> {
    {RequestInput(DPBVOTE, b.height, b.round), BallotBytes(p, c, b)}
  }

  /** Nothing hashed for the two ballots collides, and their sign bytes tell them apart. */
  ghost predicate TellsBallots(p: Primitives, c: Context, b: Ballot, c': Context, b': Ballot) {
    && NoCollision(p.checksum, BallotInputs(p, c, b) + BallotInputs(p, c', b'))
    && TellsSessions(p, BallotSession(p, c, b), BallotSession(p, c', b'))
    && (BallotBytes(p, c, b) == BallotBytes(p, c', b') ==> c.chainID == c'.chainID && b == b')
  }

  /** Equal digests mean one chain, one quorum and one ballot. */
  lemma DigestBinds(p: Primitives, c: Context, b: Ballot, c': Context, b': Ballot)
    requires TellsBallots(p, c, b, c', b') && BallotDigest(p, c, b) == BallotDigest(p, c', b')
    ensures c == c' && b == b'
  {
    hide SignHash;
    var s, s' := BallotSession(p, c, b), BallotSession(p, c', b');
    assert HashOf(p, s) == BallotDigest(p, c, b) && HashOf(p, s') == BallotDigest(p, c', b');
    HashBinds(p, s, s');
    assert p.checksum(BallotBytes(p, c, b)) == p.checksum(BallotBytes(p, c', b'));
  }

  /** Even sign bytes that leave them out cannot move a signature to another height or round. */
  lemma RequestBinds(p: Primitives, c: Context, b: Ballot, c': Context, b': Ballot)
    requires NoCollision(p.checksum, BallotInputs(p, c, b) + BallotInputs(p, c', b'))
    requires TellsSessions(p, BallotSession(p, c, b), BallotSession(p, c', b'))
    requires Sized(b.height, b.round) && Sized(b'.height, b'.round)
    requires BallotDigest(p, c, b) == BallotDigest(p, c', b')
    ensures b.height == b'.height && b.round == b'.round && BallotBytes(p, c, b) == BallotBytes(p, c', b')
  {
    hide SignHash;
    hide RequestInput;
    var s, s' := BallotSession(p, c, b), BallotSession(p, c', b');
    assert HashOf(p, s) == BallotDigest(p, c, b) && HashOf(p, s') == BallotDigest(p, c', b') by {
      RequestIDIs(p, DPBVOTE, b.height, b.round);
      RequestIDIs(p, DPBVOTE, b'.height, b'.round);
    }
    HashBinds(p, s, s');
    var x, y := RequestInput(DPBVOTE, b.height, b.round), RequestInput(DPBVOTE, b'.height, b'.round);
    assert p.checksum(x) == p.checksum(y) && x in BallotInputs(p, c, b) && y in BallotInputs(p, c', b');
    RequestInputInjective(DPBVOTE, b.height, b.round, DPBVOTE, b'.height, b'.round);
  }

  lemma RequestIDIs(p: Primitives, prefix: Bytes, height: int, round: int)
    ensures RequestID(p, prefix, height, round) == p.checksum(RequestInput(prefix, height, round))
  {
  }

  /** A signature is good for one of two digests at most. */
  ghost predicate SignsOne(p: Primitives, key: PubKey, sig: Bytes, d: Hash32, d': Hash32) {
    p.verifyDigest(key, d, sig) && p.verifyDigest(key, d', sig) ==> d == d'
  }

  /** Votes that verify under one key with one block signature are for one ballot. */
  lemma OneBallotPerSignature(p: Primitives, c: Context, v: Vote, c': Context, v': Vote, key: PubKey,
                              proTxHash: Bytes, proTxHash': Bytes)
    requires VerifyVote(p, c, v, Some(key), proTxHash, None).Ok? && v.blockSign == v'.blockSign
    requires VerifyVote(p, c', v', Some(key), proTxHash', None).Ok?
    requires TellsBallots(p, c, BallotOf(v), c', BallotOf(v'))
    requires SignsOne(p, key, v.blockSign, BallotDigest(p, c, BallotOf(v)), BallotDigest(p, c', BallotOf(v')))
    ensures c == c' && BallotOf(v) == BallotOf(v')
  {
    hide TellsBallots;
    hide FirstInvalid;
    hide SignItems;
    DigestBinds(p, c, BallotOf(v), c', BallotOf(v'));
  }

  /** A vote's signature does not serve for another block. */
  lemma TransplantRefused(p: Primitives, c: Context, v: Vote, id: BlockID, key: PubKey)
    requires VerifyVote(p, c, v, Some(key), v.proTxHash, None).Ok? && id != v.blockID
    requires TellsBallots(p, c, BallotOf(v), c, BallotOf(v.(blockID := id)))
    requires SignsOne(p, key, v.blockSign, BallotDigest(p, c, BallotOf(v)),
                      BallotDigest(p, c, BallotOf(v.(blockID := id))))
    ensures VerifyVote(p, c, v.(blockID := id), Some(key), v.proTxHash, None) == Err(InvalidBlockSignature)
  {
    hide TellsBallots;
    hide FirstInvalid;
    hide SignItems;
    var b, b' := BallotOf(v), BallotOf(v.(blockID := id));
    if BallotDigest(p, c, b) == BallotDigest(p, c, b') {
      DigestBinds(p, c, b, c, b');
    }
  }

  /** Accepted commits with one block signature are for one block, height and round. */
  lemma OneCommitPerSignature(p: Primitives, vals: ValidatorSet, chainID: string, id: BlockID, height: int,
                              commit: Commit, id': BlockID, height': int, commit': Commit)
    requires VerifyCommit(p, vals, chainID, id, height, commit, None).Ok? && commit.blockSign == commit'.blockSign
    requires VerifyCommit(p, vals, chainID, id', height', commit', None).Ok?
    requires var c := SignContext(vals, chainID);
             var b, b' := Ballot(Precommit, height, commit.round, id), Ballot(Precommit, height', commit'.round, id');
             && TellsBallots(p, c, b, c, b')
             && SignsOne(p, vals.thresholdKey.value, commit.blockSign, BallotDigest(p, c, b), BallotDigest(p, c, b'))
    ensures id == id' && height == height' && commit.round == commit'.round
    ensures commit.blockID == id && commit.height == height && commit.quorumHash == vals.quorumHash
  {
    hide TellsBallots;
    hide FirstInvalid;
    hide SignItems;
    hide ExtsFromProto;
    var c := SignContext(vals, chainID);
    DigestBinds(p, c, Ballot(Precommit, height, commit.round, id), c, Ballot(Precommit, height', commit'.round, id'));
  }

  // ---------------------------------------------------------------- extensions

  function ExtBytes(p: Primitives, c: Context, height: int, round: int, e: Ext): Bytes {
    p.extensionSignBytes(c.chainID, e.typ, e.extension, height, round)
  }

  /** The request a raw extension is signed under: the application's own, hashed twice, or that of the round. */
  function RawRequest(p: Primitives, height: int, round: int, e: Ext): Bytes {
    if e.requestID.Some? then Reverse(p.checksum(p.checksum(e.requestID.value)))
    else p.checksum(RequestInput(DPEVOTE, height, round))
  }

  function ExtSession(p: Primitives, c: Context, height: int, round: int, e: Ext): Session {
    if e.typ == ThresholdRecoverRaw then Session(c, RawRequest(p, height, round, e), Reverse(e.extension))
    else Session(c, p.checksum(RequestInput(DPEVOTE, height, round)), p.checksum(ExtBytes(p, c, height, round, e)))
  }

  function ExtInputs(p: Primitives, c: Context, height: int, round: int, e: Ext): set<Bytes> {
    if e.typ != ThresholdRecoverRaw then {ExtBytes(p, c, height, round, e)}
    else if e.requestID.Some? then {e.requestID.value, p.checksum(e.requestID.value)}
    else {}
  }

  /** Nothing hashed for two extensions of a round collides, and their sign bytes tell them apart. */
  ghost predicate TellsExts(p: Primitives, c: Context, height: int, round: int, e: Ext, e': Ext) {
    && NoCollision(p.checksum, ExtInputs(p, c, height, round, e) + ExtInputs(p, c, height, round, e'))
    && TellsSessions(p, ExtSession(p, c, height, round, e), ExtSession(p, c, height, round, e'))
    && (e.typ == e'.typ != ThresholdRecoverRaw ==>
          ExtBytes(p, c, height, round, e) == ExtBytes(p, c, height, round, e') ==> e.extension == e'.extension)
  }

  /** Two extensions say the same, and raw ones under the same request. */
  predicate SameContent(p: Primitives, height: int, round: int, e: Ext, e': Ext) {
    && e.typ == e'.typ && e.extension == e'.extension
    && (e.typ == ThresholdRecoverRaw ==>
          && RawRequest(p, height, round, e) == RawRequest(p, height, round, e')
          && (e.requestID.Some? && e'.requestID.Some? ==> e.requestID == e'.requestID))
  }

  lemma ExtSessionIs(p: Primitives, c: Context, height: int, round: int, e: Ext)
    requires ExtSignItem(p, c, height, round, e).Some?
    ensures ExtSignItem(p, c, height, round, e).value.signHash == HashOf(p, ExtSession(p, c, height, round, e))
  {
    RequestIDIs(p, DPEVOTE, height, round);
    hide RequestID;
    hide RequestInput;
    hide SignHash;
  }

  lemma ExtDigestBinds(p: Primitives, c: Context, height: int, round: int, e: Ext, e': Ext)
    requires e.typ == e'.typ && TellsExts(p, c, height, round, e, e')
    requires var x, y := ExtSignItem(p, c, height, round, e), ExtSignItem(p, c, height, round, e');
             x.Some? && y.Some? && x.value.signHash == y.value.signHash
    ensures SameContent(p, height, round, e, e')
  {
    hide SignHash;
    hide RequestInput;
    ExtSessionIs(p, c, height, round, e);
    ExtSessionIs(p, c, height, round, e');
    HashBinds(p, ExtSession(p, c, height, round, e), ExtSession(p, c, height, round, e'));
    if e.typ == ThresholdRecoverRaw {
      ReverseInjective(e.extension, e'.extension);
      if e.requestID.Some? && e'.requestID.Some? {
        ReverseInjective(p.checksum(p.checksum(e.requestID.value)), p.checksum(p.checksum(e'.requestID.value)));
      }
    }
  }

  lemma {:induction false} SignItemsAt(p: Primitives, c: Context, height: int, round: int, es: seq<Ext>, i: nat)
    requires SignItems(p, c, height, round, es).Some? && i < |es|
    ensures ExtSignItem(p, c, height, round, es[i]) == Some(SignItems(p, c, height, round, es).value[i])
  {
    hide ExtSignItem;
    if i == 0 {
    } else {
      SignItemsAt(p, c, height, round, es[1..], i - 1);
    }
  }

  /** Votes of one round with equal extension identities carry the same extensions, one by one. */
  lemma IdentityBinds(p: Primitives, c: Context, v: Vote, v': Vote)
    requires v.height == v'.height && v.round == v'.round
    requires Identity(p, c, v).Some? && Identity(p, c, v) == Identity(p, c, v')
    requires forall e, e' :: e in Recoverables(v.exts) && e' in Recoverables(v'.exts) ==>
               TellsExts(p, c, v.height, v.round, e, e')
    ensures var es, es' := Recoverables(v.exts), Recoverables(v'.exts);
            |es| == |es'| && forall i :: 0 <= i < |es| ==> SameContent(p, v.height, v.round, es[i], es'[i])
  {
    hide Recoverables;
    hide SignItems;
    hide ExtSignItem;
    hide TellsExts;
    hide SameContent;
    var es, es' := Recoverables(v.exts), Recoverables(v'.exts);
    var x, y := SignItems(p, c, v.height, v.round, es).value, SignItems(p, c, v.height, v.round, es').value;
    IdentityInjective(es, x, es', y);
    forall i | 0 <= i < |es|
      ensures SameContent(p, v.height, v.round, es[i], es'[i])
    {
      SignItemsAt(p, c, v.height, v.round, es, i);
      SignItemsAt(p, c, v.height, v.round, es', i);
      ExtDigestBinds(p, c, v.height, v.round, es[i], es'[i]);
    }
  }

  /** So in every reachable bucket the precommits of one group carry the same extensions, one by one. */
  lemma GroupAgrees(cfg: Config, calls: seq<Call>, key: Bytes, i: nat, j: nat)
    requires HonestRun(cfg, calls) && cfg.typ == Precommit && key in Run(cfg, calls).buckets
    requires i < cfg.Size() && j < cfg.Size()
    requires var b := Run(cfg, calls).buckets[key];
             && b.votes[i].Some? && b.votes[j].Some?
             && GroupOf(cfg, b.votes[i].value) == GroupOf(cfg, b.votes[j].value)
             && var es, es' := Recoverables(b.votes[i].value.exts), Recoverables(b.votes[j].value.exts);
             forall e, e' :: e in es && e' in es' ==>
                  TellsExts(cfg.p, cfg.Context(), cfg.height, cfg.round, e, e')
    ensures var b := Run(cfg, calls).buckets[key];
            var es, es' := Recoverables(b.votes[i].value.exts), Recoverables(b.votes[j].value.exts);
            |es| == |es'| && forall k :: 0 <= k < |es| ==> SameContent(cfg.p, cfg.height, cfg.round, es[k], es'[k])
  {
    var b := Run(cfg, calls).buckets[key];
    assert BucketOk(cfg, key, b);
    hide Run;
    hide VerifyVote;
    hide Identity;
    hide Recoverables;
    hide TellsExts;
    hide SameContent;
    hide BlockID.Key;
    IdentityBinds(cfg.p, cfg.Context(), b.votes[i].value, b.votes[j].value);
  }

  /** A block signature and an extension signature of any rounds never stand for each other, unless the application
      chose the request. */
  lemma BlockIsNoExtension(p: Primitives, c: Context, b: Ballot, c': Context, height: int, round: int, e: Ext)
    requires e.typ != ThresholdRecoverRaw || e.requestID.None?
    requires NoCollision(p.checksum, {RequestInput(DPBVOTE, b.height, b.round), RequestInput(DPEVOTE, height, round)})
    requires TellsSessions(p, BallotSession(p, c, b), ExtSession(p, c', height, round, e))
    requires ExtSignItem(p, c', height, round, e).Some?
    ensures BallotDigest(p, c, b) != ExtSignItem(p, c', height, round, e).value.signHash
  {
    hide SignHash;
    var x, y := RequestInput(DPBVOTE, b.height, b.round), RequestInput(DPEVOTE, height, round);
    assert x[2] == 98 && y[2] == 101;
    hide RequestInput;
    RequestIDIs(p, DPBVOTE, b.height, b.round);
    ExtSessionIs(p, c', height, round, e);
    if HashOf(p, BallotSession(p, c, b)) == HashOf(p, ExtSession(p, c', height, round, e)) {
      HashBinds(p, BallotSession(p, c, b), ExtSession(p, c', height, round, e));
    }
  }

  /** A raw extension under a request of the application's own has one digest for all heights and rounds. */
  lemma OwnRequestUnbound(p: Primitives, c: Context, height: int, round: int, height': int, round': int, e: Ext)
    requires e.typ == ThresholdRecoverRaw && e.requestID.Some?
    ensures ExtSignItem(p, c, height, round, e) == ExtSignItem(p, c, height', round', e)
  {
  }

  /** One without is bound to its height and round. */
  lemma RoundRequestBinds(p: Primitives, c: Context, height: int, round: int, height': int, round': int, e: Ext)
    requires e.typ == ThresholdRecoverRaw && e.requestID.None? && Sized(height, round) && Sized(height', round')
    requires NoCollision(p.checksum, {RequestInput(DPEVOTE, height, round), RequestInput(DPEVOTE, height', round')})
    requires TellsSessions(p, ExtSession(p, c, height, round, e), ExtSession(p, c, height', round', e))
    requires |e.extension| == 32 && ExtSignItem(p, c, height, round, e) == ExtSignItem(p, c, height', round', e)
    ensures height == height' && round == round'
  {
    hide SignHash;
    hide RequestInput;
    ExtSessionIs(p, c, height, round, e);
    ExtSessionIs(p, c, height', round', e);
    HashBinds(p, ExtSession(p, c, height, round, e), ExtSession(p, c, height', round', e));
    RequestInputInjective(DPEVOTE, height, round, DPEVOTE, height', round');
  }

  // ---------------------------------------------------------------- the assumptions can be met

  /** The first 32 bytes, or what there is and zeros. */
  function Spread(x: Bytes): Hash32 {
    if |x| >= 32 then x[..32] else x + seq(32 - |x|, _ => 0)
  }

  /** Primitives that hash by copying and sign block hashes. */
  function Copying(p: Primitives): Primitives {
    p.(checksum := (x: Bytes) => Spread(x),
       buildSignHash := (t: LLMQType, q: Bytes, r: Bytes, m: Bytes) => Spread(m),
       voteSignBytes := (chainID: string, typ: MsgType, height: int, round: int, id: BlockID) => id.hash,
       verifyDigest := (key: PubKey, digest: Hash32, sig: Bytes) => sig == digest + digest + digest)
  }

  /** Two blocks of one round whose hashes differ are told apart by some primitives, and then no signature is good
      for both. */
  lemma BindingMet(p: Primitives, c: Context, b: Ballot, id: BlockID, key: PubKey, sig: Bytes)
    requires |b.id.hash| == |id.hash| == 32 && b.id.hash[31] != 0 && id.hash[31] != 0 && b.id.hash != id.hash
    ensures var b' := b.(id := id);
            && TellsBallots(Copying(p), c, b, c, b')
            && SignsOne(Copying(p), key, sig, BallotDigest(Copying(p), c, b), BallotDigest(Copying(p), c, b'))
  {
    hide LittleEndian;
    var q, b' := Copying(p), b.(id := id);
    var x: Bytes, y: Bytes, z: Bytes := b.id.hash, id.hash, RequestInput(DPBVOTE, b.height, b.round);
    assert x[..32] == x && y[..32] == y;
    assert q.checksum(z)[31] == 0;
    assert BallotInputs(q, c, b) + BallotInputs(q, c, b') == {x, y, z};
    assert Reverse(x)[..32] == Reverse(x) && Reverse(y)[..32] == Reverse(y);
    var d: Bytes, d': Bytes := BallotDigest(q, c, b), BallotDigest(q, c, b');
    if sig == d + d + d && sig == d' + d' + d' {
      assert sig[..32] == d && sig[..32] == d';
    }
  }
}
