/** What votes and commits sign, and how the signatures are checked
    (types/vote.go, types/vote_extension.go, types/quorum_sign_data.go, types/block.go, types/quorum.go). */
module Signing {
  import opened Prelude
  import opened BlockIDs

  const MAX_VOTE_EXTENSIONS := 32
  const SIGNATURE_SIZE := 96
  const PUB_KEY_SIZE := 48
  const PRO_TX_HASH_SIZE := 32

  datatype MsgType = Prevote | Precommit | OtherMsgType(code: int)

  datatype LLMQType =
    | LLMQ_50_60 | LLMQ_400_60 | LLMQ_400_85 | LLMQ_100_67 | LLMQ_60_75 | LLMQ_25_67
    | LLMQ_DEVNET | LLMQ_TEST_V17 | LLMQ_TEST_DIP0024 | LLMQ_TEST_INSTANTSEND
    | LLMQ_DEVNET_DIP0024 | LLMQ_TEST_PLATFORM | LLMQ_DEVNET_PLATFORM
    | LLMQ_OTHER(code: int)

  datatype PubKey = PubKey(keyType: nat, bytes: Bytes)

  /** Foreign calls: hashing, canonical marshalling, BLS verification and BLS share recovery. */
  datatype Primitives = Primitives(
    checksum: Bytes -> Hash32,
    buildSignHash: (LLMQType, Bytes, Bytes, Bytes) -> Hash32,
    voteSignBytes: (string, MsgType, int, int, BlockID) -> Bytes,
    extensionSignBytes: (string, ExtType, Bytes, int, int) -> Bytes,
    verifyDigest: (PubKey, Hash32, Bytes) -> bool,
    recoverBlockSign: (seq<Bytes>, seq<Bytes>) -> Option<Bytes>,
    recoverExtensionSign: map<Bytes, Bytes> -> Option<Bytes>)

  /** The chain and quorum a signature is bound to. */
  datatype Context = Context(chainID: string, llmqType: LLMQType, quorumHash: Hash32)

  // ---------------------------------------------------------------- vote extensions

  datatype ExtType = Default | ThresholdRecover | ThresholdRecoverRaw

  /** A request ID that is not set, or is set to nil bytes so that its size is 0, is `None`; an empty one that is
      not nil is `Some([])`. */
  datatype Ext = Ext(typ: ExtType, extension: Bytes, signature: Bytes, requestID: Option<Bytes>) {
    predicate Recoverable() {
      typ != Default
    }

    /** The extension without its signature. */
    function Unsigned(): Ext {
      this.(signature := [])
    }
  }

  /** A decoded protobuf extension: an entry may be nil and its type may be undefined. */
  datatype ProtoExt =
    | NilProtoExt
    | ProtoExt(code: int, extension: Bytes, signature: Bytes, requestID: Option<Bytes>)

  function TypeCode(t: ExtType): nat {
    match t
    case Default => 0
    case ThresholdRecover => 1
    case ThresholdRecoverRaw => 2
  }

  function ToProto(e: Ext): ProtoExt {
    ProtoExt(TypeCode(e.typ), e.extension, e.signature, e.requestID)
  }

  function FromProto(e: ProtoExt): Option<Ext> {
    match e
    case NilProtoExt => None
    case ProtoExt(code, extension, signature, requestID) =>
      if code == 0 then Some(Ext(Default, extension, signature, requestID))
      else if code == 1 then Some(Ext(ThresholdRecover, extension, signature, requestID))
      else if code == 2 then Some(Ext(ThresholdRecoverRaw, extension, signature, requestID))
      else None
  }

  function ExtsFromProto(es: seq<ProtoExt>): (r: Option<seq<Ext>>)
    ensures r.Some? ==> |r.value| == |es|
  {
    if es == [] then Some([])
    else
      match (FromProto(es[0]), ExtsFromProto(es[1..]))
      case (Some(e), Some(rest)) => Some([e] + rest)
      case _ => None
  }

  function ExtsToProto(es: seq<Ext>): (r: seq<ProtoExt>)
    ensures |r| == |es|
  {
    seq(|es|, i requires 0 <= i < |es| => ToProto(es[i]))
  }

  lemma {:induction false} ProtoRoundTrip(es: seq<Ext>)
    ensures ExtsFromProto(ExtsToProto(es)) == Some(es)
  {
    if es == [] {
    } else {
      assert ExtsToProto(es)[1..] == ExtsToProto(es[1..]);
      ProtoRoundTrip(es[1..]);
      assert [es[0]] + es[1..] == es;
    }
  }

  function Recoverables(es: seq<Ext>): (r: seq<Ext>)
    ensures |r| <= |es|
    ensures forall e :: e in r ==> e.Recoverable() && e in es
  {
    if es == [] then []
    else (if es[0].Recoverable() then [es[0]] else []) + Recoverables(es[1..])
  }

  lemma {:induction false} RecoverablesAll(es: seq<Ext>)
    requires forall i :: 0 <= i < |es| ==> es[i].Recoverable()
    ensures Recoverables(es) == es
  {
    if es == [] {
    } else {
      RecoverablesAll(es[1..]);
    }
  }

  function Signatures(es: seq<Ext>): (r: seq<Bytes>)
    ensures |r| == |es|
  {
    seq(|es|, i requires 0 <= i < |es| => es[i].signature)
  }

  // ---------------------------------------------------------------- sign items

  datatype SignItem = SignItem(signHash: Hash32, msg: Bytes)

  /** The low `k` bytes of `n`, least significant first, in two's complement. */
  function LittleEndian(n: int, k: nat): (r: Bytes)
    ensures |r| == k
    decreases k
  {
    if k == 0 then [] else [n % 256] + LittleEndian(n / 256, k - 1)
  }

  const DPBVOTE: Bytes := [100, 112, 98, 118, 111, 116, 101]
  const DPEVOTE: Bytes := [100, 112, 101, 118, 111, 116, 101]

  function RequestID(p: Primitives, prefix: Bytes, height: int, round: int): Hash32 {
    p.checksum(prefix + LittleEndian(height, 8) + LittleEndian(round, 4))
  }

  /** DIP-0007 sign hash: every byte string is reversed before hashing. */
  function SignHash(p: Primitives, c: Context, requestID: Bytes, msgHash: Bytes): Hash32 {
    p.buildSignHash(c.llmqType, Reverse(c.quorumHash), Reverse(requestID), Reverse(msgHash))
  }

  function BlockSignItem(p: Primitives, c: Context, typ: MsgType, height: int, round: int, id: BlockID): SignItem {
    var msg := p.voteSignBytes(c.chainID, typ, height, round, id);
    SignItem(SignHash(p, c, RequestID(p, DPBVOTE, height, round), p.checksum(msg)), msg)
  }

  function ExtSignItem(p: Primitives, c: Context, height: int, round: int, e: Ext): Option<SignItem> {
    match e.typ
    case ThresholdRecoverRaw =>
      if |e.extension| != 32 then None
      else
        var requestID := match e.requestID
          case Some(id) => Reverse(p.checksum(p.checksum(id)))
          case None => RequestID(p, DPEVOTE, height, round);
        Some(SignItem(SignHash(p, c, requestID, Reverse(e.extension)), []))
    case _ =>
      var msg := p.extensionSignBytes(c.chainID, e.typ, e.extension, height, round);
      Some(SignItem(SignHash(p, c, RequestID(p, DPEVOTE, height, round), p.checksum(msg)), msg))
  }

  function SignItems(p: Primitives, c: Context, height: int, round: int, es: seq<Ext>): (r: Option<seq<SignItem>>)
    ensures r.Some? ==> |r.value| == |es|
  {
    if es == [] then Some([])
    else
      match (ExtSignItem(p, c, height, round, es[0]), SignItems(p, c, height, round, es[1..]))
      case (Some(item), Some(rest)) => Some([item] + rest)
      case _ => None
  }

  /** Extensions have something to sign if and only if every raw one is a hash. */
  lemma {:induction false} SignItemsIff(p: Primitives, c: Context, height: int, round: int, es: seq<Ext>)
    ensures SignItems(p, c, height, round, es).Some? <==>
              forall i :: 0 <= i < |es| && es[i].typ == ThresholdRecoverRaw ==> |es[i].extension| == 32
  {
    if es == [] {
    } else {
      SignItemsIff(p, c, height, round, es[1..]);
      assert forall i :: 1 <= i < |es| ==> es[i] == es[1..][i - 1];
    }
  }

  /** A signature is no part of what is signed. */
  lemma {:induction false} SignItemsIgnoreSignatures(p: Primitives, c: Context, height: int, round: int, a: seq<Ext>,
                                                     b: seq<Ext>)
    requires |a| == |b| && forall i :: 0 <= i < |a| ==> a[i].Unsigned() == b[i].Unsigned()
    ensures SignItems(p, c, height, round, a) == SignItems(p, c, height, round, b)
  {
    if a == [] {
    } else {
      assert a[0].Unsigned() == b[0].Unsigned();
      SignItemsIgnoreSignatures(p, c, height, round, a[1..], b[1..]);
    }
  }

  // ---------------------------------------------------------------- signature checks

  datatype QuorumSignData = QuorumSignData(block: SignItem, exts: seq<SignItem>)

  datatype QuorumSigns = QuorumSigns(block: Bytes, exts: seq<Bytes>)

  datatype VerifyError =
    | TooManyExtensions | NoSignData | WrongProTxHash | MissingPubKey | BadPubKeySize | UnexpectedExtensions
    | BudgetExhausted | InvalidBlockSignature | CountMismatch | InvalidExtension(index: nat)

  /** The answers a verification budget gives to the block check and to the extension check. */
  datatype Permits = Permits(block: bool, exts: bool)

  function MakeQuorumSigns(p: Primitives, c: Context, typ: MsgType, height: int, round: int, id: BlockID,
                           exts: seq<Ext>)
    : Option<QuorumSignData>
  {
    match SignItems(p, c, height, round, Recoverables(exts))
    case Some(items) => Some(QuorumSignData(BlockSignItem(p, c, typ, height, round, id), items))
    case None => None
  }

  function MakeVerifyQuorumSigns(p: Primitives, c: Context, typ: MsgType, height: int, round: int, id: BlockID,
                                 exts: seq<Ext>)
    : Result<QuorumSignData, VerifyError>
  {
    if |exts| > MAX_VOTE_EXTENSIONS then Err(TooManyExtensions)
    else
      match MakeQuorumSigns(p, c, typ, height, round, id, exts)
      case Some(data) => Ok(data)
      case None => Err(NoSignData)
  }

  predicate VerifySignature(p: Primitives, key: PubKey, item: SignItem, sig: Bytes) {
    |sig| == SIGNATURE_SIZE && p.verifyDigest(key, item.signHash, sig)
  }

  /** The index of the first extension whose signature is invalid, or the number of extensions. */
  function FirstInvalid(p: Primitives, key: PubKey, items: seq<SignItem>, sigs: seq<Bytes>): (r: nat)
    requires |items| == |sigs|
    ensures r <= |items|
    ensures forall i :: 0 <= i < r ==> VerifySignature(p, key, items[i], sigs[i])
    ensures r < |items| ==> !VerifySignature(p, key, items[r], sigs[r])
  {
    if items == [] || !VerifySignature(p, key, items[0], sigs[0]) then 0
    else 1 + FirstInvalid(p, key, items[1..], sigs[1..])
  }

  function VerifyQuorum(p: Primitives, key: PubKey, data: QuorumSignData, sigs: QuorumSigns, budget: Option<Permits>)
    : Option<VerifyError>
  {
    if budget.Some? && !budget.value.block then Some(BudgetExhausted)
    else if !VerifySignature(p, key, data.block, sigs.block) then Some(InvalidBlockSignature)
    else if |data.exts| != |sigs.exts| then Some(CountMismatch)
    else if budget.Some? && |data.exts| > 0 && !budget.value.exts then Some(BudgetExhausted)
    else
      var i := FirstInvalid(p, key, data.exts, sigs.exts);
      if i < |data.exts| then Some(InvalidExtension(i)) else None
  }

  /** The signatures are those of this key over exactly this data. */
  ghost predicate Signed(p: Primitives, key: PubKey, data: QuorumSignData, sigs: QuorumSigns) {
    && VerifySignature(p, key, data.block, sigs.block)
    && |data.exts| == |sigs.exts|
    && forall i :: 0 <= i < |data.exts| ==> VerifySignature(p, key, data.exts[i], sigs.exts[i])
  }

  /** Checking the block first and stopping early changes the work, not the verdict; a budget can only
      refuse, and refuses exactly when it denies a permit the check goes on to need. */
  lemma VerifyQuorumMeaning(p: Primitives, key: PubKey, data: QuorumSignData, sigs: QuorumSigns,
                            budget: Option<Permits>)
    ensures VerifyQuorum(p, key, data, sigs, None).None? <==> Signed(p, key, data, sigs)
    ensures VerifyQuorum(p, key, data, sigs, budget) != VerifyQuorum(p, key, data, sigs, None) ==>
              VerifyQuorum(p, key, data, sigs, budget) == Some(BudgetExhausted)
    ensures VerifyQuorum(p, key, data, sigs, budget).None? <==>
              && Signed(p, key, data, sigs)
              && (budget.Some? ==> budget.value.block && (|data.exts| > 0 ==> budget.value.exts))
  {
    if VerifySignature(p, key, data.block, sigs.block) && |data.exts| == |sigs.exts| {
      var i := FirstInvalid(p, key, data.exts, sigs.exts);
      assert i < |data.exts| ==> !VerifySignature(p, key, data.exts[i], sigs.exts[i]);
    }
  }

  /** Each error names what is wrong, and an invalid extension is the first one. */
  lemma VerifyQuorumErrors(p: Primitives, key: PubKey, data: QuorumSignData, sigs: QuorumSigns,
                           budget: Option<Permits>)
    ensures var r := VerifyQuorum(p, key, data, sigs, budget);
            var good := VerifySignature(p, key, data.block, sigs.block);
            && (r == Some(InvalidBlockSignature) <==> !good && (budget.Some? ==> budget.value.block))
            && (r == Some(CountMismatch) <==>
                  good && |data.exts| != |sigs.exts| && (budget.Some? ==> budget.value.block))
            && (r == Some(BudgetExhausted) ==> budget.Some? && !(budget.value.block && budget.value.exts))
            && (r.Some? && r.value.InvalidExtension? ==>
                  var i := r.value.index;
                  && good && i < |data.exts| == |sigs.exts| && !VerifySignature(p, key, data.exts[i], sigs.exts[i])
                  && forall j :: 0 <= j < i ==> VerifySignature(p, key, data.exts[j], sigs.exts[j]))
  {
    if |data.exts| == |sigs.exts| {
      var i := FirstInvalid(p, key, data.exts, sigs.exts);
    }
  }

  // ---------------------------------------------------------------- votes

  datatype Vote = Vote(typ: MsgType, height: int, round: int, blockID: BlockID, proTxHash: Bytes, index: int,
                       blockSign: Bytes, exts: seq<Ext>)

  function VoteSignData(p: Primitives, c: Context, v: Vote): Result<QuorumSignData, VerifyError> {
    MakeVerifyQuorumSigns(p, c, v.typ, v.height, v.round, v.blockID, v.exts)
  }

  function VoteSigns(v: Vote): QuorumSigns {
    QuorumSigns(v.blockSign, Signatures(Recoverables(v.exts)))
  }

  function VerifyBasic(v: Vote, proTxHash: Bytes, key: Option<PubKey>): Option<VerifyError> {
    if proTxHash != v.proTxHash then Some(WrongProTxHash)
    else if key.None? then Some(MissingPubKey)
    else if |key.value.bytes| != PUB_KEY_SIZE then Some(BadPubKeySize)
    else if v.typ != Precommit && v.exts != [] then Some(UnexpectedExtensions)
    else None
  }

  /** `Vote.verifyReportingSigns`: on success, the data that was checked. */
  function VerifyVote(p: Primitives, c: Context, v: Vote, key: Option<PubKey>, proTxHash: Bytes,
                      budget: Option<Permits>)
    : Result<QuorumSignData, VerifyError>
  {
    match VoteSignData(p, c, v)
    case Err(e) => Err(e)
    case Ok(data) =>
      match VerifyBasic(v, proTxHash, key)
      case Some(e) => Err(e)
      case None =>
        match VerifyQuorum(p, key.value, data, VoteSigns(v), budget)
        case Some(e) => Err(e)
        case None => Ok(data)
  }

  /** A vote is good if and only if it names its validator, the validator's key has the right size, only a precommit
      carries extensions, not too many and each with something to sign, and every signature is the validator's. */
  lemma VerifiedIff(p: Primitives, c: Context, v: Vote, key: Option<PubKey>, proTxHash: Bytes)
    ensures VerifyVote(p, c, v, key, proTxHash, None).Ok? <==>
              && v.proTxHash == proTxHash && key.Some? && |key.value.bytes| == PUB_KEY_SIZE
              && (v.exts == [] || v.typ == Precommit) && |v.exts| <= MAX_VOTE_EXTENSIONS
              && var items := SignItems(p, c, v.height, v.round, Recoverables(v.exts));
              items.Some? &&
              Signed(p, key.value,
                     QuorumSignData(BlockSignItem(p, c, v.typ, v.height, v.round, v.blockID), items.value),
                     QuorumSigns(v.blockSign, Signatures(Recoverables(v.exts))))
  {
    hide VerifyQuorum;
    hide Signed;
    hide SignItems;
    hide BlockSignItem;
    var data := VoteSignData(p, c, v);
    if data.Ok? && key.Some? {
      VerifyQuorumMeaning(p, key.value, data.value, VoteSigns(v), None);
    }
  }

  // ---------------------------------------------------------------- extension identity

  function BigEndian4(n: nat): (r: Bytes)
    requires n < 256
    ensures |r| == 4
  {
    [0, 0, 0, n]
  }

  /** The ordered vector of (type, sign hash) pairs, 36 bytes each. */
  function EncodeIdentity(es: seq<Ext>, items: seq<SignItem>): (r: Bytes)
    requires |es| == |items|
    ensures |r| == 36 * |es|
  {
    if es == [] then []
    else BigEndian4(TypeCode(es[0].typ)) + items[0].signHash + EncodeIdentity(es[1..], items[1..])
  }

  /** `VoteSet.voteExtensionIdentity`. */
  function Identity(p: Primitives, c: Context, v: Vote): Option<Bytes> {
    var es := Recoverables(v.exts);
    match SignItems(p, c, v.height, v.round, es)
    case Some(items) => Some(EncodeIdentity(es, items))
    case None => None
  }

  /** The identity names the whole ordered vector of signed extensions: equal strings, equal vectors. */
  lemma {:induction false} IdentityInjective(a: seq<Ext>, x: seq<SignItem>, b: seq<Ext>, y: seq<SignItem>)
    requires |a| == |x| && |b| == |y| && EncodeIdentity(a, x) == EncodeIdentity(b, y)
    ensures |a| == |b|
    ensures forall i :: 0 <= i < |a| ==> a[i].typ == b[i].typ && x[i].signHash == y[i].signHash
  {
    if a == [] {
    } else {
      var s := EncodeIdentity(a, x);
      var ta, tb := TypeCode(a[0].typ), TypeCode(b[0].typ);
      assert s[3] == ta && s[3] == tb;
      assert s[4..36] == x[0].signHash && s[4..36] == y[0].signHash;
      assert s[36..] == EncodeIdentity(a[1..], x[1..]) && s[36..] == EncodeIdentity(b[1..], y[1..]);
      IdentityInjective(a[1..], x[1..], b[1..], y[1..]);
      forall i | 0 <= i < |a|
        ensures a[i].typ == b[i].typ && x[i].signHash == y[i].signHash
      {
        if i > 0 {
          assert a[i] == a[1..][i - 1] && b[i] == b[1..][i - 1] && x[i] == x[1..][i - 1] && y[i] == y[1..][i - 1];
        }
      }
    }
  }

  /** A vote that verifies has an identity: the error path after verification is dead. */
  lemma VerifiedHasIdentity(p: Primitives, c: Context, v: Vote, key: Option<PubKey>, proTxHash: Bytes,
                            budget: Option<Permits>)
    requires VerifyVote(p, c, v, key, proTxHash, budget).Ok?
    ensures Identity(p, c, v).Some?
  {
    assert SignItems(p, c, v.height, v.round, Recoverables(v.exts)).Some?;
  }
}
