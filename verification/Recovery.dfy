/** Threshold recovery of the block signature and of the vote-extension signatures
    (types/signs_recoverer.go, types/vote_extension.go). */
module Recovery {
  import opened Prelude
  import opened BlockIDs
  import opened Signing

  /** An extension and the shares collected for it, by validator. */
  datatype SharedExt = SharedExt(ext: Ext, shares: map<Bytes, Bytes>)

  datatype Shares = Shares(blockSigns: seq<Bytes>, proTxHashes: seq<Bytes>, exts: seq<SharedExt>)

  const NO_SHARES := Shares([], [], [])

  function WithShare(base: seq<SharedExt>, proTxHash: Bytes, es: seq<Ext>): (r: seq<SharedExt>)
    requires |base| == |es|
    ensures |r| == |base| && forall i :: 0 <= i < |r| ==> r[i].ext == base[i].ext
  {
    seq(|base|, i requires 0 <= i < |base| => SharedExt(base[i].ext, base[i].shares[proTxHash := es[i].signature]))
  }

  predicate ShareSizesOk(proTxHash: Bytes, es: seq<Ext>) {
    |proTxHash| == PRO_TX_HASH_SIZE && forall i :: 0 <= i < |es| ==> |es[i].signature| == SIGNATURE_SIZE
  }

  /** The extension vector recovery works on: the first contributing vote's. */
  function BaseExts(acc: seq<SharedExt>, es: seq<Ext>): (r: seq<SharedExt>) {
    if acc == [] then seq(|es|, i requires 0 <= i < |es| => SharedExt(es[i], map[])) else acc
  }

  /** `addVoteSigs`: `None` when the vote makes recovery fail. */
  function AddVoteShares(acc: Shares, v: Vote, voters: set<Bytes>): Option<Shares> {
    var acc := acc.(blockSigns := acc.blockSigns + [v.blockSign], proTxHashes := acc.proTxHashes + [v.proTxHash]);
    var es := Recoverables(v.exts);
    if v.proTxHash !in voters || v.exts == [] then Some(acc)
    else if v.typ != Precommit || v.blockID.IsNil() then None
    else if es == [] then Some(acc)
    else
      var base := BaseExts(acc.exts, es);
      if |es| != |base| || !ShareSizesOk(v.proTxHash, es) then None
      else Some(acc.(exts := WithShare(base, v.proTxHash, es)))
  }

  /** `SignsRecoverer.init` over the first votes of a bucket. */
  function CollectShares(votes: seq<Option<Vote>>, voters: set<Bytes>): Option<Shares> {
    if votes == [] then Some(NO_SHARES)
    else
      var n := |votes| - 1;
      match CollectShares(votes[..n], voters)
      case None => None
      case Some(acc) => if votes[n].None? then Some(acc) else AddVoteShares(acc, votes[n].value, voters)
  }

  function RecoverExtSigns(p: Primitives, exts: seq<SharedExt>): (r: Option<seq<Bytes>>)
    ensures r.Some? ==> |r.value| == |exts|
  {
    if exts == [] then Some([])
    else
      var n := |exts| - 1;
      match RecoverExtSigns(p, exts[..n])
      case None => None
      case Some(sigs) =>
        if exts[n].shares == map[] then None
        else
          match p.recoverExtensionSign(exts[n].shares)
          case None => None
          case Some(sig) => Some(sigs + [sig])
  }

  /** `Recover`: extension signatures are recovered only for a non-nil block. */
  function RecoverSigns(p: Primitives, shares: Shares, quorumReached: bool): Option<QuorumSigns> {
    match p.recoverBlockSign(shares.blockSigns, shares.proTxHashes)
    case None => None
    case Some(block) =>
      if !quorumReached then Some(QuorumSigns(block, []))
      else
        match RecoverExtSigns(p, shares.exts)
        case None => None
        case Some(sigs) => Some(QuorumSigns(block, sigs))
  }

  function WithSignatures(exts: seq<SharedExt>, sigs: seq<Bytes>): (r: seq<Ext>)
    requires |exts| == |sigs|
    ensures |r| == |exts| && Signatures(r) == sigs
    ensures forall i :: 0 <= i < |r| ==> r[i].Unsigned() == exts[i].ext.Unsigned()
  {
    seq(|exts|, i requires 0 <= i < |exts| => exts[i].ext.(signature := sigs[i]))
  }

  /** The recovered extensions are those of a contributing vote, and if there are none then no
      contributing vote had any. */
  ghost predicate FromVoter(exts: seq<SharedExt>, votes: seq<Option<Vote>>, voters: set<Bytes>, j: int) {
    && 0 <= j < |votes| && votes[j].Some? && votes[j].value.proTxHash in voters
    && !votes[j].value.blockID.IsNil()
    && |exts| == |Recoverables(votes[j].value.exts)|
    && forall i :: 0 <= i < |exts| ==> exts[i].ext == Recoverables(votes[j].value.exts)[i]
  }

  lemma {:induction false} CollectedExts(votes: seq<Option<Vote>>, voters: set<Bytes>)
    requires CollectShares(votes, voters).Some?
    ensures var exts := CollectShares(votes, voters).value.exts;
            && (exts != [] ==> exists j :: FromVoter(exts, votes, voters, j))
            && (exts == [] ==>
                  forall j :: 0 <= j < |votes| && votes[j].Some? && votes[j].value.proTxHash in voters ==>
                    Recoverables(votes[j].value.exts) == [])
  {
    if votes == [] {
    } else {
      var n := |votes| - 1;
      var init := votes[..n];
      CollectedExts(init, voters);
      var before := CollectShares(init, voters).value.exts;
      var exts := CollectShares(votes, voters).value.exts;
      if exts != [] {
        if before != [] {
          var j :| FromVoter(before, init, voters, j);
          assert votes[j] == init[j];
          assert FromVoter(exts, votes, voters, j);
        } else {
          assert FromVoter(exts, votes, voters, n);
        }
      } else {
        forall j | 0 <= j < |votes| && votes[j].Some? && votes[j].value.proTxHash in voters
          ensures Recoverables(votes[j].value.exts) == []
        {
          if j < n {
            assert votes[j] == init[j];
          }
        }
      }
    }
  }
}
