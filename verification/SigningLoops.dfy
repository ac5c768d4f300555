/** The loops behind sign data and signature checks, each proved against its function
    (types/quorum_sign_data.go, types/vote_extension.go, types/vote_verification.go, types/quorum.go). */
module SigningLoops {
  import opened Prelude
  import opened BlockIDs
  import opened Signing
  import opened Evidence
  import opened CommitPipeline

  lemma {:induction false} RecoverablesSnoc(es: seq<Ext>, e: Ext)
    ensures Recoverables(es + [e]) == Recoverables(es) + if e.Recoverable() then [e] else []
  {
    var last := if e.Recoverable() then [e] else [];
    if es == [] {
      assert [] + [e] == [e];
      assert Recoverables([e]) == last;
    } else {
      var first := if es[0].Recoverable() then [es[0]] else [];
      assert (es + [e])[1..] == es[1..] + [e];
      RecoverablesSnoc(es[1..], e);
      assert Recoverables(es + [e]) == first + (Recoverables(es[1..]) + last);
      Assoc(first, Recoverables(es[1..]), last);
    }
  }

  /** `Filter` by recoverability. */
  method FilterRecoverable(es: seq<Ext>) returns (r: seq<Ext>)
    ensures r == Recoverables(es)
  {
    r := [];
    for i := 0 to |es|
      invariant r == Recoverables(es[..i])
    {
      RecoverablesSnoc(es[..i], es[i]);
      assert es[..i + 1] == es[..i] + [es[i]];
      if es[i].Recoverable() {
        r := r + [es[i]];
      }
    }
    assert es[..|es|] == es;
  }

  lemma {:induction false} SignItemsSnoc(p: Primitives, c: Context, height: int, round: int, es: seq<Ext>, e: Ext)
    requires SignItems(p, c, height, round, es).Some?
    ensures SignItems(p, c, height, round, es + [e]) ==
      (var item := ExtSignItem(p, c, height, round, e);
       if item.Some? then Some(SignItems(p, c, height, round, es).value + [item.value]) else None)
  {
    hide ExtSignItem;
    var item := ExtSignItem(p, c, height, round, e);
    if es == [] {
      assert es + [e] == [e];
      assert SignItems(p, c, height, round, [e][1..]) == Some([]);
      if item.Some? {
        assert [item.value] + [] == [item.value] == [] + [item.value];
      }
    } else {
      assert (es + [e])[1..] == es[1..] + [e];
      SignItemsSnoc(p, c, height, round, es[1..], e);
      if item.Some? {
        Assoc([ExtSignItem(p, c, height, round, es[0]).value], SignItems(p, c, height, round, es[1..]).value,
              [item.value]);
      }
    }
  }

  lemma {:induction false} SignItemsPrefix(p: Primitives, c: Context, height: int, round: int, es: seq<Ext>, n: nat)
    requires n <= |es| && SignItems(p, c, height, round, es).Some?
    ensures SignItems(p, c, height, round, es[..n]).Some?
  {
    hide ExtSignItem;
    if n == 0 {
    } else {
      assert es[..n][1..] == es[1..][..n - 1];
      SignItemsPrefix(p, c, height, round, es[1..], n - 1);
    }
  }

  /** `VoteExtensions.SignItems`: the items in order, or an error as soon as an extension has none. */
  method MakeSignItems(p: Primitives, c: Context, height: int, round: int, es: seq<Ext>)
      returns (r: Option<seq<SignItem>>)
    ensures r == SignItems(p, c, height, round, es)
  {
    hide ExtSignItem;
    var items: seq<SignItem> := [];
    for i := 0 to |es|
      invariant SignItems(p, c, height, round, es[..i]) == Some(items)
    {
      SignItemsSnoc(p, c, height, round, es[..i], es[i]);
      assert es[..i + 1] == es[..i] + [es[i]];
      var item := ExtSignItem(p, c, height, round, es[i]);
      if item.None? {
        if SignItems(p, c, height, round, es).Some? {
          SignItemsPrefix(p, c, height, round, es, i + 1);
        }
        return None;
      }
      items := items + [item.value];
    }
    assert es[..|es|] == es;
    return Some(items);
  }

  /** `QuorumSignData.verify`: the block first, then the extensions up to the first bad one. */
  method Verify(p: Primitives, key: PubKey, data: QuorumSignData, sigs: QuorumSigns, budget: Option<Permits>)
      returns (err: Option<VerifyError>)
    ensures err == VerifyQuorum(p, key, data, sigs, budget)
    ensures err.None? ==> Signed(p, key, data, sigs)
  {
    VerifyQuorumMeaning(p, key, data, sigs, budget);
    hide VerifySignature;
    if budget.Some? && !budget.value.block {
      return Some(BudgetExhausted);
    }
    if !VerifySignature(p, key, data.block, sigs.block) {
      return Some(InvalidBlockSignature);
    }
    if |data.exts| != |sigs.exts| {
      return Some(CountMismatch);
    }
    if budget.Some? && |data.exts| > 0 && !budget.value.exts {
      return Some(BudgetExhausted);
    }
    for i := 0 to |data.exts|
      invariant forall k :: 0 <= k < i ==> VerifySignature(p, key, data.exts[k], sigs.exts[k])
    {
      if !VerifySignature(p, key, data.exts[i], sigs.exts[i]) {
        return Some(InvalidExtension(i));
      }
    }
    return None;
  }

  /** `signedContent`. */
  method SignedContent(data: QuorumSignData, sigs: QuorumSigns)
      returns (signHashes: seq<Hash32>, signatures: seq<Bytes>)
    ensures signHashes == SignHashes(data) && signatures == SignatureList(sigs)
  {
    signHashes := [data.block.signHash];
    for i := 0 to |data.exts|
      invariant signHashes == SignHashes(data)[..i + 1]
    {
      signHashes := signHashes + [data.exts[i].signHash];
    }
    signatures := [sigs.block];
    for i := 0 to |sigs.exts|
      invariant signatures == SignatureList(sigs)[..i + 1]
    {
      signatures := signatures + [sigs.exts[i]];
    }
  }

  /** `equalByteSlices`. */
  method EqualByteSlices(left: seq<Bytes>, right: seq<Bytes>) returns (equal: bool)
    ensures equal <==> left == right
  {
    if |left| != |right| {
      return false;
    }
    for i := 0 to |left|
      invariant forall k :: 0 <= k < i ==> left[k] == right[k]
    {
      if left[i] != right[i] {
        return false;
      }
    }
    return true;
  }

  /** The loop of `CopyToCommit`; `None` is its panic. */
  method CopySigns(es: seq<Ext>, sigs: seq<Bytes>) returns (r: Option<seq<ProtoExt>>)
    ensures r == if |sigs| != |es| then None else Some(WithProtoSigns(es, sigs))
  {
    if |sigs| != |es| {
      return None;
    }
    var exts := ExtsToProto(es);
    for i := 0 to |sigs|
      invariant |exts| == |es|
      invariant forall k :: 0 <= k < |es| ==> exts[k] == if k < i then WithProtoSigns(es, sigs)[k] else ToProto(es[k])
    {
      exts := exts[i := exts[i].(signature := sigs[i])];
    }
    assert exts == WithProtoSigns(es, sigs);
    return Some(exts);
  }
}
