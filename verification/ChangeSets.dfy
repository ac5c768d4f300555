/** `ValidatorSet` as an object updated by change sets (types/validator_set.go). */
module ChangeSets {
  import opened Prelude
  import opened Signing
  import opened Sorting
  import opened Validators
  import opened ValidatorUpdates

  /** What the changes say about one hash, over what the set had. */
  function Overridden(before: List, changes: List, key: Bytes): Option<Validator> {
    match Lookup(changes, key)
    case None => Lookup(before, key)
    case Some(c) => if c.power == 0 then None else Some(c)
  }

  /** The map of the list is the old map overridden by the updates and without the removals. */
  ghost predicate Updated(before: List, changes: List, after: List) {
    && after != []
    && StrictlySorted(after)
    && FullPowers(after)
    && |after| == SizeAfter(before, changes)
    && forall key :: Lookup(after, key) == Overridden(before, changes, key)
  }

  /** There is only one list a change set can lead to. */
  lemma UpdatedUnique(before: List, changes: List, a: List, b: List)
    requires Updated(before, changes, a) && Updated(before, changes, b)
    ensures a == b
  {
    SortedUnique(a, b);
  }

  /** The split of the changes that `processChanges` delivers. */
  ghost predicate Split(changes: List, updates: List, deletes: List) {
    && DistinctHashes(changes)
    && StrictlySorted(updates) && StrictlySorted(deletes)
    && (forall v :: v in updates <==> v in changes && v.power != 0)
    && (forall v :: v in deletes <==> v in changes && v.power == 0)
    && |deletes| == Sum(changes, IsRemoval)
    && forall vs :: NumNew(updates, vs) == Sum(changes, IsNew(vs))
  }

  lemma SplitLookup(changes: List, updates: List, deletes: List, key: Bytes)
    requires Split(changes, updates, deletes)
    ensures Lookup(updates, key) == (var c := Lookup(changes, key); if c.Some? && c.value.power != 0 then c else None)
    ensures Lookup(deletes, key) == (var c := Lookup(changes, key); if c.Some? && c.value.power == 0 then c else None)
  {
    SortedDistinct(updates);
    SortedDistinct(deletes);
    if Lookup(changes, key).Some? {
      var c := Lookup(changes, key).value;
      if c.power != 0 {
        DistinctLookup(updates, c);
      } else {
        DistinctLookup(deletes, c);
      }
    }
    if Lookup(updates, key).Some? {
      DistinctLookup(changes, Lookup(updates, key).value);
    }
    if Lookup(deletes, key).Some? {
      DistinctLookup(changes, Lookup(deletes, key).value);
    }
  }

  lemma {:induction false} NumNewSame(updates: List, a: List, b: List)
    requires forall key :: Lookup(a, key) == Lookup(b, key)
    ensures NumNew(updates, a) == NumNew(updates, b)
  {
    if updates == [] {
    } else {
      assert Lookup(a, updates[0].proTxHash) == Lookup(b, updates[0].proTxHash);
      NumNewSame(updates[1..], a, b);
    }
  }

  lemma MergeFullPowers(sorted: List, updates: List, deletes: List)
    requires FullPowers(sorted) && FullPowers(updates)
    ensures FullPowers(Remove(Merge(sorted, updates), deletes))
  {
    MergeMembers(sorted, updates);
    RemoveSubset(Merge(sorted, updates), deletes);
  }

  /** After the merge every removal is still there to be removed. */
  lemma MergeCovers(sorted: List, updates: List, deletes: List)
    requires StrictlySorted(sorted) && StrictlySorted(updates) && Covers(sorted, deletes)
    ensures Covers(Merge(sorted, updates), deletes)
  {
    forall d | d in deletes
      ensures Lookup(Merge(sorted, updates), d.proTxHash).Some?
    {
      MergeOverrides(sorted, updates, d.proTxHash);
    }
  }

  /** Merging the updates and then removing the removals is the update of the map. */
  lemma MergeThenRemove(before: List, sorted: List, changes: List, updates: List, deletes: List)
    requires Split(changes, updates, deletes) && DistinctHashes(before) && FullPowers(before) && FullPowers(updates)
    requires Permutation(sorted, before) && StrictlySorted(sorted) && Covers(before, deletes)
    requires Sum(changes, IsNew(before)) != 0 || |before| != Sum(changes, IsRemoval)
    ensures Updated(before, changes, Remove(Merge(sorted, updates), deletes))
  {
    SortedDistinct(sorted);
    DistinctPermutation(sorted, before);
    PermutationFacts(sorted, before);
    MergeSorted(sorted, updates);
    MergeLength(sorted, updates);
    NumNewSame(updates, sorted, before);
    MergeCovers(sorted, updates, deletes);
    RemoveSorted(Merge(sorted, updates), deletes);
    RemoveLength(Merge(sorted, updates), deletes);
    RemoveLength(sorted, deletes);
    NumNewNonnegative(updates, before);
    MergeFullPowers(sorted, updates, deletes);
    forall key
      ensures Lookup(Remove(Merge(sorted, updates), deletes), key) == Overridden(before, changes, key)
    {
      MergeOverrides(sorted, updates, key);
      RemoveRemoves(Merge(sorted, updates), deletes, key);
      SplitLookup(changes, updates, deletes, key);
    }
  }

  lemma {:induction false} NumNewNonnegative(updates: List, vs: List)
    ensures NumNew(updates, vs) >= 0
  {
    if updates == [] {
    } else {
      NumNewNonnegative(updates[1..], vs);
    }
  }

  lemma SortStrict(before: List, sorted: List)
    requires DistinctHashes(before) && Ordered(sorted, Before) && Permutation(sorted, before)
    ensures StrictlySorted(sorted)
  {
    PermutedHashes(before, sorted);
    forall i, j | 0 <= i < j < |sorted|
      ensures Less(sorted[i].proTxHash, sorted[j].proTxHash)
    {
      assert Before(sorted[i], sorted[j]);
    }
  }

  lemma SortAgain(sorted: List, again: List)
    requires StrictlySorted(sorted) && Ordered(again, Before) && Permutation(again, sorted)
    ensures again == sorted
  {
    SortedDistinct(sorted);
    SortStrict(sorted, again);
    SortedDistinct(again);
    DistinctPermutation(again, sorted);
    SortedUnique(again, sorted);
  }

  /** The conditions of the verdict, read off the split. */
  lemma SplitFacts(vs: List, changes: List, updates: List, deletes: List)
    requires GoodChanges(changes) && Split(changes, updates, deletes)
    ensures deletes != [] <==> HasRemoval(changes)
    ensures updates != [] <==> HasUpdate(changes)
    ensures Covers(vs, deletes) <==> !exists c :: c in changes && c.power == 0 && Lookup(vs, c.proTxHash).None?
    ensures FullPowers(updates) <==> !exists c :: c in changes && c.power !in {0, DASH_VOTING_POWER}
    ensures |vs| + NumNew(updates, vs) - |deletes| == SizeAfter(vs, changes)
  {
    if deletes != [] {
      assert deletes[0] in changes;
    }
    if updates != [] {
      assert updates[0] in changes;
    }
  }

  lemma MergeStep(e: List, u: List)
    requires e != [] && u != []
    ensures Merge(e, u) ==
      if Less(e[0].proTxHash, u[0].proTxHash) then [e[0]] + Merge(e[1..], u)
      else [u[0]] + Merge(if e[0].proTxHash == u[0].proTxHash then e[1..] else e, u[1..])
  {
  }

  lemma MergeEnd(e: List, u: List)
    requires e == [] || u == []
    ensures Merge(e, u) == e + u
  {
  }

  lemma RemoveEnd(e: List)
    ensures Remove(e, []) == e
  {
  }

  lemma RemoveStep(e: List, d: List)
    requires StrictlySorted(e) && StrictlySorted(d) && Covers(e, d) && d != []
    ensures e != [] && StrictlySorted(e[1..])
    ensures var d' := if e[0].proTxHash == d[0].proTxHash then d[1..] else d;
            StrictlySorted(d') && Covers(e[1..], d') && |d'| <= |e| - 1
    ensures Remove(e, d) == if e[0].proTxHash == d[0].proTxHash then Remove(e[1..], d[1..])
      else [e[0]] + Remove(e[1..], d)
  {
    CoversStep(e, d);
    SortedTail(e);
    SortedTail(d);
    RemoveLength(e[1..], if e[0].proTxHash == d[0].proTxHash then d[1..] else d);
  }

  lemma UpdatedWellFormed(before: List, changes: List, after: ValidatorSet)
    requires Updated(before, changes, after.validators)
    ensures after.WellFormed()
  {
    SortedDistinct(after.validators);
  }

  class ValidatorSetObject {
    var validators: List
    var thresholdKey: Option<PubKey>
    var quorumHash: Hash32
    const llmqType: LLMQType
    const votingPowerThreshold: nat

    function Value(): ValidatorSet
      reads this
    {
      ValidatorSet(validators, thresholdKey, quorumHash, llmqType, votingPowerThreshold)
    }

    /** The empty set that `NewValidatorSet` starts from. */
    constructor (key: Option<PubKey>, quorumHash: Hash32, llmqType: LLMQType, threshold: nat)
      ensures Value() == ValidatorSet([], key, quorumHash, llmqType, threshold) && Value().WellFormed()
    {
      this.validators, this.thresholdKey, this.quorumHash := [], key, quorumHash;
      this.llmqType, this.votingPowerThreshold := llmqType, threshold;
    }

    /** The elements which are left. */
    static method CopyRest(rest: List, merged: array<Validator>, from: nat) returns (i: nat)
      requires from + |rest| <= merged.Length
      modifies merged
      ensures i == from + |rest| && merged[..i] == old(merged[..from]) + rest
    {
      i := from;
      for j := 0 to |rest|
        invariant i == from + j && merged[..i] == old(merged[..from]) + rest[..j]
      {
        merged[i] := rest[j];
        i := i + 1;
        assert rest[..j + 1] == rest[..j] + [rest[j]];
      }
      assert rest[..|rest|] == rest;
    }

    /** The merge loop of `applyUpdates`. */
    static method MergeLists(existing: List, updates: List) returns (r: List)
      ensures r == Merge(existing, updates)
    {
      hide Merge;
      hide Less;
      var e, u := existing, updates;
      var merged := new Validator[|e| + |u|];
      var i := 0;
      while e != [] && u != []
        invariant i + |e| + |u| <= merged.Length
        invariant merged[..i] + Merge(e, u) == Merge(existing, updates)
        decreases |e| + |u|
      {
        ghost var done := merged[..i];
        MergeStep(e, u);
        if Less(e[0].proTxHash, u[0].proTxHash) {
          merged[i] := e[0];
          e := e[1..];
        } else {
          merged[i] := u[0];
          if e[0].proTxHash == u[0].proTxHash {
            e := e[1..];
          }
          u := u[1..];
        }
        i := i + 1;
        assert merged[..i] == done + [merged[i - 1]];
        Assoc(done, [merged[i - 1]], Merge(e, u));
      }
      MergeEnd(e, u);
      ghost var done := merged[..i];
      i := CopyRest(e, merged, i);
      i := CopyRest(u, merged, i);
      r := merged[..i];
      assert r == done + e + u == done + (e + u);
    }

    /** `applyUpdates`. */
    method ApplyUpdates(updates: List)
      requires DistinctHashes(validators) && StrictlySorted(updates)
      modifies this`validators
      ensures exists sorted ::
                && Permutation(sorted, old(validators)) && StrictlySorted(sorted)
                && validators == Merge(sorted, updates)
    {
      BeforeIsOrder();
      var sorted := Sort(validators, Before);
      SortStrict(validators, sorted);
      validators := MergeLists(sorted, updates);
    }

    /** The loop of `applyRemovals`; the deletions are looked for in the order of the list. */
    static method RemoveFrom(existing: List, deletes: List) returns (r: List)
      requires StrictlySorted(existing) && StrictlySorted(deletes) && Covers(existing, deletes)
      ensures r == Remove(existing, deletes)
    {
      hide Covers;
      hide StrictlySorted;
      hide Remove;
      RemoveLength(existing, deletes);
      var e, d := existing, deletes;
      var merged := new Validator[|e| - |d|];
      var i := 0;
      while d != []
        invariant StrictlySorted(e) && StrictlySorted(d) && Covers(e, d)
        invariant i + |e| - |d| == merged.Length
        invariant |d| <= |e|
        invariant merged[..i] + Remove(e, d) == Remove(existing, deletes)
        decreases |e|
      {
        RemoveStep(e, d);
        ghost var done := merged[..i];
        if e[0].proTxHash == d[0].proTxHash {
          d := d[1..];
        } else {
          merged[i] := e[0];
          i := i + 1;
          assert merged[..i] == done + [merged[i - 1]];
          Assoc(done, [e[0]], Remove(e[1..], d));
        }
        e := e[1..];
      }
      RemoveEnd(e);
      i := CopyRest(e, merged, i);
      r := merged[..i];
    }

    /** `applyRemovals`. */
    method ApplyRemovals(deletes: List)
      requires StrictlySorted(validators) && StrictlySorted(deletes) && Covers(validators, deletes)
      modifies this`validators
      ensures validators == Remove(old(validators), deletes)
    {
      validators := RemoveFrom(validators, deletes);
    }

    /** The checks of a split change set, in order. */
    method CheckChanges(changes: List, updates: List, deletes: List, allowRemovals: bool)
        returns (err: Option<ChangeError>)
      requires Value().WellFormed() && GoodChanges(changes) && Split(changes, updates, deletes)
      ensures err == Verdict(validators, changes, allowRemovals, true, true)
      ensures err.None? ==> Covers(validators, deletes) && FullPowers(updates)
    {
      SplitFacts(validators, changes, updates, deletes);
      if !allowRemovals && |deletes| != 0 {
        return Some(RemovalsNotAllowed);
      }
      var numNew := NumNewValidators(updates, validators);
      if numNew == 0 && |validators| == |deletes| {
        return Some(WouldBeEmpty);
      }
      var removed := VerifyRemovals(deletes, validators);
      if removed.None? {
        return Some(UnknownRemoval);
      }
      var verified := VerifyUpdates(updates, validators, removed.value);
      return if verified.Err? then Some(verified.error) else None;
    }

    /** Merge, remove and sort again. */
    method Apply(ghost changes: List, updates: List, deletes: List)
      requires Value().WellFormed() && Split(changes, updates, deletes)
      requires Covers(validators, deletes) && FullPowers(updates)
      requires Sum(changes, IsNew(validators)) != 0 || |validators| != Sum(changes, IsRemoval)
      modifies this`validators
      ensures Updated(old(validators), changes, validators)
    {
      ApplyUpdates(updates);
      ghost var sorted :| Permutation(sorted, old(validators)) && StrictlySorted(sorted) &&
        validators == Merge(sorted, updates);
      MergeThenRemove(old(validators), sorted, changes, updates, deletes);
      SortedDistinct(sorted);
      DistinctPermutation(sorted, old(validators));
      MergeSorted(sorted, updates);
      MergeCovers(sorted, updates, deletes);
      ApplyRemovals(deletes);
      BeforeIsOrder();
      var again := Sort(validators, Before);
      SortAgain(validators, again);
      validators := again;
    }

    /** `updateWithChangeSet`: exactly the good change sets are applied, and then the set is the unique
        strictly sorted list whose map is the old map overridden; otherwise nothing changes. */
    method UpdateWithChangeSet(changes: List, allowRemovals: bool, key: Option<PubKey>, hash: Option<Hash32>)
        returns (err: Option<ChangeError>)
      requires Value().WellFormed()
      modifies this
      ensures Value().WellFormed()
      ensures err == if changes == [] then None
        else Verdict(old(validators), changes, allowRemovals, key.Some?, hash.Some?)
      ensures changes == [] || err.Some? ==> Value() == old(Value())
      ensures changes != [] && err.None? ==>
                && Updated(old(validators), changes, validators)
                && Value().TotalPower() == SizeAfter(old(validators), changes) * DASH_VOTING_POWER
                && thresholdKey == key && Some(quorumHash) == hash
    {
      if changes == [] {
        return None;
      }
      if key.None? {
        return Some(NoThresholdKey);
      }
      if hash.None? {
        return Some(NoQuorumHash);
      }
      var split := ProcessChanges(changes);
      if split.None? {
        return Some(BadChanges);
      }
      var (updates, deletes) := split.value;
      err := CheckChanges(changes, updates, deletes, allowRemovals);
      if err.None? {
        Apply(changes, updates, deletes);
        thresholdKey := key;
        quorumHash := hash.value;
        UpdatedWellFormed(old(validators), changes, Value());
      }
    }
  }
}
