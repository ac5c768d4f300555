/** Change sets of a validator set: sorted merge and removal over slices, equal to a map update
    (types/validator_set.go). */
module ValidatorUpdates {
  import opened Prelude
  import opened Signing
  import opened Sorting
  import opened Validators

  /** `MaxInt64 / 8`. */
  const MAX_TOTAL_POWER := 0x7FFF_FFFF_FFFF_FFFF / 8

  type List = seq<Validator>

  // ---------------------------------------------------------------- lists as maps

  /** `GetByProTxHash`: the first entry with this hash. */
  function Lookup(vs: List, key: Bytes): (r: Option<Validator>)
    ensures r.Some? ==> r.value in vs && r.value.proTxHash == key
    ensures r.None? ==> forall v :: v in vs ==> v.proTxHash != key
  {
    if vs == [] then None else if vs[0].proTxHash == key then Some(vs[0]) else Lookup(vs[1..], key)
  }

  ghost predicate DistinctHashes(vs: List) {
    forall i, j :: 0 <= i < j < |vs| ==> vs[i].proTxHash != vs[j].proTxHash
  }

  predicate Before(a: Validator, b: Validator) {
    AtMost(a.proTxHash, b.proTxHash)
  }

  ghost predicate StrictlySorted(vs: List) {
    forall i, j :: 0 <= i < j < |vs| ==> Less(vs[i].proTxHash, vs[j].proTxHash)
  }

  lemma BeforeIsOrder()
    ensures TotalOrder(Before)
  {
    forall x, y
      ensures Before(x, y) || Before(y, x)
    {
      LessTotal(x.proTxHash, y.proTxHash);
    }
    forall x, y, z | Before(x, y) && Before(y, z)
      ensures Before(x, z)
    {
      if x.proTxHash != y.proTxHash && y.proTxHash != z.proTxHash {
        LessTransitive(x.proTxHash, y.proTxHash, z.proTxHash);
      }
    }
  }

  lemma SortedDistinct(vs: List)
    requires StrictlySorted(vs)
    ensures DistinctHashes(vs)
  {
    forall i, j | 0 <= i < j < |vs|
      ensures vs[i].proTxHash != vs[j].proTxHash
    {
      LessIrreflexive(vs[i].proTxHash);
    }
  }

  lemma DistinctLookup(vs: List, v: Validator)
    requires DistinctHashes(vs) && v in vs
    ensures Lookup(vs, v.proTxHash) == Some(v)
  {
  }

  lemma DistinctPermutation(a: List, b: List)
    requires Permutation(a, b) && DistinctHashes(a)
    ensures forall key :: Lookup(a, key) == Lookup(b, key)
  {
    PermutationFacts(a, b);
    forall key
      ensures Lookup(a, key) == Lookup(b, key)
    {
      if Lookup(b, key).Some? {
        DistinctLookup(a, Lookup(b, key).value);
      }
    }
  }

  /** A strictly sorted list is determined by the map it represents. */
  lemma {:induction false} SortedUnique(a: List, b: List)
    requires StrictlySorted(a) && StrictlySorted(b)
    requires forall key :: Lookup(a, key) == Lookup(b, key)
    ensures a == b
  {
    var first := if a != [] then a[0].proTxHash else if b != [] then b[0].proTxHash else [];
    assert Lookup(a, first) == Lookup(b, first);
    if a == [] || b == [] {
    } else {
      HeadIsLeast(a, b);
      HeadIsLeast(b, a);
      if Less(a[0].proTxHash, b[0].proTxHash) {
        LessAsymmetric(a[0].proTxHash, b[0].proTxHash);
      }
      assert Lookup(a, a[0].proTxHash) == Lookup(b, a[0].proTxHash);
      assert a[0] == b[0];
      forall key
        ensures Lookup(a[1..], key) == Lookup(b[1..], key)
      {
        if key == a[0].proTxHash {
          TailLacksHead(a);
          TailLacksHead(b);
        } else {
          assert Lookup(a, key) == Lookup(b, key);
        }
      }
      SortedUnique(a[1..], b[1..]);
    }
  }

  lemma HeadIsLeast(a: List, b: List)
    requires StrictlySorted(a) && a != [] && b != []
    requires forall key :: Lookup(a, key) == Lookup(b, key)
    ensures a[0].proTxHash == b[0].proTxHash || Less(a[0].proTxHash, b[0].proTxHash)
  {
    assert Lookup(b, b[0].proTxHash).Some?;
    var v := Lookup(a, b[0].proTxHash).value;
    var i :| 0 <= i < |a| && a[i] == v;
  }

  lemma TailLacksHead(a: List)
    requires StrictlySorted(a) && a != []
    ensures Lookup(a[1..], a[0].proTxHash) == None
  {
    SortedDistinct(a);
  }

  // ---------------------------------------------------------------- merging

  /** Two sorted lists merged; on equal hashes the update wins. */
  function Merge(existing: List, updates: List): List {
    if existing == [] then updates
    else if updates == [] then existing
    else if Less(existing[0].proTxHash, updates[0].proTxHash) then [existing[0]] + Merge(existing[1..], updates)
    else if existing[0].proTxHash == updates[0].proTxHash then [updates[0]] + Merge(existing[1..], updates[1..])
    else [updates[0]] + Merge(existing, updates[1..])
  }

  /** A lower bound for every hash of a list. */
  ghost predicate Above(key: Bytes, vs: List) {
    forall v :: v in vs ==> Less(key, v.proTxHash)
  }

  lemma SortedTail(vs: List)
    requires StrictlySorted(vs) && vs != []
    ensures StrictlySorted(vs[1..]) && Above(vs[0].proTxHash, vs[1..])
  {
  }

  lemma SortedCons(v: Validator, vs: List)
    requires StrictlySorted(vs) && Above(v.proTxHash, vs)
    ensures StrictlySorted([v] + vs)
  {
  }

  lemma AboveTrans(low: Bytes, key: Bytes, vs: List)
    requires Less(low, key) && Above(key, vs)
    ensures Above(low, vs)
  {
    forall v | v in vs
      ensures Less(low, v.proTxHash)
    {
      LessTransitive(low, key, v.proTxHash);
    }
  }

  lemma {:induction false} MergeMembers(existing: List, updates: List)
    ensures forall v :: v in Merge(existing, updates) ==> v in existing || v in updates
  {
    if existing == [] || updates == [] {
    } else {
      MergeMembers(existing[1..], updates);
      MergeMembers(existing[1..], updates[1..]);
      MergeMembers(existing, updates[1..]);
    }
  }

  /** The merge of strictly sorted lists is strictly sorted. */
  lemma {:induction false} MergeSorted(existing: List, updates: List)
    requires StrictlySorted(existing) && StrictlySorted(updates)
    ensures StrictlySorted(Merge(existing, updates))
  {
    if existing == [] || updates == [] {
    } else {
      var e, u := existing[0], updates[0];
      SortedTail(existing);
      SortedTail(updates);
      LessTotal(e.proTxHash, u.proTxHash);
      if Less(e.proTxHash, u.proTxHash) {
        AboveTrans(e.proTxHash, u.proTxHash, updates[1..]);
        MergeMembers(existing[1..], updates);
        MergeSorted(existing[1..], updates);
        SortedCons(e, Merge(existing[1..], updates));
      } else if e.proTxHash == u.proTxHash {
        MergeMembers(existing[1..], updates[1..]);
        MergeSorted(existing[1..], updates[1..]);
        SortedCons(u, Merge(existing[1..], updates[1..]));
      } else {
        AboveTrans(u.proTxHash, e.proTxHash, existing[1..]);
        MergeMembers(existing, updates[1..]);
        MergeSorted(existing, updates[1..]);
        SortedCons(u, Merge(existing, updates[1..]));
      }
    }
  }

  lemma AboveLacks(key: Bytes, vs: List)
    requires Above(key, vs)
    ensures Lookup(vs, key) == None
  {
    LessIrreflexive(key);
  }

  /** The merge of sorted lists is the map of the first overridden by the second. */
  lemma {:induction false} MergeOverrides(existing: List, updates: List, key: Bytes)
    requires StrictlySorted(existing) && StrictlySorted(updates)
    ensures Lookup(Merge(existing, updates), key) ==
            if Lookup(updates, key).Some? then Lookup(updates, key) else Lookup(existing, key)
  {
    if existing == [] || updates == [] {
    } else {
      var e, u := existing[0], updates[0];
      SortedTail(existing);
      SortedTail(updates);
      LessTotal(e.proTxHash, u.proTxHash);
      if Less(e.proTxHash, u.proTxHash) {
        MergeOverrides(existing[1..], updates, key);
        AboveTrans(e.proTxHash, u.proTxHash, updates[1..]);
        LessIrreflexive(e.proTxHash);
        AboveLacks(e.proTxHash, updates[1..]);
      } else if e.proTxHash == u.proTxHash {
        MergeOverrides(existing[1..], updates[1..], key);
      } else {
        MergeOverrides(existing, updates[1..], key);
      }
    }
  }

  function Absent(vs: List): Validator -> int {
    (u: Validator) => if Lookup(vs, u.proTxHash).Some? then 0 else 1
  }

  /** How many updates bring a new validator. */
  function NumNew(updates: List, vs: List): int {
    Sum(updates, Absent(vs))
  }

  /** Dropping a head that no update names does not change what is new. */
  lemma {:induction false} NumNewTail(updates: List, vs: List)
    requires vs != [] && Above(vs[0].proTxHash, updates)
    ensures NumNew(updates, vs) == NumNew(updates, vs[1..])
  {
    if updates == [] {
    } else {
      LessIrreflexive(vs[0].proTxHash);
      assert updates[0] in updates;
      NumNewTail(updates[1..], vs);
    }
  }

  lemma {:induction false} NumNewEmpty(updates: List)
    ensures NumNew(updates, []) == |updates|
  {
    if updates == [] {
    } else {
      NumNewEmpty(updates[1..]);
    }
  }

  lemma {:induction false} MergeLength(existing: List, updates: List)
    requires StrictlySorted(existing) && StrictlySorted(updates)
    ensures |Merge(existing, updates)| == |existing| + NumNew(updates, existing)
  {
    if existing == [] {
      NumNewEmpty(updates);
    } else if updates != [] {
      var e, u := existing[0], updates[0];
      SortedTail(existing);
      SortedTail(updates);
      LessTotal(e.proTxHash, u.proTxHash);
      LessIrreflexive(e.proTxHash);
      if Less(e.proTxHash, u.proTxHash) {
        AboveTrans(e.proTxHash, u.proTxHash, updates[1..]);
        NumNewTail(updates, existing);
        MergeLength(existing[1..], updates);
      } else if e.proTxHash == u.proTxHash {
        NumNewTail(updates[1..], existing);
        MergeLength(existing[1..], updates[1..]);
      } else {
        AboveTrans(u.proTxHash, e.proTxHash, existing[1..]);
        AboveLacks(u.proTxHash, existing);
        MergeLength(existing, updates[1..]);
      }
    }
  }

  // ---------------------------------------------------------------- removing

  /** A sorted list without the hashes of another sorted list. */
  function Remove(existing: List, deletes: List): List {
    if existing == [] || deletes == [] then existing
    else if existing[0].proTxHash == deletes[0].proTxHash then Remove(existing[1..], deletes[1..])
    else [existing[0]] + Remove(existing[1..], deletes)
  }

  ghost predicate Covers(existing: List, deletes: List) {
    forall d :: d in deletes ==> Lookup(existing, d.proTxHash).Some?
  }

  /** Deletions that are all present start no earlier than the list, and what follows covers the rest. */
  lemma CoversStep(existing: List, deletes: List)
    requires StrictlySorted(existing) && StrictlySorted(deletes) && Covers(existing, deletes) && deletes != []
    ensures existing != []
    ensures existing[0].proTxHash == deletes[0].proTxHash ==> Covers(existing[1..], deletes[1..])
    ensures existing[0].proTxHash != deletes[0].proTxHash ==>
              Covers(existing[1..], deletes) && Above(existing[0].proTxHash, deletes)
  {
    assert deletes[0] in deletes;
    assert Lookup(existing, deletes[0].proTxHash).Some?;
    SortedTail(existing);
    SortedTail(deletes);
    var e, d := existing[0], deletes[0];
    LessIrreflexive(d.proTxHash);
    if e.proTxHash != d.proTxHash {
      assert Lookup(existing, d.proTxHash).value in existing[1..];
      AboveTrans(e.proTxHash, d.proTxHash, deletes[1..]);
      LessIrreflexive(e.proTxHash);
    }
  }

  /** No more deletions than validators: the panic after the check is unreachable. */
  lemma {:induction false} RemoveLength(existing: List, deletes: List)
    requires StrictlySorted(existing) && StrictlySorted(deletes) && Covers(existing, deletes)
    ensures |deletes| <= |existing| && |Remove(existing, deletes)| == |existing| - |deletes|
  {
    if deletes == [] {
    } else {
      CoversStep(existing, deletes);
      if existing[0].proTxHash == deletes[0].proTxHash {
        RemoveLength(existing[1..], deletes[1..]);
      } else {
        RemoveLength(existing[1..], deletes);
      }
    }
  }

  lemma {:induction false} RemoveSubset(existing: List, deletes: List)
    ensures forall v :: v in Remove(existing, deletes) ==> v in existing
  {
    if existing == [] || deletes == [] {
    } else {
      RemoveSubset(existing[1..], deletes);
      RemoveSubset(existing[1..], deletes[1..]);
    }
  }

  lemma {:induction false} RemoveSorted(existing: List, deletes: List)
    requires StrictlySorted(existing)
    ensures StrictlySorted(Remove(existing, deletes))
  {
    if existing == [] || deletes == [] {
    } else {
      SortedTail(existing);
      RemoveSorted(existing[1..], deletes);
      RemoveSorted(existing[1..], deletes[1..]);
      RemoveSubset(existing[1..], deletes);
      SortedCons(existing[0], Remove(existing[1..], deletes));
    }
  }

  /** Removal from a sorted list is the map without the removed hashes. */
  lemma {:induction false} RemoveRemoves(existing: List, deletes: List, key: Bytes)
    requires StrictlySorted(existing) && StrictlySorted(deletes) && Covers(existing, deletes)
    ensures Lookup(Remove(existing, deletes), key) == if Lookup(deletes, key).Some? then None else Lookup(existing, key)
  {
    if deletes == [] {
    } else {
      CoversStep(existing, deletes);
      SortedTail(existing);
      var e := existing[0];
      if e.proTxHash == deletes[0].proTxHash {
        RemoveRemoves(existing[1..], deletes[1..], key);
        RemoveSubset(existing[1..], deletes[1..]);
        LessIrreflexive(e.proTxHash);
      } else {
        RemoveRemoves(existing[1..], deletes, key);
        AboveLacks(e.proTxHash, deletes);
      }
    }
  }

  // ---------------------------------------------------------------- splitting the changes

  /** The removals, or the updates, among the changes. */
  function Pick(changes: List, removals: bool): (r: List)
    ensures forall v :: v in r <==> v in changes && (v.power == 0) == removals
  {
    if changes == [] then []
    else
      var n := |changes| - 1;
      Pick(changes[..n], removals) + if (changes[n].power == 0) == removals then [changes[n]] else []
  }

  function IsRemoval(c: Validator): int {
    if c.power == 0 then 1 else 0
  }

  function IsNew(vs: List): Validator -> int {
    (c: Validator) => if c.power == 0 || Lookup(vs, c.proTxHash).Some? then 0 else 1
  }

  ghost predicate GoodChanges(changes: List) {
    && DistinctHashes(changes)
    && forall c :: c in changes ==> c.proTxHash != [] && 0 <= c.power <= MAX_TOTAL_POWER
  }

  lemma {:induction false} PickSorted(changes: List, removals: bool)
    requires StrictlySorted(changes)
    ensures StrictlySorted(Pick(changes, removals))
  {
    if changes == [] {
    } else {
      var n := |changes| - 1;
      PickSorted(changes[..n], removals);
      var rest := Pick(changes[..n], removals);
      forall i | 0 <= i < |rest|
        ensures Less(rest[i].proTxHash, changes[n].proTxHash)
      {
        assert rest[i] in changes[..n];
      }
    }
  }

  lemma SumSnoc(s: List, f: Validator -> int)
    requires s != []
    ensures Sum(s, f) == Sum(s[..|s| - 1], f) + f(s[|s| - 1])
  {
    var n := |s| - 1;
    assert s == s[..n] + [s[n]];
    SumAppend(s[..n], [s[n]], f);
  }

  lemma {:induction false} PickCountsRemovals(changes: List)
    ensures |Pick(changes, true)| == Sum(changes, IsRemoval)
  {
    if changes == [] {
    } else {
      PickCountsRemovals(changes[..|changes| - 1]);
      SumSnoc(changes, IsRemoval);
    }
  }

  lemma {:induction false} PickCounts(changes: List, vs: List)
    ensures NumNew(Pick(changes, false), vs) == Sum(changes, IsNew(vs))
  {
    if changes == [] {
    } else {
      var n := |changes| - 1;
      var rest, f := Pick(changes[..n], false), Absent(vs);
      PickCounts(changes[..n], vs);
      SumSnoc(changes, IsNew(vs));
      if changes[n].power != 0 {
        SumAppend(rest, [changes[n]], f);
        assert Sum([changes[n]], f) == f(changes[n]);
      } else {
        assert Pick(changes, false) == rest;
      }
    }
  }

  lemma StrictExtend(vs: List, n: nat)
    requires n < |vs| && StrictlySorted(vs[..n]) && Ordered(vs, Before)
    requires n > 0 ==> vs[n - 1].proTxHash != vs[n].proTxHash
    ensures StrictlySorted(vs[..n + 1])
  {
    if n > 0 {
      assert Before(vs[n - 1], vs[n]);
      forall i | 0 <= i < n
        ensures Less(vs[i].proTxHash, vs[n].proTxHash)
      {
        if i < n - 1 {
          assert Less(vs[..n][i].proTxHash, vs[..n][n - 1].proTxHash);
          LessTransitive(vs[i].proTxHash, vs[n - 1].proTxHash, vs[n].proTxHash);
        }
      }
    }
  }

  lemma PermutedHashes(a: List, b: List)
    requires Permutation(a, b) && DistinctHashes(a)
    ensures DistinctHashes(b)
  {
    PermutationFacts(a, b);
    assert Distinct(a);
    PermutedDistinct(a, b);
    forall i, j | 0 <= i < j < |b|
      ensures b[i].proTxHash != b[j].proTxHash
    {
      DistinctLookup(a, b[i]);
      DistinctLookup(a, b[j]);
    }
  }

  predicate InRange(c: Validator) {
    0 <= c.power <= MAX_TOTAL_POWER
  }

  ghost predicate Scanned(sorted: List) {
    StrictlySorted(sorted) && forall i :: 0 <= i < |sorted| ==> sorted[i].proTxHash != [] && InRange(sorted[i])
  }

  lemma ScanStep(sorted: List, n: nat)
    requires n < |sorted| && Ordered(sorted, Before) && Scanned(sorted[..n])
    ensures var prev := if n == 0 then [] else sorted[n - 1].proTxHash;
            Scanned(sorted[..n + 1]) <==> sorted[n].proTxHash != prev && InRange(sorted[n])
  {
    if n > 0 {
      assert Before(sorted[n - 1], sorted[n]);
      assert sorted[..n][n - 1] == sorted[n - 1];
      LessIrreflexive(sorted[n].proTxHash);
      if sorted[n - 1].proTxHash != sorted[n].proTxHash {
        StrictExtend(sorted, n);
      } else {
        assert sorted[..n + 1][n - 1].proTxHash == sorted[..n + 1][n].proTxHash;
      }
    }
    assert sorted[..n + 1] == sorted[..n] + [sorted[n]];
  }

  lemma NothingScanned(s: List)
    ensures Scanned(s[..0])
  {
  }

  lemma ScanStops(s: List, n: nat)
    requires n <= |s| && !Scanned(s[..n])
    ensures !Scanned(s)
  {
    hide Scanned;
    if Scanned(s) {
      ScannedPrefix(s, n);
    }
  }

  /** The scan of the sorted changes. */
  method Scan(sorted: List) returns (r: Option<(List, List)>)
    requires Ordered(sorted, Before)
    ensures r.Some? <==> Scanned(sorted)
    ensures r.Some? ==> r.value == (Pick(sorted, false), Pick(sorted, true))
  {
    hide Scanned;
    hide Ordered;
    hide Pick;
    hide InRange;
    var updates, removals: List := [], [];
    var prev: Bytes := [];
    NothingScanned(sorted);
    PickStep(sorted, 0);
    for n := 0 to |sorted|
      invariant Scanned(sorted[..n])
      invariant prev == if n == 0 then [] else sorted[n - 1].proTxHash
      invariant updates == Pick(sorted[..n], false) && removals == Pick(sorted[..n], true)
    {
      ScanStep(sorted, n);
      var c := sorted[n];
      if c.proTxHash == prev || !InRange(c) {
        ScanStops(sorted, n + 1);
        return None;
      }
      PickStep(sorted, n);
      if c.power == 0 {
        removals := removals + [c];
      } else {
        updates := updates + [c];
      }
      prev := c.proTxHash;
    }
    assert sorted[..|sorted|] == sorted;
    return Some((updates, removals));
  }

  lemma PickStep(s: List, n: nat)
    ensures Pick(s[..0], false) == [] && Pick(s[..0], true) == []
    ensures n < |s| ==> forall removals ::
      Pick(s[..n + 1], removals) == Pick(s[..n], removals) + if (s[n].power == 0) == removals then [s[n]] else []
  {
    if n < |s| {
      assert s[..n + 1][..n] == s[..n];
    }
  }

  lemma ScannedPrefix(sorted: List, n: nat)
    requires Scanned(sorted) && n <= |sorted|
    ensures Scanned(sorted[..n])
  {
  }

  /** A strictly ordered permutation exists exactly when the changes are distinct. */
  lemma ScannedIffGood(changes: List, sorted: List)
    requires Ordered(sorted, Before) && Permutation(sorted, changes)
    ensures Scanned(sorted) <==> GoodChanges(changes)
  {
    PermutationFacts(sorted, changes);
    if Scanned(sorted) {
      SortedDistinct(sorted);
      PermutedHashes(sorted, changes);
    }
    if GoodChanges(changes) {
      PermutedHashes(changes, sorted);
      forall i, j | 0 <= i < j < |sorted|
        ensures Less(sorted[i].proTxHash, sorted[j].proTxHash)
      {
        assert Before(sorted[i], sorted[j]);
      }
    }
  }

  lemma PickedChanges(changes: List, sorted: List, vs: List)
    requires Permutation(sorted, changes)
    ensures forall v, removals :: v in Pick(sorted, removals) <==> v in changes && (v.power == 0) == removals
    ensures |Pick(sorted, true)| == Sum(changes, IsRemoval)
    ensures NumNew(Pick(sorted, false), vs) == Sum(changes, IsNew(vs))
  {
    PermutationFacts(sorted, changes);
    PickCounts(sorted, vs);
    PickCountsRemovals(sorted);
    SumPermutation(sorted, changes, IsRemoval);
    SumPermutation(sorted, changes, IsNew(vs));
  }

  /** `processChanges`: the changes are good, or refused; the updates and the removals come sorted. */
  method ProcessChanges(changes: List) returns (r: Option<(List, List)>)
    ensures r.Some? <==> GoodChanges(changes)
    ensures r.Some? ==>
      && StrictlySorted(r.value.0) && StrictlySorted(r.value.1)
      && (forall v :: v in r.value.0 <==> v in changes && v.power != 0)
      && (forall v :: v in r.value.1 <==> v in changes && v.power == 0)
      && |r.value.1| == Sum(changes, IsRemoval)
      && forall vs :: NumNew(r.value.0, vs) == Sum(changes, IsNew(vs))
  {
    BeforeIsOrder();
    var sorted := Sort(changes, Before);
    r := Scan(sorted);
    ScannedIffGood(changes, sorted);
    if r.Some? {
      PickSorted(sorted, false);
      PickSorted(sorted, true);
      PickedChanges(changes, sorted, []);
      forall vs
        ensures NumNew(r.value.0, vs) == Sum(changes, IsNew(vs))
      {
        PickedChanges(changes, sorted, vs);
      }
    }
  }

  // ---------------------------------------------------------------- checking the changes

  datatype ChangeError =
    | NoThresholdKey | NoQuorumHash | BadChanges | RemovalsNotAllowed | WouldBeEmpty | UnknownRemoval | BadPower
      | PowerOverflow

  ghost predicate HasRemoval(changes: List) {
    exists c :: c in changes && c.power == 0
  }

  ghost predicate HasUpdate(changes: List) {
    exists c :: c in changes && c.power != 0
  }

  /** The size of the set after the changes. */
  function SizeAfter(vs: List, changes: List): int {
    |vs| + Sum(changes, IsNew(vs)) - Sum(changes, IsRemoval)
  }

  /** Which error a change set gives, in the order of the checks; `None` is success. */
  ghost function Verdict(vs: List, changes: List, allowRemovals: bool, hasKey: bool,
                         hasQuorumHash: bool): Option<ChangeError> {
    if !hasKey then Some(NoThresholdKey)
    else if !hasQuorumHash then Some(NoQuorumHash)
    else if !GoodChanges(changes) then Some(BadChanges)
    else if !allowRemovals && HasRemoval(changes) then Some(RemovalsNotAllowed)
    else if Sum(changes, IsNew(vs)) == 0 && |vs| == Sum(changes, IsRemoval) then Some(WouldBeEmpty)
    else if exists c :: c in changes && c.power == 0 && Lookup(vs, c.proTxHash).None? then Some(UnknownRemoval)
    else if exists c :: c in changes && c.power !in {0, DASH_VOTING_POWER} then Some(BadPower)
    else if HasUpdate(changes) && SizeAfter(vs, changes) * DASH_VOTING_POWER > MAX_TOTAL_POWER then Some(PowerOverflow)
    else None
  }

  /** A change set is accepted if and only if key and quorum hash come with it, its hashes are distinct and non-empty,
      it removes members only, and only if removals are allowed, it gives everybody else the one voting power, somebody
      is left, and an enlarged set stays below the limit. */
  lemma AcceptedIff(vs: List, changes: List, allowRemovals: bool, hasKey: bool, hasQuorumHash: bool)
    ensures Verdict(vs, changes, allowRemovals, hasKey, hasQuorumHash).None? <==>
              && hasKey && hasQuorumHash && DistinctHashes(changes)
              && (forall c :: c in changes ==>
                    && c.proTxHash != [] && c.power in {0, DASH_VOTING_POWER}
                    && (c.power == 0 ==> allowRemovals && Lookup(vs, c.proTxHash).Some?))
              && !(Sum(changes, IsNew(vs)) == 0 && Sum(changes, IsRemoval) == |vs|)
              && (HasUpdate(changes) ==> SizeAfter(vs, changes) * DASH_VOTING_POWER <= MAX_TOTAL_POWER)
  {
    hide Sum;
    hide Lookup;
    hide DistinctHashes;
    hide IsNew;
    hide IsRemoval;
  }

  /** A refusal says what is wrong with the changes. */
  lemma RefusedBecause(vs: List, changes: List, allowRemovals: bool, hasKey: bool, hasQuorumHash: bool)
    ensures match Verdict(vs, changes, allowRemovals, hasKey, hasQuorumHash)
            case None => true
            case Some(NoThresholdKey) => !hasKey
            case Some(NoQuorumHash) => !hasQuorumHash
            case Some(BadChanges) => !GoodChanges(changes)
            case Some(RemovalsNotAllowed) => !allowRemovals && HasRemoval(changes)
            case Some(WouldBeEmpty) => SizeAfter(vs, changes) == 0
            case Some(UnknownRemoval) => exists c :: c in changes && c.power == 0 && Lookup(vs, c.proTxHash).None?
            case Some(BadPower) => exists c :: c in changes && c.power !in {0, DASH_VOTING_POWER}
            case Some(PowerOverflow) => SizeAfter(vs, changes) * DASH_VOTING_POWER > MAX_TOTAL_POWER
  {
    hide Sum;
  }

  /** No accepted change set takes the total power over its limit. */
  lemma PowerStaysBounded(vs: List, changes: List, allowRemovals: bool, hasKey: bool, hasQuorumHash: bool)
    requires |vs| * DASH_VOTING_POWER <= MAX_TOTAL_POWER
    requires Verdict(vs, changes, allowRemovals, hasKey, hasQuorumHash).None?
    ensures SizeAfter(vs, changes) * DASH_VOTING_POWER <= MAX_TOTAL_POWER
  {
    hide Sum;
    if !HasUpdate(changes) {
      NoUpdatesShrink(vs, changes);
    }
  }

  lemma {:induction false} NoUpdatesShrink(vs: List, changes: List)
    requires !HasUpdate(changes)
    ensures Sum(changes, IsNew(vs)) == 0 && Sum(changes, IsRemoval) >= 0
  {
    if changes == [] {
    } else {
      assert changes[0] in changes;
      assert forall c :: c in changes[1..] ==> c in changes;
      NoUpdatesShrink(vs, changes[1..]);
    }
  }

  ghost predicate FullPowers(vs: List) {
    forall v :: v in vs ==> v.power == DASH_VOTING_POWER
  }

  function Delta(vs: List): Validator -> int {
    (u: Validator) => var v := Lookup(vs, u.proTxHash); if v.Some? then u.power - v.value.power else u.power
  }

  lemma {:induction false} SumOfDeltas(vs: List, updates: List)
    requires FullPowers(vs) && FullPowers(updates)
    ensures Sum(updates, Delta(vs)) == NumNew(updates, vs) * DASH_VOTING_POWER
    ensures Sum(updates, Delta(vs)) >= 0
  {
    if updates == [] {
    } else {
      assert updates[0] in updates;
      SumOfDeltas(vs, updates[1..]);
    }
  }

  lemma DeltaOrder(vs: List)
    ensures TotalOrder((a: Validator, b: Validator) => Delta(vs)(a) <= Delta(vs)(b))
  {
  }

  method OnlyFullPowers(updates: List) returns (ok: bool)
    requires forall u :: u in updates ==> u.power != 0
    ensures ok <==> FullPowers(updates)
  {
    for n := 0 to |updates|
      invariant FullPowers(updates[..n])
    {
      assert updates[n] in updates;
      if updates[n].power != 0 && updates[n].power != DASH_VOTING_POWER {
        return false;
      }
      assert updates[..n + 1] == updates[..n] + [updates[n]];
    }
    assert updates[..|updates|] == updates;
    return true;
  }

  lemma SumNone(s: List, f: Validator -> int)
    ensures Sum(s[..0], f) == 0
  {
  }

  lemma PrefixSum(s: List, n: nat, f: Validator -> int)
    requires n < |s|
    ensures Sum(s[..n + 1], f) == Sum(s[..n], f) + f(s[n])
    ensures Sum(s, f) == Sum(s[..n + 1], f) + Sum(s[n + 1..], f)
  {
    assert s[..n + 1][..n] == s[..n];
    SumSnoc(s[..n + 1], f);
    assert s == s[..n + 1] + s[n + 1..];
    SumAppend(s[..n + 1], s[n + 1..], f);
  }

  /** `verifyUpdates`: the running total over the updates in order of their deltas never passes the
      maximum exactly when the final total does not. */
  method VerifyUpdates(updates: List, vs: List, removed: int) returns (r: Result<int, ChangeError>)
    requires FullPowers(vs) && forall u :: u in updates ==> u.power != 0
    ensures var total := |vs| * DASH_VOTING_POWER + NumNew(updates, vs) * DASH_VOTING_POWER;
            r == if !FullPowers(updates) then Err(BadPower)
                 else if updates != [] && total - removed > MAX_TOTAL_POWER then Err(PowerOverflow)
                 else Ok(total)
  {
    var ok := OnlyFullPowers(updates);
    if !ok {
      return Err(BadPower);
    }
    var delta := Delta(vs);
    DeltaOrder(vs);
    var byDelta := Sort(updates, (a: Validator, b: Validator) => delta(a) <= delta(b));
    hide Sum;
    hide Ordered;
    PermutationFacts(byDelta, updates);
    SumPermutation(byDelta, updates, delta);
    SumOfDeltas(vs, updates);
    SumNone(byDelta, delta);
    var base := |vs| * DASH_VOTING_POWER - removed;
    var total := base;
    for n := 0 to |byDelta|
      invariant total == base + Sum(byDelta[..n], delta)
      invariant n > 0 ==> total <= MAX_TOTAL_POWER
    {
      PrefixSum(byDelta, n, delta);
      total := total + delta(byDelta[n]);
      if total > MAX_TOTAL_POWER {
        SumOfDeltas(vs, byDelta[n + 1..]);
        return Err(PowerOverflow);
      }
    }
    assert byDelta[..|byDelta|] == byDelta;
    return Ok(total + removed);
  }

  /** `numNewValidators`. */
  method NumNewValidators(updates: List, vs: List) returns (n: nat)
    ensures n == NumNew(updates, vs)
  {
    n := 0;
    for k := 0 to |updates|
      invariant n == NumNew(updates[..k], vs)
    {
      assert updates[..k + 1][..k] == updates[..k];
      SumSnoc(updates[..k + 1], Absent(vs));
      if Lookup(vs, updates[k].proTxHash).None? {
        n := n + 1;
      }
    }
    assert updates[..|updates|] == updates;
  }

  /** `verifyRemovals`: the power of the removed validators, if all of them are there. */
  method VerifyRemovals(deletes: List, vs: List) returns (r: Option<int>)
    requires FullPowers(vs) && DistinctHashes(vs) && StrictlySorted(deletes)
    ensures r == if Covers(vs, deletes) then Some(|deletes| * DASH_VOTING_POWER) else None
    ensures r.Some? ==> |deletes| <= |vs|
  {
    var removed := 0;
    for n := 0 to |deletes|
      invariant removed == n * DASH_VOTING_POWER
      invariant Covers(vs, deletes[..n])
    {
      assert deletes[n] in deletes;
      var v := Lookup(vs, deletes[n].proTxHash);
      if v.None? {
        return None;
      }
      removed := removed + v.value.power;
      assert deletes[..n + 1] == deletes[..n] + [deletes[n]];
    }
    assert deletes[..|deletes|] == deletes;
    // Past this point the source panics if there are more deletions than validators.
    SortedDistinct(deletes);
    CoveredFits(deletes, vs);
    return Some(removed);
  }

  /** Distinct deletions that are all present are no more than the validators. */
  lemma {:induction false} CoveredFits(deletes: List, vs: List)
    requires Covers(vs, deletes) && DistinctHashes(vs) && DistinctHashes(deletes)
    ensures |deletes| <= |vs|
  {
    if deletes == [] {
    } else {
      var d := deletes[0];
      assert d in deletes;
      var k :| 0 <= k < |vs| && vs[k] == Lookup(vs, d.proTxHash).value;
      var rest := vs[..k] + vs[k + 1..];
      forall e | e in deletes[1..]
        ensures Lookup(rest, e.proTxHash).Some?
      {
        assert e in deletes && e.proTxHash != d.proTxHash;
        assert Lookup(vs, e.proTxHash).value in rest;
      }
      CoveredFits(deletes[1..], rest);
    }
  }
}
