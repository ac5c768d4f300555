/** The application's verdict on each transaction of a proposal, and its validation (types/tx.go). */
module TxRecords {
  import opened Prelude
  import opened Sorting

  type Tx = Bytes

  datatype Action = UnknownAction | Unmodified | Added | Removed | Delayed | Unrecognized(code: int)

  datatype TxRecord = TxRecord(action: Action, tx: Tx)

  datatype TxRecordSet = TxRecordSet(all: seq<Tx>, included: seq<Tx>, added: seq<Tx>, unmodified: seq<Tx>,
                                     removed: seq<Tx>,
                                     delayed: seq<Tx>, unknown: seq<Tx>)

  /** The transactions whose action is one of these, in record order. */
  function Those(rs: seq<TxRecord>, actions: set<Action>): seq<Tx> {
    if rs == [] then []
    else
      var n := |rs| - 1;
      Those(rs[..n], actions) + if rs[n].action in actions then [rs[n].tx] else []
  }

  lemma {:induction false} ThoseMembers(rs: seq<TxRecord>, actions: set<Action>)
    ensures forall k :: 0 <= k < |rs| && rs[k].action in actions ==> rs[k].tx in Those(rs, actions)
    ensures forall t :: t in Those(rs, actions) ==>
      exists k :: 0 <= k < |rs| && rs[k].action in actions && rs[k].tx == t
  {
    if rs == [] {
    } else {
      var n := |rs| - 1;
      ThoseMembers(rs[..n], actions);
      assert forall k :: 0 <= k < n ==> rs[..n][k] == rs[k];
    }
  }

  function All(rs: seq<TxRecord>): (r: seq<Tx>)
    ensures |r| == |rs|
  {
    seq(|rs|, i requires 0 <= i < |rs| => rs[i].tx)
  }

  function Indexed(rs: seq<TxRecord>): TxRecordSet {
    TxRecordSet(All(rs), Those(rs, {Unmodified, Added}), Those(rs, {Added}), Those(rs, {Unmodified}),
                Those(rs, {Removed}),
                Those(rs, {Delayed}), Those(rs, {UnknownAction}))
  }

  /** The transactions at the positions with one of these actions, all of them, in record order. */
  ghost predicate Lists(rs: seq<TxRecord>, actions: set<Action>, txs: seq<Tx>, at: seq<nat>) {
    && |at| == |txs|
    && (forall k :: 0 <= k < |at| ==> at[k] < |rs| && rs[at[k]].action in actions && txs[k] == rs[at[k]].tx)
    && (forall k, l :: 0 <= k < l < |at| ==> at[k] < at[l])
    && (forall i: nat :: i < |rs| && rs[i].action in actions ==> i in at)
  }

  lemma {:induction false} ThoseLists(rs: seq<TxRecord>, actions: set<Action>) returns (at: seq<nat>)
    ensures Lists(rs, actions, Those(rs, actions), at)
  {
    if rs == [] {
      at := [];
    } else {
      var n := |rs| - 1;
      hide Lists;
      var init := ThoseLists(rs[..n], actions);
      at := init + if rs[n].action in actions then [n] else [];
      assert rs[..n] + [rs[n]] == rs;
      ListsStep(rs[..n], rs[n], actions, Those(rs[..n], actions), init);
    }
  }

  lemma ListsStep(rs: seq<TxRecord>, r: TxRecord, actions: set<Action>, txs: seq<Tx>, at: seq<nat>)
    requires Lists(rs, actions, txs, at)
    ensures r.action in actions ==> Lists(rs + [r], actions, txs + [r.tx], at + [|rs|])
    ensures r.action !in actions ==> Lists(rs + [r], actions, txs + [], at + [])
  {
    var rs', at' := rs + [r], at + [|rs|];
    assert txs + [] == txs && at + [] == at;
    assert rs'[|rs|] == r && at'[|at|] == |rs| && forall i :: 0 <= i < |rs| ==> rs'[i] == rs[i];
    forall i: nat | i < |rs'| && rs'[i].action in actions
      ensures i in at'
    {
      assert i < |rs| ==> rs[i].action in actions && i in at;
    }
  }

  /** What goes into the block, and each of the other indexes, is what the actions say, in record order. */
  lemma IndexedLists(rs: seq<TxRecord>)
    ensures var t := Indexed(rs);
            && (exists at :: Lists(rs, {Unmodified, Added}, t.included, at))
            && (exists at :: Lists(rs, {Added}, t.added, at))
            && (exists at :: Lists(rs, {Unmodified}, t.unmodified, at))
            && (exists at :: Lists(rs, {Removed}, t.removed, at))
            && (exists at :: Lists(rs, {Delayed}, t.delayed, at))
            && (exists at :: Lists(rs, {UnknownAction}, t.unknown, at))
  {
    hide Lists;
    hide Those;
    var a := ThoseLists(rs, {Unmodified, Added});
    var b := ThoseLists(rs, {Added});
    var c := ThoseLists(rs, {Unmodified});
    var d := ThoseLists(rs, {Removed});
    var e := ThoseLists(rs, {Delayed});
    var f := ThoseLists(rs, {UnknownAction});
    assert Lists(rs, {Unmodified, Added}, Indexed(rs).included, a);
  }

  lemma ThoseStep(rs: seq<TxRecord>, n: nat, actions: set<Action>)
    requires n < |rs|
    ensures Those(rs[..n + 1], actions) == Those(rs[..n], actions) + if rs[n].action in actions then [rs[n].tx] else []
  {
    assert rs[..n + 1][..n] == rs[..n];
  }

  /** `NewTxRecordSet`: one pass builds every index in record order. */
  method NewTxRecordSet(rs: seq<TxRecord>) returns (t: TxRecordSet)
    ensures t == Indexed(rs)
  {
    hide Those;
    var added, unmodified, removed, delayed, unknown, included: seq<Tx> := [], [], [], [], [], [];
    var all: seq<Tx> := [];
    assert rs[..0] == [];
    ThoseNone();
    for i := 0 to |rs|
      invariant all == All(rs)[..i]
      invariant included == Those(rs[..i], {Unmodified, Added}) && added == Those(rs[..i], {Added})
      invariant unmodified == Those(rs[..i], {Unmodified}) && removed == Those(rs[..i], {Removed})
      invariant delayed == Those(rs[..i], {Delayed}) && unknown == Those(rs[..i], {UnknownAction})
    {
      ThoseStep(rs, i, {Unmodified, Added});
      ThoseStep(rs, i, {Added});
      ThoseStep(rs, i, {Unmodified});
      ThoseStep(rs, i, {Removed});
      ThoseStep(rs, i, {Delayed});
      ThoseStep(rs, i, {UnknownAction});
      var tx := rs[i].tx;
      all := all + [tx];
      match rs[i].action
      case UnknownAction => unknown := unknown + [tx];
      case Unmodified => unmodified := unmodified + [tx]; included := included + [tx];
      case Added => added := added + [tx]; included := included + [tx];
      case Removed => removed := removed + [tx];
      case Delayed => delayed := delayed + [tx];
      case Unrecognized(_) =>
    }
    assert rs[..|rs|] == rs;
    t := TxRecordSet(all, included, added, unmodified, removed, delayed, unknown);
  }

  lemma ThoseNone()
    ensures forall actions :: Those([], actions) == []
  {
  }

  // ---------------------------------------------------------------- sorted lists

  lemma AtMostOrder()
    ensures TotalOrder(AtMost)
  {
    forall x, y
      ensures AtMost(x, y) || AtMost(y, x)
    {
      LessTotal(x, y);
    }
    forall x, y, z | AtMost(x, y) && AtMost(y, z)
      ensures AtMost(x, z)
    {
      AtMostTransitive(x, y, z);
    }
  }

  method SortedCopy(txs: seq<Tx>) returns (r: seq<Tx>)
    ensures Ordered(r, AtMost) && Permutation(r, txs)
  {
    AtMostOrder();
    r := Sort(txs, AtMost);
  }

  /** `contains`: binary search finds an element exactly when it is there. */
  method Contains(sorted: seq<Tx>, elem: Tx) returns (n: int, ok: bool)
    requires Ordered(sorted, AtMost)
    ensures ok <==> elem in sorted
    ensures if ok then 0 <= n < |sorted| && sorted[n] == elem && elem !in sorted[..n] else n == -1
  {
    AtMostOrder();
    var i, j := 0, |sorted|;
    while i < j
      invariant 0 <= i <= j <= |sorted|
      invariant forall k :: 0 <= k < i ==> !AtMost(elem, sorted[k])
      invariant forall k :: j <= k < |sorted| ==> AtMost(elem, sorted[k])
    {
      var h := (i + j) / 2;
      if !AtMost(elem, sorted[h]) {
        i := h + 1;
      } else {
        j := h;
      }
    }
    if i == |sorted| || elem != sorted[i] {
      if elem in sorted {
        var k :| 0 <= k < |sorted| && sorted[k] == elem;
        assert AtMost(elem, sorted[k]);
        if i < k {
          AtMostAntisymmetric(elem, sorted[i]);
        }
      }
      return -1, false;
    }
    return i, true;
  }

  /** `containsAny`: the first of `b` that is in `a`. */
  method ContainsAny(a: seq<Tx>, b: seq<Tx>) returns (n: int, ok: bool)
    requires Ordered(a, AtMost)
    ensures ok <==> exists t :: t in b && t in a
    ensures if ok then 0 <= n < |b| && b[n] in a && (forall k :: 0 <= k < n ==> b[k] !in a) else n == -1
  {
    for i := 0 to |b|
      invariant forall k :: 0 <= k < i ==> b[k] !in a
    {
      var _, found := Contains(a, b[i]);
      if found {
        return i, true;
      }
    }
    return -1, false;
  }

  /** `containsAll`: the first of `sub` that is not in `super`. */
  method ContainsAll(super: seq<Tx>, sub: seq<Tx>) returns (n: int, ok: bool)
    requires Ordered(super, AtMost)
    ensures ok <==> forall t :: t in sub ==> t in super
    ensures if ok then n == -1 else 0 <= n < |sub| && sub[n] !in super && forall k :: 0 <= k < n ==> sub[k] in super
  {
    for i := 0 to |sub|
      invariant forall k :: 0 <= k < i ==> sub[k] in super
    {
      var _, found := Contains(super, sub[i]);
      if !found {
        return i, false;
      }
    }
    return -1, true;
  }

  // ---------------------------------------------------------------- validation

  datatype TxError = MarkedUnknown | Duplicate | TooLarge | NewUnmodified | NewRemoved | NewDelayed | ExistingAdded

  ghost predicate Within(txs: seq<Tx>, originals: seq<Tx>) {
    forall t :: t in txs ==> t in originals
  }

  function SizeOf(t: Tx): int {
    |t|
  }

  ghost predicate Disjoint(txs: seq<Tx>, originals: seq<Tx>) {
    forall t :: t in txs ==> t !in originals
  }

  /** Which error a record set gives against the original transactions. */
  ghost function Verdict(t: TxRecordSet, maxBytes: int, originals: seq<Tx>): Option<TxError> {
    var included := t.unmodified + t.added;
    if t.unknown != [] then Some(MarkedUnknown)
    else if !Distinct(t.all) then Some(Duplicate)
    else if included != [] && Sum(included, SizeOf) > maxBytes then Some(TooLarge)
    else if !Within(t.unmodified, originals) then Some(NewUnmodified)
    else if !Within(t.removed, originals) then Some(NewRemoved)
    else if !Within(t.delayed, originals) then Some(NewDelayed)
    else if !Disjoint(t.added, originals) then Some(ExistingAdded)
    else None
  }

  lemma NoneThere(rs: seq<TxRecord>, actions: set<Action>)
    ensures Those(rs, actions) == [] <==> forall k :: 0 <= k < |rs| ==> rs[k].action !in actions
  {
    ThoseMembers(rs, actions);
    var r := Those(rs, actions);
    if r != [] {
      assert r[0] in r;
    }
  }

  /** Every transaction under this action is one of the originals. */
  ghost predicate Old(rs: seq<TxRecord>, a: Action, originals: seq<Tx>) {
    forall k :: 0 <= k < |rs| && rs[k].action == a ==> rs[k].tx in originals
  }

  /** No transaction under this action is one of the originals. */
  ghost predicate New(rs: seq<TxRecord>, a: Action, originals: seq<Tx>) {
    forall k :: 0 <= k < |rs| && rs[k].action == a ==> rs[k].tx !in originals
  }

  lemma ThoseWithin(rs: seq<TxRecord>, a: Action, originals: seq<Tx>)
    ensures Within(Those(rs, {a}), originals) <==> Old(rs, a, originals)
    ensures Disjoint(Those(rs, {a}), originals) <==> New(rs, a, originals)
  {
    ThoseMembers(rs, {a});
  }

  lemma SizeStep(rs: seq<TxRecord>, n: nat, actions: set<Action>)
    requires n < |rs|
    ensures Sum(Those(rs[..n + 1], actions), SizeOf) ==
            Sum(Those(rs[..n], actions), SizeOf) + if rs[n].action in actions then |rs[n].tx| else 0
  {
    ThoseStep(rs, n, actions);
    SumAppend(Those(rs[..n], actions), if rs[n].action in actions then [rs[n].tx] else [], SizeOf);
    assert Sum([rs[n].tx], SizeOf) == |rs[n].tx|;
  }

  /** Unmodified and added together weigh as much as the included. */
  lemma {:induction false} IncludedSize(rs: seq<TxRecord>)
    ensures Sum(Those(rs, {Unmodified}) + Those(rs, {Added}), SizeOf) == Sum(Those(rs, {Unmodified, Added}), SizeOf)
  {
    hide Those;
    ThoseNone();
    SumAppend(Those(rs, {Unmodified}), Those(rs, {Added}), SizeOf);
    if rs == [] {
    } else {
      var n := |rs| - 1;
      IncludedSize(rs[..n]);
      assert rs[..n + 1] == rs;
      SizeStep(rs, n, {Unmodified});
      SizeStep(rs, n, {Added});
      SizeStep(rs, n, {Unmodified, Added});
      SumAppend(Those(rs[..n], {Unmodified}), Those(rs[..n], {Added}), SizeOf);
    }
  }

  /** A set built from records is valid if and only if no record is unknown, all transactions are distinct,
      the included bytes fit, and the actions tell the truth about the originals. */
  lemma ValidIff(rs: seq<TxRecord>, maxBytes: int, originals: seq<Tx>)
    ensures Verdict(Indexed(rs), maxBytes, originals) == None <==>
      && (forall k :: 0 <= k < |rs| ==> rs[k].action != UnknownAction)
      && Distinct(All(rs))
      && (Those(rs, {Unmodified, Added}) != [] ==> Sum(Those(rs, {Unmodified, Added}), SizeOf) <= maxBytes)
      && Old(rs, Unmodified, originals) && Old(rs, Removed, originals) && Old(rs, Delayed, originals)
      && New(rs, Added, originals)
  {
    hide Those;
    hide Sum;
    hide Within;
    hide Disjoint;
    hide Distinct;
    hide Old;
    hide New;
    NoneThere(rs, {UnknownAction});
    IncludedEmpty(rs);
    IncludedSize(rs);
    ThoseWithin(rs, Unmodified, originals);
    ThoseWithin(rs, Removed, originals);
    ThoseWithin(rs, Delayed, originals);
    ThoseWithin(rs, Added, originals);
  }

  lemma IncludedEmpty(rs: seq<TxRecord>)
    ensures Those(rs, {Unmodified, Added}) == [] <==> Those(rs, {Unmodified}) + Those(rs, {Added}) == []
  {
    NoneThere(rs, {Unmodified, Added});
    NoneThere(rs, {Unmodified});
    NoneThere(rs, {Added});
  }

  lemma SortedDistinct(sorted: seq<Tx>, txs: seq<Tx>)
    requires Ordered(sorted, AtMost) && Permutation(sorted, txs)
    ensures Distinct(txs) <==> forall i :: 0 <= i < |sorted| - 1 ==> sorted[i] != sorted[i + 1]
  {
    PermutedDistinct(sorted, txs);
    if forall i :: 0 <= i < |sorted| - 1 ==> sorted[i] != sorted[i + 1] {
      forall i, j | 0 <= i < j < |sorted|
        ensures sorted[i] != sorted[j]
      {
        assert sorted[i] != sorted[i + 1];
        assert AtMost(sorted[i], sorted[i + 1]);
        if i + 1 < j && sorted[i] == sorted[j] {
          assert AtMost(sorted[i + 1], sorted[j]);
          AtMostAntisymmetric(sorted[i], sorted[i + 1]);
        }
      }
    }
  }

  lemma {:induction false} SizesNonnegative(txs: seq<Tx>)
    ensures Sum(txs, SizeOf) >= 0
  {
    if txs == [] {
    } else {
      SizesNonnegative(txs[1..]);
    }
  }

  /** The loop over the sizes stops early exactly when the total is too large. */
  method TooLargeFor(txs: seq<Tx>, maxBytes: int) returns (r: bool)
    ensures r <==> txs != [] && Sum(txs, SizeOf) > maxBytes
  {
    var size := 0;
    for i := 0 to |txs|
      invariant size == Sum(txs[..i], SizeOf)
      invariant i > 0 ==> size <= maxBytes
    {
      assert txs[..i + 1] == txs[..i] + [txs[i]] && txs == txs[..i + 1] + txs[i + 1..];
      SumAppend(txs[..i], [txs[i]], SizeOf);
      SumAppend(txs[..i + 1], txs[i + 1..], SizeOf);
      SizesNonnegative(txs[i + 1..]);
      size := size + |txs[i]|;
      if size > maxBytes {
        return true;
      }
    }
    assert txs[..|txs|] == txs;
    return false;
  }

  method HasDuplicate(txs: seq<Tx>) returns (r: bool)
    ensures r <==> !Distinct(txs)
  {
    var sorted := SortedCopy(txs);
    SortedDistinct(sorted, txs);
    for i := 0 to |sorted|
      invariant forall k :: 0 <= k < i && k + 1 < |sorted| ==> sorted[k] != sorted[k + 1]
    {
      if i + 1 < |sorted| && sorted[i] == sorted[i + 1] {
        return true;
      }
    }
    return false;
  }

  /** `Validate`: sorted copies and binary search give the verdict of the set specification. */
  method Validate(t: TxRecordSet, maxBytes: int, originals: seq<Tx>) returns (err: Option<TxError>)
    ensures err == Verdict(t, maxBytes, originals)
  {
    if |t.unknown| > 0 {
      return Some(MarkedUnknown);
    }
    var duplicate := HasDuplicate(t.all);
    if duplicate {
      return Some(Duplicate);
    }
    var added := SortedCopy(t.added);
    var removed := SortedCopy(t.removed);
    var delayed := SortedCopy(t.delayed);
    var unmodified := SortedCopy(t.unmodified);
    SameIncluded(t, unmodified, added);
    var tooLarge := TooLargeFor(unmodified + added, maxBytes);
    if tooLarge {
      return Some(TooLarge);
    }
    var sorted := SortedCopy(originals);
    PermutationFacts(sorted, originals);
    PermutationFacts(added, t.added);
    PermutationFacts(removed, t.removed);
    PermutationFacts(delayed, t.delayed);
    PermutationFacts(unmodified, t.unmodified);
    hide Sum;
    hide Ordered;
    hide Permutation;
    var ix, ok := ContainsAll(sorted, unmodified);
    if !ok {
      return Some(NewUnmodified);
    }
    ix, ok := ContainsAll(sorted, removed);
    if !ok {
      return Some(NewRemoved);
    }
    ix, ok := ContainsAll(sorted, delayed);
    if !ok {
      return Some(NewDelayed);
    }
    ix, ok := ContainsAny(sorted, added);
    return if ok then Some(ExistingAdded) else None;
  }

  lemma SameIncluded(t: TxRecordSet, unmodified: seq<Tx>, added: seq<Tx>)
    requires Permutation(unmodified, t.unmodified) && Permutation(added, t.added)
    ensures Sum(unmodified + added, SizeOf) == Sum(t.unmodified + t.added, SizeOf)
    ensures unmodified + added == [] <==> t.unmodified + t.added == []
  {
    PermutationFacts(unmodified, t.unmodified);
    PermutationFacts(added, t.added);
    SumPermutation(unmodified, t.unmodified, SizeOf);
    SumPermutation(added, t.added, SizeOf);
    SumAppend(unmodified, added, SizeOf);
    SumAppend(t.unmodified, t.added, SizeOf);
  }

  /** A block made of valid records has no transaction twice, fits, and holds originals and additions only. */
  lemma ValidBlock(rs: seq<TxRecord>, maxBytes: int, originals: seq<Tx>)
    requires Verdict(Indexed(rs), maxBytes, originals) == None
    ensures var block := Indexed(rs).included;
            && Distinct(block) && (block != [] ==> Sum(block, SizeOf) <= maxBytes)
            && forall t :: t in block ==> t in originals <==> t !in Indexed(rs).added
  {
    hide Sum;
    hide Those;
    ValidIff(rs, maxBytes, originals);
    var at := ThoseLists(rs, {Unmodified, Added});
    var block := Indexed(rs).included;
    forall i, j | 0 <= i < j < |block|
      ensures block[i] != block[j]
    {
      assert All(rs)[at[i]] != All(rs)[at[j]];
    }
    ThoseMembers(rs, {Unmodified, Added});
    ThoseMembers(rs, {Added});
  }

  /** A refusal says what is wrong with the records. */
  lemma RefusedBecause(rs: seq<TxRecord>, maxBytes: int, originals: seq<Tx>)
    ensures match Verdict(Indexed(rs), maxBytes, originals)
            case None => true
            case Some(MarkedUnknown) => exists k :: 0 <= k < |rs| && rs[k].action == UnknownAction
            case Some(Duplicate) => !Distinct(All(rs))
            case Some(TooLarge) => Sum(Indexed(rs).included, SizeOf) > maxBytes
            case Some(NewUnmodified) => !Old(rs, Unmodified, originals)
            case Some(NewRemoved) => !Old(rs, Removed, originals)
            case Some(NewDelayed) => !Old(rs, Delayed, originals)
            case Some(ExistingAdded) => !New(rs, Added, originals)
  {
    hide Those;
    hide Sum;
    hide Within;
    hide Disjoint;
    hide Distinct;
    hide Old;
    hide New;
    NoneThere(rs, {UnknownAction});
    IncludedSize(rs);
    ThoseWithin(rs, Unmodified, originals);
    ThoseWithin(rs, Removed, originals);
    ThoseWithin(rs, Delayed, originals);
    ThoseWithin(rs, Added, originals);
  }
}
