/** The light client's providers: dropping witnesses and promoting one to primary (light/client.go). */
module LightProviders {
  import opened Prelude
  import opened Sorting

  /** A provider is known by its ID. */
  type Provider = string

  /** What providers answer is handed on unread. */
  type LightBlock = Bytes
  type Error = string

  /** A response: a light block, an error that is only logged, a cancelled or expired context, or an error
      that costs the witness its place. */
  datatype Outcome = Block(block: LightBlock) | Benign(error: Error) | Cancelled | Bad(error: Error)

  datatype Response = Response(from: nat, outcome: Outcome)

  datatype FindError = NoWitnesses | ContextDone | LastError(error: Error)

  ghost predicate Apart(primary: Provider, witnesses: seq<Provider>) {
    primary !in witnesses && Distinct(witnesses)
  }

  /** `validatePrimaryAndWitnesses`. */
  method ValidatePrimaryAndWitnesses(primary: Provider, witnesses: seq<Provider>) returns (ok: bool)
    ensures ok <==> Apart(primary, witnesses)
  {
    var seen: set<Provider> := {};
    for i := 0 to |witnesses|
      invariant seen == set k | 0 <= k < i :: witnesses[k]
      invariant Apart(primary, witnesses[..i])
    {
      if witnesses[i] == primary || witnesses[i] in seen {
        return false;
      }
      seen := seen + {witnesses[i]};
    }
    assert witnesses[..|witnesses|] == witnesses;
    return true;
  }

  // ---------------------------------------------------------------- selections

  ghost predicate InRange(indexes: seq<nat>, n: nat) {
    forall i :: 0 <= i < |indexes| ==> indexes[i] < n
  }

  function Indexes(s: seq<nat>): set<nat> {
    set i | i in s
  }

  /** The witnesses at the other indexes. */
  function Kept(ws: seq<Provider>, dropped: set<nat>): multiset<Provider> {
    if ws == [] then multiset{}
    else
      var n := |ws| - 1;
      var rest := Kept(ws[..n], dropped);
      if n in dropped then rest else rest + multiset{ws[n]}
  }

  lemma {:induction false} KeptAll(ws: seq<Provider>)
    ensures Kept(ws, {}) == multiset(ws)
  {
    if ws == [] {
    } else {
      var n := |ws| - 1;
      KeptAll(ws[..n]);
      assert ws == ws[..n] + [ws[n]];
    }
  }

  lemma {:induction false} KeptSame(ws: seq<Provider>, a: set<nat>, b: set<nat>)
    requires forall i :: 0 <= i < |ws| ==> (i in a <==> i in b)
    ensures Kept(ws, a) == Kept(ws, b)
  {
    if ws == [] {
    } else {
      KeptSame(ws[..|ws| - 1], a, b);
    }
  }

  lemma KeptLast(ws: seq<Provider>, dropped: set<nat>)
    requires ws != []
    ensures var n := |ws| - 1;
            Kept(ws, dropped) == if n in dropped then Kept(ws[..n], dropped)
                                 else Kept(ws[..n], dropped) + multiset{ws[n]}
  {
  }

  /** Dropping one more index drops one provider. */
  lemma {:induction false} KeptOne(ws: seq<Provider>, dropped: set<nat>, j: nat)
    requires j < |ws| && j !in dropped
    ensures Kept(ws, dropped + {j}) + multiset{ws[j]} == Kept(ws, dropped)
  {
    hide Kept;
    var n := |ws| - 1;
    KeptLast(ws, dropped);
    KeptLast(ws, dropped + {j});
    if j < n {
      KeptOne(ws[..n], dropped, j);
      Commute(Kept(ws[..n], dropped + {j}), ws[n], ws[j]);
    } else {
      KeptSame(ws[..n], dropped + {j}, dropped);
    }
  }

  lemma Commute(m: multiset<Provider>, x: Provider, y: Provider)
    ensures m + multiset{x} + multiset{y} == m + multiset{y} + multiset{x}
  {
  }

  lemma Cancel(a: multiset<Provider>, b: multiset<Provider>, x: Provider)
    requires a + multiset{x} == b + multiset{x}
    ensures a == b
  {
    assert a == (a + multiset{x}) - multiset{x};
    assert b == (b + multiset{x}) - multiset{x};
  }

  /** Swap with the last and cut: exactly one element goes. */
  lemma SwapRemove(ws: seq<Provider>, i: nat)
    requires i < |ws|
    ensures multiset(ws[i := ws[|ws| - 1]][..|ws| - 1]) + multiset{ws[i]} == multiset(ws)
  {
    var n := |ws| - 1;
    if i < n {
      assert ws == ws[..i] + [ws[i]] + ws[i + 1..n] + [ws[n]];
      assert ws[i := ws[n]][..n] == ws[..i] + [ws[n]] + ws[i + 1..n];
    } else {
      assert ws == ws[..n] + [ws[n]];
      assert ws[i := ws[n]][..n] == ws[..n];
    }
  }

  predicate IntLe(a: nat, b: nat) {
    a <= b
  }

  lemma StrictlyAscending(sorted: seq<nat>, indexes: seq<nat>)
    requires Ordered(sorted, IntLe) && Permutation(sorted, indexes) && Distinct(indexes)
    ensures forall i, j :: 0 <= i < j < |sorted| ==> sorted[i] < sorted[j]
  {
    PermutedDistinct(sorted, indexes);
    assert forall i, j :: 0 <= i < j < |sorted| ==> IntLe(sorted[i], sorted[j]);
  }

  /** The descending removal loop: whatever moves forward comes from behind the indexes still to go. */
  method RemoveAll(ws: seq<Provider>, sorted: seq<nat>) returns (r: seq<Provider>)
    requires InRange(sorted, |ws|) && forall i, j :: 0 <= i < j < |sorted| ==> sorted[i] < sorted[j]
    ensures |r| == |ws| - |sorted| && multiset(r) == Kept(ws, Indexes(sorted))
  {
    hide Kept;
    hide Indexes;
    r := ws;
    var i := |sorted| - 1;
    KeptNone(ws, sorted);
    while i >= 0
      invariant -1 <= i < |sorted|
      invariant |r| == |ws| - (|sorted| - 1 - i)
      invariant i >= 0 ==> sorted[i] < |r|
      invariant forall k :: 0 <= k < |r| && (i + 1 < |sorted| ==> k < sorted[i + 1]) ==> r[k] == ws[k]
      invariant multiset(r) == Kept(ws, Indexes(sorted[i + 1..]))
    {
      KeptNext(ws, sorted, i);
      Gap(sorted, i, |ws|);
      assert r[sorted[i]] == ws[sorted[i]];
      r := SwapLast(r, sorted[i], Kept(ws, Indexes(sorted[i..])));
      i := i - 1;
    }
    assert sorted[0..] == sorted;
  }

  /** The body of the loop. */
  method SwapLast(ws: seq<Provider>, i: nat, ghost rest: multiset<Provider>) returns (r: seq<Provider>)
    requires i < |ws| && rest + multiset{ws[i]} == multiset(ws)
    ensures |r| == |ws| - 1 && multiset(r) == rest
    ensures forall k :: 0 <= k < |r| && k < i ==> r[k] == ws[k]
  {
    SwapRemove(ws, i);
    r := ws[i := ws[|ws| - 1]];
    r := r[..|r| - 1];
    Cancel(multiset(r), rest, ws[i]);
  }

  lemma KeptNone(ws: seq<Provider>, sorted: seq<nat>)
    ensures Kept(ws, Indexes(sorted[|sorted|..])) == multiset(ws)
  {
    assert Indexes(sorted[|sorted|..]) == {};
    KeptAll(ws);
  }

  lemma KeptNext(ws: seq<Provider>, sorted: seq<nat>, i: nat)
    requires InRange(sorted, |ws|) && (forall i, j :: 0 <= i < j < |sorted| ==> sorted[i] < sorted[j]) && i < |sorted|
    ensures Kept(ws, Indexes(sorted[i..])) + multiset{ws[sorted[i]]} == Kept(ws, Indexes(sorted[i + 1..]))
  {
    var later := Indexes(sorted[i + 1..]);
    assert sorted[i..] == [sorted[i]] + sorted[i + 1..];
    assert Indexes(sorted[i..]) == later + {sorted[i]};
    KeptOne(ws, later, sorted[i]);
  }

  /** The indexes above one leave room for it. */
  lemma {:induction false} Gap(sorted: seq<nat>, i: nat, n: nat)
    requires InRange(sorted, n) && (forall i, j :: 0 <= i < j < |sorted| ==> sorted[i] < sorted[j]) && i < |sorted|
    ensures sorted[i] + (|sorted| - 1 - i) < n
    ensures i > 0 ==> sorted[i - 1] + (|sorted| - i) < n
    decreases |sorted| - i
  {
    if i + 1 == |sorted| {
    } else {
      Gap(sorted, i + 1, n);
    }
  }

  // ---------------------------------------------------------------- the search for a primary

  datatype Decision = Promote(index: nat, block: LightBlock, bad: seq<nat>) | Abandon
    | Exhausted(bad: seq<nat>, last: Error)

  /** What the responses, in the order of their arrival, decide; running out of responses before every
      witness has answered means the context is done. */
  function Decide(rs: seq<Response>, n: nat, bad: seq<nat>, last: Error): Decision {
    if n == 0 then Exhausted(bad, last)
    else if rs == [] then Abandon
    else
      match rs[0].outcome
      case Block(block) => Promote(rs[0].from, block, bad)
      case Benign(e) => Decide(rs[1..], n - 1, bad, e)
      case Cancelled => Abandon
      case Bad(e) => Decide(rs[1..], n - 1, bad + [rs[0].from], e)
  }

  const NO_ERROR: Error := ""

  /** The decision said without the loop: the first response that settles it is a light block, which is promoted
      with everybody bad before it dropped, or a cancelled context; with none, the last error is reported. */
  ghost predicate Unsettled(rs: seq<Response>, k: nat)
    requires k <= |rs|
  {
    forall i :: 0 <= i < k ==> rs[i].outcome.Benign? || rs[i].outcome.Bad?
  }

  function BadBefore(rs: seq<Response>, k: nat): seq<nat>
    requires k <= |rs|
  {
    if k == 0 then [] else BadBefore(rs, k - 1) + if rs[k - 1].outcome.Bad? then [rs[k - 1].from] else []
  }

  function LastErrorOf(rs: seq<Response>, k: nat): Error
    requires k <= |rs| && Unsettled(rs, k)
  {
    if k == 0 then NO_ERROR else rs[k - 1].outcome.error
  }

  lemma {:induction false} DecidePrefix(rs: seq<Response>, n: nat, k: nat)
    requires k <= n && k <= |rs| && Unsettled(rs, k)
    ensures Decide(rs, n, [], NO_ERROR) == Decide(rs[k..], n - k, BadBefore(rs, k), LastErrorOf(rs, k))
  {
    if k == 0 {
      assert rs[0..] == rs;
    } else {
      var o := rs[k - 1].outcome;
      assert o.Benign? || o.Bad?;
      DecidePrefix(rs, n, k - 1);
      assert rs[k - 1..][0] == rs[k - 1] && rs[k - 1..][1..] == rs[k..];
      if o.Benign? {
        assert BadBefore(rs, k) == BadBefore(rs, k - 1);
      }
    }
  }

  lemma DecideMeaning(rs: seq<Response>, n: nat, k: nat)
    requires k <= n && k <= |rs| && Unsettled(rs, k)
    ensures k == n ==> Decide(rs, n, [], NO_ERROR) == Exhausted(BadBefore(rs, n), LastErrorOf(rs, n))
    ensures k < n && k == |rs| ==> Decide(rs, n, [], NO_ERROR) == Abandon
    ensures k < n && k < |rs| && rs[k].outcome.Cancelled? ==> Decide(rs, n, [], NO_ERROR) == Abandon
    ensures k < n && k < |rs| && rs[k].outcome.Block? ==>
              Decide(rs, n, [], NO_ERROR) == Promote(rs[k].from, rs[k].outcome.block, BadBefore(rs, k))
  {
    DecidePrefix(rs, n, k);
  }

  /** Every witness answers at most once. */
  ghost predicate Arrivals(rs: seq<Response>, n: nat) {
    && (forall i :: 0 <= i < |rs| ==> rs[i].from < n)
    && (forall i, j :: 0 <= i < j < |rs| ==> rs[i].from != rs[j].from)
  }

  ghost predicate Fresh(bad: seq<nat>, rs: seq<Response>) {
    forall i, j :: 0 <= i < |bad| && 0 <= j < |rs| ==> bad[i] != rs[j].from
  }

  /** The indexes a decision names are distinct and in range. */
  lemma {:induction false} DecideIndexes(rs: seq<Response>, left: nat, bad: seq<nat>, last: Error, n: nat)
    requires Arrivals(rs, n) && InRange(bad, n) && Distinct(bad) && Fresh(bad, rs)
    ensures match Decide(rs, left, bad, last)
            case Promote(w, _, b) => w < n && InRange(b, n) && Distinct(b + [w])
            case Abandon => true
            case Exhausted(b, _) => InRange(b, n) && Distinct(b)
    decreases |rs|
  {
    if left == 0 || rs == [] {
    } else {
      match rs[0].outcome
      case Benign(e) => DecideIndexes(rs[1..], left - 1, bad, e, n);
      case Bad(e) => DecideIndexes(rs[1..], left - 1, bad + [rs[0].from], e, n);
      case _ =>
    }
  }

  /** Distinct indexes below a bound are no more than the bound. */
  lemma {:induction false} Pigeonhole(s: seq<nat>, n: nat)
    requires Distinct(s) && InRange(s, n)
    ensures |s| <= n
  {
    assert s != [] ==> s[0] < n;
    if n > 0 && n - 1 in s {
      var k :| 0 <= k < |s| && s[k] == n - 1;
      Pigeonhole(s[..k] + s[k + 1..], n - 1);
    } else if n > 0 {
      Pigeonhole(s, n - 1);
    }
  }

  /** What a search leads to. On success the primary and the witnesses are together the old providers without
      the bad ones, and without the old primary if it was to go. */
  ghost predicate Found(primary: Provider, ws: seq<Provider>, rs: seq<Response>, remove: bool,
                        r: Result<LightBlock, FindError>, primary': Provider, ws': seq<Provider>)
  {
    match Decide(rs, |ws|, [], NO_ERROR)
    case Promote(w, block, bad) =>
      && r == (if Stranded(rs, |ws|, remove) then Err(NoWitnesses) else Ok(block))
      && w < |ws| && primary' == ws[w]
      && (r.Ok? ==>
            multiset{primary'} + multiset(ws') == Kept(if remove then ws else ws + [primary], Indexes(bad)))
      && (r.Err? ==> ws' == ws)
    case Abandon => r == Err(ContextDone) && primary' == primary && ws' == ws
    case Exhausted(bad, last) =>
      && r == Err(if ws == [] then NoWitnesses else LastError(last))
      && primary' == primary
      && multiset(ws') == if |ws| > |bad| then Kept(ws, Indexes(bad)) else multiset(ws)
  }

  /** The primary was to go and nobody would be left beside the promoted witness. */
  predicate Stranded(rs: seq<Response>, n: nat, remove: bool) {
    var d := Decide(rs, n, [], NO_ERROR);
    remove && d.Promote? && |d.bad| + 1 == n
  }

  class LightClient {
    var primary: Provider
    var witnesses: seq<Provider>

    constructor (primary: Provider, witnesses: seq<Provider>)
      ensures this.primary == primary && this.witnesses == witnesses
    {
      this.primary, this.witnesses := primary, witnesses;
    }

    /** `removeWitnesses`: exactly the witnesses at these indexes go, unless nobody would be left. */
    method RemoveWitnesses(indexes: seq<nat>) returns (ok: bool)
      requires InRange(indexes, |witnesses|) && Distinct(indexes)
      modifies this`witnesses
      ensures ok <==> |old(witnesses)| > |indexes|
      ensures ok ==> |witnesses| == |old(witnesses)| - |indexes|
                     && multiset(witnesses) == Kept(old(witnesses), Indexes(indexes))
      ensures !ok ==> witnesses == old(witnesses)
    {
      if |witnesses| <= |indexes| {
        return false;
      }
      IntLeOrder();
      var sorted := Sort(indexes, IntLe);
      PermutationFacts(sorted, indexes);
      StrictlyAscending(sorted, indexes);
      assert Indexes(sorted) == Indexes(indexes);
      assert forall i :: 0 <= i < |sorted| ==> sorted[i] in indexes;
      witnesses := RemoveAll(witnesses, sorted);
      return true;
    }

    /** The responses are gone through as they come. */
    method Listen(rs: seq<Response>) returns (d: Decision)
      ensures d == Decide(rs, |witnesses|, [], NO_ERROR)
    {
      var bad: seq<nat> := [];
      var last := NO_ERROR;
      for i := 0 to |witnesses|
        invariant i <= |rs| && Decide(rs, |witnesses|, [], NO_ERROR) == Decide(rs[i..], |witnesses| - i, bad, last)
      {
        if i == |rs| {
          return Abandon;
        }
        assert rs[i..][1..] == rs[i + 1..];
        match rs[i].outcome
        case Block(block) => return Promote(rs[i].from, block, bad);
        case Benign(e) => last := e;
        case Cancelled => return Abandon;
        case Bad(e) => bad, last := bad + [rs[i].from], e;
      }
      return Exhausted(bad, last);
    }

    /** `findNewPrimary`. */
    method FindNewPrimary(rs: seq<Response>, remove: bool) returns (r: Result<LightBlock, FindError>)
      requires Arrivals(rs, |witnesses|)
      modifies this
      ensures Found(old(primary), old(witnesses), rs, remove, r, primary, witnesses)
    {
      if |witnesses| < 1 {
        return Err(NoWitnesses);
      }
      DecideIndexes(rs, |witnesses|, [], NO_ERROR, |witnesses|);
      var d := Listen(rs);
      match d
      case Promote(w, block, bad) =>
        var err := PromoteWitness(w, bad, remove);
        return if err.Some? then Err(err.value) else Ok(block);
      case Abandon =>
        return Err(ContextDone);
      case Exhausted(bad, last) =>
        var _ := RemoveWitnesses(bad);
        return Err(LastError(last));
    }

    method PromoteWitness(w: nat, bad: seq<nat>, remove: bool) returns (err: Option<FindError>)
      requires w < |witnesses| && InRange(bad, |witnesses|) && Distinct(bad + [w])
      modifies this
      ensures var ws := old(witnesses);
              var before := if remove then ws else ws + [old(primary)];
              && primary == ws[w]
              && err == (if remove && |bad| + 1 == |ws| then Some(NoWitnesses) else None)
              && (err == None ==> multiset{primary} + multiset(witnesses) == Kept(before, Indexes(bad)))
              && (err != None ==> witnesses == ws)
    {
      Pigeonhole(bad + [w], |witnesses|);
      if !remove {
        witnesses := witnesses + [primary];
      }
      ghost var before := witnesses;
      primary := witnesses[w];
      var indexes := bad + [w];
      var ok := RemoveWitnesses(indexes);
      if !ok {
        return Some(NoWitnesses);
      }
      assert Indexes(indexes) == Indexes(bad) + {w};
      assert indexes[|bad|] == w && forall i :: 0 <= i < |bad| ==> indexes[i] == bad[i];
      assert w !in bad;
      KeptOne(before, Indexes(bad), w);
      return None;
    }
  }

  lemma IntLeOrder()
    ensures TotalOrder(IntLe)
  {
  }

  // ---------------------------------------------------------------- distinct providers stay distinct

  lemma {:induction false} KeptCounts(ws: seq<Provider>, dropped: set<nat>, x: Provider)
    ensures Kept(ws, dropped)[x] <= multiset(ws)[x]
  {
    if ws == [] {
    } else {
      var n := |ws| - 1;
      assert ws == ws[..n] + [ws[n]];
      KeptCounts(ws[..n], dropped, x);
    }
  }

  /** After a successful promotion the primary is not among the witnesses and no witness is there twice. */
  lemma PromotedApart(primary: Provider, ws: seq<Provider>, remove: bool, bad: set<nat>, primary': Provider,
                      ws': seq<Provider>)
    requires Apart(primary, ws)
    requires multiset{primary'} + multiset(ws') == Kept(if remove then ws else ws + [primary], bad)
    ensures Apart(primary', ws')
  {
    hide Kept;
    hide Distinct;
    var before, after := if remove then ws else ws + [primary], [primary'] + ws';
    BeforeDistinct(primary, ws);
    DistinctCounts(before);
    DistinctCounts(after);
    assert multiset(after) == multiset{primary'} + multiset(ws');
    forall x
      ensures multiset(after)[x] <= 1
    {
      KeptCounts(before, bad, x);
    }
    AfterApart(primary', ws');
  }

  lemma BeforeDistinct(primary: Provider, ws: seq<Provider>)
    requires Apart(primary, ws)
    ensures Distinct(ws) && Distinct(ws + [primary])
  {
  }

  lemma AfterApart(primary: Provider, ws: seq<Provider>)
    requires Distinct([primary] + ws)
    ensures Apart(primary, ws)
  {
    var after := [primary] + ws;
    assert after[0] == primary && forall i :: 0 <= i < |ws| ==> after[i + 1] == ws[i];
  }

  /** The search keeps providers apart unless it is stranded: then the new primary is still among the witnesses. */
  lemma FoundApartIff(primary: Provider, ws: seq<Provider>, rs: seq<Response>, remove: bool,
                      r: Result<LightBlock, FindError>, primary': Provider, ws': seq<Provider>)
    requires Apart(primary, ws) && Found(primary, ws, rs, remove, r, primary', ws')
    ensures Apart(primary', ws') <==> !Stranded(rs, |ws|, remove)
  {
    hide Kept;
    hide Distinct;
    match Decide(rs, |ws|, [], NO_ERROR)
    case Promote(w, block, bad) =>
      if r.Ok? {
        PromotedApart(primary, ws, remove, Indexes(bad), primary', ws');
      }
    case Abandon =>
    case Exhausted(bad, last) =>
      KeptAll(ws);
      FewerApart(primary, ws, ws', if |ws| > |bad| then Indexes(bad) else {});
  }

  lemma FewerApart(primary: Provider, ws: seq<Provider>, ws': seq<Provider>, dropped: set<nat>)
    requires Apart(primary, ws) && multiset(ws') == Kept(ws, dropped)
    ensures Apart(primary, ws')
  {
    hide Kept;
    hide Distinct;
    DistinctCounts(ws);
    DistinctCounts(ws');
    forall x
      ensures multiset(ws')[x] <= multiset(ws)[x]
    {
      KeptCounts(ws, dropped, x);
    }
    assert primary !in multiset(ws);
  }

  /** It is stranded exactly when all witnesses answer, the last one with a block and the others badly. */
  lemma StrandedIff(rs: seq<Response>, n: nat)
    requires n > 0
    ensures Stranded(rs, n, true) <==>
              |rs| >= n && rs[n - 1].outcome.Block? && forall i :: 0 <= i < n - 1 ==> rs[i].outcome.Bad?
  {
    var k := Settled(rs, n);
    DecideMeaning(rs, n, k);
    FewBad(rs, k);
  }

  lemma {:induction false} Settled(rs: seq<Response>, n: nat) returns (k: nat)
    ensures k <= n && k <= |rs| && Unsettled(rs, k)
    ensures k == n || k == |rs| || rs[k].outcome.Block? || rs[k].outcome.Cancelled?
  {
    if n == 0 || rs == [] || rs[0].outcome.Block? || rs[0].outcome.Cancelled? {
      k := 0;
    } else {
      var j := Settled(rs[1..], n - 1);
      k := j + 1;
      forall i | 0 <= i < k
        ensures rs[i].outcome.Benign? || rs[i].outcome.Bad?
      {
        assert i > 0 ==> rs[i] == rs[1..][i - 1];
      }
    }
  }

  lemma {:induction false} FewBad(rs: seq<Response>, k: nat)
    requires k <= |rs|
    ensures |BadBefore(rs, k)| <= k
    ensures |BadBefore(rs, k)| == k <==> forall i :: 0 <= i < k ==> rs[i].outcome.Bad?
  {
    if k == 0 {
    } else {
      FewBad(rs, k - 1);
    }
  }

  /** A lone witness that answers is promoted, but stays a witness when the primary was to go. */
  lemma LoneWitnessStranded(primary: Provider, w: Provider, block: LightBlock)
    requires primary != w
    ensures Apart(primary, [w]) && Stranded([Response(0, Block(block))], 1, true)
    ensures Found(primary, [w], [Response(0, Block(block))], true, Err(NoWitnesses), w, [w]) && !Apart(w, [w])
  {
  }
}
