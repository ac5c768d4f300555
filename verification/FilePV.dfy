/** The file-backed private validator: a double-sign guard that survives crashes (privval/file.go). */
module FilePVs {
  import opened Prelude
  import opened BlockIDs
  import opened Signing

  /** Height, round and step, compared lexicographically. */
  datatype HRS = HRS(height: int, round: int, step: int) {
    predicate Before(o: HRS) {
      height < o.height || (height == o.height && (round < o.round || (round == o.round && step < o.step)))
    }
  }

  const STEP_PROPOSE := 1
  const STEP_PREVOTE := 2
  const STEP_PRECOMMIT := 3

  /** `FilePVLastSignState`. */
  datatype SignState = SignState(hrs: HRS, sign: Bytes, signBytes: Bytes)

  const FRESH := SignState(HRS(0, 0, 0), [], [])

  /** A key's signature over a digest is never empty. */
  type Signature = s: Bytes | s != [] witness [0]

  /** The private keys by quorum, and signing with one of them. */
  datatype Signer = Signer(p: Primitives, hasKey: Bytes -> bool, signDigest: (Bytes, Hash32) -> Option<Signature>)

  datatype Request =
    | VoteRequest(context: Context, vote: Vote)
    | ProposalRequest(quorumHash: Hash32, height: int, round: int, signBytes: Bytes, signHash: Hash32)

  datatype Reply =
    | Released(hrs: HRS, signBytes: Bytes, sign: Bytes, extSigns: seq<Bytes>)
    | Refused
    | SaveFailed
    | GuardPanic
    | FillPanic

  /** What the process holds and what the state file holds. */
  datatype PV = PV(mem: SignState, disk: SignState)

  // ---------------------------------------------------------------- the guard

  datatype Verdict = Ahead | Same | Behind | NoSignBytes | NoSignPanic

  /** `checkHRS`. */
  function CheckHRS(lss: SignState, height: int, round: int, step: int): Verdict {
    if lss.hrs.height > height then Behind
    else if lss.hrs.height == height then
      if lss.hrs.round > round then Behind
      else if lss.hrs.round == round then
        if lss.hrs.step > step then Behind
        else if lss.hrs.step == step then
          if lss.signBytes != [] then (if lss.sign == [] then NoSignPanic else Same) else NoSignBytes
        else Ahead
      else Ahead
    else Ahead
  }

  /** The nested comparisons are the lexicographic order on height, round and step. */
  lemma CheckHRSOrder(lss: SignState, hrs: HRS)
    ensures var v := CheckHRS(lss, hrs.height, hrs.round, hrs.step);
            && (v == Ahead <==> lss.hrs.Before(hrs))
            && (v == Behind <==> hrs.Before(lss.hrs))
            && (v in {Same, NoSignBytes, NoSignPanic} <==> hrs == lss.hrs)
            && (v == Same ==> lss.signBytes != [] && lss.sign != [])
  {
  }

  // ---------------------------------------------------------------- signing

  function VoteStep(t: MsgType): Option<int> {
    match t
    case Prevote => Some(STEP_PREVOTE)
    case Precommit => Some(STEP_PRECOMMIT)
    case OtherMsgType(_) => None
  }

  function SignAll(env: Signer, quorumHash: Bytes, items: seq<SignItem>): (r: Option<seq<Bytes>>)
    ensures r.Some? ==> |r.value| == |items|
  {
    if items == [] then Some([])
    else
      match (env.signDigest(quorumHash, items[0].signHash), SignAll(env, quorumHash, items[1..]))
      case (Some(sig), Some(rest)) => Some([sig] + rest)
      case _ => None
  }

  /** The extension signatures, made anew on every request; `None` is an error. */
  function ExtensionSigns(env: Signer, c: Context, v: Vote, items: seq<SignItem>): (r: Option<seq<Bytes>>)
    ensures r.Some? && v.typ == Precommit ==> |r.value| == |items|
  {
    if v.typ == Precommit then SignAll(env, c.quorumHash, items) else if v.exts != [] then None else Some([])
  }

  /** `fillProtoVoteExtensionSigns` indexes the signatures by extension. */
  function Fill(v: Vote, hrs: HRS, signBytes: Bytes, sign: Bytes, extSigns: seq<Bytes>): Reply {
    if |v.exts| > |extSigns| then FillPanic else Released(hrs, signBytes, sign, extSigns)
  }

  /** `saveSigned`: memory is overwritten first, then the file. */
  function SaveSigned(s: SignState, pv: PV, saveOk: bool): PV {
    PV(s, if saveOk then s else pv.disk)
  }

  /** `signVote`. */
  function SignVote(env: Signer, pv: PV, c: Context, v: Vote, saveOk: bool): (PV, Reply) {
    var step := VoteStep(v.typ);
    if step.None? then (pv, Refused)
    else
      var hrs := HRS(v.height, v.round, step.value);
      var verdict := CheckHRS(pv.mem, v.height, v.round, step.value);
      if verdict in {Behind, NoSignBytes} then (pv, Refused)
      else if verdict == NoSignPanic then (pv, GuardPanic)
      else
        match MakeQuorumSigns(env.p, c, v.typ, v.height, v.round, v.blockID, v.exts)
        case None => (pv, Refused)
        case Some(data) =>
          if !env.hasKey(c.quorumHash) then (pv, Refused)
          else
            match ExtensionSigns(env, c, v, data.exts)
            case None => (pv, Refused)
            case Some(extSigns) =>
              if verdict == Same then
                if data.block.msg != pv.mem.signBytes then (pv, Refused)
                else (pv, Fill(v, hrs, data.block.msg, pv.mem.sign, extSigns))
              else
                match env.signDigest(c.quorumHash, data.block.signHash)
                case None => (pv, Refused)
                case Some(sign) =>
                  var pv' := SaveSigned(SignState(hrs, sign, data.block.msg), pv, saveOk);
                  if !saveOk then (pv', SaveFailed) else (pv', Fill(v, hrs, data.block.msg, sign, extSigns))
  }

  /** `signProposal`; on a repeated request it hands out the stored sign bytes where the signature belongs. */
  function SignProposal(env: Signer, pv: PV, r: Request, saveOk: bool): (PV, Reply)
    requires r.ProposalRequest?
  {
    var hrs := HRS(r.height, r.round, STEP_PROPOSE);
    var verdict := CheckHRS(pv.mem, r.height, r.round, STEP_PROPOSE);
    if verdict in {Behind, NoSignBytes} then (pv, Refused)
    else if verdict == NoSignPanic then (pv, GuardPanic)
    else if verdict == Same then
      if r.signBytes != pv.mem.signBytes then (pv, Refused)
      else (pv, Released(hrs, r.signBytes, pv.mem.signBytes, []))
    else if !env.hasKey(r.quorumHash) then (pv, Refused)
    else
      match env.signDigest(r.quorumHash, r.signHash)
      case None => (pv, Refused)
      case Some(sign) =>
        var pv' := SaveSigned(SignState(hrs, sign, r.signBytes), pv, saveOk);
        (pv', if saveOk then Released(hrs, r.signBytes, sign, []) else SaveFailed)
  }

  function Serve(env: Signer, pv: PV, r: Request, saveOk: bool): (PV, Reply) {
    match r
    case VoteRequest(c, v) => SignVote(env, pv, c, v, saveOk)
    case ProposalRequest(_, _, _, _, _) => SignProposal(env, pv, r, saveOk)
  }

  /** `loadFilePV` after a crash. */
  function Restart(pv: PV): PV {
    PV(pv.disk, pv.disk)
  }

  // ---------------------------------------------------------------- runs

  datatype Event = Ask(request: Request, saveOk: bool) | Crash

  datatype Release = Release(hrs: HRS, signBytes: Bytes)

  datatype World = World(pv: PV, log: seq<Release>, failed: bool)

  const START := World(PV(FRESH, FRESH), [], false)

  /** One event; `failed` remembers that the last save did not reach the disk. */
  function Next(env: Signer, w: World, e: Event): World {
    match e
    case Crash => World(Restart(w.pv), w.log, false)
    case Ask(r, saveOk) =>
      var (pv, reply) := Serve(env, w.pv, r, saveOk);
      World(pv, if reply.Released? then w.log + [Release(reply.hrs, reply.signBytes)] else w.log, reply == SaveFailed)
  }

  function Run(env: Signer, w: World, events: seq<Event>): World {
    if events == [] then w else Next(env, Run(env, w, events[..|events| - 1]), events[|events| - 1])
  }

  /** A failed save is followed by a restart. */
  ghost predicate Disciplined(env: Signer, w: World, events: seq<Event>) {
    forall i :: 0 <= i < |events| && Run(env, w, events[..i]).failed ==> events[i].Crash?
  }

  /** No two different sign bytes at one height, round and step, and no going back. */
  ghost predicate NoDoubleSign(log: seq<Release>) {
    forall i, j :: 0 <= i < j < |log| ==>
      && !log[j].hrs.Before(log[i].hrs)
      && (log[i].hrs == log[j].hrs ==> log[i].signBytes == log[j].signBytes)
  }

  /** Everything released is at or behind the file, and what is level with it has its sign bytes. */
  ghost predicate Durable(disk: SignState, log: seq<Release>) {
    forall i :: 0 <= i < |log| ==>
      && !disk.hrs.Before(log[i].hrs)
      && (log[i].hrs == disk.hrs ==> log[i].signBytes == disk.signBytes)
  }

  /** Sign bytes are kept together with a signature. */
  predicate Paired(s: SignState) {
    s.signBytes != [] ==> s.sign != []
  }

  /** What a failed save leaves behind: the file lags behind memory. */
  predicate Linked(pv: PV) {
    pv.mem == pv.disk || pv.disk.hrs.Before(pv.mem.hrs)
  }

  ghost predicate Good(w: World) {
    && Paired(w.pv.mem) && Paired(w.pv.disk) && Linked(w.pv)
    && NoDoubleSign(w.log)
    && Durable(w.pv.disk, w.log)
  }

  /** Height, round and step a request asks at. */
  function At(r: Request): Option<HRS> {
    match r
    case VoteRequest(_, v) =>
      var step := VoteStep(v.typ); if step.None? then None else Some(HRS(v.height, v.round, step.value))
    case ProposalRequest(_, height, round, _, _) => Some(HRS(height, round, STEP_PROPOSE))
  }

  /** A served request moves memory strictly ahead or leaves it, the file follows or stays, and what is released
      is in memory. It is in the file too unless it was asked for again while the file lagged behind. */
  lemma ServeShape(env: Signer, pv: PV, r: Request, saveOk: bool)
    requires Linked(pv) && Paired(pv.mem)
    ensures var (pv', reply) := Serve(env, pv, r, saveOk);
            && Paired(pv'.mem) && reply != GuardPanic && Linked(pv')
            && (pv' == pv || (pv.mem.hrs.Before(pv'.mem.hrs) && pv'.disk == if saveOk then pv'.mem else pv.disk))
            && (reply == SaveFailed ==> pv'.disk == pv.disk)
            && (pv.mem == pv.disk && reply != SaveFailed ==> pv'.mem == pv'.disk)
            && (reply.Released? ==>
                  && At(r) == Some(reply.hrs) && reply.hrs == pv'.mem.hrs && reply.signBytes == pv'.mem.signBytes
                  && (pv'.mem == pv'.disk <==> !(pv.mem != pv.disk && reply.hrs == pv.mem.hrs)))
  {
    hide MakeQuorumSigns;
    hide SignAll;
  }

  lemma AppendGood(disk: SignState, log: seq<Release>, r: Release)
    requires NoDoubleSign(log) && Durable(disk, log) && r == Release(disk.hrs, disk.signBytes)
    ensures NoDoubleSign(log + [r]) && Durable(disk, log + [r])
  {
  }

  /** What the event releases is in the file once it is released. */
  predicate Saves(env: Signer, w: World, e: Event) {
    e.Ask? ==>
      var (pv, reply) := Serve(env, w.pv, e.request, e.saveOk);
      reply.Released? ==> pv.mem == pv.disk
  }

  /** A request at the triple in memory while the file lags behind. */
  predicate Retries(w: World, e: Event) {
    e.Ask? && w.pv.mem != w.pv.disk && At(e.request) == Some(w.pv.mem.hrs)
  }

  /** Only a retry that is answered releases what is not in the file. */
  lemma SavesIff(env: Signer, w: World, e: Event)
    requires Linked(w.pv) && Paired(w.pv.mem)
    ensures Saves(env, w, e) <==> !(Retries(w, e) && Serve(env, w.pv, e.request, e.saveOk).1.Released?)
  {
    if e.Ask? {
      ServeShape(env, w.pv, e.request, e.saveOk);
    }
    hide Serve;
  }

  lemma NextGood(env: Signer, w: World, e: Event)
    requires Good(w) && Saves(env, w, e)
    ensures Good(Next(env, w, e))
  {
    if e.Ask? {
      ServeShape(env, w.pv, e.request, e.saveOk);
      hide Serve;
      var (pv', reply) := Serve(env, w.pv, e.request, e.saveOk);
      assert Durable(pv'.disk, w.log);
      if reply.Released? {
        AppendGood(pv'.disk, w.log, Release(reply.hrs, reply.signBytes));
      }
      hide NoDoubleSign;
      hide Durable;
    }
  }

  /** Nothing is released that is not in the file. */
  ghost predicate ReleasesSaved(env: Signer, w: World, events: seq<Event>) {
    forall i :: 0 <= i < |events| ==> Saves(env, Run(env, w, events[..i]), events[i])
  }

  lemma {:induction false} RunGood(env: Signer, w: World, events: seq<Event>)
    requires Good(w) && ReleasesSaved(env, w, events)
    ensures Good(Run(env, w, events))
  {
    if events == [] {
    } else {
      var n := |events| - 1;
      assert forall i :: 0 <= i <= n ==> events[..n][..i] == events[..i];
      RunGood(env, w, events[..n]);
      NextGood(env, Run(env, w, events[..n]), events[n]);
    }
  }

  /** Over every run of a fresh validator that releases only what is in the file, with crashes, failed saves and
      reloads anywhere, released triples never go back and no two different sign bytes are released at one triple. */
  lemma NeverDoubleSigns(env: Signer, events: seq<Event>)
    requires ReleasesSaved(env, START, events)
    ensures NoDoubleSign(Run(env, START, events).log)
  {
    RunGood(env, START, events);
  }

  /** Memory and file agree unless the last save failed. */
  predicate Clean(w: World) {
    Paired(w.pv.mem) && Paired(w.pv.disk) && (w.pv.mem == w.pv.disk || w.failed)
  }

  lemma NextClean(env: Signer, w: World, e: Event)
    requires Clean(w) && (w.failed ==> e.Crash?)
    ensures Clean(Next(env, w, e)) && Saves(env, w, e)
  {
    if e.Ask? {
      ServeShape(env, w.pv, e.request, e.saveOk);
    }
    hide Serve;
  }

  lemma {:induction false} RunClean(env: Signer, w: World, events: seq<Event>)
    requires Clean(w) && Disciplined(env, w, events)
    ensures Clean(Run(env, w, events)) && ReleasesSaved(env, w, events)
  {
    hide Clean;
    hide Saves;
    hide Next;
    if events == [] {
    } else {
      var n := |events| - 1;
      assert forall i :: 0 <= i <= n ==> events[..n][..i] == events[..i];
      RunClean(env, w, events[..n]);
      NextClean(env, Run(env, w, events[..n]), events[n]);
    }
  }

  /** A restart after every failed save is enough. */
  lemma RestartsSuffice(env: Signer, events: seq<Event>)
    requires Disciplined(env, START, events)
    ensures ReleasesSaved(env, START, events) && NoDoubleSign(Run(env, START, events).log)
  {
    RunClean(env, START, events);
    NeverDoubleSigns(env, events);
  }

  // ---------------------------------------------------------------- and nothing less

  /** A request at the given triple for other sign bytes, which a validator behind that triple signs. */
  ghost predicate Rival(env: Signer, hrs: HRS, signBytes: Bytes, r: Request) {
    forall s: SignState :: s.hrs.Before(hrs) ==>
      var reply := Serve(env, PV(s, s), r, true).1;
      reply.Released? && reply.hrs == hrs && reply.signBytes != signBytes
  }

  ghost predicate HasRival(env: Signer, hrs: HRS, signBytes: Bytes) {
    exists r :: Rival(env, hrs, signBytes, r)
  }

  /** Whatever is signed, something else could have been asked for. */
  ghost predicate Contested(env: Signer) {
    forall hrs: HRS, signBytes: Bytes :: STEP_PROPOSE <= hrs.step <= STEP_PRECOMMIT ==> HasRival(env, hrs, signBytes)
  }

  /** The log after a crash and one more request. */
  function Aftermath(env: Signer, w: World, r: Request, saveOk: bool): seq<Release> {
    Next(env, Next(env, w, Crash), Ask(r, saveOk)).log
  }

  /** At any time the process may crash and be asked for anything at all. */
  ghost predicate SurvivesCrashes(env: Signer, w: World, events: seq<Event>) {
    forall i, r, saveOk :: 0 <= i <= |events| ==> NoDoubleSign(Aftermath(env, Run(env, w, events[..i]), r, saveOk))
  }

  /** A release that is not in the file, a crash and a rival make a double signature. */
  lemma UnsavedReleaseBreaks(env: Signer, w: World, e: Event, r: Request)
    requires Linked(w.pv) && Paired(w.pv.mem) && !Saves(env, w, e)
    requires Rival(env, Next(env, w, e).pv.mem.hrs, Next(env, w, e).pv.mem.signBytes, r)
    ensures !NoDoubleSign(Aftermath(env, Next(env, w, e), r, true))
  {
    ServeShape(env, w.pv, e.request, e.saveOk);
    hide Serve;
    var w' := Next(env, w, e);
    var log := Aftermath(env, w', r, true);
    assert log[|w.log|] == Release(w'.pv.mem.hrs, w'.pv.mem.signBytes);
    assert log[|w.log| + 1].hrs == w'.pv.mem.hrs && log[|w.log| + 1].signBytes != w'.pv.mem.signBytes;
  }

  lemma NextLinked(env: Signer, w: World, e: Event)
    requires Linked(w.pv) && Paired(w.pv.mem) && Paired(w.pv.disk)
    ensures var w' := Next(env, w, e); Linked(w'.pv) && Paired(w'.pv.mem) && Paired(w'.pv.disk)
  {
    if e.Ask? {
      ServeShape(env, w.pv, e.request, e.saveOk);
    }
    hide Serve;
  }

  lemma {:induction false} RunLinked(env: Signer, w: World, events: seq<Event>)
    requires Linked(w.pv) && Paired(w.pv.mem) && Paired(w.pv.disk)
    ensures var w' := Run(env, w, events); Linked(w'.pv) && Paired(w'.pv.mem) && Paired(w'.pv.disk)
  {
    hide Next;
    if events == [] {
    } else {
      RunLinked(env, w, events[..|events| - 1]);
      NextLinked(env, Run(env, w, events[..|events| - 1]), events[|events| - 1]);
    }
  }

  lemma SavedSurvives(env: Signer, w: World, r: Request, saveOk: bool)
    requires Good(w)
    ensures NoDoubleSign(Aftermath(env, w, r, saveOk))
  {
    var w' := Next(env, w, Crash);
    NextGood(env, w, Crash);
    ServeShape(env, w'.pv, r, saveOk);
    hide Serve;
    NextGood(env, w', Ask(r, saveOk));
  }

  lemma ReleasedStep(env: Signer, pv: PV, r: Request, saveOk: bool)
    requires Serve(env, pv, r, saveOk).1.Released?
    ensures STEP_PROPOSE <= Serve(env, pv, r, saveOk).1.hrs.step <= STEP_PRECOMMIT
  {
    hide MakeQuorumSigns;
    hide SignAll;
    hide CheckHRS;
  }

  /** Where rival requests can turn up, a run survives a crash at any time if and only if nothing was released
      that was not in the file. */
  lemma SurvivesIffSaved(env: Signer, events: seq<Event>)
    requires Contested(env)
    ensures SurvivesCrashes(env, START, events) <==> ReleasesSaved(env, START, events)
  {
    hide Next;
    hide NoDoubleSign;
    hide Saves;
    hide Rival;
    hide Linked;
    hide Paired;
    if ReleasesSaved(env, START, events) {
      forall i, r, saveOk | 0 <= i <= |events|
        ensures NoDoubleSign(Aftermath(env, Run(env, START, events[..i]), r, saveOk))
      {
        assert forall j :: 0 <= j < i ==> events[..i][..j] == events[..j];
        StartGood();
        RunGood(env, START, events[..i]);
        SavedSurvives(env, Run(env, START, events[..i]), r, saveOk);
      }
    } else {
      var i :| 0 <= i < |events| && !Saves(env, Run(env, START, events[..i]), events[i]);
      StartGood();
      RunLinked(env, START, events[..i]);
      var w := Run(env, START, events[..i]);
      var r := SomeRival(env, w, events[i]);
      UnsavedReleaseBreaks(env, w, events[i], r);
      assert events[..i + 1][..i] == events[..i];
      assert Run(env, START, events[..i + 1]) == Next(env, w, events[i]);
    }
  }

  lemma StartGood()
    ensures Good(START) && Linked(START.pv) && Paired(START.pv.mem) && Paired(START.pv.disk)
  {
  }

  lemma SomeRival(env: Signer, w: World, e: Event) returns (r: Request)
    requires Contested(env) && Linked(w.pv) && Paired(w.pv.mem) && !Saves(env, w, e)
    ensures Rival(env, Next(env, w, e).pv.mem.hrs, Next(env, w, e).pv.mem.signBytes, r)
  {
    ServeShape(env, w.pv, e.request, e.saveOk);
    ReleasedStep(env, w.pv, e.request, e.saveOk);
    hide Serve;
    hide Rival;
    var mem := Next(env, w, e).pv.mem;
    assert HasRival(env, mem.hrs, mem.signBytes);
    r :| Rival(env, mem.hrs, mem.signBytes, r);
  }

  lemma NextPaired(env: Signer, w: World, e: Event)
    requires Paired(w.pv.mem) && Paired(w.pv.disk)
    ensures Paired(Next(env, w, e).pv.mem) && Paired(Next(env, w, e).pv.disk)
    ensures e.Ask? ==> Serve(env, w.pv, e.request, e.saveOk).1 != GuardPanic
  {
    hide MakeQuorumSigns;
    hide SignAll;
  }

  /** In every run, disciplined or not, no request finds stored sign bytes without a signature. */
  lemma {:induction false} GuardNeverPanics(env: Signer, events: seq<Event>)
    ensures Paired(Run(env, START, events).pv.mem) && Paired(Run(env, START, events).pv.disk)
    ensures forall r, saveOk :: Serve(env, Run(env, START, events).pv, r, saveOk).1 != GuardPanic
  {
    var w := Run(env, START, events);
    if events == [] {
    } else {
      var n := |events| - 1;
      GuardNeverPanics(env, events[..n]);
      NextPaired(env, Run(env, START, events[..n]), events[n]);
    }
    forall r, saveOk
      ensures Serve(env, w.pv, r, saveOk).1 != GuardPanic
    {
      NextPaired(env, w, Ask(r, saveOk));
    }
  }

  /** A signer that signs everything, under sign bytes that tell blocks apart. */
  function Willing(p: Primitives): Signer {
    Signer(p.(voteSignBytes := (chainID: string, typ: MsgType, height: int, round: int, id: BlockID) => [7] + id.hash),
           (quorumHash: Bytes) => true, (quorumHash: Bytes, digest: Hash32) => Some([0]))
  }

  // ---------------------------------------------------------------- asking again

  /** Repeating a vote request that was signed returns the stored block signature. */
  lemma ResignVote(env: Signer, pv: PV, c: Context, v: Vote, saveOk: bool, saveOk': bool)
    requires SignVote(env, pv, c, v, saveOk).1.Released? && SignVote(env, pv, c, v, saveOk).1.signBytes != []
    ensures var (pv', reply) := SignVote(env, pv, c, v, saveOk); SignVote(env, pv', c, v, saveOk') == (pv', reply)
  {
    hide MakeQuorumSigns;
    hide SignAll;
  }

  /** Repeating a proposal request returns the sign bytes instead: the answer is the same if and only if signing
      the digest yields those very bytes. */
  lemma ResignProposal(env: Signer, pv: PV, r: Request, saveOk: bool, saveOk': bool)
    requires r.ProposalRequest? && SignProposal(env, pv, r, saveOk).1.Released? && r.signBytes != []
    requires pv.mem.hrs.Before(HRS(r.height, r.round, STEP_PROPOSE))
    ensures var (pv', reply) := SignProposal(env, pv, r, saveOk);
            var (pv'', reply') := SignProposal(env, pv', r, saveOk');
            && pv'' == pv' && reply' == Released(reply.hrs, r.signBytes, r.signBytes, [])
            && (reply' == reply <==> env.signDigest(r.quorumHash, r.signHash) == Some(r.signBytes))
  {
  }

  /** With one and the same signature for everything, every proposal with other sign bytes gets two answers. */
  lemma ResignDiffers(p: Primitives, pv: PV, r: Request, saveOk: bool)
    requires r.ProposalRequest? && r.signBytes != [] && r.signBytes != [0]
    requires pv.mem.hrs.Before(HRS(r.height, r.round, STEP_PROPOSE))
    ensures var (pv', reply) := SignProposal(Willing(p), pv, r, true);
            reply.Released? && SignProposal(Willing(p), pv', r, saveOk).1.Released? &&
            SignProposal(Willing(p), pv', r, saveOk).1 != reply
  {
    ResignProposal(Willing(p), pv, r, true, saveOk);
  }

  predicate AllRecoverable(v: Vote) {
    forall i :: 0 <= i < |v.exts| ==> v.exts[i].Recoverable()
  }

  /** A released vote carries one signature per extension, and a request that gets past every check
      panics exactly when some extension is not threshold-recoverable. */
  lemma ReleasedExtensions(env: Signer, pv: PV, c: Context, v: Vote, saveOk: bool)
    ensures var reply := SignVote(env, pv, c, v, saveOk).1;
            && (reply.Released? ==> |v.exts| == |reply.extSigns|)
            && (reply.Released? || reply.FillPanic? ==> (reply.FillPanic? <==> !AllRecoverable(v)))
  {
    var data := MakeQuorumSigns(env.p, c, v.typ, v.height, v.round, v.blockID, v.exts);
    if data.Some? {
      assert |data.value.exts| == |Recoverables(v.exts)|;
      hide MakeQuorumSigns;
      hide SignAll;
      if |Recoverables(v.exts)| == |v.exts| {
        NoneDropped(v.exts);
      }
      if AllRecoverable(v) {
        RecoverablesAll(v.exts);
      }
    }
  }

  lemma {:induction false} NoneDropped(es: seq<Ext>)
    requires |Recoverables(es)| == |es|
    ensures forall i :: 0 <= i < |es| ==> es[i].Recoverable()
  {
    if es == [] {
    } else {
      NoneDropped(es[1..]);
      forall i | 0 <= i < |es|
        ensures es[i].Recoverable()
      {
        if i > 0 {
          assert es[i] == es[1..][i - 1];
        }
      }
    }
  }

  /** Without the key of the quorum no vote is released, and a proposal only if it was signed before. */
  lemma KeyNeeded(env: Signer, pv: PV, r: Request, saveOk: bool)
    requires Serve(env, pv, r, saveOk).1.Released?
    ensures r.VoteRequest? ==> env.hasKey(r.context.quorumHash)
    ensures r.ProposalRequest? ==>
              env.hasKey(r.quorumHash) || (pv.mem.hrs == HRS(r.height, r.round, STEP_PROPOSE) &&
                                           pv.mem.signBytes == r.signBytes != [])
  {
    hide MakeQuorumSigns;
    hide ExtensionSigns;
  }

  // ---------------------------------------------------------------- why the discipline

  ghost predicate Signs(env: Signer, pv: PV, c: Context, v: Vote) {
    SignVote(env, pv, c, v, true).1.Released? && SignVote(env, pv, c, v, true).1.signBytes != []
  }

  /** Two requests at one triple with different sign bytes, each of which a validator at `pv` would sign. */
  ghost predicate Rivals(env: Signer, pv: PV, c: Context, v: Vote, c': Context, v': Vote) {
    && Signs(env, pv, c, v) && Signs(env, pv, c', v')
    && SignVote(env, pv, c, v, true).1.hrs == SignVote(env, pv, c', v', true).1.hrs
    && SignVote(env, pv, c, v, true).1.signBytes != SignVote(env, pv, c', v', true).1.signBytes
  }

  /** Any two blocks with different hashes give rivals for a fresh validator. */
  lemma RivalsExist(p: Primitives, c: Context, height: int, round: int, a: BlockID, b: BlockID)
    requires height > 0 && a.hash != b.hash
    ensures var v := Vote(Prevote, height, round, a, [], 0, [], []);
            Rivals(Willing(p), PV(FRESH, FRESH), c, v, c, v.(blockID := b))
  {
    hide SignAll;
    var x, y: Bytes := [7] + a.hash, [7] + b.hash;
    assert x[1..] == a.hash && y[1..] == b.hash;
  }

  /** Under that signer there is always a rival. */
  lemma WillingContested(p: Primitives, c: Context)
    ensures Contested(Willing(p))
  {
    hide Rival;
    hide Willing;
    forall hrs: HRS, signBytes: Bytes | STEP_PROPOSE <= hrs.step <= STEP_PRECOMMIT
      ensures HasRival(Willing(p), hrs, signBytes)
    {
      if hrs.step == STEP_PROPOSE {
        RivalProposal(p, c, hrs, signBytes);
      } else {
        RivalVote(p, c, if hrs.step == STEP_PREVOTE then Prevote else Precommit, hrs, signBytes);
      }
    }
  }

  lemma RivalProposal(p: Primitives, c: Context, hrs: HRS, signBytes: Bytes)
    requires hrs.step == STEP_PROPOSE
    ensures Rival(Willing(p), hrs, signBytes,
                  ProposalRequest(c.quorumHash, hrs.height, hrs.round, signBytes + [1], c.quorumHash))
  {
    var bytes: Bytes := signBytes + [1];
    assert |bytes| != |signBytes|;
  }

  lemma RivalVote(p: Primitives, c: Context, typ: MsgType, hrs: HRS, signBytes: Bytes)
    requires VoteStep(typ) == Some(hrs.step)
    ensures var id := BlockID(signBytes, PartSetHeader(0, []), []);
            Rival(Willing(p), hrs, signBytes, VoteRequest(c, Vote(typ, hrs.height, hrs.round, id, [], 0, [], [])))
  {
    var bytes: Bytes := [7] + signBytes;
    assert |bytes| != |signBytes|;
    var v := Vote(typ, hrs.height, hrs.round, BlockID(signBytes, PartSetHeader(0, []), []), [], 0, [], []);
    var data := MakeQuorumSigns(Willing(p).p, c, typ, hrs.height, hrs.round, v.blockID, []);
    assert data.Some? && data.value.block.msg == bytes && data.value.exts == [];
    assert ExtensionSigns(Willing(p), c, v, []) == Some([]);
    hide MakeQuorumSigns;
    hide ExtensionSigns;
  }

  lemma RivalsAreNew(env: Signer, pv: PV, c: Context, v: Vote, c': Context, v': Vote)
    requires Rivals(env, pv, c, v, c', v')
    ensures var r := SignVote(env, pv, c, v, true).1; pv.mem.hrs.Before(r.hrs)
  {
    hide MakeQuorumSigns;
    hide SignAll;
  }

  /** Retrying a request instead of restarting, then crashing, then meeting a rival request: the guard
      holds if and only if the first save had reached the disk. */
  lemma RetrySafeIffSaved(env: Signer, w: World, c: Context, v: Vote, c': Context, v': Vote, saved: bool)
    requires Good(w) && w.pv.mem == w.pv.disk && Rivals(env, w.pv, c, v, c', v')
    ensures var ask, rival := VoteRequest(c, v), VoteRequest(c', v');
            var events := [Ask(ask, saved), Ask(ask, true), Crash, Ask(rival, true)];
            NoDoubleSign(Run(env, w, events).log) <==> saved
  {
    var ask, rival := VoteRequest(c, v), VoteRequest(c', v');
    var w1 := Next(env, w, Ask(ask, saved));
    var w2 := Next(env, w1, Ask(ask, true));
    var w3 := Next(env, w2, Crash);
    var w4 := Next(env, w3, Ask(rival, true));
    var events := [Ask(ask, saved), Ask(ask, true), Crash, Ask(rival, true)];
    FourSteps(env, w, events[0], events[1], events[2], events[3]);
    RivalsAreNew(env, w.pv, c, v, c', v');
    FirstAsk(env, w.pv, c, v, saved);
    SecondAsk(env, w.pv, c, v, saved);
    if saved {
      ServeShape(env, w.pv, ask, true);
      NextGood(env, w, Ask(ask, true));
      NextGood(env, w1, Ask(ask, true));
      NextGood(env, w2, Crash);
      NextGood(env, w3, Ask(rival, true));
    } else {
      hide SignVote;
      assert w4.log[|w.log|] ==
        Release(SignVote(env, w.pv, c, v, true).1.hrs, SignVote(env, w.pv, c, v, true).1.signBytes);
      assert w4.log[|w.log| + 1] ==
        Release(SignVote(env, w.pv, c', v', true).1.hrs, SignVote(env, w.pv, c', v', true).1.signBytes);
    }
  }

  lemma FourSteps(env: Signer, w: World, a: Event, b: Event, c: Event, d: Event)
    ensures Run(env, w, [a, b, c, d]) == Next(env, Next(env, Next(env, Next(env, w, a), b), c), d)
  {
    hide Next;
    assert [a, b, c, d][..3] == [a, b, c] && [a, b, c][..2] == [a, b] && [a, b][..1] == [a] && [a][..0] == [];
    assert Run(env, w, [a]) == Next(env, w, a);
    assert Run(env, w, [a, b]) == Next(env, Next(env, w, a), b);
    assert Run(env, w, [a, b, c]) == Next(env, Next(env, Next(env, w, a), b), c);
  }

  lemma FirstAsk(env: Signer, pv: PV, c: Context, v: Vote, saved: bool)
    requires pv.mem == pv.disk && Signs(env, pv, c, v)
    requires pv.mem.hrs.Before(SignVote(env, pv, c, v, true).1.hrs)
    ensures var r := SignVote(env, pv, c, v, true).1;
            var s := SignState(r.hrs, r.sign, r.signBytes);
            SignVote(env, pv, c, v, saved) == if saved then (PV(s, s), r) else (PV(s, pv.disk), SaveFailed)
  {
    hide MakeQuorumSigns;
    hide SignAll;
  }

  lemma SecondAsk(env: Signer, pv: PV, c: Context, v: Vote, saved: bool)
    requires pv.mem == pv.disk && Signs(env, pv, c, v)
    requires pv.mem.hrs.Before(SignVote(env, pv, c, v, true).1.hrs)
    ensures var r := SignVote(env, pv, c, v, true).1;
            var pv' := SignVote(env, pv, c, v, saved).0;
            SignVote(env, pv', c, v, true) == (pv', r)
  {
    hide MakeQuorumSigns;
    hide SignAll;
  }
}

/** `FilePV` as an object, proved against the model. */
module FilePVObjects {
  import opened Prelude
  import opened Signing
  import opened Model = FilePVs

  /** `FilePV`: its fields, and the state file. Whether a save succeeds is up to the disk. */
  class FilePV {
    const env: Signer
    var hrs: HRS
    var blockSignature: Bytes
    var blockSignBytes: Bytes
    var file: SignState

    function Value(): PV
      reads this
    {
      PV(SignState(hrs, blockSignature, blockSignBytes), file)
    }

    /** A validator loaded from its state file. */
    constructor (env: Signer, file: SignState)
      ensures this.env == env && Value() == PV(file, file)
    {
      this.env, this.file := env, file;
      hrs, blockSignature, blockSignBytes := file.hrs, file.sign, file.signBytes;
    }

    method SaveSigned(hrs: HRS, signBytes: Bytes, sign: Bytes, saveOk: bool)
      modifies this
      ensures Value() == Model.SaveSigned(SignState(hrs, sign, signBytes), old(Value()), saveOk)
    {
      this.hrs := hrs;
      blockSignature := sign;
      blockSignBytes := signBytes;
      if saveOk {
        file := SignState(this.hrs, blockSignature, blockSignBytes);
      }
    }

    method SignVote(c: Context, v: Vote, saveOk: bool) returns (reply: Reply)
      modifies this
      ensures (Value(), reply) == Model.SignVote(env, old(Value()), c, v, saveOk)
    {
      hide MakeQuorumSigns;
      hide CheckHRS;
      hide ExtensionSigns;
      var step := VoteStep(v.typ);
      if step.None? {
        return Refused;
      }
      var verdict := CheckHRS(SignState(hrs, blockSignature, blockSignBytes), v.height, v.round, step.value);
      if verdict == NoSignPanic {
        return GuardPanic;
      }
      if verdict != Ahead && verdict != Same {
        return Refused;
      }
      var data := MakeQuorumSigns(env.p, c, v.typ, v.height, v.round, v.blockID, v.exts);
      if data.None? || !env.hasKey(c.quorumHash) {
        return Refused;
      }
      var extSigns := ExtensionSigns(env, c, v, data.value.exts);
      if extSigns.None? {
        return Refused;
      }
      var at := HRS(v.height, v.round, step.value);
      var msg := data.value.block.msg;
      if verdict == Same {
        if msg != blockSignBytes {
          return Refused;
        }
        return Fill(v, at, msg, blockSignature, extSigns.value);
      }
      var sign := env.signDigest(c.quorumHash, data.value.block.signHash);
      if sign.None? {
        return Refused;
      }
      SaveSigned(at, msg, sign.value, saveOk);
      if !saveOk {
        return SaveFailed;
      }
      reply := Fill(v, at, msg, sign.value, extSigns.value);
    }

    method SignProposal(r: Request, saveOk: bool) returns (reply: Reply)
      requires r.ProposalRequest?
      modifies this
      ensures (Value(), reply) == Model.SignProposal(env, old(Value()), r, saveOk)
    {
      hide CheckHRS;
      var at := HRS(r.height, r.round, STEP_PROPOSE);
      var verdict := CheckHRS(SignState(hrs, blockSignature, blockSignBytes), r.height, r.round, STEP_PROPOSE);
      if verdict == NoSignPanic {
        return GuardPanic;
      }
      if verdict == Same {
        return if r.signBytes != blockSignBytes then Refused else Released(at, r.signBytes, blockSignBytes, []);
      }
      if verdict != Ahead || !env.hasKey(r.quorumHash) {
        return Refused;
      }
      var sign := env.signDigest(r.quorumHash, r.signHash);
      if sign.None? {
        return Refused;
      }
      SaveSigned(at, r.signBytes, sign.value, saveOk);
      reply := if saveOk then Released(at, r.signBytes, sign.value, []) else SaveFailed;
    }
  }
}
