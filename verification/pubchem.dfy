/**
 * Decoding of the compound database's JSON replies: the decision chains of
 * `fetchCompoundByFormula` and `fetchCompoundByName`, and the poll loop of
 * `pollForResult` run over a given sequence of replies.
 */
module PubChem {
  import opened Options

  const BAD_REQUEST: string := "PUGREST.BadRequest"
  const IUPAC_NAME: string := "IUPAC Name"
  const MOLECULAR_FORMULA: string := "Molecular Formula"
  const UNKNOWN: string := "Unknown"

  /** One entry of a compound's `props`: `urnLabel` is its `urn.label` and `sval` its `value.sval`, if any. */
  datatype Property = Property(urnLabel: string, sval: Option<string>)

  datatype Compound = Compound(props: seq<Property>)

  /** The `Waiting` object of a deferred reply, with its `ListKey` if any. */
  datatype Waiting = Waiting(listKey: Option<string>)

  datatype Fault = Fault(code: string, message: string)

  /** The parsed JSON body: each top-level field is either absent or present. */
  datatype Response = Response(
    waiting: Option<Waiting>,
    fault: Option<Fault>,
    compounds: Option<seq<Compound>>)

  /** What one request yields: a parsed body, or an exception from `fetch` or `response.json()`. */
  datatype Reply = Parsed(data: Response) | Thrown

  datatype CompoundResult = CompoundResult(name: string, formula: string)

  /** How a request ends: with a result or none, or still polling when the replies ran out. */
  datatype Outcome = Finished(result: Option<CompoundResult>) | Pending

  /** `data.Waiting && data.Waiting.ListKey`: a waiting object with a non-empty list key. */
  predicate HasListKey(data: Response) {
    data.waiting.Some? && data.waiting.value.listKey.Some? && data.waiting.value.listKey.value != ""
  }

  /** `data.Fault && data.Fault.Code === "PUGREST.BadRequest"` */
  predicate IsBadRequest(data: Response) {
    data.fault.Some? && data.fault.value.code == BAD_REQUEST
  }

  /** `data.PC_Compounds && data.PC_Compounds.length > 0`, giving `data.PC_Compounds[0]`. */
  function FirstCompound(data: Response): (r: Option<Compound>)
    ensures r.Some? <==> data.compounds.Some? && |data.compounds.value| > 0
    ensures r.Some? ==> r.value == data.compounds.value[0]
  {
    match data.compounds
    case Some(cs) => if |cs| > 0 then Some(cs[0]) else None
    case None => None
  }

  /** `props.find((p) => p.urn.label === label)`: the first property with that label. */
  function Find(props: seq<Property>, wanted: string): (r: Option<Property>)
    ensures r.None? <==> forall i :: 0 <= i < |props| ==> props[i].urnLabel != wanted
    ensures r.Some? ==> r.value.urnLabel == wanted
    ensures r.Some? ==>
      exists i :: 0 <= i < |props| && props[i] == r.value && (forall j :: 0 <= j < i ==> props[j].urnLabel != wanted)
  {
    if props == [] then None
    else if props[0].urnLabel == wanted then Some(props[0])
    else
      var r := Find(props[1..], wanted);
      assert forall i :: 1 <= i < |props| ==> props[i] == props[1..][i - 1];
      r
  }

  /** `find(...)?.value.sval || "Unknown"`: the value of the first property with that label,
      or "Unknown" when there is none, it has no value, or the value is empty. */
  function LookUp(c: Compound, wanted: string): (r: string)
    ensures r != ""
    ensures (forall j :: 0 <= j < |c.props| ==> c.props[j].urnLabel != wanted) ==> r == UNKNOWN
  {
    match Find(c.props, wanted)
    case Some(p) => if p.sval.Some? && p.sval.value != "" then p.sval.value else UNKNOWN
    case None => UNKNOWN
  }

  /** A looked-up field is never empty, and is the stored value whenever that is usable. */
  lemma LookUpValue(c: Compound, wanted: string, i: nat)
    requires i < |c.props| && c.props[i].urnLabel == wanted
    requires forall j :: 0 <= j < i ==> c.props[j].urnLabel != wanted
    ensures LookUp(c, wanted) ==
      if c.props[i].sval.Some? && c.props[i].sval.value != "" then c.props[i].sval.value else UNKNOWN
  {
  }

  /** What a fetch does with its first reply. */
  datatype Decision = Delegate(listKey: string) | Answer(result: Option<CompoundResult>)

  /** The checks of `fetchCompoundByFormula`, in source order. */
  function DecideByFormula(formula: string, reply: Reply): (d: Decision)
    ensures d.Delegate? ==> reply.Parsed? && reply.data.waiting.Some? && d.listKey != ""
    ensures d.Answer? && d.result.Some? ==>
      reply.Parsed? && !IsBadRequest(reply.data) && FirstCompound(reply.data).Some?
      && d.result.value.formula == formula && d.result.value.name != ""
  {
    match reply
    case Thrown => Answer(None)
    case Parsed(data) =>
      if HasListKey(data) then Delegate(data.waiting.value.listKey.value)
      else if IsBadRequest(data) then Answer(None)
      else match FirstCompound(data)
        case Some(c) => Answer(Some(CompoundResult(LookUp(c, IUPAC_NAME), formula)))
        case None => Answer(None)
  }

  /** The checks of `fetchCompoundByName`, in source order. */
  function DecideByName(name: string, reply: Reply): (d: Decision)
    ensures d.Delegate? ==> reply.Parsed? && reply.data.waiting.Some? && d.listKey != ""
    ensures d.Answer? && d.result.Some? ==>
      reply.Parsed? && !IsBadRequest(reply.data) && FirstCompound(reply.data).Some?
      && d.result.value.name == name && d.result.value.formula != ""
  {
    match reply
    case Thrown => Answer(None)
    case Parsed(data) =>
      if HasListKey(data) then Delegate(data.waiting.value.listKey.value)
      else if IsBadRequest(data) then Answer(None)
      else match FirstCompound(data)
        case Some(c) => Answer(Some(CompoundResult(name, LookUp(c, MOLECULAR_FORMULA))))
        case None => Answer(None)
  }

  /**
   * Decision order: a list key wins over any fault and any compound; otherwise a
   * bad-request fault wins over any compound; otherwise the first compound is the
   * answer, echoing the formula and looking up the name.
   */
  lemma ByFormulaOrder(formula: string, data: Response)
    ensures HasListKey(data) ==>
      DecideByFormula(formula, Parsed(data)) == Delegate(data.waiting.value.listKey.value)
    ensures !HasListKey(data) && IsBadRequest(data) ==>
      DecideByFormula(formula, Parsed(data)) == Answer(None)
    ensures !HasListKey(data) && !IsBadRequest(data) && data.compounds.Some? && |data.compounds.value| > 0 ==>
      DecideByFormula(formula, Parsed(data)) == Answer(Some(CompoundResult(LookUp(data.compounds.value[0], IUPAC_NAME), formula)))
    ensures DecideByFormula(formula, Parsed(data)).Delegate? <==> HasListKey(data)
    ensures DecideByFormula(formula, Parsed(data)) == Answer(None) <==>
      !HasListKey(data) && (IsBadRequest(data) || data.compounds.None? || |data.compounds.value| == 0)
  {
  }

  /**
   * The same order for the by-name fetch: a list key first, then a bad-request fault,
   * then the first compound, whose "Molecular Formula" is looked up with the name echoed.
   */
  lemma ByNameOrder(name: string, data: Response)
    ensures HasListKey(data) ==>
      DecideByName(name, Parsed(data)) == Delegate(data.waiting.value.listKey.value)
    ensures !HasListKey(data) && IsBadRequest(data) ==>
      DecideByName(name, Parsed(data)) == Answer(None)
    ensures !HasListKey(data) && !IsBadRequest(data) && data.compounds.Some? && |data.compounds.value| > 0 ==>
      DecideByName(name, Parsed(data)) == Answer(Some(CompoundResult(name, LookUp(data.compounds.value[0], MOLECULAR_FORMULA))))
    ensures DecideByName(name, Parsed(data)).Delegate? <==> HasListKey(data)
    ensures DecideByName(name, Parsed(data)) == Answer(None) <==>
      !HasListKey(data) && (IsBadRequest(data) || data.compounds.None? || |data.compounds.value| == 0)
  {
  }

  /** The by-name fetch mirrors the by-formula one: same outcome kind for every reply,
      with the input echoed as the name and the formula looked up instead. */
  lemma ByNameMirrorsByFormula(name: string, formula: string, reply: Reply)
    ensures DecideByName(name, reply).Delegate? <==> DecideByFormula(formula, reply).Delegate?
    ensures DecideByName(name, reply).Delegate? ==> DecideByName(name, reply) == DecideByFormula(formula, reply)
    ensures DecideByName(name, reply) == Answer(None) <==> DecideByFormula(formula, reply) == Answer(None)
    ensures DecideByName(name, reply).Answer? && DecideByName(name, reply).result.Some? ==>
      DecideByName(name, reply).result.value.name == name
      && DecideByFormula(formula, reply).result.value.formula == formula
  {
  }

  // ---------------------------------------------------------------- polling

  /** What one iteration of the poll loop does with its reply. */
  datatype PollStep = Sleep | Retry | Stop(result: Option<CompoundResult>)

  /** Both fields from the ready compound, as `pollForResult` extracts them after the loop. */
  function ExtractBoth(c: Compound): (r: CompoundResult)
    ensures r.name != "" && r.formula != ""
    ensures (forall j :: 0 <= j < |c.props| ==> c.props[j].urnLabel != IUPAC_NAME) ==> r.name == UNKNOWN
    ensures (forall j :: 0 <= j < |c.props| ==> c.props[j].urnLabel != MOLECULAR_FORMULA) ==> r.formula == UNKNOWN
  {
    CompoundResult(LookUp(c, IUPAC_NAME), LookUp(c, MOLECULAR_FORMULA))
  }

  /** The body of the `while (isWaiting)` loop: a waiting marker sleeps and polls again
      (no list key needed); a bad-request fault or an exception stops with none; a
      non-empty compound list stops with a result; anything else polls again at once. */
  function StepOf(reply: Reply): (step: PollStep)
    ensures step == Sleep <==> reply.Parsed? && reply.data.waiting.Some?
    ensures step == Stop(None) <==> reply.Thrown? || (reply.data.waiting.None? && IsBadRequest(reply.data))
    ensures step.Stop? && step.result.Some? ==>
      reply.Parsed? && FirstCompound(reply.data).Some?
      && step.result.value == ExtractBoth(FirstCompound(reply.data).value)
    ensures step.Retry? <==>
      reply.Parsed? && reply.data.waiting.None? && !IsBadRequest(reply.data)
      && FirstCompound(reply.data).None?
  {
    match reply
    case Thrown => Stop(None)
    case Parsed(data) =>
      if data.waiting.Some? then Sleep
      else if IsBadRequest(data) then Stop(None)
      else match FirstCompound(data)
        case Some(c) => Stop(Some(ExtractBoth(c)))
        case None => Retry
  }

  /** A poll run: how it ended, how many requests it issued and how many times it slept. */
  datatype PollRun = PollRun(outcome: Outcome, requests: nat, sleeps: nat)

  /** `pollForResult` fed with the replies to its successive requests. */
  function PollSpec(replies: seq<Reply>): (run: PollRun)
    ensures run.requests <= |replies| && run.sleeps <= run.requests
    ensures run.outcome.Pending? ==> run.requests == |replies|
    ensures run.outcome.Finished? ==> run.sleeps < run.requests
    ensures run.outcome.Finished? && run.outcome.result.Some? ==>
      run.outcome.result.value.name != "" && run.outcome.result.value.formula != ""
    decreases |replies|
  {
    if replies == [] then PollRun(Pending, 0, 0)
    else match StepOf(replies[0])
      case Stop(r) => PollRun(Finished(r), 1, 0)
      case Sleep =>
        var rest := PollSpec(replies[1..]);
        PollRun(rest.outcome, rest.requests + 1, rest.sleeps + 1)
      case Retry =>
        var rest := PollSpec(replies[1..]);
        PollRun(rest.outcome, rest.requests + 1, rest.sleeps)
  }

  /** Index of the first reply that stops the loop, or the number of replies if none does. */
  function FirstStop(replies: seq<Reply>): (k: nat)
    ensures k <= |replies|
    ensures forall j :: 0 <= j < k ==> !StepOf(replies[j]).Stop?
    ensures k < |replies| ==> StepOf(replies[k]).Stop?
    decreases |replies|
  {
    if replies == [] then 0
    else if StepOf(replies[0]).Stop? then 0
    else
      var k := FirstStop(replies[1..]);
      assert forall j :: 1 <= j < |replies| ==> replies[j] == replies[1..][j - 1];
      1 + k
  }

  /** Number of replies in `replies` that make the loop sleep. */
  function SleepCount(replies: seq<Reply>): nat
    decreases |replies|
  {
    if replies == [] then 0 else (if StepOf(replies[0]).Sleep? then 1 else 0) + SleepCount(replies[1..])
  }

  /**
   * The poll loop ends at the first stopping reply: it has then issued one request
   * per reply up to and including that one, slept once per waiting reply before it,
   * and returns that reply's result; with no stopping reply it is still polling after
   * every reply was used.
   */
  lemma {:induction false} PollEndsAtFirstStop(replies: seq<Reply>)
    ensures var k := FirstStop(replies);
      PollSpec(replies) ==
        if k < |replies| then PollRun(Finished(StepOf(replies[k]).result), k + 1, SleepCount(replies[..k]))
        else PollRun(Pending, |replies|, SleepCount(replies))
    decreases |replies|
  {
    if replies != [] && !StepOf(replies[0]).Stop? {
      PollEndsAtFirstStop(replies[1..]);
      var k := FirstStop(replies);
      if k < |replies| {
        assert replies[..k][1..] == replies[1..][..k - 1];
        assert replies[..k][0] == replies[0];
      }
    } else if replies != [] {
      assert replies[..0] == [];
    }
  }

  /** A waiting reply followed by a ready compound: two requests, one sleep, and the
      compound's two fields. */
  lemma WaitThenReady(w: Response, c: Compound, rest: seq<Compound>)
    requires w.waiting.Some?
    ensures PollSpec([Parsed(w), Parsed(Response(None, None, Some([c] + rest)))])
      == PollRun(Finished(Some(ExtractBoth(c))), 2, 1)
  {
  }

  /** A reply the loop does not recognise (no waiting marker, no bad-request fault,
      no compound) is polled again at once, without sleeping. */
  lemma {:induction false} UnmatchedRepliesRepollWithoutSleep(replies: seq<Reply>)
    requires forall i :: 0 <= i < |replies| ==> StepOf(replies[i]) == Retry
    ensures PollSpec(replies) == PollRun(Pending, |replies|, 0)
    decreases |replies|
  {
    if replies != [] {
      assert forall i :: 0 <= i < |replies[1..]| ==> replies[1..][i] == replies[i + 1];
      UnmatchedRepliesRepollWithoutSleep(replies[1..]);
    }
  }

  /**
   * Every non-waiting reply means the same to the poll loop and to either fetch:
   * a stop with none is a fetch answering none; a ready compound gives the fetch's
   * looked-up field; a reply the loop polls again on is one the fetches answer none to.
   */
  lemma PollAgreesWithFetch(reply: Reply, name: string, formula: string)
    requires reply.Thrown? || reply.data.waiting.None?
    ensures StepOf(reply) == Stop(None) ==>
      DecideByFormula(formula, reply) == Answer(None) && DecideByName(name, reply) == Answer(None)
    ensures StepOf(reply).Retry? ==>
      DecideByFormula(formula, reply) == Answer(None) && DecideByName(name, reply) == Answer(None)
    ensures StepOf(reply).Stop? && StepOf(reply).result.Some? ==>
      DecideByFormula(formula, reply) == Answer(Some(CompoundResult(StepOf(reply).result.value.name, formula)))
      && DecideByName(name, reply) == Answer(Some(CompoundResult(name, StepOf(reply).result.value.formula)))
  {
  }

  /** Every reply a fetch delegates on would make the poll loop sleep. */
  lemma DelegateMeansWaiting(term: string, reply: Reply)
    ensures DecideByFormula(term, reply).Delegate? ==> StepOf(reply) == Sleep
    ensures DecideByName(term, reply).Delegate? ==> StepOf(reply) == Sleep
  {
  }

  /**
   * The `while (isWaiting)` loop of `pollForResult`, run on the replies to its
   * successive requests; when the replies run out first the loop is still polling.
   */
  method PollForResult(replies: seq<Reply>) returns (run: PollRun)
    ensures run == PollSpec(replies)
  {
    var isWaiting := true;
    var result: Option<Compound> := None;
    var requests, sleeps := 0, 0;
    while isWaiting && requests < |replies|
      invariant requests <= |replies|
      invariant result.None? <==> isWaiting
      invariant isWaiting ==>
        var rest := PollSpec(replies[requests..]);
        PollSpec(replies) == PollRun(rest.outcome, rest.requests + requests, rest.sleeps + sleeps)
      invariant !isWaiting ==>
        PollSpec(replies) == PollRun(Finished(Some(ExtractBoth(result.value))), requests, sleeps)
      decreases |replies| - requests, isWaiting
    {
      var reply := replies[requests];
      assert replies[requests..][1..] == replies[requests + 1..];
      requests := requests + 1;
      match reply {
        case Thrown =>
          return PollRun(Finished(None), requests, sleeps);
        case Parsed(data) =>
          if data.waiting.Some? {
            sleeps := sleeps + 1;
          } else if IsBadRequest(data) {
            isWaiting := false;
            return PollRun(Finished(None), requests, sleeps);
          } else if data.compounds.Some? && |data.compounds.value| > 0 {
            result := Some(data.compounds.value[0]);
            isWaiting := false;
          }
      }
    }
    if result.Some? {
      var c := result.value;
      return PollRun(Finished(Some(CompoundResult(LookUp(c, IUPAC_NAME), LookUp(c, MOLECULAR_FORMULA)))), requests, sleeps);
    }
    assert replies[requests..] == [];
    return PollRun(Pending, requests, sleeps);
  }

  /** `fetchCompoundByFormula`: decide on the first reply, and poll on the later ones if told to. */
  function FetchByFormula(formula: string, reply: Reply, pollReplies: seq<Reply>): (o: Outcome)
    ensures o.Pending? ==> reply.Parsed? && HasListKey(reply.data)
    ensures o.Finished? && o.result.Some? ==> o.result.value.name != ""
    ensures !(reply.Parsed? && HasListKey(reply.data)) && o.Finished? && o.result.Some? ==>
      o.result.value.formula == formula
    ensures reply.Parsed? && HasListKey(reply.data) ==> o == PollSpec(pollReplies).outcome
  {
    match DecideByFormula(formula, reply)
    case Delegate(_) => PollSpec(pollReplies).outcome
    case Answer(r) => Finished(r)
  }

  /** `fetchCompoundByName`: decide on the first reply, and poll on the later ones if told to. */
  function FetchByName(name: string, reply: Reply, pollReplies: seq<Reply>): (o: Outcome)
    ensures o.Pending? ==> reply.Parsed? && HasListKey(reply.data)
    ensures o.Finished? && o.result.Some? ==> o.result.value.formula != ""
    ensures !(reply.Parsed? && HasListKey(reply.data)) && o.Finished? && o.result.Some? ==>
      o.result.value.name == name
    ensures reply.Parsed? && HasListKey(reply.data) ==> o == PollSpec(pollReplies).outcome
  {
    match DecideByName(name, reply)
    case Delegate(_) => PollSpec(pollReplies).outcome
    case Answer(r) => Finished(r)
  }

  /** Every failure, however it arises, ends as a finished lookup with no result:
      an exception, a bad-request fault, or a reply with nothing in it. */
  lemma FailuresCollapseToNone(term: string, pollReplies: seq<Reply>)
    ensures FetchByFormula(term, Thrown, pollReplies) == Finished(None)
    ensures FetchByName(term, Thrown, pollReplies) == Finished(None)
    ensures forall m :: FetchByFormula(term, Parsed(Response(None, Some(Fault(BAD_REQUEST, m)), None)), pollReplies) == Finished(None)
    ensures forall m :: FetchByName(term, Parsed(Response(None, Some(Fault(BAD_REQUEST, m)), None)), pollReplies) == Finished(None)
    ensures FetchByFormula(term, Parsed(Response(None, None, None)), pollReplies) == Finished(None)
    ensures FetchByName(term, Parsed(Response(None, None, None)), pollReplies) == Finished(None)
  {
  }
}
