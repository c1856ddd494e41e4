/**
 * `translateCompound`: trimming the input, the re-entrancy guard on the
 * module-level `isRequestInProgress` flag, dispatch to a fetch, and the text shown.
 */
module Orchestrator {
  import opened Options
  import opened Formula
  import opened PubChem

  const ENTER_MESSAGE: string := "Please enter a chemical name or formula."
  const WAIT_MESSAGE: string := "Please wait for the current request to finish."
  const NOT_FOUND_MESSAGE: string := "Compound not found."

  /** The characters `String.prototype.trim` removes: ECMAScript WhiteSpace and LineTerminator. */
  predicate IsWhitespace(c: char) {
    c == '\t' || c == '\n' || c == '\U{B}' || c == '\U{C}' || c == '\r' || c == ' '
    || c == '\U{A0}' || c == '\U{1680}' || ('\U{2000}' <= c <= '\U{200A}')
    || c == '\U{2028}' || c == '\U{2029}' || c == '\U{202F}' || c == '\U{205F}'
    || c == '\U{3000}' || c == '\U{FEFF}'
  }

  /** `s` without its leading whitespace. */
  function TrimStart(s: string): (r: string)
    ensures |r| <= |s| && r == s[|s| - |r|..]
    ensures forall i :: 0 <= i < |s| - |r| ==> IsWhitespace(s[i])
    ensures r != [] ==> !IsWhitespace(r[0])
    decreases |s|
  {
    if s != [] && IsWhitespace(s[0]) then TrimStart(s[1..]) else s
  }

  /** `s` without its trailing whitespace. */
  function TrimEnd(s: string): (r: string)
    ensures |r| <= |s| && r == s[..|r|]
    ensures forall i :: |r| <= i < |s| ==> IsWhitespace(s[i])
    ensures r != [] ==> !IsWhitespace(r[|r| - 1])
    decreases |s|
  {
    if s != [] && IsWhitespace(s[|s| - 1]) then TrimEnd(s[..|s| - 1]) else s
  }

  /** `r` is `s` from index `i` on, with only whitespace cut off before and after it. */
  predicate TrimmedAt(s: string, r: string, i: nat) {
    i + |r| <= |s| && r == s[i..i + |r|]
    && (forall k :: 0 <= k < i ==> IsWhitespace(s[k]))
    && (forall k :: i + |r| <= k < |s| ==> IsWhitespace(s[k]))
  }

  /** `input.trim()` */
  function Trim(s: string): (r: string)
    ensures exists i :: TrimmedAt(s, r, i)
    ensures r != [] ==> !IsWhitespace(r[0]) && !IsWhitespace(r[|r| - 1])
  {
    var t := TrimStart(s);
    var r := TrimEnd(t);
    TrimComposes(s, t, r);
    r
  }

  /** Cutting a whitespace prefix and then a whitespace suffix leaves a trimmed slice. */
  lemma TrimComposes(s: string, t: string, r: string)
    requires |t| <= |s| && t == s[|s| - |t|..]
    requires forall k :: 0 <= k < |s| - |t| ==> IsWhitespace(s[k])
    requires |r| <= |t| && r == t[..|r|]
    requires forall k :: |r| <= k < |t| ==> IsWhitespace(t[k])
    ensures TrimmedAt(s, r, |s| - |t|)
  {
    var i := |s| - |t|;
    forall k | i + |r| <= k < |s| ensures IsWhitespace(s[k]) {
      assert s[k] == t[k - i];
    }
  }

  /** The input counts as empty exactly when it is all whitespace. */
  lemma TrimEmpty(s: string)
    ensures Trim(s) == [] <==> forall k :: 0 <= k < |s| ==> IsWhitespace(s[k])
  {
  }

  /** Which fetch a lookup goes to, with the trimmed input. */
  datatype Query = ByFormula(formula: string) | ByName(name: string)

  /** What the first half of `translateCompound` does: show a message, or start a lookup. */
  datatype Start = Show(message: string) | Dispatch(query: Query)

  /** The output text for a finished lookup. */
  function Render(result: Option<CompoundResult>): (text: string)
    ensures result.None? <==> text == NOT_FOUND_MESSAGE
    ensures result.Some? ==>
      var name := result.value.name;
      var shown := FormatWithSubscript(result.value.formula);
      |text| == 53 + |name| + |shown|
      && text[..23] == "<strong>Name:</strong> "
      && text[23..23 + |name|] == name
      && text[23 + |name|..53 + |name|] == "<br><strong>Formula:</strong> "
      && text[|text| - |shown|..] == shown
  {
    match result
    case Some(r) =>
      var text := "<strong>Name:</strong> " + r.name + "<br><strong>Formula:</strong> " + FormatWithSubscript(r.formula);
      assert text[0] == '<' != NOT_FOUND_MESSAGE[0];
      text
    case None => NOT_FOUND_MESSAGE
  }

  /** The classifier routes text holding a digit to the by-formula fetch, any other text
      to the by-name fetch. */
  function Classify(input: string): (q: Query)
    ensures q.ByFormula? <==> ContainsDigit(input)
    ensures q.ByFormula? ==> q.formula == input
    ensures q.ByName? ==> q.name == input
  {
    if IsFormula(input) then ByFormula(input) else ByName(input)
  }

  /** Runs the dispatched fetch on its first reply and the replies to any polls. */
  function Resolve(q: Query, reply: Reply, pollReplies: seq<Reply>): (o: Outcome)
    ensures o.Pending? ==> reply.Parsed? && HasListKey(reply.data)
    ensures o.Finished? && o.result.Some? && q.ByFormula? ==> o.result.value.name != ""
    ensures o.Finished? && o.result.Some? && q.ByName? ==> o.result.value.formula != ""
    ensures reply.Parsed? && HasListKey(reply.data) ==> o == PollSpec(pollReplies).outcome
    ensures !(reply.Parsed? && HasListKey(reply.data)) && o.Finished? && o.result.Some? ==>
      (q.ByFormula? ==> o.result.value.formula == q.formula)
      && (q.ByName? ==> o.result.value.name == q.name)
    ensures (reply.Parsed? && !HasListKey(reply.data) && !IsBadRequest(reply.data)
             && FirstCompound(reply.data).Some?) ==> o.Finished? && o.result.Some?
  {
    match q
    case ByFormula(f) => FetchByFormula(f, reply, pollReplies)
    case ByName(n) => FetchByName(n, reply, pollReplies)
  }

  /** The page's state: the one flag that rejects overlapping lookups. */
  class Translator {
    var isRequestInProgress: bool

    constructor ()
      ensures !isRequestInProgress
    {
      isRequestInProgress := false;
    }

    /**
     * `translateCompound` up to the `await`: empty input is refused without touching
     * the flag; a lookup already in flight refuses this one; otherwise the flag is set
     * and the input goes to the fetch its classification picks.
     */
    method Begin(rawInput: string) returns (s: Start)
      modifies this
      ensures var input := Trim(rawInput);
        if input == "" then s == Show(ENTER_MESSAGE) && isRequestInProgress == old(isRequestInProgress)
        else if old(isRequestInProgress) then s == Show(WAIT_MESSAGE) && isRequestInProgress
        else s == Dispatch(Classify(input)) && isRequestInProgress
    {
      var input := Trim(rawInput);
      if input == "" {
        return Show(ENTER_MESSAGE);
      }
      if isRequestInProgress {
        return Show(WAIT_MESSAGE);
      }
      isRequestInProgress := true;
      s := Dispatch(Classify(input));
    }

    /** `translateCompound` after the `await`: render the result or "Compound not found."
        and clear the flag, whichever it was. */
    method Complete(result: Option<CompoundResult>) returns (text: string)
      modifies this
      ensures !isRequestInProgress
      ensures text == Render(result)
    {
      text := Render(result);
      isRequestInProgress := false;
    }

    /**
     * One whole call of `translateCompound` with nothing overlapping it. `shown` is
     * none only when the poll replies ran out with the lookup still polling, in
     * which case the flag stays set.
     */
    method Translate(rawInput: string, reply: Reply, pollReplies: seq<Reply>) returns (shown: Option<string>)
      modifies this
      ensures var input := Trim(rawInput);
        if input == "" then
          shown == Some(ENTER_MESSAGE) && isRequestInProgress == old(isRequestInProgress)
        else if old(isRequestInProgress) then
          shown == Some(WAIT_MESSAGE) && isRequestInProgress
        else match Resolve(Classify(input), reply, pollReplies)
          case Finished(r) => shown == Some(Render(r)) && !isRequestInProgress
          case Pending => shown == None && isRequestInProgress
    {
      var s := Begin(rawInput);
      match s {
        case Show(m) =>
          shown := Some(m);
        case Dispatch(q) =>
          var outcome := Resolve(q, reply, pollReplies);
          if outcome.Finished? {
            var text := Complete(outcome.result);
            shown := Some(text);
          } else {
            shown := None;
          }
      }
    }
  }

  /**
   * A second call while the first call's lookup is in flight is told to wait and
   * dispatches nothing; once the first completes, the flag is clear again.
   */
  method OverlappingCalls(t: Translator, first: string, second: string, result: Option<CompoundResult>)
    returns (s1: Start, s2: Start, text: string)
    requires !t.isRequestInProgress
    requires Trim(first) != "" && Trim(second) != ""
    modifies t
    ensures s1 == Dispatch(Classify(Trim(first)))
    ensures s2 == Show(WAIT_MESSAGE)
    ensures text == Render(result) && !t.isRequestInProgress
  {
    s1 := t.Begin(first);
    s2 := t.Begin(second);
    text := t.Complete(result);
  }

  /** The four ways a lookup can fail all show the same text: an exception, a bad-request
      fault, an empty compound list and a reply with nothing in it. */
  lemma NotFoundIsGeneric(term: string, m: string, pollReplies: seq<Reply>)
    ensures Resolve(Classify(term), Thrown, pollReplies) == Finished(None)
    ensures Resolve(Classify(term), Parsed(Response(None, Some(Fault(BAD_REQUEST, m)), None)), pollReplies) == Finished(None)
    ensures Resolve(Classify(term), Parsed(Response(None, None, Some([]))), pollReplies) == Finished(None)
    ensures Resolve(Classify(term), Parsed(Response(None, None, None)), pollReplies) == Finished(None)
    ensures Render(None) == NOT_FOUND_MESSAGE
  {
  }
}
