/**
 One conversation (src/localwallet/agent/loop.py, agent/session.py) and the retry policy of the dispatcher
 (src/localwallet/protocol/dispatcher.py).

 The bounded context (a verbatim window and a summary of counters) is shown to refine the unbounded log of turns;
 the request loop is shown to answer what a closed form over the model's answers says.
 */
module AgentLoop {
  import opened Basics

  const MAX_HISTORY_TURNS: nat := 20

  const FLOW_INTENTS: set<string> := {"create_tx", "confirm_tx", "sign_tx", "broadcast_tx"}

  /** A recorded exchange; the envelope text is absent when the request was escalated. */
  datatype Turn = Turn(userText: string, envelope: Option<string>)

  /** Reads the intent name out of an envelope text; `None` when there is none to read. */
  type Extract = string -> Option<string>

  function IntentOf(t: Turn, extract: Extract): (intent: Option<string>)
    ensures t.envelope in {None, Some("")} ==> intent == None
    ensures t.envelope !in {None, Some("")} ==> intent == extract(t.envelope.value)
  {
    if t.envelope.Some? && t.envelope.value != "" then extract(t.envelope.value) else None
  }

  // ---------------------------------------------------------------- the summary

  datatype Summary = Summary(totalTurns: nat, intentCounts: map<string, nat>, flowSteps: nat, extras: map<string, int>)

  const NO_SUMMARY := Summary(0, map[], 0, map[])

  function Folded(s: Summary, t: Turn, extract: Extract): Summary {
    match IntentOf(t, extract)
    case None => s.(totalTurns := s.totalTurns + 1)
    case Some(intent) =>
      Summary(s.totalTurns + 1,
              s.intentCounts[intent := (if intent in s.intentCounts then s.intentCounts[intent] else 0) + 1],
              s.flowSteps + (if intent in FLOW_INTENTS then 1 else 0),
              s.extras)
  }

  function WithExtra(s: Summary, name: string, count: int): Summary {
    s.(extras := s.extras[name := (if name in s.extras then s.extras[name] else 0) + count])
  }

  function FoldAll(s: Summary, turns: seq<Turn>, extract: Extract): Summary {
    if turns == [] then s else Folded(FoldAll(s, turns[..|turns| - 1], extract), turns[|turns| - 1], extract)
  }

  class SessionSummary {
    var totalTurns: nat
    var intentCounts: map<string, nat>
    var flowSteps: nat
    var extras: map<string, int>

    ghost function Abs(): Summary
      reads this
    {
      Summary(totalTurns, intentCounts, flowSteps, extras)
    }

    constructor ()
      ensures Abs() == NO_SUMMARY
    {
      totalTurns, intentCounts, flowSteps, extras := 0, map[], 0, map[];
    }

    method FoldTurn(t: Turn, extract: Extract)
      modifies this
      ensures Abs() == Folded(old(Abs()), t, extract)
    {
      totalTurns := totalTurns + 1;
      if t.envelope.None? || t.envelope.value == "" {
        return;
      }
      var intent := extract(t.envelope.value);
      if intent.None? {
        return;
      }
      var name := intent.value;
      intentCounts := intentCounts[name := (if name in intentCounts then intentCounts[name] else 0) + 1];
      if name in FLOW_INTENTS {
        flowSteps := flowSteps + 1;
      }
    }

    method RecordExtra(name: string, count: int)
      modifies this
      ensures Abs() == WithExtra(old(Abs()), name, count)
    {
      extras := extras[name := (if name in extras then extras[name] else 0) + count];
    }
  }

  // ---------------------------------------------------------------- the bounded session

  datatype Session = Session(history: seq<Turn>, summary: Summary)

  function Pruned(s: Session, extract: Extract): Session {
    if |s.history| <= MAX_HISTORY_TURNS then s
    else
      var excess := |s.history| - MAX_HISTORY_TURNS;
      Session(s.history[excess..], FoldAll(s.summary, s.history[..excess], extract))
  }

  function WithTurn(s: Session, t: Turn, extract: Extract): Session {
    Pruned(s.(history := s.history + [t]), extract)
  }

  /** What can happen to a conversation between two prompts. */
  datatype Op = Record(turn: Turn) | Extra(name: string, count: int) | Scrub

  function Apply(s: Session, op: Op, extract: Extract): Session {
    match op
    case Record(t) => WithTurn(s, t, extract)
    case Extra(name, count) => s.(summary := WithExtra(s.summary, name, count))
    case Scrub => Session([], NO_SUMMARY)
  }

  function Replay(ops: seq<Op>, extract: Extract): Session {
    if ops == [] then Session([], NO_SUMMARY)
    else Apply(Replay(ops[..|ops| - 1], extract), ops[|ops| - 1], extract)
  }

  // ---------------------------------------------------------------- the unbounded log it refines

  function LogAfter(log: seq<Turn>, op: Op): seq<Turn> {
    match op
    case Record(t) => log + [t]
    case Extra(_, _) => log
    case Scrub => []
  }

  function LogOf(ops: seq<Op>): seq<Turn> {
    if ops == [] then [] else LogAfter(LogOf(ops[..|ops| - 1]), ops[|ops| - 1])
  }

  function ExtraTotal(ops: seq<Op>, name: string): int {
    if ops == [] then 0
    else
      match ops[|ops| - 1]
      case Record(_) => ExtraTotal(ops[..|ops| - 1], name)
      case Extra(l, count) => ExtraTotal(ops[..|ops| - 1], name) + (if l == name then count else 0)
      case Scrub => 0
  }

  function Count(turns: seq<Turn>, intent: string, extract: Extract): nat {
    if turns == [] then 0
    else Count(turns[..|turns| - 1], intent, extract) +
         (if IntentOf(turns[|turns| - 1], extract) == Some(intent) then 1 else 0)
  }

  function CountOf(s: Summary, intent: string): nat {
    if intent in s.intentCounts then s.intentCounts[intent] else 0
  }

  function FlowCount(s: Summary): nat {
    CountOf(s, "create_tx") + CountOf(s, "confirm_tx") + CountOf(s, "sign_tx") + CountOf(s, "broadcast_tx")
  }

  /** The summary is exact about the turns folded into it; no intent is listed without a turn. */
  ghost predicate Summarizes(s: Summary, turns: seq<Turn>, extract: Extract) {
    && s.totalTurns == |turns|
    && s.flowSteps == FlowCount(s)
    && forall intent ::
         CountOf(s, intent) == Count(turns, intent, extract) && (intent in s.intentCounts ==> CountOf(s, intent) > 0)
  }

  lemma FoldedSummarizes(s: Summary, turns: seq<Turn>, t: Turn, extract: Extract)
    requires Summarizes(s, turns, extract)
    ensures Summarizes(Folded(s, t, extract), turns + [t], extract)
  {
    assert (turns + [t])[..|turns|] == turns;
    forall intent
      ensures var s' := Folded(s, t, extract);
              CountOf(s', intent) == Count(turns + [t], intent, extract) &&
              (intent in s'.intentCounts ==> CountOf(s', intent) > 0)
    {
    }
  }

  lemma FoldAllSplits(s: Summary, a: seq<Turn>, t: Turn, extract: Extract)
    ensures FoldAll(s, a + [t], extract) == Folded(FoldAll(s, a, extract), t, extract)
  {
    assert (a + [t])[..|a|] == a;
  }

  /** A bounded session standing for a whole log of turns. */
  ghost predicate Refines(s: Session, log: seq<Turn>, extract: Extract) {
    var cut := Max(0, |log| - MAX_HISTORY_TURNS);
    s.history == log[cut..] && Summarizes(s.summary, log[..cut], extract)
  }

  lemma TurnKeptVerbatim(s: Session, log: seq<Turn>, t: Turn, extract: Extract)
    requires Refines(s, log, extract) && |log| < MAX_HISTORY_TURNS
    ensures Refines(WithTurn(s, t, extract), log + [t], extract)
  {
    assert (log + [t])[..0] == log[..0];
    assert (log + [t])[0..] == log[0..] + [t];
  }

  lemma WindowMoves(history: seq<Turn>, log: seq<Turn>, t: Turn, cut: nat)
    requires cut < |log| && history == log[cut..]
    ensures (log + [t])[cut + 1..] == (history + [t])[1..]
    ensures (log + [t])[..cut + 1] == log[..cut] + [log[cut]]
    ensures (history + [t])[..1] == [log[cut]]
  {
  }

  lemma OldestIsFolded(s: Session, t: Turn, extract: Extract)
    requires |s.history| == MAX_HISTORY_TURNS
    ensures WithTurn(s, t, extract) == Session((s.history + [t])[1..], Folded(s.summary, s.history[0], extract))
  {
    FoldAllSplits(s.summary, [], s.history[0], extract);
    assert (s.history + [t])[..1] == [] + [s.history[0]];
  }

  lemma TurnDisplacesOldest(s: Session, log: seq<Turn>, t: Turn, extract: Extract)
    requires Refines(s, log, extract) && |log| >= MAX_HISTORY_TURNS
    ensures Refines(WithTurn(s, t, extract), log + [t], extract)
  {
    var cut := |log| - MAX_HISTORY_TURNS;
    WindowMoves(s.history, log, t, cut);
    OldestIsFolded(s, t, extract);
    FoldedSummarizes(s.summary, log[..cut], log[cut], extract);
  }

  lemma ExtraKeepsRefinement(s: Session, log: seq<Turn>, name: string, count: int, extract: Extract)
    requires Refines(s, log, extract)
    ensures Refines(s.(summary := WithExtra(s.summary, name, count)), log, extract)
  {
    assert forall intent :: CountOf(WithExtra(s.summary, name, count), intent) == CountOf(s.summary, intent);
  }

  lemma OpKeepsRefinement(s: Session, log: seq<Turn>, op: Op, extract: Extract)
    requires Refines(s, log, extract)
    ensures Refines(Apply(s, op, extract), LogAfter(log, op), extract)
  {
    match op
    case Record(t) =>
      if |log| < MAX_HISTORY_TURNS {
        TurnKeptVerbatim(s, log, t, extract);
      } else {
        TurnDisplacesOldest(s, log, t, extract);
      }
    case Extra(name, count) => ExtraKeepsRefinement(s, log, name, count, extract);
    case Scrub =>
  }

  /**
   After any history of recorded turns, counters and scrubs: the window is exactly the last twenty turns since the
   last scrub, and the summary is exact about precisely the turns before those, per intent and in total.
   */
  lemma {:induction false} ContextRefinesLog(ops: seq<Op>, extract: Extract)
    ensures Refines(Replay(ops, extract), LogOf(ops), extract)
  {
    if ops == [] {
    } else {
      ContextRefinesLog(ops[..|ops| - 1], extract);
      OpKeepsRefinement(Replay(ops[..|ops| - 1], extract), LogOf(ops[..|ops| - 1]), ops[|ops| - 1], extract);
    }
  }

  lemma {:induction false} CountSplits(a: seq<Turn>, b: seq<Turn>, intent: string, extract: Extract)
    ensures Count(a + b, intent, extract) == Count(a, intent, extract) + Count(b, intent, extract)
  {
    if b == [] {
      assert a + b == a;
    } else {
      assert (a + b)[..|a + b| - 1] == a + b[..|b| - 1];
      CountSplits(a, b[..|b| - 1], intent, extract);
    }
  }

  /** No turn is lost or counted twice: window and summary together account for the whole log, intent by intent. */
  lemma {:induction false} NothingLost(s: Session, log: seq<Turn>, intent: string, extract: Extract)
    requires Refines(s, log, extract)
    ensures s.summary.totalTurns + |s.history| == |log| && |s.history| == Min(|log|, MAX_HISTORY_TURNS)
    ensures CountOf(s.summary, intent) + Count(s.history, intent, extract) == Count(log, intent, extract)
  {
    var cut := Max(0, |log| - MAX_HISTORY_TURNS);
    assert log == log[..cut] + log[cut..];
    CountSplits(log[..cut], log[cut..], intent, extract);
  }

  /** The extra counters are the sums of what was recorded since the last scrub; turns do not disturb them. */
  lemma {:induction false} ExtrasAreSums(ops: seq<Op>, name: string, extract: Extract)
    ensures var extras := Replay(ops, extract).summary.extras;
            (if name in extras then extras[name] else 0) == ExtraTotal(ops, name)
  {
    if ops == [] {
    } else {
      var init, last := ops[..|ops| - 1], ops[|ops| - 1];
      ExtrasAreSums(init, name, extract);
      if last.Record? {
        var s := Replay(init, extract);
        var grown := s.history + [last.turn];
        if |grown| > MAX_HISTORY_TURNS {
          FoldAllKeepsExtras(s.summary, grown[..|grown| - MAX_HISTORY_TURNS], extract);
        }
      }
    }
  }

  lemma {:induction false} FoldAllKeepsExtras(s: Summary, turns: seq<Turn>, extract: Extract)
    ensures FoldAll(s, turns, extract).extras == s.extras
  {
    if turns == [] {
    } else {
      FoldAllKeepsExtras(s, turns[..|turns| - 1], extract);
    }
  }

  // ---------------------------------------------------------------- one raw payload

  /** A validated envelope as the loop sees it: its canonical text, and its question if it is a clarify. */
  datatype Envelope = Envelope(text: string, question: Option<string>)

  /** How one raw payload fares: schema, business rules, dispatch table, handler. */
  datatype Payload =
    | Invalid(failures: string)
    | BreaksRules(envelope: Envelope, failures: string)
    | NoHandler(envelope: Envelope)
    | HandlerRaises(envelope: Envelope)
    | HandlerReturns(envelope: Envelope, result: string)

  datatype Outcome =
    | Accepted(envelope: Envelope, result: string)
    | NeedsRetry(failures: string)
    | Rejected

  predicate ValidationFailure(p: Payload) {
    p.Invalid? || p.BreaksRules?
  }

  function HandleRaw(p: Payload, failuresSoFar: nat, maxRetries: nat): Outcome {
    if ValidationFailure(p) then if failuresSoFar < maxRetries then NeedsRetry(p.failures) else Rejected
    else if p.HandlerReturns? then Accepted(p.envelope, p.result)
    else Rejected
  }

  // ---------------------------------------------------------------- one request

  datatype Generation = GenerateRaises | Raw(payload: Payload)

  /** The model: the answer to the n-th call of a request, which may depend on the prompt. */
  type Model = (nat, string) -> Generation

  /**
   The texts of a request: its prompt, what a retry note puts around the validator's findings and says without any,
   and the cleaning of such findings.
   */
  datatype Request = Request(base: string, head: string, unsaid: string, tail: string, clean: string -> string)

  function WithRetryNote(request: Request, failures: string): string {
    request.base + request.head + request.clean(if failures == "" then request.unsaid else failures) + request.tail
  }

  datatype Status = Ok | Clarified | Failed

  datatype Message = Question(text: string) | Escalation | FailureNote

  datatype TurnResult = TurnResult(
    status: Status, envelope: Option<string>, result: Option<string>, message: Option<Message>, turnsUsed: nat)

  /** The prompt of the n-th call: the base prompt, or it with a note about the answer just before, and only that. */
  function PromptAt(model: Model, request: Request, n: nat): string {
    if n == 0 then request.base
    else
      var before := model(n - 1, PromptAt(model, request, n - 1));
      if before.Raw? && ValidationFailure(before.payload) then WithRetryNote(request, before.payload.failures)
      else request.base
  }

  function AnswerAt(model: Model, request: Request, n: nat): Generation {
    model(n, PromptAt(model, request, n))
  }

  predicate RetryableAt(model: Model, request: Request, n: nat) {
    var a := AnswerAt(model, request, n);
    a.Raw? && ValidationFailure(a.payload)
  }

  /** The first call below the limit whose answer is not a validation failure; the limit if there is none. */
  function Decisive(model: Model, request: Request, limit: nat): (n: nat)
    ensures n <= limit && (n < limit ==> !RetryableAt(model, request, n))
    ensures forall i :: 0 <= i < n ==> RetryableAt(model, request, i)
  {
    if limit == 0 then 0
    else
      var n := Decisive(model, request, limit - 1);
      if n < limit - 1 || !RetryableAt(model, request, limit - 1) then n else limit
  }

  lemma DecisiveIs(model: Model, request: Request, limit: nat, n: nat)
    requires n <= limit && (n < limit ==> !RetryableAt(model, request, n))
    requires forall i :: 0 <= i < n ==> RetryableAt(model, request, i)
    ensures Decisive(model, request, limit) == n
  {
  }

  /** The decisive answer below the limit is one that reaches a handler. */
  predicate ReachesHandler(model: Model, request: Request, limit: nat) {
    var n := Decisive(model, request, limit);
    var a := AnswerAt(model, request, n);
    n < limit && a.Raw? && (a.payload.HandlerRaises? || a.payload.HandlerReturns?)
  }

  /** The closed form of a request: at most min(turn cap, retries + 1) calls, decided by the first usable answer. */
  function Answered(model: Model, request: Request, maxTurns: nat, maxRetries: nat): TurnResult {
    var limit := Min(maxTurns, maxRetries + 1);
    var n := Decisive(model, request, limit);
    if n == limit then TurnResult(Clarified, None, None, Some(Escalation), limit)
    else
      match AnswerAt(model, request, n)
      case GenerateRaises => TurnResult(Failed, None, None, Some(FailureNote), n)
      case Raw(HandlerReturns(envelope, result)) =>
        TurnResult(Ok, Some(envelope.text), Some(result),
                   (if envelope.question.Some? then Some(Question(envelope.question.value)) else None), n + 1)
      case Raw(_) => TurnResult(Clarified, None, None, Some(Escalation), n + 1)
  }

  /** The first `n` answers were all invalid envelopes, and this is the prompt after them. */
  predicate Slipped(model: Model, request: Request, n: nat, prompt: string) {
    prompt == PromptAt(model, request, n) && forall i :: 0 <= i < n ==> RetryableAt(model, request, i)
  }

  lemma SlipsOnceMore(model: Model, request: Request, n: nat, prompt: string)
    requires Slipped(model, request, n, prompt)
    requires model(n, prompt).Raw? && ValidationFailure(model(n, prompt).payload)
    ensures Slipped(model, request, n + 1, WithRetryNote(request, model(n, prompt).payload.failures))
  {
    assert RetryableAt(model, request, n);
  }

  /** The closed form once the decisive call is known, and whether it reaches a handler. */
  lemma ConcludesAt(model: Model, request: Request, maxTurns: nat, maxRetries: nat, n: nat, prompt: string)
    requires n <= Min(maxTurns, maxRetries + 1) && Slipped(model, request, n, prompt)
    requires n < Min(maxTurns, maxRetries + 1) ==>
               model(n, prompt).Raw? ==> !ValidationFailure(model(n, prompt).payload)
    ensures var limit, r := Min(maxTurns, maxRetries + 1), Answered(model, request, maxTurns, maxRetries);
            var reaches := ReachesHandler(model, request, limit);
            if n == limit then r == TurnResult(Clarified, None, None, Some(Escalation), n) && !reaches
            else
              match model(n, prompt)
              case GenerateRaises => r == TurnResult(Failed, None, None, Some(FailureNote), n) && !reaches
              case Raw(HandlerReturns(envelope, result)) =>
                reaches && r == TurnResult(Ok, Some(envelope.text), Some(result),
                  (if envelope.question.Some? then Some(Question(envelope.question.value)) else None), n + 1)
              case Raw(payload) =>
                r == TurnResult(Clarified, None, None, Some(Escalation), n + 1) && (reaches <==> payload.HandlerRaises?)
  {
    DecisiveIs(model, request, Min(maxTurns, maxRetries + 1), n);
  }

  /** The prompts of a request so far: the base one, then each with a note about the answer just before it alone. */
  predicate Transcript(model: Model, request: Request, prompts: seq<string>) {
    && prompts != [] && prompts[0] == request.base
    && forall k :: 0 <= k < |prompts| - 1 ==> Reprompted(model(k, prompts[k]), request, prompts[k + 1])
  }

  /** The answer was no valid envelope, and the prompt after it says what the validator found. */
  predicate Reprompted(answer: Generation, request: Request, prompt: string) {
    && answer.Raw? && ValidationFailure(answer.payload)
    && (answer.payload.failures != "" ==>
          prompt == request.base + request.head + request.clean(answer.payload.failures) + request.tail)
    && (answer.payload.failures == "" ==>
          prompt == request.base + request.head + request.clean(request.unsaid) + request.tail)
  }

  /** How a request ends after this many calls when the last of them is answered so. */
  predicate EndsWith(answer: Generation, calls: nat, limit: nat, r: TurnResult) {
    match answer
    case GenerateRaises =>
      r.status.Failed? && r.envelope == r.result == None && r.message == Some(FailureNote) && r.turnsUsed == calls - 1
    case Raw(HandlerReturns(envelope, result)) =>
      && r.status.Ok? && r.envelope == Some(envelope.text) && r.result == Some(result) && r.turnsUsed == calls
      && (envelope.question.None? ==> r.message == None)
      && (envelope.question.Some? ==> r.message == Some(Question(envelope.question.value)))
    case Raw(payload) =>
      && r.status.Clarified? && r.envelope == r.result == None && r.message == Some(Escalation) && r.turnsUsed == calls
      && (payload.Invalid? || payload.BreaksRules? ==> calls == limit)
  }

  function Prompts(model: Model, request: Request, calls: nat): seq<string> {
    seq(calls, i requires 0 <= i < calls => PromptAt(model, request, i))
  }

  lemma RepromptedAt(model: Model, request: Request, k: nat)
    requires RetryableAt(model, request, k)
    ensures Reprompted(model(k, PromptAt(model, request, k)), request, PromptAt(model, request, k + 1))
  {
  }

  lemma PromptsAreATranscript(model: Model, request: Request, calls: nat)
    requires calls >= 1 && forall k :: 0 <= k < calls - 1 ==> RetryableAt(model, request, k)
    ensures Transcript(model, request, Prompts(model, request, calls))
  {
    var prompts := Prompts(model, request, calls);
    forall k | 0 <= k < calls - 1
      ensures Reprompted(model(k, prompts[k]), request, prompts[k + 1])
    {
      RepromptedAt(model, request, k);
    }
  }

  lemma AnswerEndsIt(model: Model, request: Request, maxTurns: nat, maxRetries: nat, calls: nat)
    requires maxTurns >= 1
    requires var limit := Min(maxTurns, maxRetries + 1);
             calls == if Decisive(model, request, limit) == limit then limit else Decisive(model, request, limit) + 1
    ensures EndsWith(AnswerAt(model, request, calls - 1), calls, Min(maxTurns, maxRetries + 1),
                     Answered(model, request, maxTurns, maxRetries))
  {
    var limit := Min(maxTurns, maxRetries + 1);
    if Decisive(model, request, limit) == limit {
      assert RetryableAt(model, request, limit - 1);
    }
  }

  /**
   What a request answers, told by its prompts: it asks again exactly after invalid envelopes, with the reason, and
   ends with the first other answer or at the limit.
   */
  lemma RequestsEndExactly(model: Model, request: Request, maxTurns: nat, maxRetries: nat)
    requires maxTurns >= 1
    ensures var limit := Min(maxTurns, maxRetries + 1);
            exists prompts: seq<string> ::
              && Transcript(model, request, prompts) && |prompts| <= limit
              && EndsWith(model(|prompts| - 1, prompts[|prompts| - 1]), |prompts|, limit,
                          Answered(model, request, maxTurns, maxRetries))
  {
    var limit := Min(maxTurns, maxRetries + 1);
    var n := Decisive(model, request, limit);
    var calls := if n == limit then limit else n + 1;
    PromptsAreATranscript(model, request, calls);
    AnswerEndsIt(model, request, maxTurns, maxRetries, calls);
    assert Prompts(model, request, calls)[calls - 1] == PromptAt(model, request, calls - 1);
  }

  /** How the request loop ends: the infrastructure broke, an envelope was carried out, or neither. */
  datatype Ending = Broke | Usable(envelope: Envelope, result: string) | GaveUp

  /** The result of a request that ended so. */
  predicate EndingOf(r: TurnResult, end: Ending, turnsUsed: nat) {
    r == match end
         case Broke => TurnResult(Failed, None, None, Some(FailureNote), turnsUsed)
         case Usable(envelope, result) =>
           TurnResult(Ok, Some(envelope.text), Some(result),
                      (if envelope.question.Some? then Some(Question(envelope.question.value)) else None), turnsUsed)
         case GaveUp => TurnResult(Clarified, None, None, Some(Escalation), turnsUsed)
  }

  class Agent {
    var history: seq<Turn>
    var summary: SessionSummary
    const extract: Extract
    const maxTurns: nat
    const maxRetries: nat

    ghost function Abs(): Session
      reads this, summary
    {
      Session(history, summary.Abs())
    }

    constructor (extract: Extract, maxTurns: nat, maxRetries: nat)
      requires maxTurns >= 1
      ensures Abs() == Session([], NO_SUMMARY) && fresh(summary)
      ensures this.extract == extract && this.maxTurns == maxTurns && this.maxRetries == maxRetries
    {
      this.extract, this.maxTurns, this.maxRetries := extract, maxTurns, maxRetries;
      history := [];
      summary := new SessionSummary();
    }

    method Prune()
      modifies this`history, summary
      ensures Abs() == Pruned(old(Abs()), extract) && summary == old(summary)
    {
      if |history| <= MAX_HISTORY_TURNS {
        return;
      }
      var excess := |history| - MAX_HISTORY_TURNS;
      for i := 0 to excess
        invariant history == old(history) && summary == old(summary)
        invariant summary.Abs() == FoldAll(old(summary.Abs()), history[..i], extract)
      {
        FoldAllSplits(old(summary.Abs()), history[..i], history[i], extract);
        assert history[..i + 1] == history[..i] + [history[i]];
        summary.FoldTurn(history[i], extract);
      }
      history := history[excess..];
    }

    method AddTurn(userText: string, envelope: Option<string>)
      modifies this`history, summary
      ensures Abs() == Apply(old(Abs()), Record(Turn(userText, envelope)), extract) && summary == old(summary)
    {
      history := history + [Turn(userText, envelope)];
      Prune();
    }

    method RecordEvent(name: string, count: int)
      modifies summary
      ensures Abs() == Apply(old(Abs()), Extra(name, count), extract)
    {
      summary.RecordExtra(name, count);
    }

    method ScrubSession()
      modifies this
      ensures Abs() == Apply(old(Abs()), Scrub, extract) && fresh(summary)
    {
      history := [];
      summary := new SessionSummary();
    }

    /** The envelope answers the request; the exchange is recorded. */
    method FinishOk(envelope: Envelope, result: string, userText: string, turnsUsed: nat) returns (r: TurnResult)
      modifies this`history, summary
      ensures r == TurnResult(Ok, Some(envelope.text), Some(result),
                              (if envelope.question.Some? then Some(Question(envelope.question.value)) else None),
                              turnsUsed)
      ensures Abs() == Apply(old(Abs()), Record(Turn(userText, Some(envelope.text))), extract)
    {
      AddTurn(userText, Some(envelope.text));
      r := TurnResult(Ok, Some(envelope.text), Some(result),
                      (if envelope.question.Some? then Some(Question(envelope.question.value)) else None), turnsUsed);
    }

    /** The user is asked to clarify; the request is recorded without an envelope. */
    method FinishEscalated(userText: string, turnsUsed: nat) returns (r: TurnResult)
      modifies this`history, summary
      ensures r == TurnResult(Clarified, None, None, Some(Escalation), turnsUsed)
      ensures Abs() == Apply(old(Abs()), Record(Turn(userText, None)), extract)
    {
      AddTurn(userText, None);
      r := TurnResult(Clarified, None, None, Some(Escalation), turnsUsed);
    }

    /**
     The request loop: how it ended, after how many answers. One handler runs, in the last call, exactly when the
     decisive answer reaches one.
     */
    method Converse(model: Model, request: Request)
      returns (end: Ending, turnsUsed: nat, ghost calls: nat, ghost handled: nat)
      requires maxTurns >= 1
      ensures EndingOf(Answered(model, request, maxTurns, maxRetries), end, turnsUsed)
      ensures calls <= Min(maxTurns, maxRetries + 1)
      ensures handled == if ReachesHandler(model, request, Min(maxTurns, maxRetries + 1)) then 1 else 0
      ensures calls == turnsUsed + (if end.Broke? then 1 else 0)
      ensures handled == 1 ==> calls == turnsUsed
      ensures end.Usable? ==> handled == 1
    {
      var prompt, failures := request.base, 0;
      turnsUsed, calls, handled := 0, 0, 0;
      while turnsUsed < maxTurns
        invariant turnsUsed == failures == calls <= Min(maxTurns, maxRetries + 1) && handled == 0
        invariant failures <= maxRetries
        invariant Slipped(model, request, turnsUsed, prompt)
        decreases maxTurns - turnsUsed
      {
        var raw := model(turnsUsed, prompt);
        calls := calls + 1;
        if raw.GenerateRaises? {
          ConcludesAt(model, request, maxTurns, maxRetries, turnsUsed, prompt);
          return Broke, turnsUsed, calls, handled;
        }
        turnsUsed := turnsUsed + 1;
        var outcome := HandleRaw(raw.payload, failures, maxRetries);
        if raw.payload.HandlerRaises? || raw.payload.HandlerReturns? {
          handled := handled + 1;
        }
        if ValidationFailure(raw.payload) {
          SlipsOnceMore(model, request, turnsUsed - 1, prompt);
        } else {
          ConcludesAt(model, request, maxTurns, maxRetries, turnsUsed - 1, prompt);
        }
        match outcome {
          case Accepted(envelope, result) =>
            return Usable(envelope, result), turnsUsed, calls, handled;
          case NeedsRetry(problem) =>
            failures := failures + 1;
            prompt := WithRetryNote(request, problem);
          case Rejected =>
            if ValidationFailure(raw.payload) {
              ConcludesAt(model, request, maxTurns, maxRetries, turnsUsed,
                          WithRetryNote(request, raw.payload.failures));
            }
            return GaveUp, turnsUsed, calls, handled;
        }
      }
      ConcludesAt(model, request, maxTurns, maxRetries, turnsUsed, prompt);
      end := GaveUp;
    }

    /** One request. The answer is the closed form; exactly one turn is recorded unless the request failed. */
    method Run(model: Model, request: Request, userText: string)
      returns (r: TurnResult, ghost calls: nat, ghost handled: nat)
      requires maxTurns >= 1
      modifies this`history, summary
      ensures r == Answered(model, request, maxTurns, maxRetries)
      ensures calls <= Min(maxTurns, maxRetries + 1)
      ensures handled == if ReachesHandler(model, request, Min(maxTurns, maxRetries + 1)) then 1 else 0
      ensures calls == r.turnsUsed + (if r.status.Failed? then 1 else 0)
      ensures handled == 1 ==> calls == r.turnsUsed
      ensures r.status.Ok? ==> handled == 1
      ensures Abs() == if r.status.Failed? then old(Abs())
                       else Apply(old(Abs()), Record(Turn(userText, r.envelope)), extract)
    {
      var end, turnsUsed;
      end, turnsUsed, calls, handled := Converse(model, request);
      match end {
        case Broke => r := TurnResult(Failed, None, None, Some(FailureNote), turnsUsed);
        case Usable(envelope, result) => r := FinishOk(envelope, result, userText, turnsUsed);
        case GaveUp => r := FinishEscalated(userText, turnsUsed);
      }
    }
  }

  /** With the shipped budget of one retry: `ok` exactly when the first answer, or after a slip the second, is usable. */
  lemma OkWithinOneRetry(model: Model, request: Request, maxTurns: nat)
    requires maxTurns >= 2
    ensures var first, second := AnswerAt(model, request, 0), AnswerAt(model, request, 1);
            Answered(model, request, maxTurns, 1).status.Ok? <==>
            (first.Raw? && first.payload.HandlerReturns?) ||
            (first.Raw? && ValidationFailure(first.payload) && second.Raw? && second.payload.HandlerReturns?)
  {
    if !RetryableAt(model, request, 0) {
      DecisiveIs(model, request, 2, 0);
    } else if !RetryableAt(model, request, 1) {
      DecisiveIs(model, request, 2, 1);
    } else {
      DecisiveIs(model, request, 2, 2);
    }
  }
}
