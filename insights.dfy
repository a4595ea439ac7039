/**
 * The question-and-answer panel of src/components/AIInsights.tsx: its four pieces of state,
 * the ask handler, the clear button and the retry button.
 *
 * The request to the insights endpoint is not modelled; what it produced is given to the
 * ask as an `Outcome`. An ask is modelled as its start (before the request) and its
 * settlement (after it); `Asked` is the two in a row.
 */
module Insights {
  import opened Options
  import opened Text

  /** One exchange shown in the conversation. */
  datatype Interaction = Interaction(question: string, answer: string)

  /**
   * What the request produced: a response with its status flag and the `answer` and `error`
   * fields of its JSON body, or a thrown value (`Some(message)` for an `Error`, `None` for
   * anything else).
   */
  datatype Outcome =
    | Responded(ok: bool, answer: Option<string>, serverError: Option<string>)
    | Raised(message: Option<string>)

  const FailedMessage: string := "Failed to get insights"
  const UnavailableMessage: string := "The AI assistant is temporarily unavailable. Please try again."

  /** The panel's state: `history`, `input`, `isLoading` and `error`. */
  datatype Panel = Panel(history: seq<Interaction>, input: string, isLoading: bool, error: Option<string>)

  const InitialPanel: Panel := Panel([], "", false, None)

  /** `s || fallback` for an optional string. */
  function OrElse(s: Option<string>, fallback: string): string
  {
    if s.Some? && s.value != "" then s.value else fallback
  }

  /** The answer an outcome gives, or the error message the panel shows for it. */
  function Resolve(o: Outcome): Result<string, string>
  {
    match o
    case Responded(ok, answer, serverError) =>
      if ok && answer.Some? && answer.value != "" then Ok(answer.value)
      else Err(OrElse(serverError, FailedMessage))
    case Raised(message) =>
      if message.Some? then Err(message.value) else Err(UnavailableMessage)
  }

  /** Only an ok response with a non-empty answer is a success; every failure has the message the source picks. */
  lemma ResolveCases(o: Outcome)
    ensures Resolve(o).Ok? <==> o.Responded? && o.ok && o.answer.Some? && o.answer.value != ""
    ensures Resolve(o).Ok? ==> Resolve(o).value != ""
    ensures o.Responded? && Resolve(o).Err? && (o.serverError.None? || o.serverError.value == "") ==> Resolve(o) == Err(FailedMessage)
    ensures o.Responded? && Resolve(o).Err? && o.serverError.Some? && o.serverError.value != "" ==> Resolve(o) == Err(o.serverError.value)
    ensures o == Raised(None) ==> Resolve(o) == Err(UnavailableMessage)
    ensures o.Raised? && o.message.Some? ==> Resolve(o) == Err(o.message.value)
  {
  }

  /** An ask goes ahead only for a question with some non-blank character, and only when none is in flight. */
  predicate Accepts(p: Panel, question: string)
  {
    Trim(question) != "" && !p.isLoading
  }

  /** The start of an ask: loading on, error cleared, input cleared; nothing when the ask is refused. */
  function Begun(p: Panel, question: string): Panel
  {
    if Accepts(p, question) then p.(isLoading := true, error := None, input := "") else p
  }

  /** The settlement of an ask: a success appends one exchange, a failure sets the error; loading ends either way. */
  function Settled(p: Panel, question: string, o: Outcome): Panel
  {
    match Resolve(o)
    case Ok(answer) => p.(history := p.history + [Interaction(question, answer)], isLoading := false)
    case Err(message) => p.(error := Some(message), isLoading := false)
  }

  /** A whole ask. */
  function Asked(p: Panel, question: string, o: Outcome): Panel
  {
    if Accepts(p, question) then Settled(Begun(p, question), question, o) else p
  }

  /** The clear button. */
  function Cleared(p: Panel): Panel
  {
    p.(history := [], error := None)
  }

  /** Typing into the question box. */
  function Typed(p: Panel, text: string): Panel
  {
    p.(input := text)
  }

  /** The question the retry button asks: the last exchange's question when there is one and it is not empty, else the input. */
  function RetryQuestion(p: Panel): string
  {
    if |p.history| > 0 && p.history[|p.history| - 1].question != "" then p.history[|p.history| - 1].question
    else p.input
  }

  /** Asking a blank question, or asking while a question is in flight, changes nothing. */
  lemma RefusedAskChangesNothing(p: Panel, question: string, o: Outcome)
    requires AllSpace(question) || p.isLoading
    ensures Begun(p, question) == p
    ensures Asked(p, question, o) == p
  {
    BlankIffAllSpace(question);
  }

  /** Starting an accepted ask sets loading and clears the error and the input, and keeps the history. */
  lemma BeginClearsErrorAndInput(p: Panel, question: string)
    requires !AllSpace(question) && !p.isLoading
    ensures Begun(p, question) == Panel(p.history, "", true, None)
  {
    BlankIffAllSpace(question);
  }

  /** A successful ask appends exactly its own exchange and keeps every earlier one. */
  lemma SuccessAppendsOneExchange(p: Panel, question: string, o: Outcome)
    requires Accepts(p, question) && Resolve(o).Ok?
    ensures Asked(p, question, o) == Panel(p.history + [Interaction(question, Resolve(o).value)], "", false, None)
    ensures |Asked(p, question, o).history| == |p.history| + 1
    ensures Asked(p, question, o).history[..|p.history|] == p.history
  {
  }

  /** A failed ask keeps the history and shows the failure's message. */
  lemma FailureKeepsHistory(p: Panel, question: string, o: Outcome)
    requires Accepts(p, question) && Resolve(o).Err?
    ensures Asked(p, question, o) == Panel(p.history, "", false, Some(Resolve(o).error))
  {
  }

  /** Once an ask has run, nothing is in flight. */
  lemma AskEndsIdle(p: Panel, question: string, o: Outcome)
    requires !p.isLoading
    ensures !Asked(p, question, o).isLoading
  {
  }

  /** The clear button empties the history and clears the error, and touches nothing else. */
  lemma ClearEmptiesSession(p: Panel)
    ensures Cleared(p).history == [] && Cleared(p).error.None?
    ensures Cleared(p).input == p.input && Cleared(p).isLoading == p.isLoading
  {
  }

  /** Every exchange in the history has a question with some non-blank character and a non-empty answer. */
  predicate ExchangesComplete(p: Panel)
  {
    forall k :: 0 <= k < |p.history| ==> !AllSpace(p.history[k].question) && p.history[k].answer != ""
  }

  /** An ask keeps the history's exchanges complete. */
  lemma AskKeepsExchangesComplete(p: Panel, question: string, o: Outcome)
    requires ExchangesComplete(p)
    ensures ExchangesComplete(Asked(p, question, o))
  {
    BlankIffAllSpace(question);
  }

  /** The retry button, once the history has an exchange, asks the last exchange's question again. */
  lemma RetryAsksLastExchange(p: Panel)
    requires ExchangesComplete(p) && |p.history| > 0
    ensures RetryQuestion(p) == p.history[|p.history| - 1].question
  {
    assert AllSpace("");
  }

  /**
   * A retry after a failed first question does nothing: the failure left no exchange to
   * repeat, and the start of the ask emptied the input.
   */
  lemma RetryAfterFirstFailureIsNoOp(p: Panel, question: string, o: Outcome, retried: Outcome)
    requires p.history == [] && Accepts(p, question) && Resolve(o).Err?
    ensures RetryQuestion(Asked(p, question, o)) == ""
    ensures Asked(Asked(p, question, o), RetryQuestion(Asked(p, question, o)), retried) == Asked(p, question, o)
  {
  }

  /** One thing a user does to the panel. */
  datatype Event = Type(text: string) | Ask(question: string, outcome: Outcome) | Retry(outcome: Outcome) | Clear

  /** The panel after one event, an ask running to completion. */
  function Step(p: Panel, e: Event): Panel
  {
    match e
    case Type(text) => Typed(p, text)
    case Ask(question, o) => Asked(p, question, o)
    case Retry(o) => Asked(p, RetryQuestion(p), o)
    case Clear => Cleared(p)
  }

  /** The panel after a sequence of events, each ask running to completion before the next event. */
  function Run(p: Panel, events: seq<Event>): Panel
    decreases |events|
  {
    if |events| == 0 then p else Step(Run(p, events[..|events| - 1]), events[|events| - 1])
  }

  /** Every event but a clear keeps the history as a prefix of the new one. */
  lemma StepExtendsHistory(p: Panel, e: Event)
    requires e != Clear
    ensures |p.history| <= |Step(p, e).history|
    ensures Step(p, e).history[..|p.history|] == p.history
  {
  }

  /** Without a clear, the history only grows at its end: each earlier state's history is a prefix of the later one. */
  lemma {:induction false} HistoryOnlyGrows(p: Panel, events: seq<Event>)
    requires forall k :: 0 <= k < |events| ==> events[k] != Clear
    ensures |p.history| <= |Run(p, events).history|
    ensures Run(p, events).history[..|p.history|] == p.history
  {
    if |events| > 0 {
      var init := events[..|events| - 1];
      HistoryOnlyGrows(p, init);
      var q := Run(p, init);
      StepExtendsHistory(q, events[|events| - 1]);
      var r := Run(p, events);
      assert r.history[..|p.history|] == r.history[..|q.history|][..|p.history|];
    }
  }

  /** From an idle panel every sequence of events ends idle, with complete exchanges. */
  lemma {:induction false} RunKeepsPanelSound(p: Panel, events: seq<Event>)
    requires !p.isLoading && ExchangesComplete(p)
    ensures !Run(p, events).isLoading && ExchangesComplete(Run(p, events))
  {
    if |events| > 0 {
      var q := Run(p, events[..|events| - 1]);
      RunKeepsPanelSound(p, events[..|events| - 1]);
      assert Run(p, events) == Step(q, events[|events| - 1]);
      match events[|events| - 1]
      case Type(_) =>
      case Ask(question, o) => AskKeepsExchangesComplete(q, question, o);
      case Retry(o) => AskKeepsExchangesComplete(q, RetryQuestion(q), o);
      case Clear =>
    }
  }

  /** The panel component's state, updated in place by its handlers. */
  class InsightsPanel {
    var history: seq<Interaction>
    var input: string
    var isLoading: bool
    var error: Option<string>

    function State(): Panel
      reads this
    {
      Panel(history, input, isLoading, error)
    }

    constructor()
      ensures State() == InitialPanel
    {
      history := [];
      input := "";
      isLoading := false;
      error := None;
    }

    /** Typing into the question box. */
    method SetInput(text: string)
      modifies this
      ensures State() == Typed(old(State()), text)
    {
      input := text;
    }

    /** The start of `handleAsk`: reports whether the ask goes ahead. */
    method Start(question: string) returns (started: bool)
      modifies this
      ensures started == Accepts(old(State()), question)
      ensures State() == Begun(old(State()), question)
    {
      if Trim(question) == "" || isLoading {
        return false;
      }
      isLoading := true;
      error := None;
      input := "";
      started := true;
    }

    /** The rest of `handleAsk`, once the request has produced `o`. */
    method Finish(question: string, o: Outcome)
      modifies this
      ensures State() == Settled(old(State()), question, o)
    {
      var result := Resolve(o);
      match result {
        case Ok(answer) =>
          history := history + [Interaction(question, answer)];
        case Err(message) =>
          error := Some(message);
      }
      isLoading := false;
    }

    /** `handleAsk(question)` run to completion. */
    method HandleAsk(question: string, o: Outcome)
      modifies this
      ensures State() == Asked(old(State()), question, o)
    {
      var started := Start(question);
      if started {
        Finish(question, o);
      }
    }

    /** The clear button. */
    method ClearSession()
      modifies this
      ensures State() == Cleared(old(State()))
    {
      history := [];
      error := None;
    }

    /** The retry button. */
    method RetryLast(o: Outcome)
      modifies this
      ensures State() == Asked(old(State()), RetryQuestion(old(State())), o)
    {
      var question := RetryQuestion(State());
      HandleAsk(question, o);
    }
  }
}
