/** The default agent's loop: ask the model, run the tools it calls for, ask again. */
module Agents {
  import opened Options

  datatype Role = System | User | Assistant | Tool

  datatype ToolCall = ToolCall(id: string, name: string, arguments: string)

  datatype Message = Message(role: Role, content: string, toolCalls: Option<seq<ToolCall>>) {
    function Calls(): seq<ToolCall> { toolCalls.GetOr([]) }
  }

  /** What the model, the tools and other threads do, round by round; nothing is assumed about them. */
  datatype World = World(
    respond: nat -> Result<Message, string>,
    parse: string -> Result<string, string>,
    execute: (nat, string, string) -> Result<string, string>,
    cancelled: nat -> bool)

  datatype Status = Idle | Running | Completed | Failed

  /** How a run ends. At the iteration limit the loop locks its state twice and never gets any further. */
  datatype Outcome = Cancelled | LlmFailed(error: string) | Answered(content: string) | Stuck

  /** A call whose arguments do not parse is answered too. */
  function ToolAnswer(world: World, round: nat, call: ToolCall): string {
    match world.parse(call.arguments)
    case Err(e) => "Failed to parse arguments: " + e
    case Ok(args) =>
      match world.execute(round, call.name, args)
      case Ok(value) => value
      case Err(e) => "Tool execution error: " + e
  }

  function ToolMessage(content: string): Message { Message(Tool, content, None) }

  function ToolAnswers(world: World, round: nat, calls: seq<ToolCall>): seq<Message> {
    seq(|calls|, i requires 0 <= i < |calls| => ToolMessage(ToolAnswer(world, round, calls[i])))
  }

  /** The model answered this round with tool calls, and nobody had cancelled the run before it. */
  predicate GoesOn(world: World, round: nat) {
    !world.cancelled(round) && world.respond(round).Ok? && world.respond(round).value.Calls() != []
  }

  predicate GoesOnFor(world: World, rounds: nat) {
    rounds == 0 || (GoesOnFor(world, rounds - 1) && GoesOn(world, rounds - 1))
  }

  /** What a round adds: the model's message, and one answer per call, in call order. */
  function RoundOf(world: World, round: nat): seq<Message> {
    match world.respond(round)
    case Ok(reply) => [reply] + ToolAnswers(world, round, reply.Calls())
    case Err(_) => []
  }

  /** The conversation after some rounds. */
  function Transcript(world: World, system: string, input: string, rounds: nat): seq<Message> {
    if rounds == 0 then [Message(System, system, None), Message(User, input, None)]
    else Transcript(world, system, input, rounds - 1) + RoundOf(world, rounds - 1)
  }

  /** The requests sent to the model in the first rounds: each the whole conversation so far. */
  function Requests(world: World, system: string, input: string, rounds: nat): seq<seq<Message>> {
    seq(rounds, round requires 0 <= round < rounds => Transcript(world, system, input, round))
  }

  /** How a run ends whose first rounds all went on, and how often it has asked the model. */
  predicate Ends(world: World, maxIterations: nat, rounds: nat, outcome: Outcome, invocations: nat) {
    match outcome
    case Cancelled => world.cancelled(rounds) && invocations == rounds <= maxIterations
    case Stuck => !world.cancelled(rounds) && invocations == rounds == maxIterations
    case LlmFailed(e) => !world.cancelled(rounds) && world.respond(rounds) == Err(e)
        && invocations == rounds + 1 <= maxIterations
    case Answered(content) =>
      var reply := world.respond(rounds);
      !world.cancelled(rounds) && reply.Ok? && reply.value.Calls() == [] && content == reply.value.content
      && invocations == rounds + 1 <= maxIterations
  }

  /** A run that never returns stays running. */
  function StatusAfter(outcome: Outcome): Status {
    match outcome
    case Cancelled => Completed
    case LlmFailed(_) => Failed
    case Answered(_) => Completed
    case Stuck => Running
  }

  lemma {:induction false} GoesOnInBetween(world: World, rounds: nat, i: nat)
    requires GoesOnFor(world, rounds) && i < rounds
    ensures GoesOn(world, i)
  {
    if i < rounds - 1 {
      GoesOnInBetween(world, rounds - 1, i);
    }
  }

  /** A run gets stuck exactly when every allowed round goes on and nobody cancels it at the limit. */
  lemma StuckExactlyWhen(world: World, maxIterations: nat, rounds: nat, outcome: Outcome, invocations: nat)
    requires GoesOnFor(world, rounds) && Ends(world, maxIterations, rounds, outcome, invocations)
    ensures outcome == Stuck <==> GoesOnFor(world, maxIterations) && !world.cancelled(maxIterations)
  {
    if GoesOnFor(world, maxIterations) && rounds < maxIterations {
      GoesOnInBetween(world, maxIterations, rounds);
    }
  }

  /** What one turn of the loop does to the conversation and the requests, and how it may end the run. */
  ghost predicate Turns(
    world: World, maxIterations: nat, n: nat, before: seq<Message>, after: seq<Message>,
    requests: seq<seq<Message>>, asked: seq<seq<Message>>, ended: Option<Outcome>)
  {
    if world.cancelled(n) || n >= maxIterations
    then
      && ended == Some(if world.cancelled(n) then Cancelled else Stuck)
      && asked == requests && after == before
    else
      && asked == requests + [before]
      && match world.respond(n)
         case Err(e) => ended == Some(LlmFailed(e)) && after == before
         case Ok(reply) =>
           && after == before + RoundOf(world, n)
           && ended == if reply.Calls() == [] then Some(Answered(reply.content)) else None
  }

  /** Conversation and requests after some rounds that all went on. */
  ghost predicate Followed(
    world: World, system: string, input: string, rounds: nat, messages: seq<Message>, requests: seq<seq<Message>>)
  {
    && GoesOnFor(world, rounds) && |requests| == rounds
    && requests == Requests(world, system, input, rounds)
    && messages == Transcript(world, system, input, rounds)
  }

  /** How a run ends, what it has asked, and what the conversation is then. */
  ghost predicate Finished(
    world: World, maxIterations: nat, system: string, input: string, rounds: nat, messages: seq<Message>,
    requests: seq<seq<Message>>, outcome: Outcome)
  {
    && GoesOnFor(world, rounds) && Ends(world, maxIterations, rounds, outcome, |requests|)
    && requests == Requests(world, system, input, |requests|)
    && messages == Transcript(world, system, input, if outcome.Answered? then rounds + 1 else rounds)
  }

  lemma TurnFollows(
    world: World, maxIterations: nat, system: string, input: string, n: nat, before: seq<Message>, after: seq<Message>,
    requests: seq<seq<Message>>, asked: seq<seq<Message>>)
    requires Followed(world, system, input, n, before, requests)
    requires Turns(world, maxIterations, n, before, after, requests, asked, None)
    ensures n < maxIterations && Followed(world, system, input, n + 1, after, asked)
  {
    OneMoreRequest(world, system, input, n);
  }

  lemma OneMoreRequest(world: World, system: string, input: string, rounds: nat)
    ensures Requests(world, system, input, rounds + 1)
      == Requests(world, system, input, rounds) + [Transcript(world, system, input, rounds)]
  {}

  lemma TurnEnds(
    world: World, maxIterations: nat, system: string, input: string, n: nat, before: seq<Message>, after: seq<Message>,
    requests: seq<seq<Message>>, asked: seq<seq<Message>>, outcome: Outcome)
    requires Followed(world, system, input, n, before, requests) && n <= maxIterations
    requires Turns(world, maxIterations, n, before, after, requests, asked, Some(outcome))
    ensures Finished(world, maxIterations, system, input, n, after, asked, outcome)
  {
    OneMoreRequest(world, system, input, n);
  }

  class DefaultAgent {
    const maxIterations: nat
    const systemPrompt: string
    var status: Status
    var messages: seq<Message>
    var currentIteration: nat

    constructor (maxIterations: nat, systemPrompt: string)
      ensures status == Idle && messages == [] && currentIteration == 0
      ensures this.maxIterations == maxIterations && this.systemPrompt == systemPrompt
    {
      this.maxIterations := maxIterations;
      this.systemPrompt := systemPrompt;
      status := Idle;
      messages := [];
      currentIteration := 0;
    }

    /** The model is asked once per iteration and never more often than allowed; the conversation is that of the
        rounds that went on, and of the final answer if there is one. The run gets stuck exactly when every allowed
        round goes on and nobody cancels it at the limit. */
    method Run(world: World, input: string) returns (outcome: Outcome, requests: seq<seq<Message>>, rounds: nat)
      modifies this
      ensures |requests| == currentIteration <= maxIterations
      ensures GoesOnFor(world, rounds) && Ends(world, maxIterations, rounds, outcome, |requests|)
      ensures requests == Requests(world, systemPrompt, input, |requests|)
      ensures messages == Transcript(world, systemPrompt, input, if outcome.Answered? then rounds + 1 else rounds)
      ensures outcome == Stuck <==> GoesOnFor(world, maxIterations) && !world.cancelled(maxIterations)
      ensures status == StatusAfter(outcome)
    {
      status := Running;
      currentIteration := 0;
      messages := [Message(System, systemPrompt, None), Message(User, input, None)];
      outcome, requests, rounds := ReActLoop(world, input);
      StuckExactlyWhen(world, maxIterations, rounds, outcome, |requests|);
    }

    method ReActLoop(world: World, input: string) returns (outcome: Outcome, requests: seq<seq<Message>>, rounds: nat)
      requires currentIteration == 0 && messages == Transcript(world, systemPrompt, input, 0) && status == Running
      modifies this
      ensures |requests| == currentIteration <= maxIterations
      ensures Finished(world, maxIterations, systemPrompt, input, rounds, messages, requests, outcome)
      ensures status == StatusAfter(outcome)
    {
      requests := [];
      rounds := 0;
      while true
        invariant currentIteration == rounds <= maxIterations && status == Running
        invariant Followed(world, systemPrompt, input, rounds, messages, requests)
        decreases maxIterations - rounds
      {
        ghost var before := messages;
        var ended, asked := Iterate(world, requests);
        if ended.Some? {
          TurnEnds(world, maxIterations, systemPrompt, input, rounds, before, messages, requests, asked, ended.value);
          return ended.value, asked, rounds;
        }
        TurnFollows(world, maxIterations, systemPrompt, input, rounds, before, messages, requests, asked);
        requests := asked;
        rounds := rounds + 1;
      }
    }

    /** One turn of the loop: it looks for a cancellation, then for the limit, and then asks the model. */
    method Iterate(world: World, requests: seq<seq<Message>>) returns (ended: Option<Outcome>, asked: seq<seq<Message>>)
      requires status == Running
      modifies this
      ensures Turns(world, maxIterations, old(currentIteration), old(messages), messages, requests, asked, ended)
      ensures currentIteration == old(currentIteration) + |asked| - |requests|
      ensures status == if ended.Some? then StatusAfter(ended.value) else Running
    {
      var round := currentIteration;
      asked := requests;
      if world.cancelled(currentIteration) {
        status := Completed;
        return Some(Cancelled), asked;
      }
      if currentIteration >= maxIterations {
        return Some(Stuck), asked;
      }
      currentIteration := currentIteration + 1;
      asked := asked + [messages];
      ended := Ask(world, round);
    }

    /** One invocation of the model, and the tools it calls for. Ends the run unless there are tool calls. */
    method Ask(world: World, round: nat) returns (ended: Option<Outcome>)
      requires status == Running
      modifies this`messages, this`status
      ensures status == if ended.Some? then StatusAfter(ended.value) else Running
      ensures match world.respond(round)
        case Err(e) => ended == Some(LlmFailed(e)) && messages == old(messages)
        case Ok(reply) =>
          && messages == old(messages) + RoundOf(world, round)
          && ended == if reply.Calls() == [] then Some(Answered(reply.content)) else None
    {
      match world.respond(round) {
        case Err(e) =>
          status := Failed;
          ended := Some(LlmFailed(e));
        case Ok(reply) =>
          messages := messages + [reply];
          if reply.Calls() == [] {
            status := Completed;
            return Some(Answered(reply.content));
          }
          RunTools(world, round, reply.Calls());
          ended := None;
      }
    }

    method RunTools(world: World, round: nat, calls: seq<ToolCall>)
      modifies this`messages
      ensures messages == old(messages) + ToolAnswers(world, round, calls)
    {
      for i := 0 to |calls|
        invariant messages == old(messages) + ToolAnswers(world, round, calls)[..i]
      {
        var call := calls[i];
        var content;
        match world.parse(call.arguments) {
          case Err(e) =>
            content := "Failed to parse arguments: " + e;
          case Ok(args) =>
            match world.execute(round, call.name, args) {
              case Ok(value) => content := value;
              case Err(e) => content := "Tool execution error: " + e;
            }
        }
        ghost var answers := ToolAnswers(world, round, calls);
        assert answers[i] == ToolMessage(content) && answers[..i + 1] == answers[..i] + [answers[i]];
        messages := messages + [ToolMessage(content)];
      }
    }
  }

  // ----- the shape of a conversation -----

  /** A message with n tool calls, followed by n tool messages. */
  ghost predicate StartsWithRound(messages: seq<Message>) {
    messages != [] &&
    var n := |messages[0].Calls()|;
    n < |messages| && forall i :: 1 <= i <= n ==> messages[i].role == Tool && messages[i].toolCalls == None
  }

  /** One complete round after the other. */
  ghost predicate InRounds(messages: seq<Message>)
    decreases |messages|
  {
    messages == [] || (StartsWithRound(messages) && InRounds(messages[|messages[0].Calls()| + 1..]))
  }

  lemma FirstRoundStays(a: seq<Message>, b: seq<Message>)
    requires StartsWithRound(a)
    ensures var n := |a[0].Calls()|;
      StartsWithRound(a + b) && (a + b)[0] == a[0] && (a + b)[n + 1..] == a[n + 1..] + b
  {
    assert forall i :: 0 <= i < |a| ==> (a + b)[i] == a[i];
  }

  lemma {:induction false} RoundsAppend(a: seq<Message>, b: seq<Message>)
    requires InRounds(a) && InRounds(b)
    ensures InRounds(a + b)
    decreases |a|
  {
    if a == [] {
      assert a + b == b;
    } else {
      RoundsAppend(a[|a[0].Calls()| + 1..], b);
      FirstRoundStays(a, b);
    }
  }

  /** A reply and the answers to its calls are one complete round. */
  lemma RoundIsComplete(world: World, round: nat)
    ensures InRounds(RoundOf(world, round))
  {
    if world.respond(round).Ok? {
      var calls := world.respond(round).value.Calls();
      assert RoundOf(world, round)[|calls| + 1..] == [];
    }
  }

  lemma AppendRound(before: seq<Message>, added: seq<Message>)
    requires |before| >= 2 && InRounds(before[2..]) && InRounds(added)
    ensures var t := before + added; t[0] == before[0] && t[1] == before[1] && InRounds(t[2..])
  {
    RoundsAppend(before[2..], added);
    assert (before + added)[2..] == before[2..] + added;
  }

  /** In every run the conversation is the system prompt, the input, and complete rounds. */
  lemma {:induction false} TranscriptInRounds(world: World, system: string, input: string, rounds: nat)
    ensures var t := Transcript(world, system, input, rounds);
      && |t| >= 2 && t[0] == Message(System, system, None) && t[1] == Message(User, input, None)
      && InRounds(t[2..])
  {
    if rounds == 0 {
      assert Transcript(world, system, input, 0)[2..] == [];
    } else {
      TranscriptInRounds(world, system, input, rounds - 1);
      RoundIsComplete(world, rounds - 1);
      AppendRound(Transcript(world, system, input, rounds - 1), RoundOf(world, rounds - 1));
    }
  }

  // ----- what stands where -----

  /** Where a round starts: behind the prompt, the input and, for every round before, a message and its answers. */
  function Position(world: World, round: nat): nat {
    if round == 0 then 2
    else
      Position(world, round - 1)
      + match world.respond(round - 1) case Ok(reply) => 1 + |reply.Calls()| case Err(_) => 0
  }

  lemma {:induction false} TranscriptSize(world: World, system: string, input: string, rounds: nat)
    ensures |Transcript(world, system, input, rounds)| == Position(world, rounds)
  {
    if rounds > 0 {
      TranscriptSize(world, system, input, rounds - 1);
    }
  }

  /** A conversation only grows: earlier ones are its fronts. */
  lemma {:induction false} TranscriptGrows(world: World, system: string, input: string, early: nat, late: nat)
    requires early <= late
    ensures Transcript(world, system, input, early) <= Transcript(world, system, input, late)
  {
    if early < late {
      TranscriptGrows(world, system, input, early, late - 1);
    }
  }

  /** A tool message that says what became of the call: the arguments did not parse, the tool failed, or its value. */
  predicate Tells(world: World, round: nat, call: ToolCall, m: Message) {
    m.role == Tool && m.toolCalls == None &&
    match world.parse(call.arguments)
    case Err(e) => m.content == "Failed to parse arguments: " + e
    case Ok(args) =>
      match world.execute(round, call.name, args)
      case Ok(value) => m.content == value
      case Err(e) => m.content == "Tool execution error: " + e
  }

  lemma RoundTells(world: World, round: nat, i: nat)
    requires world.respond(round).Ok? && i < |world.respond(round).value.Calls()|
    ensures var reply := world.respond(round).value;
      && 1 + i < |RoundOf(world, round)| && RoundOf(world, round)[0] == reply
      && Tells(world, round, reply.Calls()[i], RoundOf(world, round)[1 + i])
  {}

  lemma PartStandsAt(before: seq<Message>, part: seq<Message>, whole: seq<Message>, j: nat)
    requires before + part <= whole && j < |part|
    ensures |before| + j < |whole| && whole[|before| + j] == part[j]
  {
    assert whole[..|before + part|][|before| + j] == (before + part)[|before| + j];
  }

  lemma RoundsInside(world: World, system: string, input: string, rounds: nat, round: nat)
    requires round < rounds
    ensures |Transcript(world, system, input, round)| == Position(world, round)
    ensures Transcript(world, system, input, round) + RoundOf(world, round) <= Transcript(world, system, input, rounds)
  {
    TranscriptSize(world, system, input, round);
    TranscriptGrows(world, system, input, round + 1, rounds);
  }

  predicate StandsAt(messages: seq<Message>, at: nat, m: Message) { at < |messages| && messages[at] == m }

  /** At the start of a round stands the reply, and i places behind it what became of the reply's i-th call. */
  ghost predicate AnsweredAt(world: World, round: nat, messages: seq<Message>, at: nat, reply: Message, i: nat)
    requires i < |reply.Calls()|
  {
    && StandsAt(messages, at, reply)
    && at + 1 + i < |messages| && Tells(world, round, reply.Calls()[i], messages[at + 1 + i])
  }

  lemma RoundAnswers(world: World, round: nat, before: seq<Message>, messages: seq<Message>, i: nat)
    requires before + RoundOf(world, round) <= messages
    requires world.respond(round).Ok? && i < |world.respond(round).value.Calls()|
    ensures AnsweredAt(world, round, messages, |before|, world.respond(round).value, i)
  {
    RoundTells(world, round, i);
    PartStandsAt(before, RoundOf(world, round), messages, 0);
    PartStandsAt(before, RoundOf(world, round), messages, 1 + i);
  }

  /** The i-th message behind a reply answers the reply's i-th call. */
  lemma AnswersInCallOrder(world: World, system: string, input: string, rounds: nat, round: nat, i: nat)
    requires round < rounds && world.respond(round).Ok? && i < |world.respond(round).value.Calls()|
    ensures AnsweredAt(world, round, Transcript(world, system, input, rounds), Position(world, round),
                       world.respond(round).value, i)
  {
    RoundsInside(world, system, input, rounds, round);
    RoundAnswers(world, round, Transcript(world, system, input, round), Transcript(world, system, input, rounds), i);
  }

  /** A final answer, which calls no tools, is the last message. */
  lemma AnswerIsLast(world: World, system: string, input: string, round: nat)
    requires world.respond(round).Ok? && world.respond(round).value.Calls() == []
    ensures var messages := Transcript(world, system, input, round + 1);
      messages != [] && messages[|messages| - 1] == world.respond(round).value
  {}

  /** The requests sent to the model are the fronts of the conversation at which the rounds started, in order. */
  lemma RequestsAreFronts(world: World, system: string, input: string, asked: nat, rounds: nat, k: nat)
    requires k < asked && k <= rounds
    ensures var requests := Requests(world, system, input, asked);
      |requests| == asked && |requests[k]| == Position(world, k)
      && requests[k] <= Transcript(world, system, input, rounds)
  {
    TranscriptSize(world, system, input, k);
    TranscriptGrows(world, system, input, k, rounds);
  }
}
