/** The tool-calling loop of ai_service.py: a language model is asked round after round, its tool calls
    are executed, refused or submitted for confirmation, and their results are fed back. */
module AgentLoop {
  import opened Options
  import opened Sequences

  datatype Level = Read | Remote | Change

  datatype Spec = Spec(level: Level, alwaysConfirm: bool)

  datatype Mode = LimitedAccess | ChangeAccess | FullAccess

  datatype Call = Call(id: string, name: string, args: string)

  datatype Content = Error(text: string) | PendingNote(action: string) | Result(text: string)

  /** What a tool handler answers: a refusal, a crash, a request to act, or a result. */
  datatype Answer = Refused(why: string) | Crashed(why: string) | Act(action: string) | Answered(text: string)

  datatype Reply = ClientError | Reply(text: string, calls: seq<Call>)

  datatype Message =
    | Plain(text: string)
    | CapNote
    | Assistant(text: string, ids: seq<string>)
    | Tool(id: string, content: Content)

  /** A row of role 'tool'. */
  datatype Row = Row(callId: string, tool: string, content: Content, pending: bool)

  /** What handling one call does besides its row: submit an action, run an action, or neither. */
  datatype Effect = Effect(row: Row, submitted: Option<string>, ran: Option<string>)

  /** Everything the loop does not control: the model, the tools, the executors, the clock and the
      user's cancellation.  Rounds and calls are numbered, so nothing is assumed to repeat. */
  datatype World = World(
    catalog: map<string, Spec>,
    mode: Mode,
    maxRounds: nat,
    model: nat -> Reply,
    late: nat -> bool,
    cancelled: nat -> bool,
    answer: (nat, nat, Call) -> Answer,
    executor: (nat, nat, string) -> Option<string>)

  datatype Ending = Done | CutOff | AwaitingConfirmation | Cancelled | Failed

  // ---------------- one tool call ----------------

  function Submission(call: Call, action: string): Effect {
    Effect(Row(call.id, action, PendingNote(action), true), Some(action), None)
  }

  function Plainly(call: Call, content: Content): Effect {
    Effect(Row(call.id, call.name, content, false), None, None)
  }

  /** _handle_tool_call: round k, call number i. */
  function Handled(w: World, k: nat, i: nat, call: Call): Effect {
    if w.mode == LimitedAccess && (call.name !in w.catalog || w.catalog[call.name].level != Change) then
      if call.name !in w.catalog then Plainly(call, Error("unknown tool"))
      else Submission(call, call.name)
    else if call.name !in w.catalog then Plainly(call, Error("unknown tool"))
    else
      match w.answer(k, i, call)
      case Refused(why) => Plainly(call, Error(why))
      case Crashed(why) => Plainly(call, Error(why))
      case Answered(text) => Plainly(call, Result(text))
      case Act(action) =>
        if w.mode != FullAccess || w.catalog[call.name].alwaysConfirm then Submission(call, action)
        else
          match w.executor(k, i, action)
          case None => Effect(Row(call.id, action, Error("no executor"), false), None, None)
          case Some(text) => Effect(Row(call.id, action, Result(text), false), None, Some(action))
  }

  /** A read or remote tool in limited mode: it waits for a human before it may look at anything. */
  predicate Held(w: World, call: Call) {
    w.mode == LimitedAccess && call.name in w.catalog && w.catalog[call.name].level != Change
  }

  /** The tool may act without a human. */
  predicate Entitled(w: World, call: Call) {
    w.mode == FullAccess && call.name in w.catalog && !w.catalog[call.name].alwaysConfirm
  }

  /** The action that the call's tool, if it is run, asks to perform. */
  function Asked(w: World, k: nat, i: nat, call: Call): Option<string> {
    if call.name !in w.catalog || Held(w, call) then None
    else match w.answer(k, i, call)
         case Act(action) => Some(action)
         case _ => None
  }

  /** What the call is submitted for, if it is: the tool itself, or the action that it asks for. */
  function Awaited(w: World, k: nat, i: nat, call: Call): Option<string> {
    if Held(w, call) then Some(call.name) else if Entitled(w, call) then None else Asked(w, k, i, call)
  }

  /** The action that the call runs, if it does. */
  function RunAtOnce(w: World, k: nat, i: nat, call: Call): Option<string> {
    var action := Asked(w, k, i, call);
    if action.Some? && Entitled(w, call) && w.executor(k, i, action.value).Some? then action else None
  }

  /** What a call's row and message say. */
  predicate Says(w: World, k: nat, i: nat, call: Call, content: Content) {
    if call.name !in w.catalog then content == Error("unknown tool")
    else if Held(w, call) then content == PendingNote(call.name)
    else
      match w.answer(k, i, call)
      case Refused(why) => content == Error(why)
      case Crashed(why) => content == Error(why)
      case Answered(text) => content == Result(text)
      case Act(action) =>
        if !Entitled(w, call) then content == PendingNote(action)
        else match w.executor(k, i, action)
             case None => content == Error("no executor")
             case Some(text) => content == Result(text)
  }

  /** The law for one call: what is submitted, what runs, what is kept and told. */
  predicate Lawful(w: World, k: nat, i: nat, call: Call, e: Effect) {
    && e.submitted == Awaited(w, k, i, call) && e.ran == RunAtOnce(w, k, i, call)
    && e.row.callId == call.id && e.row.tool == Awaited(w, k, i, call).GetOr(Asked(w, k, i, call).GetOr(call.name))
    && Says(w, k, i, call, e.row.content) && (e.row.pending <==> e.submitted.Some?)
  }

  lemma HandledLawfully(w: World, k: nat, i: nat, call: Call)
    ensures Lawful(w, k, i, call, Handled(w, k, i, call))
  {
  }

  function Effects(w: World, k: nat, calls: seq<Call>): (r: seq<Effect>)
    ensures |r| == |calls|
  {
    seq(|calls|, i requires 0 <= i < |calls| => Handled(w, k, i, calls[i]))
  }

  function Ids(calls: seq<Call>): (r: seq<string>)
    ensures |r| == |calls|
  {
    seq(|calls|, i requires 0 <= i < |calls| => calls[i].id)
  }

  function ToolMessages(effects: seq<Effect>): (r: seq<Message>)
    ensures |r| == |effects|
  {
    seq(|effects|, i requires 0 <= i < |effects| => Tool(effects[i].row.callId, effects[i].row.content))
  }

  function Rows(effects: seq<Effect>): (r: seq<Row>)
    ensures |r| == |effects|
  {
    seq(|effects|, i requires 0 <= i < |effects| => effects[i].row)
  }

  /** The actions submitted for confirmation, in call order. */
  function Submitted(effects: seq<Effect>): seq<string> {
    if effects == [] then []
    else
      var n := |effects| - 1;
      Submitted(effects[..n]) + (if effects[n].submitted.Some? then [effects[n].submitted.value] else [])
  }

  function Ran(effects: seq<Effect>): seq<string> {
    if effects == [] then []
    else
      var n := |effects| - 1;
      Ran(effects[..n]) + (if effects[n].ran.Some? then [effects[n].ran.value] else [])
  }

  // ---------------- a whole run ----------------

  /** One model round: whether tools were withdrawn before it, the reply, and the calls handled. */
  datatype Round = Round(capped: bool, reply: Reply, effects: seq<Effect>)

  function Written(r: Round): seq<Message> {
    (if r.capped then [CapNote] else [])
    + if r.effects == [] || r.reply.ClientError? then []
      else [Assistant(r.reply.text, Ids(r.reply.calls))] + ToolMessages(r.effects)
  }

  function Transcript(rounds: seq<Round>): seq<Message> {
    if rounds == [] then [] else Transcript(rounds[..|rounds| - 1]) + Written(rounds[|rounds| - 1])
  }

  function AllEffects(rounds: seq<Round>): seq<Effect> {
    if rounds == [] then [] else AllEffects(rounds[..|rounds| - 1]) + rounds[|rounds| - 1].effects
  }

  predicate Stops(effects: seq<Effect>) {
    exists i :: 0 <= i < |effects| && effects[i].submitted.Some?
  }

  predicate MustCap(w: World, k: nat) {
    k >= w.maxRounds || w.late(k)
  }

  /** Round k as the loop plays it. */
  predicate RoundOk(w: World, k: nat, r: Round) {
    && r.capped == MustCap(w, k)
    && r.reply == w.model(k)
    && r.effects == (if r.reply.Reply? && !r.capped then Effects(w, k, r.reply.calls) else [])
  }

  /** The loop goes on after round k only for tool calls none of which waits for confirmation. */
  predicate GoesOn(r: Round) {
    r.effects != [] && !Stops(r.effects)
  }

  /** The rounds a run of the loop consists of: each is played while the loop is still going on. */
  predicate Played(w: World, rounds: seq<Round>)
    decreases |rounds|, 0
  {
    rounds == []
    || (var k := |rounds| - 1;
        Running(w, rounds[..k]) && !w.cancelled(k) && RoundOk(w, k, rounds[k]))
  }

  /** After these rounds the loop starts another one. */
  predicate Running(w: World, rounds: seq<Round>)
    decreases |rounds|, 1
  {
    Played(w, rounds) && (rounds == [] || GoesOn(rounds[|rounds| - 1]))
  }

  /** How a round ends the run. */
  predicate RoundEndsAs(r: Round, ending: Ending) {
    match ending
    case Cancelled => false
    case Failed => r.reply.ClientError?
    case Done => r.reply.Reply? && r.reply.calls == []
    case CutOff => r.capped && r.reply.Reply? && r.reply.calls != []
    case AwaitingConfirmation => Stops(r.effects)
  }

  /** How the run ends after these rounds. */
  predicate EndsAs(w: World, rounds: seq<Round>, ending: Ending) {
    if ending == Cancelled then w.cancelled(|rounds|) && Running(w, rounds)
    else rounds != [] && RoundEndsAs(rounds[|rounds| - 1], ending)
  }

  /** The stream and the conversation tables that the loop writes. */
  class AgentRun {
    const world: World
    var rounds: nat
    var messages: seq<Message>
    var rows: seq<Row>
    var pending: seq<string>
    var executed: seq<string>

    constructor (world: World, history: seq<Message>)
      ensures this.world == world && rounds == 0 && messages == history
      ensures rows == [] && pending == [] && executed == []
    {
      this.world := world;
      rounds, messages, rows, pending, executed := 0, history, [], [], [];
    }

    method AddToolRow(callId: string, tool: string, content: Content, waits: bool)
      modifies this`rows
      ensures rows == old(rows) + [Row(callId, tool, content, waits)]
    {
      rows := rows + [Row(callId, tool, content, waits)];
    }

    method SubmitConfirmation(call: Call, action: string) returns (content: Content, stop: bool)
      modifies this`rows, this`pending
      ensures content == PendingNote(action) && stop
      ensures rows == old(rows) + [Row(call.id, action, content, true)] && pending == old(pending) + [action]
    {
      content, stop := PendingNote(action), true;
      AddToolRow(call.id, action, content, true);
      pending := pending + [action];
    }

    method ExecuteActionNow(k: nat, i: nat, call: Call, action: string) returns (content: Content)
      modifies this`rows, this`executed
      ensures var outcome := world.executor(k, i, action);
              && content == (if outcome.None? then Error("no executor") else Result(outcome.value))
              && executed == old(executed) + (if outcome.None? then [] else [action])
              && rows == old(rows) + [Row(call.id, action, content, false)]
    {
      match world.executor(k, i, action) {
        case None => content := Error("no executor");
        case Some(text) =>
          executed := executed + [action];
          content := Result(text);
      }
      AddToolRow(call.id, action, content, false);
    }

    method HandleToolCall(k: nat, i: nat, call: Call) returns (content: Content, stop: bool)
      modifies this`rows, this`pending, this`executed
      ensures var effect := Handled(world, k, i, call);
              && rows == old(rows) + [effect.row]
              && pending == old(pending) + (if effect.submitted.Some? then [effect.submitted.value] else [])
              && executed == old(executed) + (if effect.ran.Some? then [effect.ran.value] else [])
              && content == effect.row.content && stop == effect.submitted.Some?
              && Lawful(world, k, i, call, effect)
    {
      HandledLawfully(world, k, i, call);
      content, stop := Error("unknown tool"), false;
      if world.mode == LimitedAccess && (call.name !in world.catalog || world.catalog[call.name].level != Change) {
        if call.name !in world.catalog {
          AddToolRow(call.id, call.name, content, false);
          return;
        }
        content, stop := SubmitConfirmation(call, call.name);
        return;
      }
      if call.name !in world.catalog {
        AddToolRow(call.id, call.name, content, false);
        return;
      }
      match world.answer(k, i, call) {
        case Refused(why) => content := Error(why);
        case Crashed(why) => content := Error(why);
        case Answered(text) => content := Result(text);
        case Act(action) =>
          if world.mode != FullAccess || world.catalog[call.name].alwaysConfirm {
            content, stop := SubmitConfirmation(call, action);
            return;
          }
          content := ExecuteActionNow(k, i, call, action);
          return;
      }
      AddToolRow(call.id, call.name, content, false);
    }

    method HandleCalls(k: nat, calls: seq<Call>) returns (stopAfter: bool)
      modifies this`rows, this`pending, this`executed, this`messages
      ensures var effects := Effects(world, k, calls);
              && messages == old(messages) + ToolMessages(effects)
              && rows == old(rows) + Rows(effects)
              && pending == old(pending) + Submitted(effects)
              && executed == old(executed) + Ran(effects)
              && stopAfter == Stops(effects)
    {
      stopAfter := false;
      ghost var effects := Effects(world, k, calls);
      EffectsOfNothing(Logged());
      for i := 0 to |calls|
        invariant Logged() == Joined(old(Logged()), EffectsLog(effects[..i]))
        invariant stopAfter == Stops(effects[..i])
      {
        var content, stop := HandleToolCall(k, i, calls[i]);
        messages := messages + [Tool(calls[i].id, content)];
        HandledKeepsId(world, k, i, calls[i]);
        EffectsMore(old(Logged()), effects, i);
        if stop { stopAfter := true; }
      }
      assert effects[..|calls|] == effects;
    }

    ghost function Logged(): Log
      reads this
    {
      Log(messages, rows, pending, executed)
    }

    /** The part of a round after the model's answer with calls that may be executed. */
    method PlayCalls(k: nat, reply: Reply) returns (stopAfter: bool)
      requires reply == world.model(k) && reply.Reply? && reply.calls != [] && !MustCap(world, k)
      modifies this`rows, this`pending, this`executed, this`messages
      ensures var round := Round(false, reply, Effects(world, k, reply.calls));
              && RoundOk(world, k, round) && Logged() == Joined(old(Logged()), RoundLog(round))
              && stopAfter == Stops(round.effects) && stopAfter == !GoesOn(round)
    {
      messages := messages + [Assistant(reply.text, Ids(reply.calls))];
      stopAfter := HandleCalls(k, reply.calls);
    }

    /** The body of the loop in _run_chat, from the check of the limits on. */
    method PlayRound() returns (ended: Option<Ending>, ghost round: Round)
      modifies this
      ensures rounds == old(rounds) + 1 && RoundOk(world, old(rounds), round)
      ensures Logged() == Joined(old(Logged()), RoundLog(round))
      ensures ended.None? <==> GoesOn(round)
      ensures ended.Some? ==> RoundEndsAs(round, ended.value)
    {
      var k := rounds;
      var capped := false;
      if rounds >= world.maxRounds || world.late(rounds) {
        capped := true;
        messages := messages + [CapNote];
      }
      rounds := rounds + 1;
      var reply := world.model(k);
      if reply.ClientError? || reply.calls == [] || capped {
        round := Round(capped, reply, []);
        ended := Some(if reply.ClientError? then Failed else if reply.calls == [] then Done else CutOff);
        return;
      }
      var stopAfter := PlayCalls(k, reply);
      round := Round(false, reply, Effects(world, k, reply.calls));
      ended := if stopAfter then Some(AwaitingConfirmation) else None;
    }

    /** So many rounds have been played, and what they write has been written after `before`. */
    ghost predicate Follows(before: Log, played: seq<Round>)
      reads this
    {
      rounds == |played| && Logged() == Joined(before, LogOf(played))
    }

    /** One more round, added to those played. */
    method PlayOn(ghost before: Log, ghost played: seq<Round>) returns (ended: Option<Ending>, ghost more: seq<Round>)
      requires Follows(before, played) && Running(world, played) && !world.cancelled(rounds)
      modifies this
      ensures Follows(before, more) && rounds == old(rounds) + 1 && Played(world, more)
      ensures ended.None? ==> Running(world, more)
      ensures ended.Some? ==> EndsAs(world, more, ended.value)
    {
      ghost var round;
      ended, round := PlayRound();
      Step(world, before, played, round);
      more := played + [round];
      if ended.None? {
        StillRunning(world, played, round);
      } else {
        EndsWith(world, played, round, ended.value);
      }
    }

    /** _run_chat.  The rounds played are returned for specification only. */
    method RunChat() returns (ending: Ending, ghost played: seq<Round>)
      requires rounds == 0
      modifies this
      ensures Played(world, played) && EndsAs(world, played, ending)
      ensures rounds == |played| <= world.maxRounds + 1
      ensures Logged() == Joined(old(Logged()), LogOf(played))
      ensures pending == old(pending) + AwaitedIn(world, rounds)
      ensures executed == old(executed) + RunIn(world, rounds)
    {
      played := [];
      LogOfNothing(Logged());
      while true
        invariant Follows(old(Logged()), played) && Running(world, played)
        decreases world.maxRounds + 1 - rounds
      {
        RunningIsShort(world, played);
        if world.cancelled(rounds) {
          ActionsOfARun(world, played);
          return Cancelled, played;
        }
        var ended;
        ended, played := PlayOn(old(Logged()), played);
        ActionsOfARun(world, played);
        if ended.Some? {
          RunsAreShort(world, played);
          return ended.value, played;
        }
      }
    }
  }

  lemma LogOfNothing(before: Log)
    ensures Joined(before, LogOf([])) == before
  {
  }

  lemma StillRunning(w: World, rounds: seq<Round>, round: Round)
    requires Played(w, rounds + [round]) && GoesOn(round)
    ensures Running(w, rounds + [round])
  {
    assert (rounds + [round])[|rounds|] == round;
  }

  lemma EndsWith(w: World, rounds: seq<Round>, round: Round, ending: Ending)
    requires RoundEndsAs(round, ending)
    ensures EndsAs(w, rounds + [round], ending)
  {
    assert (rounds + [round])[|rounds|] == round;
  }

  /** The loop goes on only after a round before the limit. */
  lemma RunningIsShort(w: World, rounds: seq<Round>)
    requires Running(w, rounds)
    ensures |rounds| <= w.maxRounds
  {
  }

  lemma Step(w: World, before: Log, rounds: seq<Round>, r: Round)
    requires Running(w, rounds) && RoundOk(w, |rounds|, r) && !w.cancelled(|rounds|)
    ensures Played(w, rounds + [r])
    ensures Joined(before, LogOf(rounds + [r])) == Joined(Joined(before, LogOf(rounds)), RoundLog(r))
  {
    PlayedMore(w, rounds, r);
    LogMore(rounds, r);
    JoinedAssociates(before, LogOf(rounds), RoundLog(r));
  }

  lemma HandledKeepsId(w: World, k: nat, i: nat, call: Call)
    ensures Handled(w, k, i, call).row.callId == call.id
  {
  }

  lemma {:induction false} SubmittedAppend(a: seq<Effect>, b: seq<Effect>)
    ensures Submitted(a + b) == Submitted(a) + Submitted(b)
  {
    if b == [] {
      assert a + b == a;
    } else {
      var n := |b| - 1;
      SubmittedAppend(a, b[..n]);
      assert (a + b)[..|a + b| - 1] == a + b[..n] && (a + b)[|a + b| - 1] == b[n];
      JoinAssociates(Submitted(a), Submitted(b[..n]), if b[n].submitted.Some? then [b[n].submitted.value] else []);
    }
  }

  lemma {:induction false} RanAppend(a: seq<Effect>, b: seq<Effect>)
    ensures Ran(a + b) == Ran(a) + Ran(b)
  {
    if b == [] {
      assert a + b == a;
    } else {
      var n := |b| - 1;
      RanAppend(a, b[..n]);
      assert (a + b)[..|a + b| - 1] == a + b[..n] && (a + b)[|a + b| - 1] == b[n];
      JoinAssociates(Ran(a), Ran(b[..n]), if b[n].ran.Some? then [b[n].ran.value] else []);
    }
  }

  lemma RowsAppend(a: seq<Effect>, b: seq<Effect>)
    ensures Rows(a + b) == Rows(a) + Rows(b)
  {
  }

  lemma PlayedMore(w: World, rounds: seq<Round>, r: Round)
    requires Running(w, rounds) && RoundOk(w, |rounds|, r) && !w.cancelled(|rounds|)
    ensures Played(w, rounds + [r])
  {
    assert (rounds + [r])[..|rounds|] == rounds;
  }

  /** What handling these calls writes. */
  function EffectsLog(effects: seq<Effect>): Log {
    Log(ToolMessages(effects), Rows(effects), Submitted(effects), Ran(effects))
  }

  function EffectLog(e: Effect): Log {
    Log([Tool(e.row.callId, e.row.content)], [e.row],
        if e.submitted.Some? then [e.submitted.value] else [], if e.ran.Some? then [e.ran.value] else [])
  }

  lemma EffectsOfNothing(before: Log)
    ensures Joined(before, EffectsLog([])) == before
  {
  }

  lemma EffectsMore(before: Log, effects: seq<Effect>, i: nat)
    requires i < |effects|
    ensures Joined(Joined(before, EffectsLog(effects[..i])), EffectLog(effects[i]))
            == Joined(before, EffectsLog(effects[..i + 1]))
    ensures Stops(effects[..i + 1]) <==> Stops(effects[..i]) || effects[i].submitted.Some?
  {
    OneMoreEffect(effects, i);
    JoinedAssociates(before, EffectsLog(effects[..i]), EffectLog(effects[i]));
    assert effects[..i + 1][i] == effects[i];
    assert forall j :: 0 <= j < i ==> effects[..i + 1][j] == effects[..i][j];
    if Stops(effects[..i + 1]) && effects[i].submitted.None? {
      var j :| 0 <= j < i + 1 && effects[..i + 1][j].submitted.Some?;
      assert effects[..i][j].submitted.Some?;
    }
  }

  lemma OneMoreEffect(effects: seq<Effect>, i: nat)
    requires i < |effects|
    ensures EffectsLog(effects[..i + 1]) == Joined(EffectsLog(effects[..i]), EffectLog(effects[i]))
  {
    assert effects[..i + 1][..i] == effects[..i] && effects[..i + 1][i] == effects[i];
    assert ToolMessages(effects[..i + 1])
        == ToolMessages(effects[..i]) + [Tool(effects[i].row.callId, effects[i].row.content)];
    assert Rows(effects[..i + 1]) == Rows(effects[..i]) + [effects[i].row];
  }

  /** What a run has written to the conversation and to the tables. */
  datatype Log = Log(messages: seq<Message>, rows: seq<Row>, pending: seq<string>, executed: seq<string>)

  function Joined(a: Log, b: Log): Log {
    Log(a.messages + b.messages, a.rows + b.rows, a.pending + b.pending, a.executed + b.executed)
  }

  function LogOf(rounds: seq<Round>): Log {
    var effects := AllEffects(rounds);
    Log(Transcript(rounds), Rows(effects), Submitted(effects), Ran(effects))
  }

  function RoundLog(r: Round): Log {
    Log(Written(r), Rows(r.effects), Submitted(r.effects), Ran(r.effects))
  }

  lemma LogMore(rounds: seq<Round>, r: Round)
    ensures LogOf(rounds + [r]) == Joined(LogOf(rounds), RoundLog(r))
  {
    assert (rounds + [r])[..|rounds|] == rounds;
    SubmittedAppend(AllEffects(rounds), r.effects);
    RanAppend(AllEffects(rounds), r.effects);
    RowsAppend(AllEffects(rounds), r.effects);
  }

  lemma JoinedAssociates(a: Log, b: Log, c: Log)
    ensures Joined(Joined(a, b), c) == Joined(a, Joined(b, c))
  {
  }

  // ---------------- what every run keeps ----------------

  /** Round k of a run is a legal round, and the loop went on after every round but the last. */
  lemma {:induction false} PlayedAt(w: World, rounds: seq<Round>, k: nat)
    requires Played(w, rounds) && k < |rounds|
    ensures Running(w, rounds[..k]) && !w.cancelled(k) && RoundOk(w, k, rounds[k])
    ensures k < |rounds| - 1 ==> GoesOn(rounds[k])
  {
    var last := |rounds| - 1;
    if k < last {
      PlayedAt(w, rounds[..last], k);
      assert rounds[..last][..k] == rounds[..k];
    }
  }

  /** However the model behaves, it is asked at most AI_MAX_TOOL_ROUNDS + 1 times. */
  lemma {:induction false} RunsAreShort(w: World, rounds: seq<Round>)
    requires Played(w, rounds)
    ensures |rounds| <= w.maxRounds + 1
  {
    if |rounds| >= 2 {
      PlayedAt(w, rounds, |rounds| - 2);
    }
  }

  /** A model that calls an unknown tool in every round. */
  function Stubborn(maxRounds: nat): World {
    World(map[], FullAccess, maxRounds, (k: nat) => Reply("", [Call("c", "t", "")]), (k: nat) => false,
          (k: nat) => false, (k: nat, i: nat, c: Call) => Refused(""), (k: nat, i: nat, a: string) => None)
  }

  function StubbornRound(): Round {
    Round(false, Reply("", [Call("c", "t", "")]),
          [Effect(Row("c", "t", Error("unknown tool"), false), None, None)])
  }

  lemma {:induction false} StubbornPlays(maxRounds: nat, n: nat) returns (rounds: seq<Round>)
    requires n <= maxRounds
    ensures |rounds| == n && Running(Stubborn(maxRounds), rounds)
  {
    if n == 0 { return []; }
    rounds := StubbornPlays(maxRounds, n - 1);
    var w := Stubborn(maxRounds);
    assert Effects(w, n - 1, [Call("c", "t", "")]) == StubbornRound().effects;
    PlayedMore(w, rounds, StubbornRound());
    rounds := rounds + [StubbornRound()];
  }

  /** The bound is reached: a model that never stops calling tools is asked exactly that often, and its
      last calls are dropped. */
  lemma BoundIsReached(maxRounds: nat)
    ensures exists rounds :: Played(Stubborn(maxRounds), rounds) && EndsAs(Stubborn(maxRounds), rounds, CutOff)
                             && |rounds| == maxRounds + 1
  {
    var rounds := StubbornPlays(maxRounds, maxRounds);
    var last := Round(true, Reply("", [Call("c", "t", "")]), []);
    PlayedMore(Stubborn(maxRounds), rounds, last);
    rounds := rounds + [last];
  }

  lemma {:induction false} RunsShareAPrefix(w: World, a: seq<Round>, b: seq<Round>)
    requires Played(w, a) && Played(w, b) && |a| <= |b|
    ensures a == b[..|a|]
  {
    if a != [] {
      var k := |a| - 1;
      PlayedAt(w, b, k);
      RunsShareAPrefix(w, a[..k], b);
      SameRound(w, k, a[k], b[k]);
      PrefixByLast(a, b);
    }
  }

  lemma SameRound(w: World, k: nat, r: Round, q: Round)
    requires RoundOk(w, k, r) && RoundOk(w, k, q)
    ensures r == q
  {
  }

  lemma ShorterRunEnds(w: World, a: seq<Round>, e: Ending, b: seq<Round>)
    requires Played(w, a) && EndsAs(w, a, e) && Played(w, b) && |a| <= |b|
    ensures a == b
  {
    RunsShareAPrefix(w, a, b);
    if |a| < |b| {
      PlayedAt(w, b, |a|);
    }
  }

  /** The loop's specification leaves no choice: the world fixes the rounds and how they end. */
  lemma OneOutcome(w: World, a: seq<Round>, ea: Ending, b: seq<Round>, eb: Ending)
    requires Played(w, a) && EndsAs(w, a, ea) && Played(w, b) && EndsAs(w, b, eb)
    ensures a == b && ea == eb
  {
    if |a| <= |b| { ShorterRunEnds(w, a, ea, b); } else { ShorterRunEnds(w, b, eb, a); }
  }

  // ---------------- what a run does, round by round ----------------

  /** Calls are handled in this round. */
  predicate Handles(w: World, k: nat) {
    w.model(k).Reply? && k < w.maxRounds && !w.late(k)
  }

  /** The calls handled in this round. */
  function CallsAt(w: World, k: nat): seq<Call> {
    if Handles(w, k) then w.model(k).calls else []
  }

  /** The messages of a round: the note when the limit or the deadline is reached, and otherwise the reply with its
      calls and then what each call says. */
  predicate Tells(w: World, k: nat, ms: seq<Message>) {
    var calls := CallsAt(w, k);
    if k >= w.maxRounds || w.late(k) then ms == [CapNote]
    else if calls == [] then ms == []
    else
      && |ms| == 1 + |calls| && ms[0].Assistant? && ms[0].text == w.model(k).text
      && |ms[0].ids| == |calls| && (forall i :: 0 <= i < |calls| ==> ms[0].ids[i] == calls[i].id)
      && forall i :: 0 <= i < |calls| ==>
           ms[1 + i].Tool? && ms[1 + i].id == calls[i].id && Says(w, k, i, calls[i], ms[1 + i].content)
  }

  lemma RoundTells(w: World, k: nat, r: Round)
    requires RoundOk(w, k, r)
    ensures Tells(w, k, Written(r))
  {
    forall i | 0 <= i < |r.effects| ensures Lawful(w, k, i, r.reply.calls[i], r.effects[i]) {
      HandledLawfully(w, k, i, r.reply.calls[i]);
    }
  }

  /** Every round of every run: the model's reply; one lawful effect for each of its calls, in order, and none if the
      limit of rounds is reached or the deadline is over; and the messages it adds. */
  lemma RoundLaw(w: World, rounds: seq<Round>, k: nat)
    requires Played(w, rounds) && k < |rounds|
    ensures var r, calls := rounds[k], CallsAt(w, k);
            && !w.cancelled(k) && r.reply == w.model(k) && |r.effects| == |calls|
            && (forall i :: 0 <= i < |calls| ==> Lawful(w, k, i, calls[i], r.effects[i]))
            && (k < |rounds| - 1 ==> calls != [] && forall i :: 0 <= i < |calls| ==> r.effects[i].submitted.None?)
            && Tells(w, k, Written(r))
  {
    PlayedAt(w, rounds, k);
    var r, calls := rounds[k], CallsAt(w, k);
    forall i | 0 <= i < |calls| ensures Lawful(w, k, i, calls[i], r.effects[i]) {
      HandledLawfully(w, k, i, calls[i]);
    }
    RoundTells(w, k, r);
  }

  /** How a run ends, from the model's last reply, the limits and the user alone. */
  lemma EndingLaw(w: World, rounds: seq<Round>, ending: Ending)
    requires Played(w, rounds) && EndsAs(w, rounds, ending)
    ensures ending == Cancelled ==>
              && w.cancelled(|rounds|)
              && (rounds != [] ==> CallsAt(w, |rounds| - 1) != [] && Submitted(rounds[|rounds| - 1].effects) == [])
    ensures ending != Cancelled ==>
              && rounds != []
              && var k := |rounds| - 1;
                 && (ending == Failed <==> w.model(k).ClientError?)
                 && (ending == Done <==> w.model(k).Reply? && w.model(k).calls == [])
                 && (ending == CutOff <==>
                     w.model(k).Reply? && w.model(k).calls != [] && (k >= w.maxRounds || w.late(k)))
                 && (ending == AwaitingConfirmation <==> Submitted(rounds[k].effects) != [])
  {
    if rounds != [] {
      var k := |rounds| - 1;
      PlayedAt(w, rounds, k);
      NothingSubmitted(rounds[k].effects);
    }
  }

  function ToSeq(o: Option<string>): seq<string> {
    if o.Some? then [o.value] else []
  }

  /** What these calls of round k are submitted for, in order, and what they run. */
  function AwaitedOf(w: World, k: nat, calls: seq<Call>): seq<string> {
    if calls == [] then []
    else
      var n := |calls| - 1;
      AwaitedOf(w, k, calls[..n]) + ToSeq(Awaited(w, k, n, calls[n]))
  }

  function RunOf(w: World, k: nat, calls: seq<Call>): seq<string> {
    if calls == [] then []
    else
      var n := |calls| - 1;
      RunOf(w, k, calls[..n]) + ToSeq(RunAtOnce(w, k, n, calls[n]))
  }

  /** The same over the first n rounds. */
  function AwaitedIn(w: World, n: nat): seq<string> {
    if n == 0 then [] else AwaitedIn(w, n - 1) + AwaitedOf(w, n - 1, CallsAt(w, n - 1))
  }

  function RunIn(w: World, n: nat): seq<string> {
    if n == 0 then [] else RunIn(w, n - 1) + RunOf(w, n - 1, CallsAt(w, n - 1))
  }

  lemma {:induction false} LawfulEffects(w: World, k: nat, calls: seq<Call>, effects: seq<Effect>)
    requires |effects| == |calls| && forall i :: 0 <= i < |calls| ==> Lawful(w, k, i, calls[i], effects[i])
    ensures Submitted(effects) == AwaitedOf(w, k, calls) && Ran(effects) == RunOf(w, k, calls)
  {
    if calls != [] {
      var n := |calls| - 1;
      LawfulEffects(w, k, calls[..n], effects[..n]);
      assert Lawful(w, k, n, calls[n], effects[n]);
    }
  }

  /** The pending actions of a run are exactly those its calls are submitted for, and the executed ones exactly those
      its calls run at once, in the order of the rounds and calls. */
  lemma {:induction false} ActionsOfARun(w: World, rounds: seq<Round>)
    requires Played(w, rounds)
    ensures Submitted(AllEffects(rounds)) == AwaitedIn(w, |rounds|)
    ensures Ran(AllEffects(rounds)) == RunIn(w, |rounds|)
  {
    if rounds != [] {
      var k := |rounds| - 1;
      ActionsOfARun(w, rounds[..k]);
      RoundLaw(w, rounds, k);
      LawfulEffects(w, k, CallsAt(w, k), rounds[k].effects);
      SubmittedAppend(AllEffects(rounds[..k]), rounds[k].effects);
      RanAppend(AllEffects(rounds[..k]), rounds[k].effects);
    }
  }

  // ---------------- pairing ----------------

  predicate Answers(ms: seq<Message>, ids: seq<string>) {
    |ms| == |ids| && forall i :: 0 <= i < |ms| ==> ms[i].Tool? && ms[i].id == ids[i]
  }

  /** Every assistant message with calls is followed by exactly its tool messages, in call order, and no
      tool message stands anywhere else. */
  predicate Paired(ms: seq<Message>) {
    ms == []
    || (match ms[0]
        case Tool(_, _) => false
        case Assistant(_, ids) => |ids| < |ms| && Answers(ms[1..|ids| + 1], ids) && Paired(ms[|ids| + 1..])
        case _ => Paired(ms[1..]))
  }

  lemma {:induction false} PairedAppend(a: seq<Message>, b: seq<Message>)
    requires Paired(a) && Paired(b)
    ensures Paired(a + b)
    decreases |a|
  {
    if a == [] {
      assert a + b == b;
    } else {
      var n := if a[0].Assistant? then |a[0].ids| + 1 else 1;
      assert (a + b)[n..] == a[n..] + b;
      assert (a + b)[1..n] == a[1..n];
      PairedAppend(a[n..], b);
    }
  }

  lemma RoundIsPaired(w: World, k: nat, r: Round)
    requires RoundOk(w, k, r)
    ensures Paired(Written(r))
  {
    if r.effects != [] {
      var ms := Written(r);
      var calls := r.reply.calls;
      assert ms == [Assistant(r.reply.text, Ids(calls))] + ToolMessages(r.effects);
      forall i | 0 <= i < |calls| ensures ms[1..][i].Tool? && ms[1..][i].id == Ids(calls)[i] {
        HandledKeepsId(w, k, i, calls[i]);
      }
      assert ms[1..|calls| + 1] == ms[1..] && ms[|calls| + 1..] == [];
      assert Answers(ms[1..], Ids(calls));
    }
  }

  lemma PairedStep(history: seq<Message>, before: seq<Message>, written: seq<Message>)
    requires Paired(history + before) && Paired(written)
    ensures Paired(history + (before + written))
  {
    assert history + (before + written) == (history + before) + written;
    PairedAppend(history + before, written);
  }

  /** The conversation sent to the model is well paired before every round and at the end, whatever the
      model answered, whenever the history it started from was. */
  lemma {:induction false} TranscriptIsPaired(w: World, history: seq<Message>, rounds: seq<Round>)
    requires Played(w, rounds) && Paired(history)
    ensures Paired(history + Transcript(rounds))
  {
    if rounds == [] {
      assert history + Transcript(rounds) == history;
    } else {
      var k := |rounds| - 1;
      TranscriptIsPaired(w, history, rounds[..k]);
      RoundIsPaired(w, k, rounds[k]);
      PairedStep(history, Transcript(rounds[..k]), Written(rounds[k]));
    }
  }

  // ---------------- one row and one message per call ----------------

  /** The calls of the rounds that were executed, in order. */
  function ExecutedCalls(rounds: seq<Round>): seq<Call> {
    if rounds == [] then []
    else
      ExecutedCalls(rounds[..|rounds| - 1]) + CallsRun(rounds[|rounds| - 1])
  }

  function ToolsIn(ms: seq<Message>): seq<Message> {
    if ms == [] then []
    else ToolsIn(ms[..|ms| - 1]) + (if ms[|ms| - 1].Tool? then [ms[|ms| - 1]] else [])
  }

  lemma {:induction false} ToolsInAppend(a: seq<Message>, b: seq<Message>)
    ensures ToolsIn(a + b) == ToolsIn(a) + ToolsIn(b)
  {
    if b == [] {
      assert a + b == a;
    } else {
      var n := |b| - 1;
      ToolsInAppend(a, b[..n]);
      assert (a + b)[..|a + b| - 1] == a + b[..n] && (a + b)[|a + b| - 1] == b[n];
      JoinAssociates(ToolsIn(a), ToolsIn(b[..n]), if b[n].Tool? then [b[n]] else []);
    }
  }

  lemma {:induction false} AllTools(ms: seq<Message>)
    requires forall i :: 0 <= i < |ms| ==> ms[i].Tool?
    ensures ToolsIn(ms) == ms
  {
    if ms != [] {
      AllTools(ms[..|ms| - 1]);
    }
  }

  lemma {:induction false} ToolsInOther(ms: seq<Message>)
    requires forall i :: 0 <= i < |ms| ==> !ms[i].Tool?
    ensures ToolsIn(ms) == []
  {
    if ms != [] {
      ToolsInOther(ms[..|ms| - 1]);
    }
  }

  lemma WrittenTools(r: Round)
    requires r.effects != [] ==> !r.capped && r.reply.Reply?
    ensures ToolsIn(Written(r)) == ToolMessages(r.effects)
  {
    if r.effects == [] {
      ToolsInOther(Written(r));
    } else {
      var head := [Assistant(r.reply.text, Ids(r.reply.calls))];
      assert Written(r) == head + ToolMessages(r.effects);
      ToolsInOther(head);
      AllTools(ToolMessages(r.effects));
      ToolsInAppend(head, ToolMessages(r.effects));
    }
  }

  predicate OneEach(calls: seq<Call>, effects: seq<Effect>) {
    |effects| == |calls| && forall i :: 0 <= i < |calls| ==> Rows(effects)[i].callId == calls[i].id
  }

  /** The calls of a round that are executed. */
  function CallsRun(r: Round): seq<Call> {
    if r.capped || r.reply.ClientError? then [] else r.reply.calls
  }

  lemma RoundHasOneEach(w: World, k: nat, r: Round)
    requires RoundOk(w, k, r)
    ensures OneEach(CallsRun(r), r.effects)
    ensures ToolsIn(Written(r)) == ToolMessages(r.effects)
  {
    WrittenTools(r);
    forall i | 0 <= i < |r.effects| ensures r.effects[i].row.callId == r.reply.calls[i].id {
      HandledKeepsId(w, k, i, r.reply.calls[i]);
    }
  }

  lemma ToolMessagesAppend(a: seq<Effect>, b: seq<Effect>)
    ensures ToolMessages(a + b) == ToolMessages(a) + ToolMessages(b)
  {
  }

  lemma OneEachAppend(calls: seq<Call>, effects: seq<Effect>, c: seq<Call>, e: seq<Effect>)
    requires OneEach(calls, effects) && OneEach(c, e)
    ensures OneEach(calls + c, effects + e)
  {
    assert Rows(effects + e) == Rows(effects) + Rows(e);
  }

  /** Every call of an executed round leaves exactly one tool row and one tool message, in call order and
      with the same id and content; no other round leaves any. */
  lemma {:induction false} OneRowPerCall(w: World, rounds: seq<Round>)
    requires Played(w, rounds)
    ensures OneEach(ExecutedCalls(rounds), AllEffects(rounds))
    ensures ToolsIn(Transcript(rounds)) == ToolMessages(AllEffects(rounds))
  {
    if rounds != [] {
      var k := |rounds| - 1;
      OneRowPerCall(w, rounds[..k]);
      RoundHasOneEach(w, k, rounds[k]);
      ToolsInAppend(Transcript(rounds[..k]), Written(rounds[k]));
      ToolMessagesAppend(AllEffects(rounds[..k]), rounds[k].effects);
      OneEachAppend(ExecutedCalls(rounds[..k]), AllEffects(rounds[..k]), CallsRun(rounds[k]), rounds[k].effects);
    }
  }

  // ---------------- confirmation ----------------

  lemma {:induction false} NothingSubmitted(effects: seq<Effect>)
    ensures (Submitted(effects) == []) == !Stops(effects)
  {
    if effects != [] {
      var n := |effects| - 1;
      NothingSubmitted(effects[..n]);
      assert forall i :: 0 <= i < n ==> effects[..n][i] == effects[i];
      if Stops(effects) && effects[n].submitted.None? {
        var i :| 0 <= i < |effects| && effects[i].submitted.Some?;
        assert effects[..n][i].submitted.Some?;
      }
    }
  }

  /** No model round follows a submission: everything submitted was submitted in the last round. */
  lemma {:induction false} SubmissionsComeLast(w: World, rounds: seq<Round>)
    requires Running(w, rounds)
    ensures Submitted(AllEffects(rounds)) == []
  {
    if rounds != [] {
      var k := |rounds| - 1;
      SubmissionsComeLast(w, rounds[..k]);
      NothingSubmitted(rounds[k].effects);
      SubmittedAppend(AllEffects(rounds[..k]), rounds[k].effects);
    }
  }

  /** A run ends waiting for a human exactly when it submitted something. */
  lemma WaitsIffSubmitted(w: World, rounds: seq<Round>, ending: Ending)
    requires Played(w, rounds) && EndsAs(w, rounds, ending)
    ensures ending == AwaitingConfirmation <==> Submitted(AllEffects(rounds)) != []
  {
    if ending == Cancelled {
      SubmissionsComeLast(w, rounds);
    } else {
      var k := |rounds| - 1;
      SubmissionsComeLast(w, rounds[..k]);
      NothingSubmitted(rounds[k].effects);
      SubmittedAppend(AllEffects(rounds[..k]), rounds[k].effects);
    }
  }

  /** What may happen without a human: an action runs only in full-access mode, for a known tool that
      does not insist on confirmation; a read or remote tool answers only outside limited mode. */
  lemma RoundConfirms(w: World, rounds: seq<Round>, k: nat, i: nat)
    requires Played(w, rounds) && k < |rounds| && i < |rounds[k].effects|
    ensures rounds[k].reply.Reply? && |rounds[k].reply.calls| == |rounds[k].effects|
    ensures var call, effect := rounds[k].reply.calls[i], rounds[k].effects[i];
            && (effect.ran.Some? ==> Entitled(w, call) && effect.submitted.None?)
            && (effect.row.content.Result? && w.mode == LimitedAccess
                ==> call.name in w.catalog && w.catalog[call.name].level == Change)
            && (effect.submitted.Some? <==> effect.row.pending)
  {
    PlayedAt(w, rounds, k);
  }

  lemma {:induction false} RanComesFromAnEffect(effects: seq<Effect>)
    ensures Ran(effects) != [] ==> exists i :: 0 <= i < |effects| && effects[i].ran.Some?
  {
    if effects != [] {
      var n := |effects| - 1;
      RanComesFromAnEffect(effects[..n]);
      if Ran(effects) != [] && effects[n].ran.None? {
        var i :| 0 <= i < n && effects[..n][i].ran.Some?;
        assert effects[i].ran.Some?;
      }
    }
  }

  /** Outside full-access mode, and in any mode when every tool insists on confirmation, no run executes
      an action. */
  lemma {:induction false} NoUnconfirmedAction(w: World, rounds: seq<Round>)
    requires Played(w, rounds)
    requires w.mode != FullAccess || forall name :: name in w.catalog ==> w.catalog[name].alwaysConfirm
    ensures Ran(AllEffects(rounds)) == []
  {
    if rounds != [] {
      var k := |rounds| - 1;
      NoUnconfirmedAction(w, rounds[..k]);
      RanAppend(AllEffects(rounds[..k]), rounds[k].effects);
      forall i | 0 <= i < |rounds[k].effects| ensures rounds[k].effects[i].ran.None? {
        RoundConfirms(w, rounds, k, i);
      }
      RanComesFromAnEffect(rounds[k].effects);
    }
  }
}
