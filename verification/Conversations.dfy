/** A conversation from end to end: agent runs leave rows, later requests replay the rows, and every
    request a model ever gets is one that model services accept. */
module Conversations {
  import Agent = AgentLoop
  import History = HistoryMessages
  import opened PyText
  import opened Sequences

  /** What a conversation stores: a user's text, the empty assistant row of the turn being generated, or a
      finished run with its answer. */
  datatype Entry =
    | Said(text: string)
    | Opened
    | Ran(world: Agent.World, rounds: seq<Agent.Round>, answer: string)

  /** A finished run of the loop, whose calls all have ids, as ai_client guarantees. */
  predicate ValidEntry(e: Entry) {
    e.Ran? ==> Agent.Played(e.world, e.rounds) && WithIds(Agent.ExecutedCalls(e.rounds))
  }

  predicate WithIds(calls: seq<Agent.Call>) {
    forall i :: 0 <= i < |calls| ==> calls[i].id != ""
  }

  /** How results are written down is left open. */
  type Render = Agent.Content -> string

  function StoredCall(c: Agent.Call): History.StoredCall {
    History.StoredCall(c.id, c.name, "", c.args)
  }

  function StoredCalls(calls: seq<Agent.Call>): seq<History.StoredCall> {
    if calls == [] then [] else StoredCalls(calls[..|calls| - 1]) + [StoredCall(calls[|calls| - 1])]
  }

  function ToolRow(row: Agent.Row, render: Render): History.Row {
    History.Row(History.Tool, render(row.content), [], row.callId)
  }

  function ToolRows(effects: seq<Agent.Effect>, render: Render): (r: seq<History.Row>)
    ensures |r| == |effects|
    ensures forall i :: 0 <= i < |r| ==> r[i].role == History.Tool
  {
    if effects == [] then []
    else ToolRows(effects[..|effects| - 1], render) + [ToolRow(effects[|effects| - 1].row, render)]
  }

  /** The row that a run's answer ends up in stands before its tool rows. */
  function HeadRow(e: Entry): History.Row {
    match e
    case Said(text) => History.Row(History.User, text, [], "")
    case Opened => History.Row(History.Assistant, "", [], "")
    case Ran(_, rounds, answer) =>
      History.Row(History.Assistant, answer, StoredCalls(Agent.ExecutedCalls(rounds)), "")
  }

  function RowsOf(e: Entry, render: Render): seq<History.Row> {
    [HeadRow(e)] + (if e.Ran? then ToolRows(Agent.AllEffects(e.rounds), render) else [])
  }

  function AllRows(entries: seq<Entry>, render: Render): seq<History.Row> {
    if entries == [] then [] else RowsOf(entries[0], render) + AllRows(entries[1..], render)
  }

  // ---------------- a run's rows fit together ----------------

  lemma {:induction false} CallCountAppend(a: seq<History.Call>, b: seq<History.Call>, id: string)
    ensures History.CallCount(a + b, id) == History.CallCount(a, id) + History.CallCount(b, id)
  {
    if a == [] {
      assert a + b == b;
    } else {
      CallCountAppend(a[1..], b, id);
      assert (a + b)[1..] == a[1..] + b;
    }
  }

  lemma {:induction false} ToolRowCountAppend(a: seq<History.Row>, b: seq<History.Row>, id: string)
    ensures History.ToolRows(a + b, id) == History.ToolRows(a, id) + History.ToolRows(b, id)
  {
    if a == [] {
      assert a + b == b;
    } else {
      ToolRowCountAppend(a[1..], b, id);
      assert (a + b)[1..] == a[1..] + b;
    }
  }

  /** A run stores as many tool rows for an id as it stores calls with it. */
  lemma {:induction false} RowsMatchCalls(
      calls: seq<Agent.Call>, effects: seq<Agent.Effect>, render: Render, id: string)
    requires Agent.OneEach(calls, effects) && WithIds(calls)
    ensures History.ToolRows(ToolRows(effects, render), id) == History.CallCount(History.Loaded(StoredCalls(calls)), id)
  {
    if calls != [] {
      var n := |calls| - 1;
      assert forall i :: 0 <= i < n ==> Agent.Rows(effects[..n])[i] == Agent.Rows(effects)[i];
      RowsMatchCalls(calls[..n], effects[..n], render, id);
      assert Agent.Rows(effects)[n].callId == calls[n].id;
      OneMoreCall(calls, id);
      OneMoreRow(effects, render, id);
    }
  }

  lemma OneMoreCall(calls: seq<Agent.Call>, id: string)
    requires calls != [] && calls[|calls| - 1].id != ""
    ensures var n := |calls| - 1;
            History.CallCount(History.Loaded(StoredCalls(calls)), id)
            == History.CallCount(History.Loaded(StoredCalls(calls[..n])), id) + (if calls[n].id == id then 1 else 0)
  {
    var n := |calls| - 1;
    var stored, all := StoredCall(calls[n]), StoredCalls(calls);
    assert all[..|all| - 1] == StoredCalls(calls[..n]) && all[|all| - 1] == stored;
    CallCountAppend(History.Loaded(StoredCalls(calls[..n])), History.Kept(stored), id);
    assert [History.Wire(stored)][1..] == [];
  }

  lemma OneMoreRow(effects: seq<Agent.Effect>, render: Render, id: string)
    requires effects != [] && effects[|effects| - 1].row.callId != ""
    ensures var n := |effects| - 1;
            History.ToolRows(ToolRows(effects, render), id)
            == History.ToolRows(ToolRows(effects[..n], render), id) + (if effects[n].row.callId == id then 1 else 0)
  {
    var n := |effects| - 1;
    var row := ToolRow(effects[n].row, render);
    ToolRowCountAppend(ToolRows(effects[..n], render), [row], id);
    assert [row][1..] == [];
  }

  lemma EntryFits(e: Entry, render: Render, answered: set<string>)
    requires ValidEntry(e)
    ensures History.RowsFit(RowsOf(e, render), answered)
  {
    var tools := if e.Ran? then ToolRows(Agent.AllEffects(e.rounds), render) else [];
    forall id | id in answered ensures History.ToolRows(tools, id) == History.RowCalls(HeadRow(e), id) {
      if e.Ran? {
        Agent.OneRowPerCall(e.world, e.rounds);
        RowsMatchCalls(Agent.ExecutedCalls(e.rounds), Agent.AllEffects(e.rounds), render, id);
      }
    }
    History.FitsMore(HeadRow(e), tools, [], answered);
    assert tools + [] == tools;
  }

  lemma {:induction false} FitsAppend(a: seq<History.Row>, b: seq<History.Row>, answered: set<string>)
    requires History.RowsFit(a, answered) && History.RowsFit(b, answered)
    ensures History.RowsFit(a + b, answered)
    decreases |a|
  {
    if a == [] {
      assert a + b == b;
    } else {
      var n := History.BlockEnd(a);
      FitsAppend(a[n..], b, answered);
      Regrouped(a, b, n);
      History.FitsMore(a[0], a[1..n], a[n..] + b, answered);
    }
  }

  lemma {:induction false} ConversationFits(entries: seq<Entry>, render: Render, answered: set<string>)
    requires forall i :: 0 <= i < |entries| ==> ValidEntry(entries[i])
    ensures History.RowsFit(AllRows(entries, render), answered)
  {
    if entries != [] {
      ConversationFits(entries[1..], render, answered);
      EntryFits(entries[0], render, answered);
      FitsAppend(RowsOf(entries[0], render), AllRows(entries[1..], render), answered);
    }
  }

  // ---------------- what is replayed ----------------

  /** The calls as the model is told them. */
  function Requests(calls: seq<Agent.Call>): (r: seq<History.Call>)
    ensures |r| == |calls|
  {
    seq(|calls|, i requires 0 <= i < |calls| =>
      History.Call(calls[i].id, calls[i].name, if calls[i].args == "" then "{}" else calls[i].args))
  }

  /** And what each came to. */
  function Results(effects: seq<Agent.Effect>, render: Render): (r: seq<History.Message>)
    ensures |r| == |effects|
  {
    seq(|effects|, i requires 0 <= i < |effects| =>
      History.Result(effects[i].row.callId, render(effects[i].row.content)))
  }

  /** What the model is told of an entry later: what was said, or which calls were made, the answer, and the results. */
  function Told(e: Entry, render: Render): seq<History.Message> {
    match e
    case Said(text) => if Blank(text) then [] else [History.Plain(History.User, text)]
    case Opened => []
    case Ran(_, rounds, answer) =>
      var calls := Agent.ExecutedCalls(rounds);
      (if calls != [] then [History.Calling(answer, Requests(calls))]
       else if Blank(answer) then [] else [History.Plain(History.Assistant, answer)])
      + Results(Agent.AllEffects(rounds), render)
  }

  lemma {:induction false} LoadedRequests(calls: seq<Agent.Call>)
    requires WithIds(calls)
    ensures History.Loaded(StoredCalls(calls)) == Requests(calls)
  {
    if calls != [] {
      var n := |calls| - 1;
      LoadedRequests(calls[..n]);
      LoadedMore(calls);
      RequestsMore(calls);
    }
  }

  lemma LoadedMore(calls: seq<Agent.Call>)
    requires calls != []
    ensures var n := |calls| - 1;
            History.Loaded(StoredCalls(calls))
            == History.Loaded(StoredCalls(calls[..n])) + History.Kept(StoredCall(calls[n]))
  {
    var n, all := |calls| - 1, StoredCalls(calls);
    assert all[..|all| - 1] == StoredCalls(calls[..n]) && all[|all| - 1] == StoredCall(calls[n]);
  }

  lemma RequestsMore(calls: seq<Agent.Call>)
    requires calls != [] && calls[|calls| - 1].id != ""
    ensures var n := |calls| - 1;
            Requests(calls) == Requests(calls[..n]) + History.Kept(StoredCall(calls[n]))
  {
  }

  lemma ResultsMore(effects: seq<Agent.Effect>, render: Render)
    requires effects != []
    ensures var n := |effects| - 1;
            Results(effects, render) == Results(effects[..n], render)
                + [History.Result(effects[n].row.callId, render(effects[n].row.content))]
  {
  }

  lemma {:induction false} ToolRowsSay(effects: seq<Agent.Effect>, render: Render, answered: set<string>)
    requires forall i :: 0 <= i < |effects| ==> effects[i].row.callId != ""
    ensures History.Spoken(History.History(ToolRows(effects, render), answered)) == Results(effects, render)
  {
    if effects != [] {
      var n := |effects| - 1;
      var before, row := ToolRows(effects[..n], render), ToolRow(effects[n].row, render);
      ToolRowsSay(effects[..n], render, answered);
      History.HistoryAppend(before, [row], answered);
      History.SpokenAppend(History.History(before, answered), History.History([row], answered));
      OneRowSays(row, answered);
      ResultsMore(effects, render);
    }
  }

  lemma OneRowSays(row: History.Row, answered: set<string>)
    ensures History.History([row], answered) == History.Emitted(row, answered)
    ensures row.role == History.Tool && row.toolCallId != "" ==>
              History.Spoken(History.History([row], answered)) == [History.Result(row.toolCallId, row.content)]
  {
    assert [row][1..] == [];
    assert History.Emitted(row, answered) + [] == History.Emitted(row, answered);
    if row.role == History.Tool && row.toolCallId != "" {
      assert [History.Result(row.toolCallId, row.content)][1..] == [];
    }
  }

  lemma HeadSays(e: Entry, answered: set<string>)
    requires ValidEntry(e)
    ensures History.Spoken(History.Emitted(HeadRow(e), answered)) ==
              match e
              case Said(text) => if Blank(text) then [] else [History.Plain(History.User, text)]
              case Opened => []
              case Ran(_, rounds, answer) =>
                var calls := Agent.ExecutedCalls(rounds);
                if calls != [] then [History.Calling(answer, Requests(calls))]
                else if Blank(answer) then [] else [History.Plain(History.Assistant, answer)]
  {
    var ms := History.Emitted(HeadRow(e), answered);
    if e.Ran? {
      var calls := Agent.ExecutedCalls(e.rounds);
      LoadedRequests(calls);
      if calls != [] {
        History.NotesSayNothing(Requests(calls), answered);
        assert ms[1..] == History.Notes(Requests(calls), answered);
      } else {
        assert ms != [] ==> ms[1..] == [];
      }
    } else {
      assert ms != [] ==> ms[1..] == [];
    }
  }

  lemma EntryIsTold(e: Entry, render: Render, answered: set<string>)
    requires ValidEntry(e)
    ensures History.Spoken(History.History(RowsOf(e, render), answered)) == Told(e, render)
  {
    var tools := if e.Ran? then ToolRows(Agent.AllEffects(e.rounds), render) else [];
    HeadSays(e, answered);
    OneRowSays(HeadRow(e), answered);
    History.HistoryAppend([HeadRow(e)], tools, answered);
    History.SpokenAppend(History.Emitted(HeadRow(e), answered), History.History(tools, answered));
    if e.Ran? {
      EffectsHaveIds(e);
      ToolRowsSay(Agent.AllEffects(e.rounds), render, answered);
    }
  }

  lemma EffectsHaveIds(e: Entry)
    requires ValidEntry(e) && e.Ran?
    ensures forall i :: 0 <= i < |Agent.AllEffects(e.rounds)| ==> Agent.AllEffects(e.rounds)[i].row.callId != ""
  {
    Agent.OneRowPerCall(e.world, e.rounds);
    var calls, effects := Agent.ExecutedCalls(e.rounds), Agent.AllEffects(e.rounds);
    forall i | 0 <= i < |effects| ensures effects[i].row.callId != "" {
      assert Agent.Rows(effects)[i].callId == calls[i].id;
    }
  }

  function Teller(render: Render): Entry -> seq<History.Message> {
    e => Told(e, render)
  }

  /** A conversation is replayed entry by entry: what was said, which calls a run made with which arguments, what each
      of them came to, and the answer, in order and word for word. */
  lemma {:induction false} ConversationIsTold(entries: seq<Entry>, render: Render, answered: set<string>)
    requires forall i :: 0 <= i < |entries| ==> ValidEntry(entries[i])
    ensures History.Spoken(History.History(AllRows(entries, render), answered)) == Flat(entries, Teller(render))
  {
    if entries != [] {
      ConversationIsTold(entries[1..], render, answered);
      EntryIsTold(entries[0], render, answered);
      var first, rest := RowsOf(entries[0], render), AllRows(entries[1..], render);
      History.HistoryAppend(first, rest, answered);
      History.SpokenAppend(History.History(first, answered), History.History(rest, answered));
    }
  }

  // ---------------- every request ----------------

  function Calls(ids: seq<string>): seq<History.Call> {
    if ids == [] then [] else [History.Call(ids[0], "", "")] + Calls(ids[1..])
  }

  /** A message of the loop as the history writes it; names and arguments play no part in pairing. */
  function Sent(m: Agent.Message, render: Render): History.Message {
    match m
    case Plain(text) => History.Plain(History.System, text)
    case CapNote => History.Plain(History.System, "")
    case Assistant(text, ids) => History.Calling(text, Calls(ids))
    case Tool(id, content) => History.Result(id, render(content))
  }

  function AllSent(ms: seq<Agent.Message>, render: Render): (r: seq<History.Message>)
    ensures |r| == |ms|
    ensures forall i :: 0 <= i < |ms| ==> r[i] == Sent(ms[i], render)
  {
    seq(|ms|, i requires 0 <= i < |ms| => Sent(ms[i], render))
  }

  lemma {:induction false} AnswersMatchCalls(ms: seq<Agent.Message>, ids: seq<string>, render: Render, id: string)
    requires Agent.Answers(ms, ids)
    ensures History.AnswersIn(AllSent(ms, render), id) == History.CallCount(Calls(ids), id)
  {
    if ms != [] {
      AnswersMatchCalls(ms[1..], ids[1..], render, id);
      assert AllSent(ms, render)[1..] == AllSent(ms[1..], render);
    }
  }

  /** Where the messages that answer the first one end. */
  function GroupEnd(ms: seq<Agent.Message>): nat
    requires ms != []
  {
    if ms[0].Assistant? then |ms[0].ids| + 1 else 1
  }

  lemma FirstGroup(ms: seq<Agent.Message>, render: Render)
    requires ms != [] && Agent.Paired(ms)
    ensures var n := GroupEnd(ms);
            && n <= |ms| && Agent.Paired(ms[n..])
            && var block := AllSent(ms[..n], render);
               (forall id :: History.AnswersIn(block[1..], id) == History.Makes(block[0], id))
               && !History.IsAnswer(block[0]) && forall i :: 0 <= i < |block[1..]| ==> History.IsAnswer(block[1..][i])
  {
    var n := GroupEnd(ms);
    var block := AllSent(ms[..n], render);
    assert block[1..] == AllSent(ms[1..n], render);
    forall id ensures History.AnswersIn(block[1..], id) == History.Makes(block[0], id) {
      if ms[0].Assistant? { AnswersMatchCalls(ms[1..n], ms[0].ids, render, id); }
    }
  }

  lemma {:induction false} PairedIsWellAnswered(ms: seq<Agent.Message>, render: Render)
    requires Agent.Paired(ms)
    ensures History.WellAnswered(AllSent(ms, render))
    decreases |ms|
  {
    if ms != [] {
      var n := GroupEnd(ms);
      FirstGroup(ms, render);
      PairedIsWellAnswered(ms[n..], render);
      assert AllSent(ms, render) == AllSent(ms[..n], render) + AllSent(ms[n..], render);
      assert n < |ms| ==> !ms[n].Tool? by { NoLooseTool(ms[n..]); }
      History.WellAnsweredBlock(AllSent(ms[..n], render), AllSent(ms[n..], render));
    }
  }

  lemma NoLooseTool(ms: seq<Agent.Message>)
    requires Agent.Paired(ms)
    ensures ms != [] ==> !ms[0].Tool?
  {
  }

  lemma {:induction false} WellAnsweredAppend(a: seq<History.Message>, b: seq<History.Message>)
    requires History.WellAnswered(a) && History.WellAnswered(b)
    ensures History.WellAnswered(a + b)
    decreases |a|
  {
    if a == [] {
      assert a + b == b;
    } else {
      var n := History.LeadingAnswers(a[1..]) + 1;
      WellAnsweredAppend(a[n..], b);
      LeadingAnswersStop(a[1..]);
      Regrouped(a, b, n);
      History.WellAnsweredBlock(a[..n], a[n..] + b);
    }
  }

  lemma {:induction false} LeadingAnswersStop(ms: seq<History.Message>)
    ensures var n := History.LeadingAnswers(ms);
            && (forall i :: 0 <= i < n ==> History.IsAnswer(ms[i]))
            && (n < |ms| ==> !History.IsAnswer(ms[n]))
  {
    if ms != [] {
      LeadingAnswersStop(ms[1..]);
    }
  }

  /** What a run sends to the model after the given rounds: the system prompt, the replayed conversation,
      and what the run itself has added. */
  function RequestAfter(
      entries: seq<Entry>, maxContext: nat, rounds: seq<Agent.Round>, prompt: string, render: Render
    ): seq<History.Message>
  {
    var rows := History.Context(AllRows(entries, render), maxContext);
    [History.Plain(History.System, prompt)] + History.History(rows, History.Answered(rows))
    + AllSent(Agent.Transcript(rounds), render)
  }

  lemma {:induction false} CallsOfIds(ids: seq<string>)
    ensures |Calls(ids)| == |ids| && forall i :: 0 <= i < |ids| ==> Calls(ids)[i].id == ids[i]
  {
    if ids != [] {
      CallsOfIds(ids[1..]);
    }
  }

  /** Message m of the loop is sent as n: the reply's text with the ids of its calls, or a call's id with its content
      written down, or a system message. */
  predicate SentAs(m: Agent.Message, n: History.Message, render: Render) {
    match m
    case Plain(text) => n == History.Plain(History.System, text)
    case CapNote => n.Plain? && n.role == History.System
    case Assistant(text, ids) =>
      n.Calling? && n.content == text && |n.calls| == |ids| && forall i :: 0 <= i < |ids| ==> n.calls[i].id == ids[i]
    case Tool(id, content) => n == History.Result(id, render(content))
  }

  /** The prompt, the replayed conversation, and then these messages of the loop, one by one. */
  predicate Consists(
      request: seq<History.Message>, prompt: string, replayed: seq<History.Message>, ms: seq<Agent.Message>,
      render: Render)
  {
    && |request| == 1 + |replayed| + |ms|
    && request[0] == History.Plain(History.System, prompt) && request[1..1 + |replayed|] == replayed
    && forall i :: 0 <= i < |ms| ==> SentAs(ms[i], request[1 + |replayed| + i], render)
  }

  lemma JoinedConsists(prompt: string, replayed: seq<History.Message>, ms: seq<Agent.Message>, render: Render)
    ensures Consists([History.Plain(History.System, prompt)] + replayed + AllSent(ms, render), prompt, replayed, ms,
                     render)
  {
    ThreeParts(History.Plain(History.System, prompt), replayed, AllSent(ms, render));
    forall i | 0 <= i < |ms| ensures SentAs(ms[i], AllSent(ms, render)[i], render) {
      SentAsIs(ms[i], render);
    }
  }

  /** What a request consists of: the prompt, the replayed conversation, and then what the run has added so far, message
      by message. */
  lemma RequestSays(entries: seq<Entry>, maxContext: nat, rounds: seq<Agent.Round>, prompt: string, render: Render)
    ensures var rows := History.Context(AllRows(entries, render), maxContext);
            Consists(RequestAfter(entries, maxContext, rounds, prompt, render), prompt,
                     History.History(rows, History.Answered(rows)), Agent.Transcript(rounds), render)
  {
    var rows := History.Context(AllRows(entries, render), maxContext);
    JoinedConsists(prompt, History.History(rows, History.Answered(rows)), Agent.Transcript(rounds), render);
  }

  lemma SentAsIs(m: Agent.Message, render: Render)
    ensures SentAs(m, Sent(m, render), render)
  {
    if m.Assistant? { CallsOfIds(m.ids); }
  }

  lemma ThreeParts<T>(x: T, a: seq<T>, b: seq<T>)
    ensures var all := [x] + a + b;
            && |all| == 1 + |a| + |b| && all[0] == x && all[1..1 + |a|] == a
            && forall i :: 0 <= i < |b| ==> all[1 + |a| + i] == b[i]
  {
  }

  lemma ReplayIsWellAnswered(entries: seq<Entry>, maxContext: nat, render: Render)
    requires forall i :: 0 <= i < |entries| ==> ValidEntry(entries[i])
    ensures var rows := History.Context(AllRows(entries, render), maxContext);
            History.WellAnswered(History.History(rows, History.Answered(rows)))
  {
    var stored := AllRows(entries, render);
    ConversationFits(entries, render, History.Answered(stored));
    History.CutIsWellAnswered(stored, maxContext);
  }

  lemma TranscriptIsWellAnswered(world: Agent.World, rounds: seq<Agent.Round>, render: Render)
    requires Agent.Played(world, rounds)
    ensures History.WellAnswered(AllSent(Agent.Transcript(rounds), render))
  {
    Agent.TranscriptIsPaired(world, [], rounds);
    assert [] + Agent.Transcript(rounds) == Agent.Transcript(rounds);
    PairedIsWellAnswered(Agent.Transcript(rounds), render);
  }

  lemma PromptIsWellAnswered(m: History.Message)
    requires m.Plain?
    ensures History.WellAnswered([m])
  {
    assert [m][1..] == [];
    assert History.WellAnswered([m][1..]);
  }

  /** Every request of every turn is well answered: for any conversation of user texts and finished runs,
      any context limit, any behaviour of the model and the tools, after any number of rounds. */
  lemma EveryRequestIsWellAnswered(
      entries: seq<Entry>, maxContext: nat, world: Agent.World, rounds: seq<Agent.Round>, prompt: string,
      render: Render)
    requires forall i :: 0 <= i < |entries| ==> ValidEntry(entries[i])
    requires Agent.Played(world, rounds)
    ensures History.WellAnswered(RequestAfter(entries, maxContext, rounds, prompt, render))
  {
    ReplayIsWellAnswered(entries, maxContext, render);
    TranscriptIsWellAnswered(world, rounds, render);
    var head := [History.Plain(History.System, prompt)];
    PromptIsWellAnswered(head[0]);
    var rows := History.Context(AllRows(entries, render), maxContext);
    var replayed := History.History(rows, History.Answered(rows));
    WellAnsweredAppend(head, replayed);
    WellAnsweredAppend(head + replayed, AllSent(Agent.Transcript(rounds), render));
  }
}
