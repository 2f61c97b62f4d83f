/** Replaying a stored conversation to the model (ai_service.py, history_messages and _context_rows).
    Model services refuse a conversation in which a tool call lacks its result or a result its call. */
module HistoryMessages {
  import opened PyText
  import opened Sequences

  /** A call as stored in a row's tool_calls; an absent field is empty. */
  datatype StoredCall = StoredCall(id: string, functionName: string, itemName: string, arguments: string)

  datatype Role = User | System | Assistant | Tool | Other

  /** A row of ai_messages.  Undecodable tool_calls are no calls. */
  datatype Row = Row(role: Role, content: string, toolCalls: seq<StoredCall>, toolCallId: string)

  datatype Call = Call(id: string, name: string, arguments: string)

  datatype Message =
    | Plain(role: Role, content: string)
    | Calling(content: string, calls: seq<Call>)
    | Result(id: string, content: string)
    | PendingNote(id: string)

  function Wire(c: StoredCall): Call {
    Call(c.id, OrElse(c.functionName, c.itemName), OrElse(c.arguments, "{}"))
  }

  /** A call without an id is dropped. */
  function Kept(c: StoredCall): seq<Call> {
    if c.id == "" then [] else [Wire(c)]
  }

  function Loaded(calls: seq<StoredCall>): seq<Call> {
    if calls == [] then [] else Loaded(calls[..|calls| - 1]) + Kept(calls[|calls| - 1])
  }

  method LoadToolCalls(row: Row) returns (result: seq<Call>)
    ensures result == Loaded(row.toolCalls)
  {
    result := [];
    var raw := row.toolCalls;
    for i := 0 to |raw|
      invariant result == Loaded(raw[..i])
    {
      var item := raw[i];
      assert raw[..i + 1][..i] == raw[..i];
      if item.id == "" { continue; }
      result := result + [Call(item.id, OrElse(item.functionName, item.itemName), OrElse(item.arguments, "{}"))];
    }
    assert raw[..|raw|] == raw;
  }

  function Answered(rows: seq<Row>): set<string> {
    set i | 0 <= i < |rows| && rows[i].role == Tool && rows[i].toolCallId != "" :: rows[i].toolCallId
  }

  /** A note for every call that no row answers. */
  function Notes(calls: seq<Call>, answered: set<string>): seq<Message> {
    if calls == [] then []
    else (if calls[0].id in answered then [] else [PendingNote(calls[0].id)]) + Notes(calls[1..], answered)
  }

  function Emitted(row: Row, answered: set<string>): seq<Message> {
    match row.role
    case Assistant =>
      var calls := Loaded(row.toolCalls);
      if calls != [] then [Calling(row.content, calls)] + Notes(calls, answered)
      else if Blank(row.content) then [] else [Plain(Assistant, row.content)]
    case Tool => if row.toolCallId == "" then [] else [Result(row.toolCallId, row.content)]
    case Other => []
    case _ => if Blank(row.content) then [] else [Plain(row.role, row.content)]
  }

  function History(rows: seq<Row>, answered: set<string>): seq<Message> {
    if rows == [] then [] else Emitted(rows[0], answered) + History(rows[1..], answered)
  }

  method AppendNotes(messages: seq<Message>, calls: seq<Call>, answered: set<string>) returns (r: seq<Message>)
    ensures r == messages + Notes(calls, answered)
  {
    r := messages;
    for i := 0 to |calls|
      invariant r + Notes(calls[i..], answered) == messages + Notes(calls, answered)
    {
      assert calls[i..][1..] == calls[i + 1..];
      if calls[i].id in answered { continue; }
      r := r + [PendingNote(calls[i].id)];
    }
  }

  method AppendRow(messages: seq<Message>, row: Row, answered: set<string>) returns (r: seq<Message>)
    ensures r == messages + Emitted(row, answered)
  {
    r := messages;
    match row.role {
      case Assistant =>
        var calls := LoadToolCalls(row);
        if calls != [] {
          r := r + [Calling(row.content, calls)];
          r := AppendNotes(r, calls, answered);
        } else if !Blank(row.content) {
          r := r + [Plain(Assistant, row.content)];
        }
      case Tool =>
        if row.toolCallId != "" {
          r := r + [Result(row.toolCallId, row.content)];
        }
      case Other =>
      case _ =>
        if !Blank(row.content) {
          r := r + [Plain(row.role, row.content)];
        }
    }
  }

  method HistoryOf(rows: seq<Row>) returns (messages: seq<Message>)
    ensures messages == History(rows, Answered(rows))
  {
    var answered := Answered(rows);
    messages := [];
    for k := 0 to |rows|
      invariant messages + History(rows[k..], answered) == History(rows, answered)
    {
      HistoryMore(messages, rows, k, answered);
      messages := AppendRow(messages, rows[k], answered);
    }
  }

  lemma HistoryMore(messages: seq<Message>, rows: seq<Row>, k: nat, answered: set<string>)
    requires k < |rows|
    ensures messages + History(rows[k..], answered)
            == messages + Emitted(rows[k], answered) + History(rows[k + 1..], answered)
  {
    assert rows[k..][1..] == rows[k + 1..];
    var first, rest := Emitted(rows[k], answered), History(rows[k + 1..], answered);
    assert messages + (first + rest) == messages + first + rest;
  }

  function DropLeadingTools(rows: seq<Row>): seq<Row>
  {
    if rows != [] && rows[0].role == Tool then DropLeadingTools(rows[1..]) else rows
  }

  function Last(rows: seq<Row>, limit: nat): seq<Row> {
    if |rows| <= limit then rows else rows[|rows| - limit..]
  }

  /** The last rows of the conversation, without tool rows whose beginning was cut off. */
  function Context(stored: seq<Row>, maxContext: nat): seq<Row> {
    DropLeadingTools(Last(stored, if maxContext < 2 then 2 else maxContext))
  }

  lemma {:induction false} DroppedAreTools(rows: seq<Row>)
    ensures var kept := DropLeadingTools(rows);
            && |kept| <= |rows| && kept == rows[|rows| - |kept|..]
            && (kept != [] ==> kept[0].role != Tool)
            && forall i :: 0 <= i < |rows| - |kept| ==> rows[i].role == Tool
  {
    if rows != [] && rows[0].role == Tool {
      DroppedAreTools(rows[1..]);
      assert forall i :: 0 < i < |rows| ==> rows[i] == rows[1..][i - 1];
    }
  }

  /** Where the last rows begin: as many as the limit allows, but at least two. */
  function FirstOfLast(n: nat, maxContext: nat): (first: nat)
    ensures first <= n
  {
    var limit := if maxContext > 2 then maxContext else 2;
    if n <= limit then 0 else n - limit
  }

  lemma LastFromFirst(stored: seq<Row>, maxContext: nat)
    ensures Context(stored, maxContext) == DropLeadingTools(stored[FirstOfLast(|stored|, maxContext)..])
  {
    assert stored[0..] == stored;
  }

  lemma Suffixes(stored: seq<Row>, first: nat, n: nat)
    requires first + n <= |stored|
    ensures stored[first..][|stored| - first - n..] == stored[|stored| - n..]
    ensures forall i :: first <= i < |stored| ==> stored[i] == stored[first..][i - first]
  {
  }

  /** The context is the end of the conversation: of the last rows only tool rows at their beginning are left out, and
      all of those. */
  lemma ContextIs(stored: seq<Row>, maxContext: nat)
    ensures var rows, n, first := Context(stored, maxContext), |stored|, FirstOfLast(|stored|, maxContext);
            && |rows| <= n - first && rows == stored[n - |rows|..]
            && (rows != [] ==> rows[0].role != Tool)
            && forall i :: first <= i < n - |rows| ==> stored[i].role == Tool
  {
    var first := FirstOfLast(|stored|, maxContext);
    LastFromFirst(stored, maxContext);
    DroppedAreTools(stored[first..]);
    Suffixes(stored, first, |DropLeadingTools(stored[first..])|);
  }

  method ContextRows(stored: seq<Row>, maxContext: nat) returns (rows: seq<Row>)
    ensures rows == Context(stored, maxContext)
  {
    var limit := if maxContext < 2 then 2 else maxContext;
    rows := Last(stored, limit);
    while rows != [] && rows[0].role == Tool
      invariant DropLeadingTools(rows) == Context(stored, maxContext)
    {
      rows := rows[1..];
    }
  }

  // ---------------- what the history says ----------------

  /** The calls that have an id. */
  function Identified(calls: seq<StoredCall>): seq<StoredCall> {
    if calls == [] then []
    else
      var n := |calls| - 1;
      Identified(calls[..n]) + if calls[n].id != "" then [calls[n]] else []
  }

  /** These calls are those of the row that have an id, in order, each with the name in its function or else beside
      it, and with its arguments or else those of an empty object. */
  predicate CallsOf(calls: seq<Call>, stored: seq<StoredCall>) {
    && |calls| == |Identified(stored)|
    && forall k :: 0 <= k < |calls| ==>
         var item := Identified(stored)[k];
         && calls[k].id == item.id
         && calls[k].name == (if item.functionName == "" then item.itemName else item.functionName)
         && calls[k].arguments == (if item.arguments == "" then "{}" else item.arguments)
  }

  lemma {:induction false} LoadedAre(stored: seq<StoredCall>)
    ensures CallsOf(Loaded(stored), stored)
  {
    if stored != [] {
      LoadedAre(stored[..|stored| - 1]);
    }
  }

  /** The message says what the row says. */
  predicate Says(m: Message, row: Row) {
    match row.role
    case Assistant =>
      if Identified(row.toolCalls) != [] then m.Calling? && m.content == row.content && CallsOf(m.calls, row.toolCalls)
      else m == Plain(Assistant, row.content)
    case Tool => m == Result(row.toolCallId, row.content)
    case Other => false
    case _ => m == Plain(row.role, row.content)
  }

  /** There is something to say: text that is not blank, a call with an id, or the id a result is for. */
  predicate Speaks(row: Row) {
    match row.role
    case Tool => row.toolCallId != ""
    case Other => false
    case _ =>
      || (exists k :: 0 <= k < |row.content| && !IsSpace(row.content[k]))
      || (row.role == Assistant && Identified(row.toolCalls) != [])
  }

  function Speaking(rows: seq<Row>): seq<Row> {
    if rows == [] then [] else (if Speaks(rows[0]) then [rows[0]] else []) + Speaking(rows[1..])
  }

  /** The messages without the notes for calls that no row answers. */
  function Spoken(ms: seq<Message>): seq<Message> {
    if ms == [] then [] else (if ms[0].PendingNote? then [] else [ms[0]]) + Spoken(ms[1..])
  }

  lemma {:induction false} SpokenAppend(a: seq<Message>, b: seq<Message>)
    ensures Spoken(a + b) == Spoken(a) + Spoken(b)
  {
    if a == [] {
      assert a + b == b;
    } else {
      SpokenAppend(a[1..], b);
      assert (a + b)[0] == a[0] && (a + b)[1..] == a[1..] + b;
      JoinAssociates(if a[0].PendingNote? then [] else [a[0]], Spoken(a[1..]), Spoken(b));
    }
  }

  lemma {:induction false} NotesSayNothing(calls: seq<Call>, answered: set<string>)
    ensures Spoken(Notes(calls, answered)) == []
  {
    if calls != [] {
      NotesSayNothing(calls[1..], answered);
      if calls[0].id !in answered {
        assert Notes(calls, answered)[1..] == Notes(calls[1..], answered);
      } else {
        assert Notes(calls, answered) == Notes(calls[1..], answered);
      }
    }
  }

  lemma RowSays(row: Row, answered: set<string>)
    ensures var ms := Spoken(Emitted(row, answered));
            if Speaks(row) then |ms| == 1 && Says(ms[0], row) else ms == []
  {
    var ms := Emitted(row, answered);
    LoadedAre(row.toolCalls);
    if row.role == Assistant && Loaded(row.toolCalls) != [] {
      NotesSayNothing(Loaded(row.toolCalls), answered);
      assert ms[1..] == Notes(Loaded(row.toolCalls), answered);
    } else if ms != [] {
      assert ms[1..] == [];
    }
  }

  /** The history says what the rows say, in their order: one message for each row that says something, with its text,
      its calls and the id that it answers, and nothing else but notes for unanswered calls. */
  lemma {:induction false} HistorySays(rows: seq<Row>, answered: set<string>)
    ensures var ms, speaking := Spoken(History(rows, answered)), Speaking(rows);
            |ms| == |speaking| && forall k :: 0 <= k < |ms| ==> Says(ms[k], speaking[k])
  {
    if rows != [] {
      RowSays(rows[0], answered);
      HistorySays(rows[1..], answered);
      SpokenAppend(Emitted(rows[0], answered), History(rows[1..], answered));
    }
  }

  // ---------------- how often a call is made and answered ----------------

  function CallCount(calls: seq<Call>, id: string): nat {
    if calls == [] then 0 else (if calls[0].id == id then 1 else 0) + CallCount(calls[1..], id)
  }

  /** How often a message makes call id, or answers it. */
  function Makes(m: Message, id: string): nat {
    if m.Calling? then CallCount(m.calls, id) else 0
  }

  function Answers(m: Message, id: string): nat {
    if (m.Result? || m.PendingNote?) && m.id == id then 1 else 0
  }

  function Made(ms: seq<Message>, id: string): nat {
    if ms == [] then 0 else Makes(ms[0], id) + Made(ms[1..], id)
  }

  function AnswersIn(ms: seq<Message>, id: string): nat {
    if ms == [] then 0 else Answers(ms[0], id) + AnswersIn(ms[1..], id)
  }

  function IsToolRow(row: Row, id: string): bool {
    row.role == Tool && row.toolCallId == id != ""
  }

  function ToolRows(rows: seq<Row>, id: string): nat {
    if rows == [] then 0 else (if IsToolRow(rows[0], id) then 1 else 0) + ToolRows(rows[1..], id)
  }

  lemma {:induction false} CountsAppend(a: seq<Message>, b: seq<Message>, id: string)
    ensures Made(a + b, id) == Made(a, id) + Made(b, id)
    ensures AnswersIn(a + b, id) == AnswersIn(a, id) + AnswersIn(b, id)
  {
    if a == [] {
      assert a + b == b;
    } else {
      CountsAppend(a[1..], b, id);
      assert (a + b)[1..] == a[1..] + b;
    }
  }

  /** Notes answer exactly the unanswered calls, each as often as it is made. */
  lemma {:induction false} NotesAnswerTheRest(calls: seq<Call>, answered: set<string>, id: string)
    ensures Made(Notes(calls, answered), id) == 0
    ensures AnswersIn(Notes(calls, answered), id) == if id in answered then 0 else CallCount(calls, id)
  {
    if calls != [] {
      NotesAnswerTheRest(calls[1..], answered, id);
      var first := if calls[0].id in answered then [] else [PendingNote(calls[0].id)];
      CountsAppend(first, Notes(calls[1..], answered), id);
      assert first == [] || first[1..] == [];
    }
  }

  lemma EmittedCounts(row: Row, answered: set<string>, id: string)
    ensures var ms := Emitted(row, answered);
            AnswersIn(ms, id) == (if IsToolRow(row, id) then 1 else 0) + (if id in answered then 0 else Made(ms, id))
  {
    var ms := Emitted(row, answered);
    if row.role == Assistant && Loaded(row.toolCalls) != [] {
      var calls := Loaded(row.toolCalls);
      NotesAnswerTheRest(calls, answered, id);
      assert ms[1..] == Notes(calls, answered);
    } else if ms != [] {
      assert ms[1..] == [];
    }
  }

  /** In the messages of any rows, a call id is answered by each of its tool rows if there are any, and
      otherwise by one note per call. */
  lemma {:induction false} AnswerCounts(rows: seq<Row>, answered: set<string>, id: string)
    ensures var ms := History(rows, answered);
            AnswersIn(ms, id) == ToolRows(rows, id) + (if id in answered then 0 else Made(ms, id))
  {
    if rows != [] {
      AnswerCounts(rows[1..], answered, id);
      EmittedCounts(rows[0], answered, id);
      CountsAppend(Emitted(rows[0], answered), History(rows[1..], answered), id);
    }
  }

  lemma {:induction false} AnsweredHasARow(rows: seq<Row>, id: string)
    ensures id in Answered(rows) <==> ToolRows(rows, id) > 0
  {
    if rows != [] {
      AnsweredHasARow(rows[1..], id);
      AnsweredSplit(rows, id);
    }
  }

  lemma AnsweredSplit(rows: seq<Row>, id: string)
    requires rows != []
    ensures id in Answered(rows) <==> IsToolRow(rows[0], id) || id in Answered(rows[1..])
  {
    if id in Answered(rows) {
      var i :| 0 <= i < |rows| && IsToolRow(rows[i], id);
      if i > 0 {
        assert IsToolRow(rows[1..][i - 1], id);
      }
    }
    forall i | 0 <= i < |rows| - 1 && IsToolRow(rows[1..][i], id) ensures id in Answered(rows) {
      assert rows[1..][i] == rows[i + 1];
    }
  }

  /** Whatever the rows, no call goes unanswered; and a call id is answered exactly once if and only if it
      has exactly one tool row, or none and is called once. */
  lemma EveryCallIsAnswered(rows: seq<Row>, id: string)
    ensures var ms := History(rows, Answered(rows));
            && (Made(ms, id) > 0 ==> AnswersIn(ms, id) > 0)
            && (AnswersIn(ms, id) == 1
                <==> ToolRows(rows, id) == 1 || (ToolRows(rows, id) == 0 && Made(ms, id) == 1))
  {
    AnswerCounts(rows, Answered(rows), id);
    AnsweredHasARow(rows, id);
  }

  // ---------------- results directly after their calls ----------------

  predicate IsAnswer(m: Message) { m.Result? || m.PendingNote? }

  function LeadingAnswers(ms: seq<Message>): (n: nat)
    ensures n <= |ms|
  {
    if ms == [] || !IsAnswer(ms[0]) then 0 else 1 + LeadingAnswers(ms[1..])
  }

  /** What a model service accepts: every message that makes calls is directly followed by as many answers
      to each id as it has calls with it, and there are no other answers. */
  ghost predicate WellAnswered(ms: seq<Message>)
    decreases |ms|
  {
    ms == []
    || (!IsAnswer(ms[0])
        && var n := LeadingAnswers(ms[1..]) + 1;
        (forall id :: AnswersIn(ms[1..n], id) == Makes(ms[0], id)) && WellAnswered(ms[n..]))
  }

  function LeadingTools(rows: seq<Row>): (n: nat)
    ensures n <= |rows|
    ensures n < |rows| ==> rows[n].role != Tool
    ensures forall i :: 0 <= i < n ==> rows[i].role == Tool
  {
    if rows == [] || rows[0].role != Tool then 0 else 1 + LeadingTools(rows[1..])
  }

  function RowCalls(row: Row, id: string): nat {
    if row.role == Assistant then CallCount(Loaded(row.toolCalls), id) else 0
  }

  /** Where the block that starts the rows ends. */
  function BlockEnd(rows: seq<Row>): (n: nat)
    requires rows != []
    ensures 0 < n <= |rows|
    ensures n < |rows| ==> rows[n].role != Tool
    ensures forall i :: 1 <= i < n ==> rows[i].role == Tool
  {
    LeadingTools(rows[1..]) + 1
  }

  /** A row that is not a tool row and the tool rows directly after it agree on every answered id. */
  predicate BlockFits(head: Row, tools: seq<Row>, answered: set<string>) {
    forall id :: id in answered ==> ToolRows(tools, id) == RowCalls(head, id)
  }

  predicate RowsFit(rows: seq<Row>, answered: set<string>)
    decreases |rows|
  {
    rows == []
    || (rows[0].role != Tool
        && var n := BlockEnd(rows);
        BlockFits(rows[0], rows[1..n], answered) && RowsFit(rows[n..], answered))
  }

  /** The row puts a message into the history. */
  predicate Shows(row: Row) {
    match row.role
    case Assistant => Loaded(row.toolCalls) != [] || !Blank(row.content)
    case Tool => row.toolCallId != ""
    case Other => false
    case _ => !Blank(row.content)
  }

  function Shown(rows: seq<Row>): (r: seq<Row>)
    ensures forall i :: 0 <= i < |r| ==> Shows(r[i])
    ensures |r| <= |rows|
  {
    if rows == [] then [] else (if Shows(rows[0]) then [rows[0]] else []) + Shown(rows[1..])
  }

  lemma {:induction false} ShownSaysTheSame(rows: seq<Row>, answered: set<string>)
    ensures History(Shown(rows), answered) == History(rows, answered)
  {
    if rows != [] {
      ShownSaysTheSame(rows[1..], answered);
      if Shows(rows[0]) {
        assert Shown(rows)[1..] == Shown(rows[1..]);
      } else {
        assert Emitted(rows[0], answered) == [];
        assert [] + Shown(rows[1..]) == Shown(rows[1..]);
        assert [] + History(rows[1..], answered) == History(rows[1..], answered);
      }
    }
  }

  lemma {:induction false} ShownToolRows(rows: seq<Row>, id: string)
    ensures ToolRows(Shown(rows), id) == ToolRows(rows, id)
  {
    if rows != [] {
      ShownToolRows(rows[1..], id);
      if Shows(rows[0]) {
        assert Shown(rows)[1..] == Shown(rows[1..]);
      } else {
        assert [] + Shown(rows[1..]) == Shown(rows[1..]);
      }
    }
  }

  lemma ShownAnswersTheSame(rows: seq<Row>)
    ensures Answered(Shown(rows)) == Answered(rows)
  {
    forall id ensures id in Answered(Shown(rows)) <==> id in Answered(rows) {
      AnsweredHasARow(rows, id);
      AnsweredHasARow(Shown(rows), id);
      ShownToolRows(rows, id);
    }
  }

  /** The messages of tool rows, all shown, are their results. */
  lemma {:induction false} ToolRowsEmit(rows: seq<Row>, answered: set<string>, id: string)
    requires forall i :: 0 <= i < |rows| ==> rows[i].role == Tool && Shows(rows[i])
    ensures |History(rows, answered)| == |rows|
    ensures forall i :: 0 <= i < |rows| ==> IsAnswer(History(rows, answered)[i])
    ensures AnswersIn(History(rows, answered), id) == ToolRows(rows, id)
  {
    if rows != [] {
      ToolRowsEmit(rows[1..], answered, id);
      assert History(rows, answered)[1..] == History(rows[1..], answered);
    }
  }

  function Emitter(answered: set<string>): Row -> seq<Message> {
    row => Emitted(row, answered)
  }

  lemma {:induction false} HistoryIsFlat(rows: seq<Row>, answered: set<string>)
    ensures History(rows, answered) == Flat(rows, Emitter(answered))
  {
    if rows != [] {
      HistoryIsFlat(rows[1..], answered);
    }
  }

  lemma HistoryAppend(a: seq<Row>, b: seq<Row>, answered: set<string>)
    ensures History(a + b, answered) == History(a, answered) + History(b, answered)
  {
    HistoryIsFlat(a, answered);
    HistoryIsFlat(b, answered);
    HistoryIsFlat(a + b, answered);
    FlatAppend(a, b, Emitter(answered));
  }

  lemma {:induction false} LeadingAnswersAre(a: seq<Message>, b: seq<Message>)
    requires forall i :: 0 <= i < |a| ==> IsAnswer(a[i])
    requires b == [] || !IsAnswer(b[0])
    ensures LeadingAnswers(a + b) == |a|
  {
    if a == [] {
      assert a + b == b;
    } else {
      LeadingAnswersAre(a[1..], b);
      assert (a + b)[1..] == a[1..] + b;
    }
  }

  lemma {:induction false} NotesAreAnswers(calls: seq<Call>, answered: set<string>)
    ensures forall i :: 0 <= i < |Notes(calls, answered)| ==> IsAnswer(Notes(calls, answered)[i])
  {
    if calls != [] {
      NotesAreAnswers(calls[1..], answered);
    }
  }

  /** The message of a shown row that is not a tool row, and the notes after it. */
  lemma HeadEmits(head: Row, answered: set<string>, id: string)
    requires head.role != Tool && Shows(head)
    ensures var ms := Emitted(head, answered);
            && ms != [] && !IsAnswer(ms[0]) && Makes(ms[0], id) == RowCalls(head, id)
            && (forall i :: 0 <= i < |ms[1..]| ==> IsAnswer(ms[1..][i]))
            && AnswersIn(ms[1..], id) == if id in answered then 0 else RowCalls(head, id)
  {
    if head.role == Assistant {
      var calls := Loaded(head.toolCalls);
      NotesAreAnswers(calls, answered);
      NotesAnswerTheRest(calls, answered, id);
      if calls != [] {
        assert Emitted(head, answered)[1..] == Notes(calls, answered);
      }
    }
  }

  /** The messages of a block, split after its first. */
  lemma BlockEmits(head: Row, tools: seq<Row>, answered: set<string>, id: string)
    requires head.role != Tool && Shows(head)
    requires forall i :: 0 <= i < |tools| ==> tools[i].role == Tool && Shows(tools[i])
    ensures var ms := Emitted(head, answered) + History(tools, answered);
            && ms != [] && !IsAnswer(ms[0]) && Makes(ms[0], id) == RowCalls(head, id)
            && (forall i :: 0 <= i < |ms[1..]| ==> IsAnswer(ms[1..][i]))
            && AnswersIn(ms[1..], id) == (if id in answered then 0 else RowCalls(head, id)) + ToolRows(tools, id)
  {
    HeadEmits(head, answered, id);
    ToolRowsEmit(tools, answered, id);
    JoinedAnswers(Emitted(head, answered), History(tools, answered), id);
  }

  lemma JoinedAnswers(first: seq<Message>, rest: seq<Message>, id: string)
    requires first != []
    requires forall i :: 0 <= i < |first[1..]| ==> IsAnswer(first[1..][i])
    requires forall i :: 0 <= i < |rest| ==> IsAnswer(rest[i])
    ensures var ms := first + rest;
            && ms[0] == first[0] && (forall i :: 0 <= i < |ms[1..]| ==> IsAnswer(ms[1..][i]))
            && AnswersIn(ms[1..], id) == AnswersIn(first[1..], id) + AnswersIn(rest, id)
  {
    assert (first + rest)[1..] == first[1..] + rest;
    CountsAppend(first[1..], rest, id);
  }

  lemma BlockAnsweredIff(head: Row, tools: seq<Row>, answered: set<string>)
    requires head.role != Tool && Shows(head)
    requires forall i :: 0 <= i < |tools| ==> tools[i].role == Tool && Shows(tools[i])
    requires Answered(tools) <= answered
    ensures var ms := Emitted(head, answered) + History(tools, answered);
            ms != [] && ((forall id :: AnswersIn(ms[1..], id) == Makes(ms[0], id))
                <==> BlockFits(head, tools, answered))
  {
    var ms := Emitted(head, answered) + History(tools, answered);
    BlockEmits(head, tools, answered, "");
    forall id
      ensures AnswersIn(ms[1..], id) == Makes(ms[0], id)
              <==> id !in answered || ToolRows(tools, id) == RowCalls(head, id)
    {
      BlockEmits(head, tools, answered, id);
      AnsweredHasARow(tools, id);
    }
  }

  lemma WellAnsweredBlock(block: seq<Message>, rest: seq<Message>)
    requires block != [] && !IsAnswer(block[0]) && forall i :: 0 <= i < |block[1..]| ==> IsAnswer(block[1..][i])
    requires rest == [] || !IsAnswer(rest[0])
    ensures WellAnswered(block + rest)
            <==> (forall id :: AnswersIn(block[1..], id) == Makes(block[0], id)) && WellAnswered(rest)
  {
    var ms := block + rest;
    assert ms[1..] == block[1..] + rest;
    LeadingAnswersAre(block[1..], rest);
    assert ms[1..|block|] == block[1..] && ms[|block|..] == rest;
  }

  lemma HistoryStart(rows: seq<Row>, answered: set<string>)
    requires rows != [] && Shows(rows[0])
    ensures History(rows, answered) != []
    ensures IsAnswer(History(rows, answered)[0]) <==> rows[0].role == Tool
  {
    if rows[0].role != Tool { HeadEmits(rows[0], answered, ""); }
  }

  lemma AnsweredOfPart(rows: seq<Row>, i: nat, j: nat)
    requires i <= j <= |rows|
    ensures Answered(rows[i..j]) <= Answered(rows)
  {
    forall id | id in Answered(rows[i..j]) ensures id in Answered(rows) {
      var k :| 0 <= k < j - i && IsToolRow(rows[i..j][k], id);
      assert IsToolRow(rows[i + k], id);
    }
  }

  lemma BlockStep(head: Row, tools: seq<Row>, rest: seq<Row>, answered: set<string>)
    requires head.role != Tool && Shows(head)
    requires forall i :: 0 <= i < |tools| ==> tools[i].role == Tool && Shows(tools[i])
    requires Answered(tools) <= answered
    requires rest != [] ==> rest[0].role != Tool && Shows(rest[0])
    ensures WellAnswered(History([head] + (tools + rest), answered))
            <==> BlockFits(head, tools, answered) && WellAnswered(History(rest, answered))
  {
    var block, later := Emitted(head, answered) + History(tools, answered), History(rest, answered);
    HistoryAppend(tools, rest, answered);
    Uncons(head, tools + rest);
    JoinAssociates(Emitted(head, answered), History(tools, answered), later);
    if rest != [] { HistoryStart(rest, answered); }
    BlockEmits(head, tools, answered, "");
    BlockAnsweredIff(head, tools, answered);
    WellAnsweredBlock(block, later);
  }

  /** The rows all show, and what they answer is among the answered ids. */
  predicate AllShown(rows: seq<Row>, answered: set<string>) {
    (forall i :: 0 <= i < |rows| ==> Shows(rows[i])) && Answered(rows) <= answered
  }

  lemma CutAtBlockEnd(rows: seq<Row>)
    requires rows != []
    ensures var n := BlockEnd(rows); rows == [rows[0]] + (rows[1..n] + rows[n..]) && rows[n..|rows|] == rows[n..]
  {
  }

  lemma FirstBlock(rows: seq<Row>, answered: set<string>)
    requires rows != [] && rows[0].role != Tool && AllShown(rows, answered)
    ensures var n := BlockEnd(rows);
            && AllShown(rows[n..], answered)
            && (WellAnswered(History(rows, answered))
                <==> BlockFits(rows[0], rows[1..n], answered) && WellAnswered(History(rows[n..], answered)))
  {
    var n := BlockEnd(rows);
    AnsweredOfPart(rows, n, |rows|);
    AnsweredOfPart(rows, 1, n);
    CutAtBlockEnd(rows);
    BlockStep(rows[0], rows[1..n], rows[n..], answered);
  }

  lemma {:induction false} ShownRowsIff(rows: seq<Row>, answered: set<string>)
    requires AllShown(rows, answered)
    ensures WellAnswered(History(rows, answered)) <==> RowsFit(rows, answered)
    decreases |rows|
  {
    if rows != [] {
      if rows[0].role == Tool {
        HistoryStart(rows, answered);
      } else {
        FirstBlock(rows, answered);
        ShownRowsIff(rows[BlockEnd(rows)..], answered);
      }
    }
  }

  /** For any rows at all: the model accepts their history exactly when the rows that show start with a
      row that is not a tool row and each of those, with the tool rows after it, agrees on every answered
      id. */
  lemma WellAnsweredIff(rows: seq<Row>)
    ensures WellAnswered(History(rows, Answered(rows))) <==> RowsFit(Shown(rows), Answered(rows))
  {
    ShownSaysTheSame(rows, Answered(rows));
    ShownAnswersTheSame(rows);
    ShownRowsIff(Shown(rows), Answered(rows));
  }

  // ---------------- cutting the conversation ----------------

  lemma {:induction false} FewerAnswered(rows: seq<Row>, answered: set<string>, fewer: set<string>)
    requires RowsFit(rows, answered) && fewer <= answered
    ensures RowsFit(rows, fewer)
    decreases |rows|
  {
    if rows != [] {
      FewerAnswered(rows[BlockEnd(rows)..], answered, fewer);
    }
  }

  lemma {:induction false} DroppingTools(tools: seq<Row>, rest: seq<Row>)
    requires forall i :: 0 <= i < |tools| ==> tools[i].role == Tool
    requires rest == [] || rest[0].role != Tool
    ensures DropLeadingTools(tools + rest) == rest
  {
    if tools == [] {
      assert tools + rest == rest;
    } else {
      DroppingTools(tools[1..], rest);
      assert (tools + rest)[1..] == tools[1..] + rest;
    }
  }

  /** A cut inside the first block leaves the blocks after it. */
  lemma CutInBlock(rows: seq<Row>, k: nat)
    requires rows != [] && rows[0].role != Tool && 0 < k < BlockEnd(rows)
    ensures DropLeadingTools(rows[k..]) == rows[BlockEnd(rows)..]
  {
    var n := BlockEnd(rows);
    assert rows[k..] == rows[k..n] + rows[n..];
    DroppingTools(rows[k..n], rows[n..]);
  }

  /** However many rows are cut off, what is left after dropping leading tool rows still fits. */
  lemma {:induction false} CutFits(rows: seq<Row>, k: nat, answered: set<string>)
    requires RowsFit(rows, answered) && k <= |rows|
    ensures RowsFit(DropLeadingTools(rows[k..]), answered)
    decreases |rows|
  {
    if k == 0 {
      assert rows[0..] == rows;
    } else if k >= BlockEnd(rows) {
      var n := BlockEnd(rows);
      CutFits(rows[n..], k - n, answered);
      assert rows[n..][k - n..] == rows[k..];
    } else {
      CutInBlock(rows, k);
    }
  }

  lemma {:induction false} ShownStaysTool(tools: seq<Row>)
    requires forall i :: 0 <= i < |tools| ==> tools[i].role == Tool
    ensures forall i :: 0 <= i < |Shown(tools)| ==> Shown(tools)[i].role == Tool
  {
    if tools != [] {
      ShownStaysTool(tools[1..]);
    }
  }

  lemma {:induction false} ShownAppend(a: seq<Row>, b: seq<Row>)
    ensures Shown(a + b) == Shown(a) + Shown(b)
  {
    if a == [] {
      assert a + b == b;
    } else {
      ShownAppend(a[1..], b);
      assert (a + b)[1..] == a[1..] + b && (a + b)[0] == a[0];
      JoinAssociates(if Shows(a[0]) then [a[0]] else [], Shown(a[1..]), Shown(b));
    }
  }

  /** A row that puts nothing into the history leaves no shown tool row after it. */
  lemma {:induction false} HiddenHeadHasNoTools(tools: seq<Row>, answered: set<string>)
    requires forall i :: 0 <= i < |tools| ==> tools[i].role == Tool
    requires Answered(tools) <= answered && forall id :: id in answered ==> ToolRows(tools, id) == 0
    ensures Shown(tools) == []
  {
    if tools != [] {
      var id := tools[0].toolCallId;
      if Shows(tools[0]) {
        AnsweredHasARow(tools, id);
        assert false;
      }
      forall id | id in answered ensures ToolRows(tools[1..], id) == 0 {
        assert ToolRows(tools, id) == 0;
      }
      AnsweredOfPart(tools, 1, |tools|);
      HiddenHeadHasNoTools(tools[1..], answered);
    }
  }

  /** A block in front of rows that fit. */
  lemma FitsMore(head: Row, tools: seq<Row>, rest: seq<Row>, answered: set<string>)
    requires head.role != Tool && BlockFits(head, tools, answered) && RowsFit(rest, answered)
    requires forall i :: 0 <= i < |tools| ==> tools[i].role == Tool
    ensures RowsFit([head] + (tools + rest), answered)
  {
    var rows := [head] + (tools + rest);
    assert rows[1..] == tools + rest;
    LeadingToolsAre(tools, rest);
    assert rows[1..|tools| + 1] == tools && rows[|tools| + 1..] == rest;
  }

  lemma {:induction false} LeadingToolsAre(tools: seq<Row>, rest: seq<Row>)
    requires forall i :: 0 <= i < |tools| ==> tools[i].role == Tool
    requires rest == [] || rest[0].role != Tool
    ensures LeadingTools(tools + rest) == |tools|
  {
    if tools == [] {
      assert tools + rest == rest;
    } else {
      LeadingToolsAre(tools[1..], rest);
      assert (tools + rest)[1..] == tools[1..] + rest;
    }
  }

  lemma ShownBlock(head: Row, tools: seq<Row>, rest: seq<Row>, answered: set<string>)
    requires head.role != Tool && BlockFits(head, tools, answered) && RowsFit(Shown(rest), answered)
    requires forall i :: 0 <= i < |tools| ==> tools[i].role == Tool
    requires Answered(tools) <= answered
    ensures RowsFit(Shown([head] + (tools + rest)), answered)
  {
    ShownAppend([head], tools + rest);
    ShownAppend(tools, rest);
    assert [head][1..] == [];
    if Shows(head) {
      forall id | id in answered ensures ToolRows(Shown(tools), id) == RowCalls(head, id) {
        ShownToolRows(tools, id);
      }
      ShownStaysTool(tools);
      FitsMore(head, Shown(tools), Shown(rest), answered);
      assert Shown([head]) == [head];
    } else {
      forall id | id in answered ensures ToolRows(tools, id) == 0 {
        assert ToolRows(tools, id) == RowCalls(head, id);
      }
      HiddenHeadHasNoTools(tools, answered);
      assert Shown([head] + (tools + rest)) == Shown(rest);
    }
  }

  /** Rows that fit still fit once the rows that show nothing are taken out. */
  lemma {:induction false} FitsWhenShown(rows: seq<Row>, answered: set<string>)
    requires RowsFit(rows, answered) && Answered(rows) <= answered
    ensures RowsFit(Shown(rows), answered)
    decreases |rows|
  {
    if rows != [] {
      var n := BlockEnd(rows);
      AnsweredOfPart(rows, n, |rows|);
      AnsweredOfPart(rows, 1, n);
      CutAtBlockEnd(rows);
      FitsWhenShown(rows[n..], answered);
      ShownBlock(rows[0], rows[1..n], rows[n..], answered);
    }
  }

  lemma FitsIsWellAnswered(rows: seq<Row>)
    requires RowsFit(rows, Answered(rows))
    ensures WellAnswered(History(rows, Answered(rows)))
  {
    FitsWhenShown(rows, Answered(rows));
    WellAnsweredIff(rows);
  }

  lemma AnsweredOfSuffix(rows: seq<Row>, part: seq<Row>)
    requires |part| <= |rows| && part == rows[|rows| - |part|..]
    ensures Answered(part) <= Answered(rows)
  {
    AnsweredOfPart(rows, |rows| - |part|, |rows|);
    assert part == rows[|rows| - |part|..|rows|];
  }

  /** Cutting a conversation down to its last rows never makes the model refuse it, wherever the cut
      falls: a result cut off from its call is dropped, and calls keep all their results. */
  lemma CutIsWellAnswered(stored: seq<Row>, maxContext: nat)
    requires RowsFit(stored, Answered(stored))
    ensures var rows := Context(stored, maxContext); WellAnswered(History(rows, Answered(rows)))
  {
    var last := Last(stored, if maxContext < 2 then 2 else maxContext);
    var rows := DropLeadingTools(last);
    CutFits(stored, |stored| - |last|, Answered(stored));
    AnsweredOfSuffix(stored, last);
    DroppedAreTools(last);
    AnsweredOfSuffix(last, rows);
    FewerAnswered(rows, Answered(stored), Answered(rows));
    FitsIsWellAnswered(rows);
  }
}
