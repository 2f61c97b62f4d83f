/** The streaming protocol between ai_service.py and static/ai.js: a worker appends generated text to a
    buffer, and a page polls the buffer by offset over a network that may lose its requests. */
module StreamPolling {
  import opened Options

  // ---------------- the buffer (ai_service.py, _Stream) ----------------

  datatype Status = Streaming | Done | Failed | Canceled

  datatype Buffer = Buffer(content: string, rounds: nat, roundPending: bool, status: Status)

  datatype Snapshot = Snapshot(total: nat, content: string, status: Status)

  predicate EndsLine(text: string) {
    text != "" && text[|text| - 1] == '\n'
  }

  function Begun(b: Buffer): Buffer {
    b.(rounds := b.rounds + 1, roundPending := true)
  }

  /** A blank line separates the text of a new round from unfinished text before it. */
  function Joint(b: Buffer): string {
    if b.roundPending && b.content != "" && !EndsLine(b.content) then "\n\n" else ""
  }

  function WithDelta(b: Buffer, text: string): Buffer {
    if text == "" then b else b.(content := b.content + Joint(b) + text, roundPending := false)
  }

  function WithText(b: Buffer, text: string): Buffer {
    b.(content := b.content + text, roundPending := false)
  }

  function Clamp(offset: int, total: nat): (r: nat)
    ensures r <= total
    ensures 0 <= offset <= total ==> r == offset
    ensures offset < 0 ==> r == 0
    ensures offset > total ==> r == total
  {
    if offset < 0 then 0 else if offset > total then total else offset
  }

  function SnapshotOf(b: Buffer, offset: int): Snapshot {
    Snapshot(|b.content|, b.content[Clamp(offset, |b.content|)..], b.status)
  }

  class Stream {
    var content: string
    var rounds: nat
    var roundPending: bool
    var status: Status

    constructor ()
      ensures State() == Buffer("", 0, false, Streaming)
    {
      content, rounds, roundPending, status := "", 0, false, Streaming;
    }

    function State(): Buffer
      reads this
    {
      Buffer(content, rounds, roundPending, status)
    }

    method BeginRound()
      modifies this
      ensures State() == Begun(old(State()))
      ensures content == old(content) && status == old(status) && roundPending && rounds == old(rounds) + 1
    {
      roundPending := true;
      rounds := rounds + 1;
    }

    method AppendDelta(text: string)
      modifies this
      ensures State() == WithDelta(old(State()), text)
      ensures text == "" ==> State() == old(State())
      ensures text != "" ==>
                && status == old(status) && rounds == old(rounds) && !roundPending && old(content) <= content
                && content[|old(content)|..] ==
                   if old(roundPending) && old(content) != "" && old(content)[|old(content)| - 1] != '\n'
                   then "\n\n" + text else text
    {
      if text == "" { return; }
      if roundPending && content != "" && content[|content| - 1] != '\n' {
        content := content + "\n\n";
      }
      roundPending := false;
      content := content + text;
    }

    method AppendText(text: string)
      modifies this
      ensures State() == WithText(old(State()), text)
      ensures content == old(content) + text && status == old(status) && rounds == old(rounds) && !roundPending
    {
      roundPending := false;
      content := content + text;
    }

    method Finish(status: Status)
      modifies this
      ensures State() == old(State()).(status := status)
    {
      this.status := status;
    }

    method TakeSnapshot(offset: int) returns (r: Snapshot)
      ensures r == SnapshotOf(State(), offset)
      ensures r.total == |content| && r.status == status
      ensures 0 <= offset <= |content| ==> r.content == content[offset..]
      ensures offset < 0 ==> r.content == content
      ensures offset > |content| ==> r.content == ""
    {
      var total := |content|;
      var start := if offset < 0 then 0 else if offset > total then total else offset;
      r := Snapshot(total, content[start..], status);
    }
  }

  function WithDeltas(b: Buffer, deltas: seq<string>): Buffer
    decreases |deltas|
  {
    if deltas == [] then b else WithDeltas(WithDelta(b, deltas[0]), deltas[1..])
  }

  function Concat(texts: seq<string>): string {
    if texts == [] then "" else texts[0] + Concat(texts[1..])
  }

  /** How the model's text is cut into deltas does not matter: the blank line between rounds appears at
      most once and never inside a round. */
  lemma {:induction false} ChunkingDoesNotMatter(b: Buffer, deltas: seq<string>)
    ensures WithDeltas(b, deltas) == WithDelta(b, Concat(deltas))
    decreases |deltas|
  {
    if deltas != [] {
      var rest := Concat(deltas[1..]);
      var b' := WithDelta(b, deltas[0]);
      ChunkingDoesNotMatter(b', deltas[1..]);
      if deltas[0] != "" && rest != "" {
        assert b'.content + rest == b.content + Joint(b) + (deltas[0] + rest);
      } else {
        assert deltas[0] + "" == deltas[0] && "" + rest == rest;
      }
    }
  }

  /** Several rounds, each begun and then cut into deltas. */
  function AfterRounds(b: Buffer, rounds: seq<seq<string>>): Buffer
    decreases |rounds|
  {
    if rounds == [] then b else AfterRounds(WithDeltas(Begun(b), rounds[0]), rounds[1..])
  }

  /** The texts as paragraphs after a text: an empty line before each that is not empty, unless it comes first or the
      line before it has ended. */
  function Paragraphs(text: string, rounds: seq<seq<string>>): string
    decreases |rounds|
  {
    if rounds == [] then text
    else
      var next := Concat(rounds[0]);
      if next == "" then Paragraphs(text, rounds[1..])
      else if text == "" || text[|text| - 1] == '\n' then Paragraphs(text + next, rounds[1..])
      else Paragraphs(text + "\n\n" + next, rounds[1..])
  }

  /** What a stream holds are the paragraphs of its rounds, however each is cut into deltas. */
  lemma {:induction false} RoundsAreParagraphs(b: Buffer, rounds: seq<seq<string>>)
    ensures AfterRounds(b, rounds).content == Paragraphs(b.content, rounds)
    ensures AfterRounds(b, rounds).status == b.status && AfterRounds(b, rounds).rounds == b.rounds + |rounds|
    decreases |rounds|
  {
    if rounds != [] {
      var next := Concat(rounds[0]);
      ChunkingDoesNotMatter(Begun(b), rounds[0]);
      assert b.content + "" + next == b.content + next;
      RoundsAreParagraphs(WithDelta(Begun(b), next), rounds[1..]);
    }
  }

  // ---------------- the poller (static/ai.js) ----------------

  /** What the page showed last: nothing yet, the end of the stream it was attached to with the text it then
      held, or that it gave up polling. */
  datatype Shown = Nothing | Ended(id: nat, status: Status, text: string) | GaveUp

  /** `armed`: the timer whose handle the page keeps is pending.  `strays` counts pending timers whose handle
      was overwritten, which nothing can clear any more. */
  datatype Page = Page(
    streamId: Option<nat>, offset: nat, liveText: string, pollErrors: nat, polling: bool,
    armed: bool, strays: nat, shown: Shown)

  /** setTimeout, keeping the new handle. */
  function Armed(p: Page): Page {
    p.(armed := true, strays := p.strays + (if p.armed then 1 else 0))
  }

  const MAX_POLL_ERRORS: nat := 5

  function Attached(p: Page, id: nat): Page {
    Page(Some(id), 0, "", 0, true, true, p.strays, Nothing)
  }

  function Closed(p: Page, shown: Shown): Page {
    p.(polling := false, armed := false, streamId := None, shown := shown)
  }

  /** The user leaves the conversation: its poller is stopped and its text dropped. */
  function Left(p: Page): Page {
    Closed(p, Nothing).(offset := 0, liveText := "")
  }

  /** What the page shows when an answer ends its polling: the end of the stream it is attached to, whichever
      stream the answer came from. */
  function Seen(p: Page, status: Status): Shown {
    if p.streamId.Some? then Ended(p.streamId.value, status, p.liveText) else p.shown
  }

  function Received(p: Page, data: Snapshot): Page {
    var p' := p.(pollErrors := 0, liveText := p.liveText + data.content,
                 offset := if data.total == 0 then p.offset else data.total);
    if data.status == Streaming then Armed(p') else Closed(p', Seen(p', data.status))
  }

  function Missed(p: Page): Page {
    var p' := p.(pollErrors := p.pollErrors + 1);
    if p'.pollErrors >= MAX_POLL_ERRORS then Closed(p', GaveUp) else Armed(p')
  }

  function Fired(p: Page, stray: bool): Page
    requires if stray then p.strays > 0 else p.armed
  {
    if stray then p.(strays := p.strays - 1) else p.(armed := false)
  }

  class Poller {
    var streamId: Option<nat>
    var offset: nat
    var liveText: string
    var pollErrors: nat
    var polling: bool
    var armed: bool
    var strays: nat
    var shown: Shown

    constructor ()
      ensures State() == Page(None, 0, "", 0, false, false, 0, Nothing)
    {
      streamId, offset, liveText, pollErrors, polling := None, 0, "", 0, false;
      armed, strays, shown := false, 0, Nothing;
    }

    function State(): Page
      reads this
    {
      Page(streamId, offset, liveText, pollErrors, polling, armed, strays, shown)
    }

    method SetTimer()
      modifies this
      ensures State() == Armed(old(State()))
    {
      if armed { strays := strays + 1; }
      armed := true;
    }

    method StopPolling()
      modifies this
      ensures State() == old(State()).(polling := false, armed := false)
    {
      polling := false;
      armed := false;
    }

    method AttachStream(id: nat)
      modifies this
      ensures State() == Attached(old(State()), id)
      ensures streamId == Some(id) && offset == 0 && liveText == "" && pollErrors == 0 && polling && armed
    {
      StopPolling();
      streamId := Some(id);
      offset := 0;
      liveText := "";
      pollErrors := 0;
      polling := true;
      shown := Nothing;
      SetTimer();
    }

    method FinishStream(result: Shown)
      modifies this
      ensures State() == Closed(old(State()), result)
    {
      StopPolling();
      streamId := None;
      shown := result;
    }

    method SelectConversation()
      modifies this
      ensures State() == Left(old(State()))
      ensures streamId == None && liveText == "" && !polling && !armed
    {
      StopPolling();
      offset := 0;
      liveText := "";
      streamId := None;
      shown := Nothing;
    }

    /** A timer fires, the kept one or a stray: the request to send, if any. */
    method PollOnce(stray: bool) returns (request: Option<(nat, nat)>)
      requires if stray then strays > 0 else armed
      modifies this
      ensures State() == Fired(old(State()), stray)
      ensures request == if polling && streamId.Some? then Some((streamId.value, offset)) else None
    {
      if stray { strays := strays - 1; } else { armed := false; }
      if !polling || streamId.None? { return None; }
      request := Some((streamId.value, offset));
    }

    method Receive(data: Snapshot)
      modifies this
      ensures State() == Received(old(State()), data)
      ensures liveText == old(liveText) + data.content && pollErrors == 0
      ensures offset == if data.total == 0 then old(offset) else data.total
      ensures if data.status == Streaming then streamId == old(streamId) && polling == old(polling) && armed
              else streamId == None && !polling && !armed
    {
      pollErrors := 0;
      liveText := liveText + data.content;
      offset := if data.total == 0 then offset else data.total;
      if data.status == Streaming {
        SetTimer();
        return;
      }
      FinishStream(if streamId.Some? then Ended(streamId.value, data.status, liveText) else shown);
    }

    method Miss()
      modifies this
      ensures State() == Missed(old(State()))
      ensures liveText == old(liveText) && offset == old(offset) && pollErrors == old(pollErrors) + 1
      ensures if pollErrors < 5 then streamId == old(streamId) && polling == old(polling) && armed
              else streamId == None && !polling && !armed && shown == GaveUp
    {
      pollErrors := pollErrors + 1;
      if pollErrors >= MAX_POLL_ERRORS {
        FinishStream(GaveUp);
        return;
      }
      SetTimer();
    }
  }

  function MissedTimes(p: Page, k: nat): Page {
    if k == 0 then p else Missed(MissedTimes(p, k - 1))
  }

  lemma {:induction false} MissesCount(p: Page, k: nat)
    requires p.streamId.Some? && p.polling && p.armed && p.pollErrors == 0 && k <= 5
    ensures var q := MissedTimes(p, k);
            && q.liveText == p.liveText && q.offset == p.offset && q.pollErrors == k
            && (if k < 5 then q.streamId == p.streamId && q.polling && q.armed && q.shown == p.shown
                else q.streamId == None && !q.polling && !q.armed && q.shown == GaveUp)
  {
    if k > 0 {
      MissesCount(p, k - 1);
    }
  }

  /** A page that has just attached, or has just had an answer of a stream that goes on, survives four lost polls in a
      row with its text and position, polling on, and the fifth one makes it give up. */
  lemma FifthMissGivesUp(p: Page, id: nat, data: Snapshot, answered: bool, k: nat)
    requires answered ==> p.streamId.Some? && p.polling && data.status == Streaming
    requires k <= 5
    ensures var now := if answered then Received(p, data) else Attached(p, id);
            var q := MissedTimes(now, k);
            && now.streamId == (if answered then p.streamId else Some(id)) && now.polling && now.armed
            && q.liveText == now.liveText && q.offset == now.offset
            && (if k < 5 then q.streamId == now.streamId && q.polling && q.armed && q.shown == now.shown
                else q.streamId == None && !q.polling && !q.armed && q.shown == GaveUp)
  {
    MissesCount(if answered then Received(p, data) else Attached(p, id), k);
  }

  // ---------------- the two of them and the network ----------------

  /** A reply carries, for the proofs, the clamped offset at which its content starts. */
  datatype Packet = Request(id: nat, offset: nat) | Reply(id: nat, start: nat, data: Snapshot) | Failure

  /** A worker's buffer, whether the server still keeps it, and the text stored with the message. */
  datatype Job = Job(buffer: Buffer, kept: bool, stored: Option<string>)

  datatype System = System(jobs: seq<Job>, net: seq<Packet>, page: Page)

  datatype Event =
    | Start                          // a new generation and its worker
    | BeginRound(id: nat)
    | Delta(id: nat, text: string)
    | Text(id: nat, text: string)
    | Store(id: nat)                 // _finalize writes the message row...
    | Finish(id: nat, status: Status)  // ...and then ends the stream
    | Forget(id: nat)                // _cleanup_streams
    | Attach(id: nat)
    | Leave
    | Tick(stray: bool)              // one of the page's timers fires
    | Serve(i: nat)
    | Lose(i: nat)
    | Deliver(i: nat)

  /** The worker of stream id is still generating. */
  predicate Generating(s: System, id: nat) {
    id < |s.jobs| && s.jobs[id].buffer.status == Streaming && s.jobs[id].stored.None?
  }

  /** What can happen.  In particular a page attaches, and attaches anew, whatever is still on its way. */
  predicate Enabled(s: System, e: Event) {
    match e
    case Start => true
    case BeginRound(id) => Generating(s, id)
    case Delta(id, _) => Generating(s, id)
    case Text(id, _) => Generating(s, id)
    case Store(id) => Generating(s, id)
    case Finish(id, status) =>
      id < |s.jobs| && s.jobs[id].buffer.status == Streaming && s.jobs[id].stored.Some? && status != Streaming
    case Forget(id) => id < |s.jobs|
    case Attach(id) => id < |s.jobs|
    case Leave => true
    case Tick(stray) => if stray then s.page.strays > 0 else s.page.armed
    case Serve(i) => i < |s.net| && s.net[i].Request? && s.net[i].id < |s.jobs|
    case Lose(i) => i < |s.net|
    case Deliver(i) => i < |s.net| && !s.net[i].Request?
  }

  function Answer(jobs: seq<Job>, id: nat, offset: nat): Packet
    requires id < |jobs|
  {
    if jobs[id].kept then
      Reply(id, Clamp(offset, |jobs[id].buffer.content|), SnapshotOf(jobs[id].buffer, offset))
    else Failure
  }

  function Write(s: System, id: nat, buffer: Buffer): System
    requires id < |s.jobs|
  {
    s.(jobs := s.jobs[id := s.jobs[id].(buffer := buffer)])
  }

  function Without(net: seq<Packet>, i: nat): seq<Packet>
    requires i < |net|
  {
    net[..i] + net[i + 1..]
  }

  function Apply(s: System, e: Event): System
    requires Enabled(s, e)
  {
    match e
    case Start => s.(jobs := s.jobs + [Job(Buffer("", 0, false, Streaming), true, None)])
    case BeginRound(id) => Write(s, id, Begun(s.jobs[id].buffer))
    case Delta(id, text) => Write(s, id, WithDelta(s.jobs[id].buffer, text))
    case Text(id, text) => Write(s, id, WithText(s.jobs[id].buffer, text))
    case Store(id) => s.(jobs := s.jobs[id := s.jobs[id].(stored := Some(s.jobs[id].buffer.content))])
    case Finish(id, status) => Write(s, id, s.jobs[id].buffer.(status := status))
    case Forget(id) => s.(jobs := s.jobs[id := s.jobs[id].(kept := false)])
    case Attach(id) => s.(page := Attached(s.page, id))
    case Leave => s.(page := Left(s.page))
    case Tick(stray) =>
      var sent :=
        if s.page.polling && s.page.streamId.Some? then [Request(s.page.streamId.value, s.page.offset)] else [];
      s.(page := Fired(s.page, stray), net := s.net + sent)
    case Serve(i) => s.(net := s.net[i := Answer(s.jobs, s.net[i].id, s.net[i].offset)])
    case Lose(i) => s.(net := s.net[i := Failure])
    case Deliver(i) =>
      var page := if s.net[i].Reply? then Received(s.page, s.net[i].data) else Missed(s.page);
      s.(page := page, net := Without(s.net, i))
  }

  predicate ValidRun(s: System, es: seq<Event>)
    decreases |es|
  {
    es == [] || (Enabled(s, es[0]) && ValidRun(Apply(s, es[0]), es[1..]))
  }

  function After(s: System, es: seq<Event>): System
    requires ValidRun(s, es)
    decreases |es|
  {
    if es == [] then s else After(Apply(s, es[0]), es[1..])
  }

  const INITIAL := System([], [], Page(None, 0, "", 0, false, false, 0, Nothing))

  // ---------------- what every reachable state satisfies ----------------

  /** The page holds exactly the first `offset` characters of the buffer. */
  predicate Synced(p: Page, b: Buffer) {
    p.offset <= |b.content| && p.liveText == b.content[..p.offset]
  }

  predicate JobOk(j: Job) {
    && (j.stored.Some? ==> j.stored.value == j.buffer.content)
    && (j.buffer.status != Streaming ==> j.stored.Some?)
  }

  /** A reply carries a piece of its own stream's buffer, and a final one reaches to its end. */
  predicate ReplyOk(b: Buffer, start: nat, data: Snapshot) {
    && start <= data.total <= |b.content| && data.content == b.content[start..data.total]
    && (data.status != Streaming ==> data.total == |b.content| && data.status == b.status)
  }

  predicate PacketOk(packet: Packet, jobs: seq<Job>) {
    match packet
    case Request(id, _) => id < |jobs|
    case Failure => true
    case Reply(id, start, data) => id < |jobs| && ReplyOk(jobs[id].buffer, start, data)
  }

  predicate EndOk(shown: Shown, jobs: seq<Job>) {
    shown.Ended? ==>
      && shown.id < |jobs| && jobs[shown.id].buffer.status == shown.status != Streaming
      && jobs[shown.id].buffer.content == shown.text
  }

  /** What holds after any events, whatever the page shows. */
  predicate Inv(s: System) {
    && (forall id :: 0 <= id < |s.jobs| ==> JobOk(s.jobs[id]))
    && (forall i :: 0 <= i < |s.net| ==> PacketOk(s.net[i], s.jobs))
    && (s.page.streamId.Some? ==> s.page.streamId.value < |s.jobs|)
    && (s.page.polling <==> s.page.streamId.Some?)
  }

  /** A page attached to no stream shows the final text it ended with, or nothing after leaving. */
  predicate Idle(p: Page) {
    && (p.shown.Ended? ==> p.liveText == p.shown.text)
    && (p.shown.Nothing? ==> p.liveText == "")
  }

  /** The attached page is in step with its stream, a page that is not attached shows no other text, and an end
      it has shown was shown with the whole text. */
  predicate InStep(s: System)
    requires Inv(s)
  {
    && (if s.page.streamId.Some? then Synced(s.page, s.jobs[s.page.streamId.value].buffer) else Idle(s.page))
    && EndOk(s.page.shown, s.jobs)
  }

  /** b' is b after more of the same generation. */
  predicate Grown(b: Buffer, b': Buffer) {
    |b.content| <= |b'.content| && b.content == b'.content[..|b.content|] && b'.status == b.status
  }

  lemma WritesGrow(b: Buffer, text: string)
    ensures Grown(b, Begun(b)) && Grown(b, WithDelta(b, text)) && Grown(b, WithText(b, text))
  {
  }

  lemma GrowthKeepsReplies(b: Buffer, b': Buffer, start: nat, data: Snapshot)
    requires ReplyOk(b, start, data) && Grown(b, b') && b.status == Streaming
    ensures ReplyOk(b', start, data)
  {
    assert b.content == b'.content[..|b.content|];
  }

  lemma GrowthKeepsSync(p: Page, b: Buffer, b': Buffer)
    requires Synced(p, b) && Grown(b, b')
    ensures Synced(p, b')
  {
  }

  lemma WriteKeepsInv(s: System, id: nat, b': Buffer)
    requires Inv(s) && Generating(s, id) && Grown(s.jobs[id].buffer, b')
    ensures Inv(Write(s, id, b')) && (InStep(s) ==> InStep(Write(s, id, b')))
  {
    var t := Write(s, id, b');
    forall i | 0 <= i < |t.net| ensures PacketOk(t.net[i], t.jobs) {
      assert PacketOk(s.net[i], s.jobs);
      if s.net[i].Reply? && s.net[i].id == id {
        GrowthKeepsReplies(s.jobs[id].buffer, b', s.net[i].start, s.net[i].data);
      }
    }
    if InStep(s) && s.page.streamId == Some(id) {
      GrowthKeepsSync(s.page, s.jobs[id].buffer, b');
    }
  }

  lemma FinishKeepsInv(s: System, id: nat, status: Status)
    requires Inv(s) && Enabled(s, Finish(id, status))
    ensures var t := Apply(s, Finish(id, status)); Inv(t) && (InStep(s) ==> InStep(t))
  {
    var t := Apply(s, Finish(id, status));
    forall i | 0 <= i < |t.net| ensures PacketOk(t.net[i], t.jobs) {
      assert PacketOk(s.net[i], s.jobs);
    }
  }

  lemma NetKeepsInv(s: System, t: System)
    requires Inv(s) && t.jobs == s.jobs && (forall i :: 0 <= i < |t.net| ==> PacketOk(t.net[i], t.jobs))
    requires t.page.streamId == s.page.streamId && t.page.polling == s.page.polling && t.page.shown == s.page.shown
    requires t.page.offset == s.page.offset && t.page.liveText == s.page.liveText
    ensures Inv(t) && (InStep(s) ==> InStep(t))
  {
  }

  lemma ServeKeepsInv(s: System, i: nat)
    requires Inv(s) && Enabled(s, Serve(i))
    ensures var t := Apply(s, Serve(i)); Inv(t) && (InStep(s) ==> InStep(t))
  {
    NetKeepsInv(s, Apply(s, Serve(i)));
  }

  lemma TickKeepsInv(s: System, stray: bool)
    requires Inv(s) && Enabled(s, Tick(stray))
    ensures var t := Apply(s, Tick(stray)); Inv(t) && (InStep(s) ==> InStep(t))
  {
    NetKeepsInv(s, Apply(s, Tick(stray)));
  }

  lemma DeliverKeepsInv(s: System, i: nat)
    requires Inv(s) && Enabled(s, Deliver(i))
    ensures Inv(Apply(s, Deliver(i)))
  {
    var t := Apply(s, Deliver(i));
    forall j | 0 <= j < |t.net| ensures PacketOk(t.net[j], t.jobs) {
      assert t.net[j] == s.net[if j < i then j else j + 1];
    }
  }

  lemma JobsKeepInv(s: System, t: System)
    requires Inv(s) && t.net == s.net && t.page == s.page && |t.jobs| >= |s.jobs|
    requires forall id :: 0 <= id < |t.jobs| ==> JobOk(t.jobs[id])
    requires forall id :: 0 <= id < |s.jobs| ==> t.jobs[id].buffer == s.jobs[id].buffer
    ensures Inv(t) && (InStep(s) ==> InStep(t))
  {
    forall i | 0 <= i < |t.net| ensures PacketOk(t.net[i], t.jobs) {
      assert PacketOk(s.net[i], s.jobs);
    }
  }

  /** The step delivers a reply to the page, attached or not. */
  predicate Answers(s: System, e: Event)
    requires Enabled(s, e)
  {
    e.Deliver? && s.net[e.i].Reply?
  }

  lemma JobEventKeepsInv(s: System, e: Event)
    requires Inv(s) && Enabled(s, e) && (e.Start? || e.Store? || e.Forget?)
    ensures Inv(Apply(s, e)) && (InStep(s) ==> InStep(Apply(s, e)))
  {
    JobsKeepInv(s, Apply(s, e));
  }

  lemma PageEventKeepsInv(s: System, e: Event)
    requires Inv(s) && Enabled(s, e) && (e.Attach? || e.Leave?)
    ensures Inv(Apply(s, e)) && (InStep(s) ==> InStep(Apply(s, e)))
  {
  }

  lemma WritingKeepsInv(s: System, e: Event, id: nat, text: string)
    requires Inv(s) && Generating(s, id) && e in {BeginRound(id), Delta(id, text), Text(id, text)}
    ensures Inv(Apply(s, e)) && (InStep(s) ==> InStep(Apply(s, e)))
  {
    var b := s.jobs[id].buffer;
    WritesGrow(b, text);
    match e
    case BeginRound(_) => WriteKeepsInv(s, id, Begun(b));
    case Delta(_, _) => WriteKeepsInv(s, id, WithDelta(b, text));
    case Text(_, _) => WriteKeepsInv(s, id, WithText(b, text));
  }

  lemma StepInv(s: System, e: Event)
    requires Inv(s) && Enabled(s, e)
    ensures Inv(Apply(s, e))
    ensures InStep(s) && !Answers(s, e) ==> InStep(Apply(s, e))
  {
    match e
    case Start => JobEventKeepsInv(s, e);
    case BeginRound(id) => WritingKeepsInv(s, e, id, "");
    case Delta(id, text) => WritingKeepsInv(s, e, id, text);
    case Text(id, text) => WritingKeepsInv(s, e, id, text);
    case Store(id) => JobEventKeepsInv(s, e);
    case Finish(id, status) => FinishKeepsInv(s, id, status);
    case Forget(id) => JobEventKeepsInv(s, e);
    case Tick(stray) => TickKeepsInv(s, stray);
    case Serve(i) => ServeKeepsInv(s, i);
    case Lose(i) => NetKeepsInv(s, Apply(s, e));
    case Deliver(i) => DeliverKeepsInv(s, i);
    case _ => PageEventKeepsInv(s, e);
  }

  // ---------------- exactly which answers keep the page right ----------------

  /** The answer starts where the page stands and carries the characters of b from there on, or is empty. */
  predicate FitsHere(p: Page, b: Buffer, start: nat, data: Snapshot) {
    data.total == 0
    || (start == p.offset && start <= data.total <= |b.content| && data.content == b.content[start..data.total])
  }

  /** An answer, to whichever poll and of whichever stream, leaves the page a prefix of the stream it shows
      exactly when it starts where the page stands and carries that stream's characters (or none). */
  lemma SyncedIffFits(p: Page, b: Buffer, start: nat, data: Snapshot)
    requires Synced(p, b) && start <= data.total && |data.content| == data.total - start
    ensures Synced(Received(p, data), b) <==> FitsHere(p, b, start, data)
  {
    var p' := Received(p, data);
    if data.total != 0 {
      assert |p'.liveText| == p.offset + (data.total - start);
      if start == p.offset && data.total <= |b.content| {
        assert b.content[..data.total] == b.content[..start] + b.content[start..data.total];
        if p'.liveText == b.content[..data.total] {
          assert data.content == p'.liveText[start..];
        }
      }
    }
  }

  /** For an answer of the stream the page is attached to, it is the start alone that counts. */
  lemma SyncedIffStartsHere(p: Page, b: Buffer, start: nat, data: Snapshot)
    requires Synced(p, b) && ReplyOk(b, start, data)
    ensures Synced(Received(p, data), b) <==> start == p.offset || data.total == 0
  {
    SyncedIffFits(p, b, start, data);
  }

  /** A final answer tells how stream b ended and takes the page to the end of its text. */
  predicate EndFits(p: Page, b: Buffer, data: Snapshot) {
    data.status != Streaming ==>
      data.status == b.status && |b.content| == (if data.total == 0 then p.offset else data.total)
  }

  /** The answer that the step delivers, if it does, fits the page: to an attached page it carries what comes
      next of the page's stream, and its end only if it ended; to any other page it carries no text. */
  predicate FitStep(s: System, e: Event)
    requires Inv(s) && Enabled(s, e)
  {
    Answers(s, e) ==>
      if s.page.streamId.Some? then
        var b := s.jobs[s.page.streamId.value].buffer;
        FitsHere(s.page, b, s.net[e.i].start, s.net[e.i].data) && EndFits(s.page, b, s.net[e.i].data)
      else s.net[e.i].data.content == ""
  }

  /** The page now shows a prefix of b, and if it has let go of its stream it shows the end of b. */
  predicate ShowsStream(p: Page, id: nat, b: Buffer) {
    Synced(p, b) && (p.streamId.None? ==> p.liveText == b.content && p.shown == Ended(id, b.status, b.content))
  }

  /** The answer that the step delivers, if it does, leaves an attached page with a prefix of its stream, and
      with its final text and status if polling is over; it leaves any other page with the text it had. */
  predicate SoundStep(s: System, e: Event)
    requires Inv(s) && Enabled(s, e)
  {
    Answers(s, e) ==>
      if s.page.streamId.Some? then
        ShowsStream(Apply(s, e).page, s.page.streamId.value, s.jobs[s.page.streamId.value].buffer)
      else Apply(s, e).page.liveText == s.page.liveText
  }

  /** The answer shows the page its stream exactly when it fits. */
  lemma ShowsIffFits(p: Page, b: Buffer, start: nat, data: Snapshot)
    requires p.streamId.Some? && Synced(p, b) && start <= data.total && |data.content| == data.total - start
    ensures ShowsStream(Received(p, data), p.streamId.value, b) <==> FitsHere(p, b, start, data) && EndFits(p, b, data)
  {
    SyncedIffFits(p, b, start, data);
    var p' := Received(p, data);
    if Synced(p', b) {
      assert p'.liveText == b.content <==> p'.offset == |b.content|;
    }
  }

  lemma SoundIffFits(s: System, e: Event)
    requires Inv(s) && InStep(s) && Enabled(s, e)
    ensures SoundStep(s, e) <==> FitStep(s, e)
  {
    if Answers(s, e) {
      var reply := s.net[e.i];
      assert PacketOk(reply, s.jobs);
      if s.page.streamId.Some? {
        ShowsIffFits(s.page, s.jobs[s.page.streamId.value].buffer, reply.start, reply.data);
      } else {
        assert |s.page.liveText + reply.data.content| == |s.page.liveText| + |reply.data.content|;
      }
    }
  }

  /** A final answer of the attached stream itself always fits as an end. */
  lemma OwnEndFits(p: Page, b: Buffer, start: nat, data: Snapshot)
    requires Synced(p, b) && ReplyOk(b, start, data)
    ensures EndFits(p, b, data)
  {
  }

  lemma FitStaysInStep(s: System, e: Event)
    requires Inv(s) && InStep(s) && Enabled(s, e) && FitStep(s, e)
    ensures Inv(Apply(s, e)) && InStep(Apply(s, e))
  {
    StepInv(s, e);
    if Answers(s, e) {
      SoundIffFits(s, e);
    }
  }

  predicate AlwaysSound(s: System, es: seq<Event>)
    requires Inv(s) && ValidRun(s, es)
    decreases |es|
  {
    es == [] || (SoundStep(s, es[0]) && (StepInv(s, es[0]); AlwaysSound(Apply(s, es[0]), es[1..])))
  }

  predicate AlwaysFits(s: System, es: seq<Event>)
    requires Inv(s) && ValidRun(s, es)
    decreases |es|
  {
    es == [] || (FitStep(s, es[0]) && (StepInv(s, es[0]); AlwaysFits(Apply(s, es[0]), es[1..])))
  }

  /** Over any run of workers, pages that attach and leave when they please and a lossy network: an attached
      page never shows anything but a prefix of its stream nor an end but its end, and a page attached to nothing
      never gets more text, exactly when every answer fits. */
  lemma {:induction false} AlwaysSoundIffFits(s: System, es: seq<Event>)
    requires Inv(s) && InStep(s) && ValidRun(s, es)
    ensures AlwaysSound(s, es) <==> AlwaysFits(s, es)
    decreases |es|
  {
    if es != [] {
      SoundIffFits(s, es[0]);
      if FitStep(s, es[0]) {
        FitStaysInStep(s, es[0]);
        AlwaysSoundIffFits(Apply(s, es[0]), es[1..]);
      }
    }
  }

  lemma {:induction false} RunInStep(s: System, es: seq<Event>)
    requires Inv(s) && InStep(s) && ValidRun(s, es) && AlwaysFits(s, es)
    ensures Inv(After(s, es)) && InStep(After(s, es))
    decreases |es|
  {
    if es != [] {
      FitStaysInStep(s, es[0]);
      RunInStep(Apply(s, es[0]), es[1..]);
    }
  }

  /** In such a run the attached page shows exactly the first `offset` characters of what was generated, and a
      page that is not attached shows the final text it ended with, or nothing after leaving. */
  lemma PageShowsAPrefix(es: seq<Event>)
    requires ValidRun(INITIAL, es) && AlwaysFits(INITIAL, es)
    ensures var s := After(INITIAL, es);
            if s.page.streamId.Some? then
              s.page.streamId.value < |s.jobs| && Synced(s.page, s.jobs[s.page.streamId.value].buffer)
            else Idle(s.page)
  {
    RunInStep(INITIAL, es);
  }

  /** And when an answer ends the page's polling, it holds the whole final text of the stream it was attached
      to, the same text the server stored with the message, under the status the worker set. */
  lemma FinalTextIsComplete(es: seq<Event>)
    requires ValidRun(INITIAL, es) && AlwaysFits(INITIAL, es)
    ensures var s := After(INITIAL, es);
            s.page.shown.Ended? ==>
              var id := s.page.shown.id;
              && id < |s.jobs| && s.jobs[id].stored == Some(s.page.shown.text)
              && s.jobs[id].buffer.content == s.page.shown.text && s.jobs[id].buffer.status == s.page.shown.status
  {
    RunInStep(INITIAL, es);
    var s := After(INITIAL, es);
    if s.page.shown.Ended? { assert JobOk(s.jobs[s.page.shown.id]); }
  }

  /** What is written to a stream is written before its text is stored, so no event changes the stored text
      or the buffer of a stream that has ended, over any run. */
  lemma {:induction false} EndedIsFrozen(s: System, es: seq<Event>, id: nat)
    requires Inv(s) && ValidRun(s, es) && id < |s.jobs| && s.jobs[id].stored.Some?
    ensures id < |After(s, es).jobs| && After(s, es).jobs[id].stored == s.jobs[id].stored
    ensures After(s, es).jobs[id].buffer.content == s.jobs[id].stored.value
    ensures s.jobs[id].buffer.status != Streaming ==> After(s, es).jobs[id].buffer.status == s.jobs[id].buffer.status
    decreases |es|
  {
    assert JobOk(s.jobs[id]);
    if es != [] {
      StepInv(s, es[0]);
      EndedIsFrozen(Apply(s, es[0]), es[1..], id);
    }
  }

  /** Whatever happens after the page has shown the end of a stream, fitting answers or not, the text it then
      held stays the stored one. */
  lemma FinalTextStays(es: seq<Event>, later: seq<Event>)
    requires ValidRun(INITIAL, es) && AlwaysFits(INITIAL, es) && After(INITIAL, es).page.shown.Ended?
    requires ValidRun(After(INITIAL, es), later)
    ensures var shown, jobs := After(INITIAL, es).page.shown, After(After(INITIAL, es), later).jobs;
            && shown.id < |jobs| && jobs[shown.id].stored == Some(shown.text)
            && jobs[shown.id].buffer.status == shown.status
  {
    RunInStep(INITIAL, es);
    FinalTextIsComplete(es);
    EndedIsFrozen(After(INITIAL, es), later, After(INITIAL, es).page.shown.id);
  }

  /** Attaching or leaving aside, the page's position and text only grow while its answers fit. */
  lemma OffsetNeverDecreases(s: System, e: Event)
    requires Inv(s) && InStep(s) && Enabled(s, e) && FitStep(s, e)
    requires s.page.streamId.Some? && !e.Attach? && !e.Leave?
    ensures s.page.offset <= Apply(s, e).page.offset
    ensures s.page.liveText <= Apply(s, e).page.liveText
  {
    if Answers(s, e) { assert PacketOk(s.net[e.i], s.jobs); }
  }

  // ---------------- attaching and leaving only when nothing is on its way ----------------

  /** A page that attaches or leaves only when no poll and no answer to one is still on its way. */
  predicate Patient(s: System, es: seq<Event>)
    requires ValidRun(s, es)
    decreases |es|
  {
    es == [] || ((es[0].Attach? || es[0].Leave? ==> s.net == []) && Patient(Apply(s, es[0]), es[1..]))
  }

  /** At most one poll or answer is on its way, none to a page that is not attached, it concerns the present
      position, and no timer is stray. */
  predicate Quiet(s: System)
    requires Inv(s)
  {
    && s.page.strays == 0 && |s.net| <= 1 && (s.page.armed || s.page.streamId.None? ==> s.net == [])
    && (s.page.streamId.Some? ==>
          && (s.net == [] ==> s.page.armed)
          && (s.net != [] ==>
                match s.net[0]
                case Request(id, offset) => Some(id) == s.page.streamId && offset == s.page.offset
                case Failure => true
                case Reply(id, start, _) => Some(id) == s.page.streamId && start == s.page.offset))
  }

  lemma QuietFits(s: System, e: Event)
    requires Inv(s) && InStep(s) && Quiet(s) && Enabled(s, e)
    ensures FitStep(s, e)
  {
    if Answers(s, e) {
      assert PacketOk(s.net[e.i], s.jobs);
      OwnEndFits(s.page, s.jobs[s.page.streamId.value].buffer, s.net[e.i].start, s.net[e.i].data);
    }
  }

  lemma QuietStep(s: System, e: Event)
    requires Inv(s) && InStep(s) && Quiet(s) && Enabled(s, e) && (e.Attach? || e.Leave? ==> s.net == [])
    ensures Inv(Apply(s, e)) && InStep(Apply(s, e)) && Quiet(Apply(s, e))
  {
    QuietFits(s, e);
    FitStaysInStep(s, e);
    if e.Deliver? { assert Without(s.net, e.i) == []; }
  }

  lemma {:induction false} QuietRun(s: System, es: seq<Event>)
    requires Inv(s) && InStep(s) && Quiet(s) && ValidRun(s, es) && Patient(s, es)
    ensures AlwaysFits(s, es) && Inv(After(s, es)) && InStep(After(s, es)) && Quiet(After(s, es))
    decreases |es|
  {
    if es != [] {
      QuietFits(s, es[0]);
      QuietStep(s, es[0]);
      QuietRun(Apply(s, es[0]), es[1..]);
    }
  }

  /** When the page attaches and leaves only with nothing on its way, every answer fits, including after
      re-attaching, and the attached page always has a poll or an answer on its way, so that it is never stuck. */
  lemma PatientPageFits(es: seq<Event>)
    requires ValidRun(INITIAL, es) && Patient(INITIAL, es)
    ensures AlwaysFits(INITIAL, es)
    ensures var s := After(INITIAL, es); s.page.streamId.Some? ==> (s.page.armed <==> s.net == [])
  {
    QuietRun(INITIAL, es);
  }

  lemma WholeEnd(p: Page, id: nat, b: Buffer)
    requires p.streamId == Some(id) && Synced(p, b) && b.status != Streaming
    ensures Received(p, SnapshotOf(b, p.offset)).shown == Ended(id, b.status, b.content)
  {
    OwnEndFits(p, b, p.offset, SnapshotOf(b, p.offset));
    ShowsIffFits(p, b, p.offset, SnapshotOf(b, p.offset));
  }

  /** Once the worker has ended, and the server still keeps the stream, one poll that gets through finishes
      the page with the complete text. */
  lemma OnePollFinishes(s: System, id: nat, status: Status)
    requires Inv(s) && InStep(s) && s.net == [] && s.page.streamId == Some(id) && s.page.armed
    requires s.jobs[id].kept && s.jobs[id].buffer.status == status != Streaming
    ensures ValidRun(s, [Tick(false), Serve(0), Deliver(0)])
    ensures After(s, [Tick(false), Serve(0), Deliver(0)]).page.shown == Ended(id, status, s.jobs[id].buffer.content)
  {
    var s1 := Apply(s, Tick(false));
    var s2 := Apply(s1, Serve(0));
    WholeEnd(s2.page, id, s.jobs[id].buffer);
    assert [Tick(false), Serve(0), Deliver(0)][1..] == [Serve(0), Deliver(0)];
    assert [Serve(0), Deliver(0)][1..] == [Deliver(0)] && [Deliver(0)][1..] == [];
    assert After(s2, [Deliver(0)]) == Apply(s2, Deliver(0));
  }

  /** From the worker's last write to the page: ending a stream whose text is stored, under any status, and one poll
      that gets through. */
  lemma EndReachesThePage(s: System, id: nat, status: Status)
    requires Inv(s) && InStep(s) && s.net == [] && s.page.streamId == Some(id) && s.page.armed
    requires Enabled(s, Finish(id, status)) && s.jobs[id].kept
    ensures ValidRun(Apply(s, Finish(id, status)), [Tick(false), Serve(0), Deliver(0)])
    ensures After(Apply(s, Finish(id, status)), [Tick(false), Serve(0), Deliver(0)]).page.shown
            == Ended(id, status, s.jobs[id].buffer.content)
  {
    StepInv(s, Finish(id, status));
    OnePollFinishes(Apply(s, Finish(id, status)), id, status);
  }

  /** A stream that the server has forgotten answers no poll: the page misses it, with its text and place kept. */
  lemma ForgottenIsMissed(s: System, id: nat)
    requires Inv(s) && s.net == [] && s.page.streamId == Some(id) && s.page.armed
    ensures ValidRun(Apply(s, Forget(id)), [Tick(false), Serve(0), Deliver(0)])
    ensures var p := After(Apply(s, Forget(id)), [Tick(false), Serve(0), Deliver(0)]).page;
            p.pollErrors == s.page.pollErrors + 1 && p.liveText == s.page.liveText && p.offset == s.page.offset
  {
    var s0 := Apply(s, Forget(id));
    var s1 := Apply(s0, Tick(false));
    var s2 := Apply(s1, Serve(0));
    assert [Tick(false), Serve(0), Deliver(0)][1..] == [Serve(0), Deliver(0)];
    assert [Serve(0), Deliver(0)][1..] == [Deliver(0)] && [Deliver(0)][1..] == [];
    assert After(s2, [Deliver(0)]) == Apply(s2, Deliver(0));
  }

  // ---------------- attaching or leaving too early ----------------

  ghost predicate Reaches(s: System, t: System) {
    exists es :: ValidRun(s, es) && After(s, es) == t
  }

  lemma ReachesStep(s: System, e: Event, t: System)
    requires Enabled(s, e) && Reaches(Apply(s, e), t)
    ensures Reaches(s, t)
  {
    var es :| ValidRun(Apply(s, e), es) && After(Apply(s, e), es) == t;
    assert ([e] + es)[1..] == es;
    assert ValidRun(s, [e] + es) && After(s, [e] + es) == t;
  }

  lemma ReachesSelf(s: System)
    ensures Reaches(s, s)
  {
    assert ValidRun(s, []) && After(s, []) == s;
  }

  /** One stream with this text and one page attached to it. */
  function Scene(content: string, net: seq<Packet>, offset: nat, text: string, armed: bool): System {
    System([Job(Buffer(content, 0, false, Streaming), true, None)], net,
           Page(Some(0), offset, text, 0, true, armed, 0, Nothing))
  }

  const ASK := Request(0, 0)
  const GOT := Reply(0, 0, Snapshot(1, "x", Streaming))

  lemma AnswerToAsk(jobs: seq<Job>)
    requires |jobs| == 1 && jobs[0].kept && jobs[0].buffer.content == "x" && jobs[0].buffer.status == Streaming
    ensures Answer(jobs, 0, 0) == GOT
  {
    assert "x"[0..] == "x";
  }

  lemma AttachingAgain(t: System)
    requires Reaches(Scene("x", [GOT, GOT], 0, "", false), t)
    ensures Reaches(Scene("x", [GOT], 0, "", false), t)
  {
    var s1, s2 := Scene("x", [GOT], 0, "", true), Scene("x", [GOT, ASK], 0, "", false);
    AnswerToAsk(s2.jobs);
    assert s2.net[1 := GOT] == [GOT, GOT];
    assert Apply(s2, Serve(1)) == Scene("x", [GOT, GOT], 0, "", false);
    ReachesStep(s2, Serve(1), t);
    assert Apply(s1, Tick(false)) == s2;
    ReachesStep(s1, Tick(false), t);
    assert Apply(Scene("x", [GOT], 0, "", false), Attach(0)) == s1;
    ReachesStep(Scene("x", [GOT], 0, "", false), Attach(0), t);
  }

  lemma FirstAnswerOnItsWay(t: System)
    requires Reaches(Scene("x", [GOT], 0, "", false), t)
    ensures Reaches(INITIAL, t)
  {
    var s1 := INITIAL.(jobs := [Job(Buffer("", 0, false, Streaming), true, None)]);
    var s2, s3, s4 := Scene("", [], 0, "", true), Scene("", [ASK], 0, "", false), Scene("x", [ASK], 0, "", false);
    AnswerToAsk(s4.jobs);
    assert s4.net[0 := GOT] == [GOT];
    assert Apply(s4, Serve(0)) == Scene("x", [GOT], 0, "", false);
    ReachesStep(s4, Serve(0), t);
    assert "" + "" + "x" == "x";
    assert Apply(s3, Delta(0, "x")) == s4;
    ReachesStep(s3, Delta(0, "x"), t);
    assert Apply(s2, Tick(false)) == s3;
    ReachesStep(s2, Tick(false), t);
    assert Apply(s1, Attach(0)) == s2;
    ReachesStep(s1, Attach(0), t);
    assert Apply(INITIAL, Start) == s1;
    ReachesStep(INITIAL, Start, t);
  }

  /** The page attaches, polls, and attaches again while the answer "x" is on its way; it polls again, and
      both answers bring it the same "x". */
  lemma ReattachedPageRepeats() returns (t: System)
    ensures Reaches(INITIAL, t)
    ensures t.page.streamId == Some(0) && |t.jobs| == 1 && t.jobs[0].buffer.content == "x" && t.page.liveText == "xx"
  {
    var twice, once := Scene("x", [GOT, GOT], 0, "", false), Scene("x", [GOT], 1, "x", true);
    t := Apply(once, Deliver(0));
    assert "x" + "x" == "xx";
    ReachesSelf(t);
    ReachesStep(once, Deliver(0), t);
    assert Without([GOT, GOT], 0) == [GOT] && "" + "x" == "x";
    assert Apply(twice, Deliver(0)) == once;
    ReachesStep(twice, Deliver(0), t);
    AttachingAgain(t);
    FirstAnswerOnItsWay(t);
  }

  /** The page leaves while the answer "x" is on its way: the conversation opened next, which it is not attached
      to any stream of, is shown with that text. */
  lemma LeftPageShowsOldText() returns (t: System)
    ensures Reaches(INITIAL, t)
    ensures t.page.streamId == None && t.page.shown == Nothing && t.page.liveText == "x"
  {
    var asked := Scene("x", [GOT], 0, "", false);
    var left := Apply(asked, Leave);
    t := Apply(left, Deliver(0));
    assert "" + "x" == "x";
    ReachesSelf(t);
    ReachesStep(left, Deliver(0), t);
    ReachesStep(asked, Leave, t);
    FirstAnswerOnItsWay(t);
  }

  /** Or it attaches to a second stream, which has produced nothing yet, and shows the text of the first. */
  lemma AttachedPageShowsOtherStream() returns (t: System)
    ensures Reaches(INITIAL, t)
    ensures t.page.streamId == Some(1) && t.page.liveText == "x"
    ensures |t.jobs| == 2 && t.jobs[1].buffer.content == ""
  {
    var asked := Scene("x", [GOT], 0, "", false);
    var started := Apply(asked, Start);
    var attached := Apply(started, Attach(1));
    t := Apply(attached, Deliver(0));
    assert "" + "x" == "x";
    ReachesSelf(t);
    ReachesStep(attached, Deliver(0), t);
    ReachesStep(started, Attach(1), t);
    ReachesStep(asked, Start, t);
    FirstAnswerOnItsWay(t);
  }
}
