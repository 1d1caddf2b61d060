/**
 * The messages of a session and what a session does with its input, as functions of it
 * (main.rs, `main` and `handle_tool_call`; elicit.rs, `elicit_selection` and `send_and_read_strings`).
 */
module SessionModel {
  import opened Sequences
  import opened Wire
  import Grouping

  const ELICITATION_TIMEOUT := 30_000
  const GROUPING_THRESHOLD := 5

  const PARSE_ERROR := -32700
  const METHOD_NOT_FOUND := -32601
  const INVALID_PARAMS := -32602
  const SERVER_BUSY := -32000

  /** A line on the server's input, with the millisecond at which the reader thread reads it. */
  datatype Arrival = Arrival(at: nat, line: Line)

  /** Which of the suggestions that need the user a tool's answer applies. */
  datatype Selection = Unasked | Everything | Chosen(picks: seq<Grouping.Pick>) | Refused

  datatype Body = Fulfilled | ToolAnswer(selection: Selection) | Failed(code: int)

  datatype Sent = Reply(id: Id, body: Body) | DialogRequest(dialog: string) | DialogCancel(dialog: string) | Notice

  datatype ElicitationMode = Prompt | AlwaysAccept | AlwaysSkip

  /** What a tool run ends in; `approvals` counts the suggestions that need the user. */
  datatype ToolResult = PlainText | WithSuggestions(approvals: nat) | CancelledByClient | Errored

  /** A tool run, with its progress notices and its duration. */
  datatype ToolRun = ToolRun(notices: nat, time: nat, result: ToolResult)

  /** How the server was started, and what its tools do. */
  datatype World = World(mode: ElicitationMode, tools: nat -> ToolRun)

  /** How a dialog ends: with picks, declined, by its timeout, or with the whole process. */
  datatype DialogEnd = Answered(picks: seq<Grouping.Pick>) | Declined | Expired | ProcessExit

  predicate IsExit(verb: Option<string>) {
    verb == Some("exit") || verb == Some("notifications/exit")
  }

  /** What the main loop accepts as a message at all. */
  predicate IsMessage(line: Line) {
    var c := line.content;
    c.Object? && c.versioned && c.verb.Some?
  }

  /** A JSON-RPC request: versioned, with a method and an id that is not null (JSON-RPC 2.0, section 4). */
  predicate IsRequest(line: Line) {
    IsMessage(line) && line.content.id.Some? && line.content.id.value != NullId
  }

  /** `dispatch`. */
  function Dispatch(verb: string, params: Option<Params>): Body {
    if verb in ["initialize", "tools/list", "prompts/list", "ping", "shutdown"] then Fulfilled
    else if verb == "prompts/get" && params.Some? && params.value.namesSetupPrompt then Fulfilled
    else Failed(METHOD_NOT_FOUND)
  }

  // ----- one line met by a dialog -----

  /** A cancel that the client sends for a dialog, which declines it. */
  predicate CancelsDialog(line: Line, expected: string) {
    var c := line.content;
    && c.Object? && c.verb == Some(CANCELLED)
    && c.params.Some? && c.params.value.requestId == Some(Text(expected))
  }

  predicate AnswersDialog(line: Line, expected: string) {
    line.content.Object? && line.content.id == Some(Text(expected))
  }

  /** A dialog takes the line as its own affair, or as the end of the process. */
  predicate DialogKeeps(line: Line, expected: string) {
    line.content.Object? &&
    (AnswersDialog(line, expected) || IsExit(line.content.verb) || CancelsDialog(line, expected))
  }

  /** A line that a waiting dialog reacts to by ending. */
  predicate EndsDialog(line: Line, expected: string) {
    DialogKeeps(line, expected) || (line.content.Object? && line.content.verb == Some("shutdown"))
  }

  /** What a line that ends a dialog makes of it. */
  function EndOf(line: Line, expected: string): DialogEnd
    requires EndsDialog(line, expected)
  {
    var c := line.content;
    if AnswersDialog(line, expected) then
      if c.result.Some? && c.result.value.accepted then Answered(c.result.value.selected) else Declined
    else if IsExit(c.verb) || !CancelsDialog(line, expected) then ProcessExit
    else Declined
  }

  /** The reply to a line that a dialog takes. */
  function DialogReply(line: Line, expected: string): seq<Sent> {
    var c := line.content;
    if !c.Object? || c.id.None? || DialogKeeps(line, expected) then []
    else [Reply(c.id.value, if c.verb == Some("shutdown") then Fulfilled else Failed(SERVER_BUSY))]
  }

  /** All that a dialog sends because of a line: the reply, and a log notice about what it did not expect. */
  function LineSends(line: Line, expected: string): seq<Sent> {
    var c := line.content;
    DialogReply(line, expected) +
    if c.NotObject? || (c.Object? && !EndsDialog(line, expected))
      || (AnswersDialog(line, expected) && c.result.None?)
    then [Notice] else []
  }

  // ----- a dialog -----

  /** A dialog as it took place; `grouped` tells whether its answer may ask for the other view. */
  datatype Dialog = Dialog(
    name: string, grouped: bool, began: nat, lines: seq<Arrival>, end: DialogEnd, finished: nat)

  function DialogName(n: nat): string {
    "s-" + Grouping.Decimal(n)
  }

  /** How many arrivals a dialog takes: up to the first that ends it, and none from the deadline on. */
  function Reach(name: string, deadline: nat, inbox: seq<Arrival>): (n: nat)
    ensures n <= |inbox|
  {
    if inbox == [] || inbox[0].at >= deadline then 0
    else if EndsDialog(inbox[0].line, name) then 1
    else 1 + Reach(name, deadline, inbox[1..])
  }

  /** The clock after receiving some lines. */
  function Latest(now: nat, lines: seq<Arrival>): nat {
    if lines == [] then now else Max(Latest(now, lines[..|lines| - 1]), lines[|lines| - 1].at)
  }

  /** What the last of the lines taken makes of a dialog. */
  function Ending(name: string, lines: seq<Arrival>): DialogEnd {
    if lines != [] && EndsDialog(lines[|lines| - 1].line, name) then EndOf(lines[|lines| - 1].line, name) else Expired
  }

  /** The dialog that takes place when it is started in front of an inbox. */
  function DialogAt(name: string, grouped: bool, now: nat, inbox: seq<Arrival>): (d: Dialog)
    ensures |d.lines| <= |inbox|
  {
    var deadline := now + ELICITATION_TIMEOUT;
    var lines := inbox[..Reach(name, deadline, inbox)];
    var end := Ending(name, lines);
    Dialog(name, grouped, now, lines, end,
           if end.Expired? && |lines| < |inbox| then deadline else Latest(now, lines))
  }

  /** The answer asks for the suggestions in the other view. */
  predicate Switches(d: Dialog) {
    d.grouped && d.end.Answered? && Grouping.FirstView(d.end.picks).Some?
  }

  /** The dialogs that take place one after the other: another one only after a switch of view. */
  function DialogsAt(first: nat, rounds: nat, grouped: bool, now: nat, inbox: seq<Arrival>): seq<Dialog>
    decreases rounds
  {
    if rounds == 0 then []
    else
      var d := DialogAt(DialogName(first), grouped, now, inbox);
      [d] + if Switches(d) then DialogsAt(first + 1, rounds - 1, grouped, d.finished, inbox[|d.lines|..]) else []
  }

  /** What the dialogs come to: the picks of the last one. */
  function PicksOf(dialogs: seq<Dialog>): Option<seq<Grouping.Pick>> {
    if dialogs == [] then None
    else
      var d := dialogs[|dialogs| - 1];
      if d.end.Answered? && !Switches(d) then Some(d.end.picks) else None
  }

  predicate EndsInExit(dialogs: seq<Dialog>) {
    dialogs != [] && dialogs[|dialogs| - 1].end.ProcessExit?
  }

  function LinesSend(lines: seq<Arrival>, name: string): seq<Sent> {
    if lines == [] then []
    else LinesSend(lines[..|lines| - 1], name) + LineSends(lines[|lines| - 1].line, name)
  }

  /** What a dialog and its client exchange: the request, what the lines call for, and the cancel on expiry. */
  function Exchange(name: string, lines: seq<Arrival>, end: DialogEnd): seq<Sent> {
    [DialogRequest(name)] + LinesSend(lines, name) + if end.Expired? then [Notice, DialogCancel(name)] else []
  }

  /** All that a dialog sends, with the log notice about a switch of view. */
  function DialogSends(d: Dialog): seq<Sent> {
    Exchange(d.name, d.lines, d.end) + if Switches(d) then [Notice] else []
  }

  function DialogsSend(dialogs: seq<Dialog>): seq<Sent> {
    if dialogs == [] then []
    else DialogsSend(dialogs[..|dialogs| - 1]) + DialogSends(dialogs[|dialogs| - 1])
  }

  /** The lines that dialogs took, in order. */
  function LinesIn(dialogs: seq<Dialog>): seq<Arrival> {
    if dialogs == [] then [] else LinesIn(dialogs[..|dialogs| - 1]) + dialogs[|dialogs| - 1].lines
  }

  /** What dialogs leave of the channel. */
  function Beyond(dialogs: seq<Dialog>, inbox: seq<Arrival>): (r: seq<Arrival>)
    ensures |r| <= |inbox|
  {
    if |LinesIn(dialogs)| <= |inbox| then inbox[|LinesIn(dialogs)|..] else []
  }

  // ----- the reader thread -----

  /** A period in which the reader thread watches for cancels of a request. */
  datatype Watch = Watch(id: Id, from: nat, to: nat)

  /** The reader thread consumes the arrival: a cancel of the watched request, read during the watch. */
  predicate Intercepts(w: Watch, a: Arrival) {
    w.from < a.at <= w.to && CancelTarget(a.line) == Some(w.id)
  }

  predicate Removed(a: Arrival, watches: seq<Watch>) {
    exists w :: w in watches && Intercepts(w, a)
  }

  /** The arrivals that the reader thread puts into the channel. */
  function Kept(arrivals: seq<Arrival>, watches: seq<Watch>): (r: seq<Arrival>)
    ensures |r| <= |arrivals|
  {
    if arrivals == [] then []
    else (if Removed(arrivals[0], watches) then [] else [arrivals[0]]) + Kept(arrivals[1..], watches)
  }

  lemma {:induction false} KeptAll(arrivals: seq<Arrival>)
    ensures Kept(arrivals, []) == arrivals
  {
    if arrivals != [] {
      KeptAll(arrivals[1..]);
    }
  }

  // ----- one turn of the main loop -----

  /** What the threads of control share: capability, counters, watcher, clock, channel, all that was written. */
  datatype State = State(
    canElicit: bool, nextRequestId: nat, calls: nat, watcher: Option<Id>, now: nat,
    inbox: seq<Arrival>, out: seq<Sent>, exited: bool)

  function Started(input: seq<Arrival>): State {
    State(false, 1, 0, None, 0, input, [], false)
  }

  /** The channel while time passes: the reader thread consumes what the watcher tells it to. */
  function Passing(s: State, until: nat): (r: seq<Arrival>)
    ensures |r| <= |s.inbox|
  {
    if s.watcher.None? then s.inbox else Kept(s.inbox, [Watch(s.watcher.value, s.now, until)])
  }

  /** The tool run of a turn, and the instant at which it starts. */
  datatype Call = Call(from: nat, tool: ToolRun)

  /**
   * A turn as it took place: the line the main loop took, at which instant, whether the client had said
   * that it can show dialogs, the tool run and its dialogs.
   */
  datatype Turn = Turn(taken: Arrival, at: nat, canElicit: bool, call: Option<Call>, dialogs: seq<Dialog>)

  /** A `tools/call` request that starts a tool. */
  predicate StartsTool(line: Line) {
    IsRequest(line) && line.content.verb == Some("tools/call") && line.content.params.Some?
  }

  /** An `initialize` request that tells whether the client can show dialogs. */
  predicate Declares(line: Line) {
    IsRequest(line) && line.content.verb == Some("initialize") && line.content.params.Some?
  }

  predicate DeclaresForm(line: Line) {
    Declares(line) && line.content.params.value.elicitationForm
  }

  predicate NeedsUser(tool: ToolRun) {
    tool.result.WithSuggestions? && tool.result.approvals > 0
  }

  predicate Asks(w: World, canElicit: bool, tool: ToolRun) {
    canElicit && w.mode == Prompt && NeedsUser(tool)
  }

  function Rounds(approvals: nat): nat {
    if approvals < GROUPING_THRESHOLD then 1 else 2
  }

  /** When the tool run ends, and with it the watch for its cancels. */
  function Ended(c: Call): nat {
    c.from + c.tool.time
  }

  function WatchesOf(t: Turn): seq<Watch> {
    if t.call.Some? && IsRequest(t.taken.line)
    then [Watch(t.taken.line.content.id.value, t.call.value.from, Ended(t.call.value))] else []
  }

  function Notices(n: nat): seq<Sent> {
    if n == 0 then [] else Notices(n - 1) + [Notice]
  }

  /** The state after the main loop has taken a line. */
  function Taking(s: State): State
    requires s.inbox != []
  {
    s.(now := Max(s.now, s.inbox[0].at), inbox := s.inbox[1..])
  }

  /** The state after a tool run, in front of the dialogs. */
  function Ran(w: World, s: State, id: Id): State {
    var run := w.tools(s.calls);
    s.(calls := s.calls + 1, now := s.now + run.time,
       inbox := Kept(s.inbox, [Watch(id, s.now, s.now + run.time)]),
       out := s.out + Notices(1) + Notices(run.notices))
  }

  /** The dialogs that follow a tool run. */
  function DialogsAfter(w: World, s: State, run: ToolRun): seq<Dialog> {
    if !Asks(w, s.canElicit, run) then []
    else
      var approvals := run.result.approvals;
      DialogsAt(s.nextRequestId, Rounds(approvals), approvals >= GROUPING_THRESHOLD, s.now, s.inbox)
  }

  /** The turn that takes place in a state. */
  function TurnAt(w: World, s: State): Turn
    requires s.inbox != []
  {
    var a, taking, run := s.inbox[0], Taking(s), w.tools(s.calls);
    if StartsTool(a.line) then
      Turn(a, taking.now, s.canElicit, Some(Call(taking.now, run)),
           DialogsAfter(w, Ran(w, taking, a.line.content.id.value), run))
    else Turn(a, taking.now, s.canElicit, None, [])
  }

  function Finished(t: Turn): nat {
    if t.dialogs != [] then t.dialogs[|t.dialogs| - 1].finished
    else if t.call.Some? then Ended(t.call.value) else t.at
  }

  /** The process ends in the middle of the turn, so that its request gets no reply. */
  predicate Cut(t: Turn) {
    EndsInExit(t.dialogs)
  }

  predicate Exits(t: Turn) {
    Cut(t) || (IsMessage(t.taken.line) && !IsRequest(t.taken.line) && IsExit(t.taken.line.content.verb))
  }

  /** Which suggestions a tool's answer applies. */
  function SelectionOf(w: World, canElicit: bool, tool: ToolRun, dialogs: seq<Dialog>): Selection {
    if !canElicit || !NeedsUser(tool) || w.mode == AlwaysSkip then Unasked
    else if w.mode == AlwaysAccept then Everything
    else if PicksOf(dialogs).Some? then Chosen(PicksOf(dialogs).value) else Refused
  }

  /** What a turn writes before its dialogs. */
  function Prelude(t: Turn): seq<Sent> {
    if t.call.Some? then Notices(1) + Notices(t.call.value.tool.notices)
    else if DeclaresForm(t.taken.line) then Notices(1) else []
  }

  /** The log notice about a tool that failed. */
  function Failure(tool: ToolRun): seq<Sent> {
    if tool.result.Errored? then [Notice] else []
  }

  /** What a turn answers to the line it took, unless it is cut. */
  function MainReply(w: World, t: Turn): seq<Sent> {
    var line, c := t.taken.line, t.taken.line.content;
    if c.Blank? then []
    else if !IsMessage(line) then [Reply(NullId, Failed(PARSE_ERROR))]
    else if !IsRequest(line) then []
    else if t.call.Some? then [Reply(c.id.value, ToolAnswer(SelectionOf(w, t.canElicit, t.call.value.tool, t.dialogs)))]
    else if c.verb == Some("tools/call") then [Reply(c.id.value, Failed(INVALID_PARAMS))]
    else [Reply(c.id.value, Dispatch(c.verb.value, c.params))]
  }

  /** All that a turn writes, in order. */
  function TurnSends(w: World, t: Turn): seq<Sent> {
    Prelude(t) + DialogsSend(t.dialogs)
    + (if t.call.Some? then Failure(t.call.value.tool) else [])
    + if Cut(t) then [] else MainReply(w, t)
  }

  /** What a turn leaves in the channel. */
  function Remaining(t: Turn, inbox: seq<Arrival>): (r: seq<Arrival>)
    requires inbox != []
    ensures |r| < |inbox|
  {
    Beyond(t.dialogs, Kept(inbox[1..], WatchesOf(t)))
  }

  /** Whether the client can show dialogs, as far as it has said so by the end of the turn. */
  function Capability(t: Turn): bool {
    if Declares(t.taken.line) then t.taken.line.content.params.value.elicitationForm else t.canElicit
  }

  /** The state that a turn leads to. */
  function AfterTurn(w: World, s: State, t: Turn): State
    requires s.inbox != []
  {
    State(
      Capability(t),
      s.nextRequestId + |t.dialogs|,
      s.calls + if t.call.Some? then 1 else 0,
      s.watcher,
      Finished(t),
      Remaining(t, s.inbox),
      s.out + TurnSends(w, t),
      Exits(t))
  }

  // ----- a session -----

  /** The turns of a session from a state on, until the input ends or the client asks the process to exit. */
  function Turns(w: World, s: State): seq<Turn>
    decreases |s.inbox|
  {
    if s.inbox == [] || s.exited then []
    else [TurnAt(w, s)] + Turns(w, AfterTurn(w, s, TurnAt(w, s)))
  }

  /** The state that they lead to. */
  function Final(w: World, s: State): State
    decreases |s.inbox|
  {
    if s.inbox == [] || s.exited then s else Final(w, AfterTurn(w, s, TurnAt(w, s)))
  }
}
