/**
 * The request loop, tool calls and the dialogs nested in them
 * (main.rs, `main` and `handle_tool_call`; elicit.rs, `elicit_selection` and `send_and_read_strings`).
 */
module Session {
  import opened Sequences
  import opened Wire
  import opened SessionModel
  import opened SessionTheorems
  import opened SessionReplies
  import opened SessionWatch
  import opened SessionClients
  import Grouping

  lemma Regroup4<T>(a: seq<T>, b: seq<T>, c: seq<T>, d: seq<T>, e: seq<T>)
    ensures a + (b + c + d + e) == a + b + c + d + e
  {
  }

  function Send(s: State, n: Sent): State {
    s.(out := s.out + [n])
  }

  /** Take the next line off the channel, waiting for it if need be. */
  method TakeLine(s: State) returns (line: Line, s': State)
    requires s.inbox != []
    ensures line == s.inbox[0].line
    ensures s' == s.(now := Max(s.now, s.inbox[0].at), inbox := s.inbox[1..])
  {
    line := s.inbox[0].line;
    s' := s.(now := Max(s.now, s.inbox[0].at), inbox := s.inbox[1..]);
  }

  // ----- a dialog -----

  /** What a waiting dialog does with a message that is not its answer. */
  method OtherMessage(s: State, line: Line, expected: string) returns (end: Option<DialogEnd>, s': State)
    requires line.content.Object? && !AnswersDialog(line, expected) && !s.exited
    ensures s' == s.(out := s.out + LineSends(line, expected), exited := s'.exited)
    ensures end == if EndsDialog(line, expected) then Some(EndOf(line, expected)) else None
    ensures s'.exited <==> end == Some(ProcessExit)
  {
    var Object(_, id, verb, params, _) := line.content;
    s' := s;
    if IsExit(verb) {
      return Some(ProcessExit), s'.(exited := true);
    }
    if verb == Some(CANCELLED) && params.Some? && params.value.requestId == Some(Text(expected)) {
      return Some(Declined), s';
    }
    if verb == Some("shutdown") {
      if id.Some? {
        s' := Send(s', Reply(id.value, Fulfilled));
      }
      return Some(ProcessExit), s'.(exited := true);
    }
    if id.Some? {
      s' := Send(s', Reply(id.value, Failed(SERVER_BUSY)));
    }
    return None, Send(s', Notice);
  }

  /** One line taken while a dialog waits: how it ends the dialog, if it does. */
  method DialogLine(s: State, expected: string) returns (end: DialogEnd, s': State)
    requires s.inbox != [] && !s.exited
    ensures var line := s.inbox[0].line;
      && end == (if EndsDialog(line, expected) then EndOf(line, expected) else Expired)
      && s' == s.(now := Max(s.now, s.inbox[0].at), inbox := s.inbox[1..], out := s.out + LineSends(line, expected),
                  exited := end.ProcessExit?)
  {
    var line;
    line, s' := TakeLine(s);
    end := Expired;
    if !line.content.Object? {
      if line.content.NotObject? {
        s' := Send(s', Notice);
      }
    } else if line.content.id != Some(Text(expected)) {
      var ending;
      ending, s' := OtherMessage(s', line, expected);
      if ending.Some? {
        end := ending.value;
      }
    } else {
      var result := line.content.result;
      if result.None? {
        s' := Send(s', Notice);
        end := Declined;
      } else {
        end := if result.value.accepted then Answered(result.value.selected) else Declined;
      }
    }
  }

  /** A state after a dialog named `name` has taken the first `n` lines. */
  function Received(s: State, name: string, n: nat): State
    requires n <= |s.inbox|
  {
    s.(now := Latest(s.now, s.inbox[..n]), inbox := s.inbox[n..], out := s.out + LinesSend(s.inbox[..n], name),
       exited := Ending(name, s.inbox[..n]).ProcessExit?)
  }

  lemma ReceivedNext(inbox: seq<Arrival>, now: nat, name: string, n: nat)
    requires n < |inbox|
    ensures Latest(now, inbox[..n + 1]) == Max(Latest(now, inbox[..n]), inbox[n].at)
    ensures LinesSend(inbox[..n + 1], name) == LinesSend(inbox[..n], name) + LineSends(inbox[n].line, name)
    ensures Ending(name, inbox[..n + 1]) ==
      if EndsDialog(inbox[n].line, name) then EndOf(inbox[n].line, name) else Expired
    ensures inbox[n..][1..] == inbox[n + 1..]
  {
    assert inbox[..n + 1][..n] == inbox[..n];
  }

  /** The read loop of a dialog: lines taken until one ends it or the deadline is reached. */
  method AwaitAnswer(s: State, expected: string, deadline: nat) returns (end: DialogEnd, s': State)
    requires !s.exited && s.now < deadline
    ensures var n := Reach(expected, deadline, s.inbox);
      end == Ending(expected, s.inbox[..n]) && s' == Received(s, expected, n)
  {
    end, s' := Expired, s;
    ghost var n := 0;
    while end.Expired? && s'.inbox != [] && s'.inbox[0].at < deadline
      invariant n <= |s.inbox|
      invariant s' == Received(s, expected, n) && end == Ending(expected, s.inbox[..n])
      invariant if end.Expired? then n + Reach(expected, deadline, s.inbox[n..]) == Reach(expected, deadline, s.inbox)
                else n == Reach(expected, deadline, s.inbox)
      decreases |s'.inbox|
    {
      ReceivedNext(s.inbox, s.now, expected, n);
      Associate(s.out, LinesSend(s.inbox[..n], expected), LineSends(s.inbox[n].line, expected));
      end, s' := DialogLine(s', expected);
      n := n + 1;
    }
  }

  /**
   * `send_and_read_strings`: ask, wait, and give up with a cancel when the time is up. The reader thread
   * goes on watching for whatever the watcher names.
   */
  method RunDialog(s: State, expected: string, ghost grouped: bool) returns (end: DialogEnd, s': State)
    requires !s.exited
    ensures var inbox := Passing(s, s.now + ELICITATION_TIMEOUT);
      var d := DialogAt(expected, grouped, s.now, inbox);
      && end == d.end && Meets(d, inbox)
      && s' == s.(now := d.finished, inbox := inbox[|d.lines|..], out := s.out + Exchange(expected, d.lines, d.end),
                  exited := d.end.ProcessExit?)
  {
    end, s' := AskAndAwait(s, expected, grouped);
    DialogMeans(expected, grouped, s.now, Passing(s, s.now + ELICITATION_TIMEOUT));
  }

  method AskAndAwait(s: State, expected: string, ghost grouped: bool) returns (end: DialogEnd, s': State)
    requires !s.exited
    ensures var inbox := Passing(s, s.now + ELICITATION_TIMEOUT);
      var d := DialogAt(expected, grouped, s.now, inbox);
      && end == d.end
      && s' == s.(now := d.finished, inbox := inbox[|d.lines|..], out := s.out + Exchange(expected, d.lines, d.end),
                  exited := d.end.ProcessExit?)
  {
    var deadline := s.now + ELICITATION_TIMEOUT;
    var asking := Send(s, DialogRequest(expected)).(inbox := Passing(s, deadline));
    end, s' := AwaitAnswer(asking, expected, deadline);
    ghost var lines := asking.inbox[..Reach(expected, deadline, asking.inbox)];
    ExchangeParts(s.out, expected, lines, end);
    if end.Expired? {
      s' := GiveUp(s', expected, deadline);
    }
  }

  /** A dialog whose time is up, or whose input has ended. */
  method GiveUp(s: State, expected: string, deadline: nat) returns (s': State)
    ensures s' == s.(now := if s.inbox == [] then s.now else deadline,
                     out := s.out + [Notice] + [DialogCancel(expected)])
  {
    s' := s;
    if s'.inbox != [] {
      s' := s'.(now := deadline);
    }
    s' := Send(Send(s', Notice), DialogCancel(expected));
  }

  lemma ExchangeParts(out: seq<Sent>, name: string, lines: seq<Arrival>, end: DialogEnd)
    ensures out + Exchange(name, lines, end) ==
      out + [DialogRequest(name)] + LinesSend(lines, name)
      + if end.Expired? then [Notice] + [DialogCancel(name)] else []
  {
  }

  // ----- the dialogs of a tool call -----

  /** A state after some dialogs. */
  function Conducted(s: State, dialogs: seq<Dialog>): State {
    s.(nextRequestId := s.nextRequestId + |dialogs|,
       now := if dialogs == [] then s.now else dialogs[|dialogs| - 1].finished,
       inbox := Beyond(dialogs, s.inbox), out := s.out + DialogsSend(dialogs), exited := EndsInExit(dialogs))
  }

  lemma ConductedNext(s: State, dialogs: seq<Dialog>, d: Dialog)
    requires !s.exited && |LinesIn(dialogs)| + |d.lines| <= |s.inbox|
    ensures var r := Conducted(s, dialogs);
      |d.lines| <= |r.inbox| && |LinesIn(dialogs + [d])| == |LinesIn(dialogs)| + |d.lines|
      && Conducted(s, dialogs + [d]) ==
        r.(nextRequestId := r.nextRequestId + 1, now := d.finished, inbox := r.inbox[|d.lines|..],
           out := r.out + DialogSends(d), exited := d.end.ProcessExit?)
  {
    DialogsPush(dialogs, d);
    Associate(s.out, DialogsSend(dialogs), DialogSends(d));
    BeyondPush(dialogs, d, s.inbox);
  }

  lemma BeyondPush(dialogs: seq<Dialog>, d: Dialog, inbox: seq<Arrival>)
    requires |LinesIn(dialogs)| + |d.lines| <= |inbox|
    ensures |d.lines| <= |Beyond(dialogs, inbox)|
    ensures Beyond(dialogs + [d], inbox) == Beyond(dialogs, inbox)[|d.lines|..]
  {
    DialogsPush(dialogs, d);
    DropTwice(inbox, |LinesIn(dialogs)|, |d.lines|);
  }

  lemma DialogsPush(dialogs: seq<Dialog>, d: Dialog)
    ensures LinesIn(dialogs + [d]) == LinesIn(dialogs) + d.lines
    ensures DialogsSend(dialogs + [d]) == DialogsSend(dialogs) + DialogSends(d)
    ensures EndsInExit(dialogs + [d]) <==> d.end.ProcessExit?
  {
    assert (dialogs + [d])[..|dialogs|] == dialogs;
  }

  lemma DropTwice<T>(s: seq<T>, m: nat, n: nat)
    requires m + n <= |s|
    ensures s[m..][n..] == s[m + n..]
  {
  }

  /** One round of `elicit_selection`: settled, unless the answer asks for the other view. */
  method Round(s: State, approvals: nat) returns (picks: Option<seq<Grouping.Pick>>, settled: bool, s': State)
    requires !s.exited && s.watcher.None?
    ensures var d := DialogAt(DialogName(s.nextRequestId), approvals >= GROUPING_THRESHOLD, s.now, s.inbox);
      && (settled <==> !Switches(d)) && picks == PicksOf([d])
      && s' == s.(nextRequestId := s.nextRequestId + 1, now := d.finished, inbox := s.inbox[|d.lines|..],
                  out := s.out + DialogSends(d), exited := d.end.ProcessExit?)
  {
    var expected := DialogName(s.nextRequestId);
    var end;
    end, s' := RunDialog(s.(nextRequestId := s.nextRequestId + 1), expected, approvals >= GROUPING_THRESHOLD);
    picks, settled := None, true;
    if end.Answered? {
      if approvals < GROUPING_THRESHOLD || Grouping.FirstView(end.picks).None? {
        picks := Some(end.picks);
      } else {
        s', settled := Send(s', Notice), false;
      }
    }
  }

  /** `elicit_selection`: one dialog, or two when the first answer asks for the other view. */
  method ElicitSelection(s: State, approvals: nat) returns (picks: Option<seq<Grouping.Pick>>, s': State)
    requires !s.exited && s.watcher.None?
    ensures var dialogs :=
        DialogsAt(s.nextRequestId, Rounds(approvals), approvals >= GROUPING_THRESHOLD, s.now, s.inbox);
      && picks == PicksOf(dialogs) && s' == Conducted(s, dialogs)
      && dialogs != [] && Numbered(dialogs, s.nextRequestId) && MeetInTurn(dialogs, s.now, s.inbox)
    ensures picks.Some? && approvals >= GROUPING_THRESHOLD ==> Grouping.FirstView(picks.value).None?
  {
    var rounds := if approvals < GROUPING_THRESHOLD then 1 else 2;
    ghost var grouped := approvals >= GROUPING_THRESHOLD;
    picks, s' := None, s;
    var settled, i := false, 0;
    ghost var dialogs: seq<Dialog> := [];
    UnderwayAtFirst(s, rounds, grouped);
    while i < rounds && !settled
      invariant i <= rounds && (settled ==> i > 0)
      invariant Underway(s, rounds, grouped, dialogs, settled, i) && s' == Conducted(s, dialogs)
      invariant picks == PicksOf(dialogs)
    {
      picks, settled, s', dialogs := NextRound(s, s', approvals, rounds, dialogs, i);
      i := i + 1;
    }
    UnderwayAtLast(s, rounds, grouped, dialogs, settled, i);
    DialogsSound(s, rounds, grouped);
  }

  /** Round `i` of the dialogs that started in `start`. */
  method NextRound(
    ghost start: State, s: State, approvals: nat, ghost rounds: nat, ghost dialogs: seq<Dialog>, ghost i: nat)
    returns (picks: Option<seq<Grouping.Pick>>, settled: bool, s': State, ghost dialogs': seq<Dialog>)
    requires i < rounds && s == Conducted(start, dialogs) && s.watcher.None?
    requires Underway(start, rounds, approvals >= GROUPING_THRESHOLD, dialogs, false, i)
    ensures Underway(start, rounds, approvals >= GROUPING_THRESHOLD, dialogs', settled, i + 1)
    ensures s' == Conducted(start, dialogs') && picks == PicksOf(dialogs')
  {
    ghost var grouped := approvals >= GROUPING_THRESHOLD;
    UnderwayNext(start, rounds, grouped, dialogs, i);
    dialogs' := dialogs + [DialogAt(DialogName(s.nextRequestId), grouped, s.now, s.inbox)];
    picks, settled, s' := Round(s, approvals);
  }

  lemma DialogsSound(s: State, rounds: nat, grouped: bool)
    requires rounds > 0
    ensures var dialogs := DialogsAt(s.nextRequestId, rounds, grouped, s.now, s.inbox);
      && dialogs != [] && Numbered(dialogs, s.nextRequestId) && MeetInTurn(dialogs, s.now, s.inbox)
      && (PicksOf(dialogs).Some? && grouped ==> Grouping.FirstView(PicksOf(dialogs).value).None?)
  {
    DialogsAtNumbered(s.nextRequestId, rounds, grouped, s.now, s.inbox);
    DialogsMeet(s.nextRequestId, rounds, grouped, s.now, s.inbox);
    AllGrouped(s.nextRequestId, rounds, grouped, s.now, s.inbox);
    var dialogs := DialogsAt(s.nextRequestId, rounds, grouped, s.now, s.inbox);
    assert dialogs[|dialogs| - 1] in dialogs;
  }

  /** `dialogs` are the first `i` of the dialogs that start in `s`, and all of them once it is settled. */
  ghost predicate Underway(s: State, rounds: nat, grouped: bool, dialogs: seq<Dialog>, settled: bool, i: nat) {
    && i <= rounds && |dialogs| == i && |LinesIn(dialogs)| <= |s.inbox|
    && !s.exited && (EndsInExit(dialogs) ==> settled)
    && var r := Conducted(s, dialogs);
    DialogsAt(s.nextRequestId, rounds, grouped, s.now, s.inbox) ==
      dialogs + if settled then [] else DialogsAt(r.nextRequestId, rounds - i, grouped, r.now, r.inbox)
  }

  lemma UnderwayAtFirst(s: State, rounds: nat, grouped: bool)
    requires !s.exited
    ensures Underway(s, rounds, grouped, [], false, 0) && Conducted(s, []) == s
  {
    assert Beyond([], s.inbox) == s.inbox;
    assert s.out + DialogsSend([]) == s.out;
    assert [] + DialogsAt(s.nextRequestId, rounds, grouped, s.now, s.inbox)
        == DialogsAt(s.nextRequestId, rounds, grouped, s.now, s.inbox);
  }

  lemma UnderwayNext(s: State, rounds: nat, grouped: bool, dialogs: seq<Dialog>, i: nat)
    requires Underway(s, rounds, grouped, dialogs, false, i) && i < rounds
    ensures var r := Conducted(s, dialogs);
      var d := DialogAt(DialogName(r.nextRequestId), grouped, r.now, r.inbox);
      && Underway(s, rounds, grouped, dialogs + [d], !Switches(d), i + 1)
      && Conducted(s, dialogs + [d]) ==
        r.(nextRequestId := r.nextRequestId + 1, now := d.finished, inbox := r.inbox[|d.lines|..],
           out := r.out + DialogSends(d), exited := d.end.ProcessExit?)
      && PicksOf(dialogs + [d]) == PicksOf([d])
  {
    var r := Conducted(s, dialogs);
    var d := DialogAt(DialogName(r.nextRequestId), grouped, r.now, r.inbox);
    ConductedNext(s, dialogs, d);
    DialogsAtFirst(dialogs, r.nextRequestId, rounds - i, grouped, r.now, r.inbox);
  }

  lemma DialogsAtFirst(before: seq<Dialog>, first: nat, rounds: nat, grouped: bool, now: nat, inbox: seq<Arrival>)
    requires rounds > 0
    ensures var d := DialogAt(DialogName(first), grouped, now, inbox);
      before + DialogsAt(first, rounds, grouped, now, inbox) ==
        before + [d] +
        if Switches(d) then DialogsAt(first + 1, rounds - 1, grouped, d.finished, inbox[|d.lines|..]) else []
  {
  }

  lemma UnderwayAtLast(s: State, rounds: nat, grouped: bool, dialogs: seq<Dialog>, settled: bool, i: nat)
    requires Underway(s, rounds, grouped, dialogs, settled, i) && (settled || i == rounds)
    ensures dialogs == DialogsAt(s.nextRequestId, rounds, grouped, s.now, s.inbox)
  {
    assert dialogs + [] == dialogs;
  }

  // ----- tool calls -----

  /** Log and progress notifications. */
  method SendNotices(s: State, n: nat) returns (s': State)
    ensures s' == s.(out := s.out + Notices(n))
  {
    s' := s;
    for i := 0 to n
      invariant s' == s.(out := s.out + Notices(i))
    {
      s' := Send(s', Notice);
    }
  }

  /** The run of a tool: while it lasts, the reader thread consumes the cancels that name its request. */
  method RunTool(w: World, s: State, id: Id) returns (run: ToolRun, s': State)
    requires s.watcher.None?
    ensures run == w.tools(s.calls) && s' == Ran(w, s, id)
  {
    s' := SendNotices(s, 1);
    s' := s'.(watcher := Some(id));
    run := w.tools(s'.calls);
    s' := s'.(calls := s'.calls + 1, now := s'.now + run.time, inbox := Passing(s', s'.now + run.time));
    s' := SendNotices(s', run.notices);
    s' := s'.(watcher := None);
  }

  /** `handle_tool_call`: the cancel watcher is set for the run of the tool and for nothing else. */
  method HandleToolCall(w: World, s: State, id: Id, params: Option<Params>) returns (body: Body, s': State)
    requires !s.exited && s.watcher.None?
    ensures params.None? ==> body == Failed(INVALID_PARAMS) && s' == s
    ensures params.Some? ==>
      var run, ran := w.tools(s.calls), Ran(w, s, id);
      var dialogs := DialogsAfter(w, ran, run);
      var conducted := Conducted(ran, dialogs);
      && s' == conducted.(out := conducted.out + Failure(run))
      && body == ToolAnswer(SelectionOf(w, s.canElicit, run, dialogs))
  {
    if params.None? {
      return Failed(INVALID_PARAMS), s;
    }
    var run, selection;
    run, s' := RunTool(w, s, id);
    selection, s' := Conclude(w, s', run);
    body := ToolAnswer(selection);
  }

  /** The rest of `handle_tool_call`: what becomes of the result of the run. */
  method Conclude(w: World, s: State, run: ToolRun) returns (selection: Selection, s': State)
    requires !s.exited && s.watcher.None?
    ensures var dialogs := DialogsAfter(w, s, run);
      var conducted := Conducted(s, dialogs);
      s' == conducted.(out := conducted.out + Failure(run)) && selection == SelectionOf(w, s.canElicit, run, dialogs)
  {
    selection, s' := Unasked, s;
    NoDialogs(s);
    match run.result {
      case WithSuggestions(approvals) =>
        if s.canElicit && approvals > 0 && w.mode != AlwaysSkip {
          if w.mode == AlwaysAccept {
            selection := Everything;
          } else {
            var picks;
            picks, s' := ElicitSelection(s, approvals);
            selection := if picks.Some? then Chosen(picks.value) else Refused;
          }
        }
      case Errored => s' := Send(s', Notice);
      case _ =>
    }
  }

  lemma NoDialogs(s: State)
    requires !s.exited
    ensures Conducted(s, []) == s && s.out + [] == s.out
  {
    assert Beyond([], s.inbox) == s.inbox;
    assert s.out + DialogsSend([]) == s.out;
  }

  /** A turn that runs a tool, step by step. */
  lemma ToolTurn(w: World, s: State)
    requires s.inbox != [] && StartsTool(s.inbox[0].line)
    ensures var id := s.inbox[0].line.content.id.value;
      var run, ran := w.tools(s.calls), Ran(w, Taking(s), id);
      var dialogs := DialogsAfter(w, ran, run);
      var conducted := Conducted(ran, dialogs);
      var r := conducted.(out := conducted.out + Failure(run));
      AfterTurn(w, s, TurnAt(w, s)) ==
        if r.exited then r
        else Send(r, Reply(id, ToolAnswer(SelectionOf(w, s.canElicit, run, dialogs))))
  {
    var id := s.inbox[0].line.content.id.value;
    var run, ran := w.tools(s.calls), Ran(w, Taking(s), id);
    var dialogs := DialogsAfter(w, ran, run);
    var conducted := Conducted(ran, dialogs);
    var t := TurnAt(w, s);
    assert t.dialogs == dialogs;
    assert Remaining(t, s.inbox) == conducted.inbox;
    assert Finished(t) == conducted.now;
    var reply := if Cut(t) then [] else MainReply(w, t);
    Associate(s.out, Notices(1), Notices(t.call.value.tool.notices));
    Regroup4(s.out, Prelude(t), DialogsSend(t.dialogs), Failure(t.call.value.tool), reply);
  }

  /** A turn that runs none. */
  lemma PlainTurn(w: World, s: State)
    requires s.inbox != [] && !StartsTool(s.inbox[0].line) && !s.exited
    ensures var t := Turn(s.inbox[0], Max(s.now, s.inbox[0].at), s.canElicit, None, []);
      && TurnAt(w, s) == t
      && AfterTurn(w, s, t) ==
        Taking(s).(canElicit := Capability(t), exited := Exits(t),
                   out := s.out + Prelude(t) + MainReply(w, t))
  {
    var t := TurnAt(w, s);
    Regroup4(s.out, Prelude(t), [], [], MainReply(w, t));
    assert s.out + Prelude(t) + [] + [] == s.out + Prelude(t);
    assert LinesIn([]) == [] && DialogsSend([]) == [];
    KeptAll(s.inbox[1..]);
  }

  // ----- the main loop -----

  /** A request that the main loop took in state `s`. */
  method ServeRequest(w: World, taking: State, line: Line, ghost s: State) returns (s': State)
    requires s.inbox != [] && line == s.inbox[0].line && !s.exited && s.watcher.None? && IsRequest(line)
    requires taking == Taking(s)
    ensures s' == AfterTurn(w, s, TurnAt(w, s))
  {
    var Object(_, id, verb, params, _) := line.content;
    var body;
    s' := taking;
    if StartsTool(line) { ToolTurn(w, s); } else { PlainTurn(w, s); }
    if verb == Some("tools/call") {
      body, s' := HandleToolCall(w, s', id.value, params);
      if s'.exited {
        return;
      }
    } else {
      if verb == Some("initialize") && params.Some? {
        s' := s'.(canElicit := params.value.elicitationForm);
        if s'.canElicit {
          s' := SendNotices(s', 1);
        }
      }
      body := Dispatch(verb.value, params);
    }
    s' := Send(s', Reply(id.value, body));
  }

  /** One turn of the main loop. */
  method ServeLine(w: World, s: State) returns (s': State)
    requires s.inbox != [] && !s.exited && s.watcher.None?
    ensures s' == AfterTurn(w, s, TurnAt(w, s)) && s'.watcher.None? && |s'.inbox| < |s.inbox|
  {
    var line;
    line, s' := TakeLine(s);
    if StartsTool(line) { ToolTurn(w, s); } else { PlainTurn(w, s); }
    if line.content.Blank? {
    } else if !IsMessage(line) {
      s' := Send(s', Reply(NullId, Failed(PARSE_ERROR)));
    } else if line.content.id.None? || line.content.id == Some(NullId) {
      s' := s'.(exited := IsExit(line.content.verb));
    } else {
      s' := ServeRequest(w, s', line, s);
    }
  }

  /**
   * The main loop, until the input ends or the client asks the process to exit: it wrote the script of its
   * turns, took its input in order, without the cancels that the reader thread consumed, and exited exactly
   * if the last of those lines asks for it.
   */
  method Serve(w: World, input: seq<Arrival>) returns (s: State)
    ensures s == Final(w, Started(input))
    ensures var turns := Turns(w, Started(input));
      var taken := TakenIn(turns);
      && s.out == Script(w, turns)
      && ArrivalsIn(taken) + s.inbox == Kept(input, Watches(turns))
      && (s.exited <==> taken != [] && EndsProcess(taken[|taken| - 1]))
      && (s.exited || s.inbox == [])
      && Asked(s.out) == NamesOf(DialogsOf(turns)) && Numbered(DialogsOf(turns), 1)
      && s.nextRequestId == 1 + |DialogsOf(turns)|
      && s.watcher.None?
  {
    s := Started(input);
    while s.inbox != [] && !s.exited
      invariant s.watcher.None? && Final(w, s) == Final(w, Started(input))
      decreases |s.inbox|
    {
      s := ServeLine(w, s);
    }
    FinalFollows(w, Started(input));
    LinesConserved(w, input);
    ExitIff(w, input);
    DialogNames(w, Started(input));
    DialogsAskedOnce(w, Turns(w, Started(input)));
  }
}
