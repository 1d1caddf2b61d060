/** What the messages of a session say, told by the fields of the lines and by how the dialogs ended. */
module SessionAnswers {
  import opened Sequences
  import opened Wire
  import opened SessionModel
  import opened SessionTheorems
  import opened SessionWatch
  import Grouping

  // ----- what a tool's answer applies -----

  /** The picks ask for the other view. */
  predicate AsksOtherView(picks: seq<Grouping.Pick>) {
    exists k :: 0 <= k < |picks| && picks[k].View?
  }

  lemma {:induction false} FirstViewMeans(picks: seq<Grouping.Pick>)
    ensures Grouping.FirstView(picks).Some? <==> AsksOtherView(picks)
  {
    if picks != [] {
      FirstViewMeans(picks[1..]);
      if AsksOtherView(picks[1..]) {
        var k :| 0 <= k < |picks[1..]| && picks[1..][k].View?;
        assert picks[k + 1].View?;
      }
      if k :| 0 <= k < |picks| && picks[k].View? {
        assert k > 0 ==> picks[1..][k - 1].View?;
      }
    }
  }

  /** The dialog was answered by asking for the suggestions, five or more, in the other view. */
  predicate AskedToSwitch(approvals: nat, end: DialogEnd) {
    approvals >= 5 && end.Answered? && AsksOtherView(end.picks)
  }

  /** The tool left suggestions that need the user. */
  predicate LeavesSuggestions(tool: ToolRun) {
    tool.result.WithSuggestions? && tool.result.approvals > 0
  }

  /** The dialogs of a turn know whether there are enough suggestions to group. */
  lemma TurnGrouped(w: World, s: State)
    requires s.inbox != []
    ensures var t := TurnAt(w, s);
      forall d :: d in t.dialogs ==>
        && t.call.Some? && t.call.value.tool.result.WithSuggestions?
        && (Switches(d) <==> AskedToSwitch(t.call.value.tool.result.approvals, d.end))
  {
    var t := TurnAt(w, s);
    if t.dialogs != [] {
      var approvals := w.tools(s.calls).result.approvals;
      var ran := Ran(w, Taking(s), s.inbox[0].line.content.id.value);
      AllGrouped(s.nextRequestId, Rounds(approvals), approvals >= GROUPING_THRESHOLD, ran.now, ran.inbox);
      forall d | d in t.dialogs
        ensures Switches(d) <==> AskedToSwitch(approvals, d.end)
      {
        if d.end.Answered? {
          FirstViewMeans(d.end.picks);
        }
      }
    }
  }

  /** A second dialog takes place exactly when the first was answered by asking for the other view. */
  lemma SecondDialogIff(w: World, input: seq<Arrival>, i: nat)
    requires i < |Turns(w, Started(input))| && Turns(w, Started(input))[i].dialogs != []
    ensures var t := Turns(w, Started(input))[i];
      && t.call.Some? && t.call.value.tool.result.WithSuggestions? && |t.dialogs| <= 2
      && (|t.dialogs| == 2 <==> AskedToSwitch(t.call.value.tool.result.approvals, t.dialogs[0].end))
  {
    var r := TurnsAre(w, Started(input), i);
    var t := TurnAt(w, r);
    DialogsWhenAsked(w, input, i);
    TurnGrouped(w, r);
    assert t.dialogs[0] in t.dialogs;
  }

  /** The last message of the turn is the reply to the tool call, and `selection` is what it applies. */
  predicate AnswersWith(w: World, t: Turn, selection: Selection) {
    var sends := TurnSends(w, t);
    sends != [] && t.taken.line.content.Object? && t.taken.line.content.id.Some?
    && sends[|sends| - 1] == Reply(t.taken.line.content.id.value, ToolAnswer(selection))
  }

  /** The reply comes last in a turn that is not cut. */
  lemma ReplyComesLast(w: World, t: Turn)
    requires t.call.Some? && IsRequest(t.taken.line) && !Cut(t)
    ensures AnswersWith(w, t, SelectionOf(w, t.canElicit, t.call.value.tool, t.dialogs))
  {
    LastOfAll(Prelude(t) + DialogsSend(t.dialogs) + Failure(t.call.value.tool), MainReply(w, t)[0]);
  }

  lemma LastOfAll<T>(s: seq<T>, x: T)
    ensures s + [x] != [] && (s + [x])[|s + [x]| - 1] == x
  {
  }

  /** How the dialogs of a turn ended, and whether nobody had to be asked. */
  predicate Selects(w: World, declared: bool, t: Turn, selection: Selection)
    requires t.call.Some?
  {
    var tool, asked := t.call.value.tool, t.dialogs != [];
    var last := if asked then t.dialogs[|t.dialogs| - 1].end else Declined;
    var accepted := w.mode == AlwaysAccept && declared && LeavesSuggestions(tool);
    && (selection == Everything <==> accepted)
    && (selection.Chosen? <==> asked && last.Answered? && !AskedToSwitch(Approvals(tool), last))
    && (selection.Chosen? ==> last == Answered(selection.picks))
    && (selection == Refused <==>
          asked && (last == Declined || last == Expired || AskedToSwitch(Approvals(tool), last)))
    && (selection == Unasked <==> !asked && !accepted)
  }

  function Approvals(tool: ToolRun): nat {
    if tool.result.WithSuggestions? then tool.result.approvals else 0
  }

  lemma SelectionMeans(w: World, s: State)
    requires s.inbox != [] && TurnAt(w, s).call.Some? && !Cut(TurnAt(w, s))
    ensures var t := TurnAt(w, s);
      Selects(w, t.canElicit, t, SelectionOf(w, t.canElicit, t.call.value.tool, t.dialogs))
  {
    var t := TurnAt(w, s);
    TurnDialogs(w, s);
    TurnGrouped(w, s);
    if t.dialogs != [] {
      assert t.dialogs[|t.dialogs| - 1] in t.dialogs;
    }
  }

  /**
   * A tool call that the exit of the process does not cut off is answered with all suggestions exactly when
   * the server accepts without asking a client that declared the capability, with the picks exactly when
   * the last dialog was answered by them, with none exactly when it was declined, expired or answered by
   * asking for another view once more, and without a selection when nobody was to be asked.
   */
  lemma ToolAnswerMeans(w: World, input: seq<Arrival>, i: nat)
    requires i < |Turns(w, Started(input))|
    requires var t := Turns(w, Started(input))[i];
      t.call.Some? && (t.dialogs != [] ==> t.dialogs[|t.dialogs| - 1].end != ProcessExit)
    ensures var turns := Turns(w, Started(input));
      exists selection :: AnswersWith(w, turns[i], selection) && Selects(w, Declared(turns, i), turns[i], selection)
  {
    var r := TurnsAre(w, Started(input), i);
    var t := TurnAt(w, r);
    CapabilityIsDeclared(w, input, i);
    TurnDialogs(w, r);
    SelectionMeans(w, r);
    ReplyComesLast(w, t);
  }

  // ----- what the main loop answers itself -----

  /** The method is one that the server answers, with the prompt named if it is to be fetched. */
  predicate Known(c: Content)
    requires c.Object?
  {
    || c.verb == Some("initialize") || c.verb == Some("ping") || c.verb == Some("shutdown")
    || c.verb == Some("tools/list") || c.verb == Some("prompts/list")
    || (c.verb == Some("prompts/get") && c.params.Some? && c.params.value.namesSetupPrompt)
  }

  /** What a turn without a tool run writes, told by the fields of its line. */
  function PlainAnswer(c: Content): seq<Sent> {
    if c == Blank then []
    else if c == NotJson || c == NotObject || !c.versioned || c.verb == None then [Reply(NullId, Failed(-32700))]
    else if c.id == None || c.id == Some(NullId) then []
    else if c.verb == Some("tools/call") then [Reply(c.id.value, Failed(-32602))]
    else if Known(c) then [Reply(c.id.value, Fulfilled)]
    else [Reply(c.id.value, Failed(-32601))]
  }

  lemma PlainTurnSends(w: World, t: Turn)
    requires t.call.None? && t.dialogs == []
    ensures TurnSends(w, t) == (if DeclaresForm(t.taken.line) then [Notice] else []) + MainReply(w, t)
  {
    assert Notices(1) == Notices(0) + [Notice] == [Notice];
    assert Prelude(t) + DialogsSend([]) + [] == Prelude(t);
  }

  lemma MainReplyMeans(w: World, t: Turn)
    requires t.call.None? && !StartsTool(t.taken.line)
    ensures MainReply(w, t) == PlainAnswer(t.taken.line.content)
  {
  }

  /**
   * A turn runs a tool exactly for a request to call one that has params; every other line gets the reply
   * and the error code that JSON-RPC 2.0 (section 5.1) assigns, after a log notice if it declares the
   * capability, and nothing besides.
   */
  lemma MainLoopAnswers(w: World, input: seq<Arrival>, i: nat)
    requires i < |Turns(w, Started(input))|
    ensures var t := Turns(w, Started(input))[i];
      var c := t.taken.line.content;
      var request := c.Object? && c.versioned && c.id.Some? && c.id.value != NullId;
      && (t.call.Some? <==> request && c.verb == Some("tools/call") && c.params.Some?)
      && (t.call.None? ==>
            var declares := request && c.verb == Some("initialize") && c.params.Some? && c.params.value.elicitationForm;
            TurnSends(w, t) == (if declares then [Notice] else []) + PlainAnswer(c))
  {
    var r := TurnsAre(w, Started(input), i);
    var t := TurnAt(w, r);
    TurnDialogs(w, r);
    if t.call.None? {
      PlainTurnSends(w, t);
      MainReplyMeans(w, t);
    }
  }

  // ----- what a dialog makes of a line -----

  /** A client's last word on dialogs is an `initialize` request whose params have the capability. */
  lemma DeclaredMeans(turns: seq<Turn>, i: nat)
    requires 0 < i <= |turns|
    ensures var c := turns[i - 1].taken.line.content;
      var speaks := c.Object? && c.versioned && c.id.Some? && c.id.value != NullId
        && c.verb == Some("initialize") && c.params.Some?;
      Declared(turns, i) <==> if speaks then c.params.value.elicitationForm else Declared(turns, i - 1)
    ensures !Declared(turns, 0)
  {
  }

  /**
   * A dialog is answered by an accepting result for its id, declined by any other message with its id or a
   * cancel that names it, and ended with the process by a shutdown or an exit; other lines do not end it.
   */
  lemma DialogEndMeans(line: Line, name: string)
    ensures var c := line.content;
      && (EndsDialog(line, name) <==>
            c.Object? &&
            (c.id == Some(Text(name)) || c.verb == Some("exit") || c.verb == Some("notifications/exit")
             || c.verb == Some("shutdown")
             || (c.verb == Some("notifications/cancelled") && c.params.Some?
                 && c.params.value.requestId == Some(Text(name)))))
      && (EndsDialog(line, name) ==>
            if c.id == Some(Text(name)) then
              if c.result.Some? && c.result.value.accepted then EndOf(line, name) == Answered(c.result.value.selected)
              else EndOf(line, name) == Declined
            else if c.verb == Some("notifications/cancelled") then EndOf(line, name) == Declined
            else EndOf(line, name) == ProcessExit)
  {
  }

  /**
   * A dialog replies to a line only if it has an id that is not its own: a shutdown with a result, and
   * anything but an exit or a cancel that names it with the code of a busy server. It logs whatever neither
   * answers it nor ends it, and an answer without a result.
   */
  lemma DialogReplyMeans(line: Line, name: string)
    ensures var c := line.content;
      var kept := c.Object? &&
        (c.id == Some(Text(name)) || c.verb == Some("exit") || c.verb == Some("notifications/exit")
         || (c.verb == Some("notifications/cancelled") && c.params.Some?
             && c.params.value.requestId == Some(Text(name))));
      var reply := if !c.Object? || c.id == None || kept then []
                   else [Reply(c.id.value, if c.verb == Some("shutdown") then Fulfilled else Failed(-32000))];
      var logged := c == NotObject
        || (c.Object? && if c.id == Some(Text(name)) then c.result == None
                         else !kept && c.verb != Some("shutdown"));
      DialogReply(line, name) == reply && LineSends(line, name) == reply + if logged then [Notice] else []
  {
  }

  // ----- all that a turn writes -----

  lemma {:induction false} NoticesMean(n: nat)
    ensures |Notices(n)| == n && forall i :: 0 <= i < n ==> Notices(n)[i] == Notice
  {
    if n > 0 {
      NoticesMean(n - 1);
    }
  }

  /**
   * A turn with a tool run writes a notice on the call and the notices of the tool, then what its dialogs
   * send, then a notice if the tool failed, and then, unless the process exits, the reply.
   */
  lemma ToolTurnWrites(w: World, input: seq<Arrival>, i: nat)
    requires i < |Turns(w, Started(input))| && Turns(w, Started(input))[i].call.Some?
    ensures var t := Turns(w, Started(input))[i];
      var tool := t.call.value.tool;
      var exits := t.dialogs != [] && t.dialogs[|t.dialogs| - 1].end == ProcessExit;
      && t.taken.line.content.Object? && t.taken.line.content.id.Some?
      && exists notices: seq<Sent>, selection ::
           && |notices| == 1 + tool.notices && (forall k :: 0 <= k < |notices| ==> notices[k] == Notice)
           && TurnSends(w, t) == notices + DialogsSend(t.dialogs)
                + (if tool.result == Errored then [Notice] else [])
                + (if exits then [] else [Reply(t.taken.line.content.id.value, ToolAnswer(selection))])
  {
    var r := TurnsAre(w, Started(input), i);
    var t := TurnAt(w, r);
    TurnDialogs(w, r);
    var tool := t.call.value.tool;
    var notices := Notices(1) + Notices(tool.notices);
    var selection := SelectionOf(w, t.canElicit, tool, t.dialogs);
    NoticesMean(1);
    NoticesMean(tool.notices);
    assert |notices| == 1 + tool.notices && forall k :: 0 <= k < |notices| ==> notices[k] == Notice;
    assert TurnSends(w, t) == notices + DialogsSend(t.dialogs)
      + (if tool.result == Errored then [Notice] else [])
      + (if Cut(t) then [] else [Reply(t.taken.line.content.id.value, ToolAnswer(selection))]);
  }

  /** A dialog expired under this name. */
  predicate ExpiredAmong(dialogs: seq<Dialog>, name: string) {
    exists d :: d in dialogs && d.name == name && d.end == Expired
  }

  lemma {:induction false} LinesCancelNothing(lines: seq<Arrival>, dialog: string, name: string)
    ensures DialogCancel(name) !in LinesSend(lines, dialog)
    decreases |lines|
  {
    if lines != [] {
      LinesCancelNothing(lines[..|lines| - 1], dialog, name);
    }
  }

  lemma DialogCancels(d: Dialog, name: string)
    ensures DialogCancel(name) in DialogSends(d) <==> d.end == Expired && d.name == name
  {
    LinesCancelNothing(d.lines, d.name, name);
    var closing := if d.end.Expired? then [Notice, DialogCancel(d.name)] else [];
    assert DialogCancel(name) in closing <==> d.end == Expired && d.name == name;
  }

  lemma {:induction false} DialogsCancel(dialogs: seq<Dialog>, name: string)
    ensures DialogCancel(name) in DialogsSend(dialogs) <==> ExpiredAmong(dialogs, name)
    decreases |dialogs|
  {
    if dialogs != [] {
      var n := |dialogs| - 1;
      DialogsCancel(dialogs[..n], name);
      DialogCancels(dialogs[n], name);
      AmongPush(dialogs, name);
    }
  }

  lemma AmongPush(dialogs: seq<Dialog>, name: string)
    requires dialogs != []
    ensures var n := |dialogs| - 1;
      ExpiredAmong(dialogs, name) <==>
        ExpiredAmong(dialogs[..n], name) || (dialogs[n].name == name && dialogs[n].end == Expired)
  {
    assert forall d :: d in dialogs <==> d in dialogs[..|dialogs| - 1] || d == dialogs[|dialogs| - 1];
  }

  lemma TurnCancels(w: World, t: Turn, name: string)
    ensures DialogCancel(name) in TurnSends(w, t) <==> ExpiredAmong(t.dialogs, name)
  {
    DialogsCancel(t.dialogs, name);
    PreludeOnlyNotices(t);
  }

  lemma PreludeOnlyNotices(t: Turn)
    ensures forall m :: m in Prelude(t) ==> m == Notice
  {
    NoticesMean(1);
    if t.call.Some? {
      NoticesMean(t.call.value.tool.notices);
    }
  }

  /** The client is told to dismiss exactly the dialogs that expired. */
  lemma {:induction false} CancelSentIff(w: World, turns: seq<Turn>, name: string)
    ensures DialogCancel(name) in Script(w, turns) <==> ExpiredAmong(DialogsOf(turns), name)
  {
    if turns != [] {
      TurnCancels(w, turns[0], name);
      CancelSentIff(w, turns[1..], name);
      AmongConcat(turns[0].dialogs, DialogsOf(turns[1..]), name);
    }
  }

  lemma AmongConcat(a: seq<Dialog>, b: seq<Dialog>, name: string)
    ensures ExpiredAmong(a + b, name) <==> ExpiredAmong(a, name) || ExpiredAmong(b, name)
  {
    assert forall d :: d in a + b <==> d in a || d in b;
  }

  // ----- order and time -----

  lemma {:induction false} LinesSendConcat(a: seq<Arrival>, b: seq<Arrival>, name: string)
    ensures LinesSend(a + b, name) == LinesSend(a, name) + LinesSend(b, name)
    decreases |b|
  {
    if b == [] {
      assert a + b == a;
    } else {
      var n := |b| - 1;
      assert (a + b)[..|a + b| - 1] == a + b[..n];
      LinesSendConcat(a, b[..n], name);
      Associate(LinesSend(a, name), LinesSend(b[..n], name), LineSends(b[n].line, name));
    }
  }

  /**
   * A dialog opens with its request, goes on with what each of its lines calls for, in order, and closes
   * with a notice and the cancel if it expired, or a notice if another view was asked for.
   */
  lemma DialogOpensAndCloses(d: Dialog, k: nat)
    requires k < |d.lines|
    ensures var sends, n := DialogSends(d), |DialogSends(d)|;
      && n > 0 && sends[0] == DialogRequest(d.name)
      && (d.end == Expired ==> n > 2 && sends[n - 2..] == [Notice, DialogCancel(d.name)])
      && (Switches(d) ==> n > 1 && sends[n - 1] == Notice)
      && LinesSend(d.lines, d.name) ==
           LinesSend(d.lines[..k], d.name) + LineSends(d.lines[k].line, d.name) + LinesSend(d.lines[k + 1..], d.name)
      && LinesSend(d.lines, d.name) <= sends[1..]
  {
    var lines := d.lines;
    assert lines == lines[..k] + [lines[k]] + lines[k + 1..];
    LinesSendConcat(lines[..k] + [lines[k]], lines[k + 1..], d.name);
    LinesSendConcat(lines[..k], [lines[k]], d.name);
    assert [lines[k]][..0] == [];
    assert LinesSend([lines[k]], d.name) == [] + LineSends(lines[k].line, d.name);
    SendsParts(d);
  }

  lemma SendsParts(d: Dialog)
    ensures DialogSends(d) ==
      [DialogRequest(d.name)] + (LinesSend(d.lines, d.name)
        + ((if d.end == Expired then [Notice, DialogCancel(d.name)] else []) + if Switches(d) then [Notice] else []))
    ensures d.end == Expired ==> !Switches(d)
  {
  }

  /**
   * The reader thread watches for cancels of a call while its tool runs; the first dialog begins as that
   * ends, each further one as the one before ends, and the turn finishes with the last of them.
   */
  lemma TurnSpan(w: World, input: seq<Arrival>, i: nat)
    requires i < |Turns(w, Started(input))|
    ensures var t := Turns(w, Started(input))[i];
      var after := if t.call.Some? then t.at + t.call.value.tool.time else t.at;
      && (t.call.Some? ==>
            t.taken.line.content.Object? && t.taken.line.content.id.Some?
            && WatchesOf(t) == [Watch(t.taken.line.content.id.value, t.at, after)])
      && (t.call.None? ==> WatchesOf(t) == [] && t.dialogs == [])
      && (forall k :: 0 <= k < |t.dialogs| ==>
            t.dialogs[k].began == if k == 0 then after else t.dialogs[k - 1].finished)
      && Finished(t) == if t.dialogs == [] then after else t.dialogs[|t.dialogs| - 1].finished
  {
    var r := TurnsAre(w, Started(input), i);
    var t := TurnAt(w, r);
    TurnDialogs(w, r);
    TurnAtClock(w, r);
    if t.dialogs != [] {
      CallMeets(w, r);
      BeginInTurn(t.dialogs, Ended(t.call.value), Kept(r.inbox[1..], WatchesOf(t)));
    }
  }

  lemma {:induction false} BeginInTurn(dialogs: seq<Dialog>, now: nat, inbox: seq<Arrival>)
    requires MeetInTurn(dialogs, now, inbox)
    ensures forall k :: 0 <= k < |dialogs| ==> dialogs[k].began == if k == 0 then now else dialogs[k - 1].finished
    decreases |dialogs|
  {
    if dialogs != [] {
      var d, rest := dialogs[0], dialogs[1..];
      BeginInTurn(rest, d.finished, inbox[|d.lines|..]);
      forall k | 0 <= k < |dialogs|
        ensures dialogs[k].began == if k == 0 then now else dialogs[k - 1].finished
      {
        if k > 0 {
          assert dialogs[k] == rest[k - 1];
        }
      }
    }
  }
}
