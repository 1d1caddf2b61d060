/** What every session keeps: the script of a run, the dialogs in it, and who gets a reply. */
module SessionTheorems {
  import opened Sequences
  import opened Wire
  import opened SessionModel
  import Grouping

  // ----- the run as a history of turns -----

  /** All that a session writes. */
  function Script(w: World, turns: seq<Turn>): seq<Sent> {
    if turns == [] then [] else TurnSends(w, turns[0]) + Script(w, turns[1..])
  }

  function DialogsOf(turns: seq<Turn>): seq<Dialog> {
    if turns == [] then [] else turns[0].dialogs + DialogsOf(turns[1..])
  }

  predicate ExitsAtLast(turns: seq<Turn>) {
    turns != [] && Exits(turns[|turns| - 1])
  }

  /**
   * The state in which a session ends is what its turns make of it: it wrote their script, and it stopped
   * at the end of the input or because the last turn asked for the end of the process.
   */
  lemma {:induction false} FinalFollows(w: World, s: State)
    requires !s.exited
    ensures var turns, r := Turns(w, s), Final(w, s);
      && r.out == s.out + Script(w, turns)
      && (r.exited <==> ExitsAtLast(turns))
      && (r.exited || r.inbox == [])
      && r.watcher == s.watcher
      && r.nextRequestId == s.nextRequestId + |DialogsOf(turns)|
    decreases |s.inbox|
  {
    if s.inbox == [] {
      assert s.out + [] == s.out;
    } else {
      var t := TurnAt(w, s);
      var after := AfterTurn(w, s, t);
      var turns := Turns(w, s);
      FirstTurn(w, s);
      if after.exited {
        assert Turns(w, after) == [];
        assert Script(w, turns[1..]) == [] && after.out + [] == after.out;
      } else {
        FinalFollows(w, after);
        assert turns[|turns| - 1] == if turns[1..] == [] then t else turns[1..][|turns[1..]| - 1];
      }
      Associate(s.out, TurnSends(w, t), Script(w, turns[1..]));
    }
  }

  lemma FirstTurn(w: World, s: State)
    requires s.inbox != [] && !s.exited
    ensures var t := TurnAt(w, s);
      Turns(w, s) != [] && Turns(w, s)[0] == t && Turns(w, s)[1..] == Turns(w, AfterTurn(w, s, t))
  {
  }

  // ----- the dialogs -----

  /** Dialogs with consecutive numbers, from `first` on. */
  predicate Numbered(dialogs: seq<Dialog>, first: nat) {
    forall k :: 0 <= k < |dialogs| ==> dialogs[k].name == DialogName(first + k)
  }

  lemma NumberedConcat(a: seq<Dialog>, b: seq<Dialog>, first: nat)
    requires Numbered(a, first) && Numbered(b, first + |a|)
    ensures Numbered(a + b, first)
  {
    forall k | 0 <= k < |a + b|
      ensures (a + b)[k].name == DialogName(first + k)
    {
      if k >= |a| {
        assert b[k - |a|].name == DialogName(first + |a| + (k - |a|));
      }
    }
  }

  lemma {:induction false} DialogsAtNumbered(first: nat, rounds: nat, grouped: bool, now: nat, inbox: seq<Arrival>)
    ensures Numbered(DialogsAt(first, rounds, grouped, now, inbox), first)
    decreases rounds
  {
    if rounds > 0 {
      var d := DialogAt(DialogName(first), grouped, now, inbox);
      if Switches(d) {
        DialogsAtNumbered(first + 1, rounds - 1, grouped, d.finished, inbox[|d.lines|..]);
        NumberedConcat([d], DialogsAt(first + 1, rounds - 1, grouped, d.finished, inbox[|d.lines|..]), first);
      }
    }
  }

  lemma TurnNumbered(w: World, s: State)
    requires s.inbox != []
    ensures Numbered(TurnAt(w, s).dialogs, s.nextRequestId)
  {
    if StartsTool(s.inbox[0].line) {
      var run, ran := w.tools(s.calls), Ran(w, Taking(s), s.inbox[0].line.content.id.value);
      if Asks(w, s.canElicit, run) {
        var approvals := run.result.approvals;
        DialogsAtNumbered(s.nextRequestId, Rounds(approvals), approvals >= GROUPING_THRESHOLD, ran.now, ran.inbox);
      }
    }
  }

  /** The dialogs of a session carry consecutive numbers. */
  lemma {:induction false} DialogNames(w: World, s: State)
    ensures Numbered(DialogsOf(Turns(w, s)), s.nextRequestId)
    decreases |s.inbox|
  {
    if s.inbox != [] && !s.exited {
      var t := TurnAt(w, s);
      var after := AfterTurn(w, s, t);
      FirstTurn(w, s);
      TurnNumbered(w, s);
      DialogNames(w, after);
      NumberedConcat(t.dialogs, DialogsOf(Turns(w, after)), s.nextRequestId);
    }
  }

  lemma DialogNamesDiffer(m: nat, n: nat)
    requires DialogName(m) == DialogName(n)
    ensures m == n
  {
    assert DialogName(m)[2..] == Grouping.Decimal(m) && DialogName(n)[2..] == Grouping.Decimal(n);
    Grouping.DecimalInjective(m, n);
  }

  /** No two dialogs of a session have the same name. */
  lemma DialogNamesFresh(w: World, s: State, i: nat, j: nat)
    requires i < j < |DialogsOf(Turns(w, s))|
    ensures DialogsOf(Turns(w, s))[i].name != DialogsOf(Turns(w, s))[j].name
  {
    DialogNames(w, s);
    if DialogsOf(Turns(w, s))[i].name == DialogsOf(Turns(w, s))[j].name {
      DialogNamesDiffer(s.nextRequestId + i, s.nextRequestId + j);
    }
  }

  /** The names of the dialogs that a client is asked to show. */
  function Asked(sent: seq<Sent>): seq<string> {
    if sent == [] then []
    else
      var m := sent[|sent| - 1];
      Asked(sent[..|sent| - 1]) + if m.DialogRequest? then [m.dialog] else []
  }

  function NamesOf(dialogs: seq<Dialog>): seq<string> {
    if dialogs == [] then [] else NamesOf(dialogs[..|dialogs| - 1]) + [dialogs[|dialogs| - 1].name]
  }

  lemma {:induction false} AskedConcat(a: seq<Sent>, b: seq<Sent>)
    ensures Asked(a + b) == Asked(a) + Asked(b)
    decreases |b|
  {
    if b == [] {
      assert a + b == a;
    } else {
      assert (a + b)[..|a + b| - 1] == a + b[..|b| - 1];
      AskedConcat(a, b[..|b| - 1]);
    }
  }

  lemma AskedFour(a: seq<Sent>, b: seq<Sent>, c: seq<Sent>, d: seq<Sent>)
    ensures Asked(a + b + c + d) == Asked(a) + Asked(b) + Asked(c) + Asked(d)
  {
    AskedConcat(a, b);
    AskedConcat(a + b, c);
    AskedConcat(a + b + c, d);
  }

  /** A message that asks for no dialog. */
  lemma AskedAtMostOne(m: Sent)
    ensures Asked([m]) == (if m.DialogRequest? then [m.dialog] else []) && Asked([]) == []
  {
    assert [m][..0] == [];
  }

  lemma {:induction false} LinesAskNothing(lines: seq<Arrival>, name: string)
    ensures Asked(LinesSend(lines, name)) == []
    decreases |lines|
  {
    if lines != [] {
      var n := |lines| - 1;
      LinesAskNothing(lines[..n], name);
      LineAsksNothing(lines[n].line, name);
      AskedConcat(LinesSend(lines[..n], name), LineSends(lines[n].line, name));
    }
  }

  lemma LineAsksNothing(line: Line, name: string)
    ensures Asked(LineSends(line, name)) == []
  {
    var reply := DialogReply(line, name);
    var notice := LineSends(line, name)[|reply|..];
    AskedConcat(reply, notice);
    AskedAtMostOne(if reply == [] then Notice else reply[0]);
    AskedAtMostOne(Notice);
  }

  lemma DialogAsksOnce(d: Dialog)
    ensures Asked(DialogSends(d)) == [d.name]
  {
    var closing := if d.end.Expired? then [Notice, DialogCancel(d.name)] else [];
    AskedAtMostOne(DialogRequest(d.name));
    LinesAskNothing(d.lines, d.name);
    AskedAtMostOne(Notice);
    ClosingAsksNothing(d.name);
    AskedFour([DialogRequest(d.name)], LinesSend(d.lines, d.name), closing, if Switches(d) then [Notice] else []);
    assert [d.name] + [] + [] + [] == [d.name];
  }

  lemma ClosingAsksNothing(name: string)
    ensures Asked([Notice, DialogCancel(name)]) == []
  {
    AskedAtMostOne(Notice);
    AskedAtMostOne(DialogCancel(name));
    AskedConcat([Notice], [DialogCancel(name)]);
    assert [Notice] + [DialogCancel(name)] == [Notice, DialogCancel(name)];
  }

  lemma {:induction false} DialogsAsk(dialogs: seq<Dialog>)
    ensures Asked(DialogsSend(dialogs)) == NamesOf(dialogs)
    decreases |dialogs|
  {
    if dialogs != [] {
      var n := |dialogs| - 1;
      DialogsAsk(dialogs[..n]);
      DialogAsksOnce(dialogs[n]);
      AskedConcat(DialogsSend(dialogs[..n]), DialogSends(dialogs[n]));
    }
  }

  lemma {:induction false} NoticesAskNothing(n: nat)
    ensures Asked(Notices(n)) == []
  {
    if n > 0 {
      NoticesAskNothing(n - 1);
      AskedConcat(Notices(n - 1), [Notice]);
      AskedAtMostOne(Notice);
    }
  }

  lemma PreludeAsksNothing(t: Turn)
    ensures Asked(Prelude(t)) == []
  {
    NoticesAskNothing(1);
    if t.call.Some? {
      NoticesAskNothing(t.call.value.tool.notices);
      AskedConcat(Notices(1), Notices(t.call.value.tool.notices));
    }
  }

  lemma ReplyAsksNothing(w: World, t: Turn)
    ensures Asked(MainReply(w, t)) == []
  {
    var reply := MainReply(w, t);
    if reply != [] {
      AskedAtMostOne(reply[0]);
      assert reply == [reply[0]];
    }
  }

  lemma TurnAsks(w: World, t: Turn)
    ensures Asked(TurnSends(w, t)) == NamesOf(t.dialogs)
  {
    PreludeAsksNothing(t);
    DialogsAsk(t.dialogs);
    AskedAtMostOne(Notice);
    ReplyAsksNothing(w, t);
    OnlySecondAsks(Prelude(t), DialogsSend(t.dialogs), if t.call.Some? then Failure(t.call.value.tool) else [],
                   if Cut(t) then [] else MainReply(w, t));
  }

  lemma OnlySecondAsks(a: seq<Sent>, b: seq<Sent>, c: seq<Sent>, d: seq<Sent>)
    requires Asked(a) == [] && Asked(c) == [] && Asked(d) == []
    ensures Asked(a + b + c + d) == Asked(b)
  {
    AskedFour(a, b, c, d);
  }

  lemma {:induction false} NamesConcat(a: seq<Dialog>, b: seq<Dialog>)
    ensures NamesOf(a + b) == NamesOf(a) + NamesOf(b)
    decreases |b|
  {
    if b == [] {
      assert a + b == a;
    } else {
      assert (a + b)[..|a + b| - 1] == a + b[..|b| - 1];
      NamesConcat(a, b[..|b| - 1]);
    }
  }

  /** The dialogs a session asks its client to show are its dialogs, each once and in order. */
  lemma {:induction false} DialogsAskedOnce(w: World, turns: seq<Turn>)
    ensures Asked(Script(w, turns)) == NamesOf(DialogsOf(turns))
  {
    if turns != [] {
      TurnAsks(w, turns[0]);
      DialogsAskedOnce(w, turns[1..]);
      AskedConcat(TurnSends(w, turns[0]), Script(w, turns[1..]));
      NamesConcat(turns[0].dialogs, DialogsOf(turns[1..]));
    }
  }

  // ----- when dialogs take place -----

  /** Each turn is the turn of some state. */
  lemma {:induction false} TurnsAre(w: World, s: State, i: nat) returns (r: State)
    requires i < |Turns(w, s)|
    ensures r.inbox != [] && !r.exited && Turns(w, s)[i] == TurnAt(w, r)
    decreases i
  {
    r := s;
    FirstTurn(w, s);
    if i > 0 {
      r := TurnsAre(w, AfterTurn(w, s, TurnAt(w, s)), i - 1);
    }
  }

  function CallsIn(turns: seq<Turn>): nat {
    if turns == [] then 0 else CallsIn(turns[..|turns| - 1]) + if turns[|turns| - 1].call.Some? then 1 else 0
  }

  lemma {:induction false} CallsInFirst(t: Turn, rest: seq<Turn>)
    ensures CallsIn([t] + rest) == (if t.call.Some? then 1 else 0) + CallsIn(rest)
    decreases |rest|
  {
    if rest == [] {
      assert [t] + rest == [t] && [t][..0] == [];
    } else {
      var n := |rest| - 1;
      assert ([t] + rest)[..n + 1] == [t] + rest[..n];
      CallsInFirst(t, rest[..n]);
    }
  }

  /** Clock and calls in the state in which turn `i` starts. */
  predicate StartsAt(turns: seq<Turn>, i: nat, now: nat, calls: nat, r: State) {
    && i <= |turns| && r.calls == calls + CallsIn(turns[..i])
    && r.now == if i == 0 then now else Finished(turns[i - 1])
  }

  lemma StartsLater(t: Turn, later: seq<Turn>, i: nat, now: nat, calls: nat, r: State)
    requires StartsAt(later, i, Finished(t), calls + if t.call.Some? then 1 else 0, r)
    ensures StartsAt([t] + later, i + 1, now, calls, r)
  {
    assert ([t] + later)[..i + 1] == [t] + later[..i];
    CallsInFirst(t, later[..i]);
  }

  lemma TurnsSplit(w: World, s: State)
    requires s.inbox != [] && !s.exited
    ensures Turns(w, s) == [TurnAt(w, s)] + Turns(w, AfterTurn(w, s, TurnAt(w, s)))
  {
  }

  lemma {:induction false} StateBefore(w: World, s: State, i: nat) returns (r: State)
    requires i < |Turns(w, s)|
    ensures r.inbox != [] && Turns(w, s)[i] == TurnAt(w, r) && StartsAt(Turns(w, s), i, s.now, s.calls, r)
    decreases i
  {
    r := s;
    TurnsSplit(w, s);
    if i == 0 {
      assert Turns(w, s)[..0] == [];
    } else {
      var t := TurnAt(w, s);
      var after := AfterTurn(w, s, t);
      r := StateBefore(w, after, i - 1);
      StartsLater(t, Turns(w, after), i - 1, s.now, s.calls, r);
    }
  }

  lemma TurnAtClock(w: World, s: State)
    requires s.inbox != []
    ensures var t := TurnAt(w, s);
      && t.at == (if s.now >= t.taken.at then s.now else t.taken.at)
      && (t.call.Some? ==> t.call.value == Call(t.at, w.tools(s.calls)))
  {
  }

  /** Turn `i` starts when its line has been read and the turn before has finished, and runs the next tool. */
  predicate OnCue(w: World, turns: seq<Turn>, i: nat, now: nat, calls: nat)
    requires i < |turns|
  {
    var t, before := turns[i], if i == 0 then now else Finished(turns[i - 1]);
    && t.at == (if before >= t.taken.at then before else t.taken.at)
    && (t.call.Some? ==> t.call.value == Call(t.at, w.tools(calls + CallsIn(turns[..i]))))
  }

  lemma CueFromState(w: World, turns: seq<Turn>, i: nat, now: nat, calls: nat, r: State)
    requires i < |turns| && r.inbox != [] && turns[i] == TurnAt(w, r) && StartsAt(turns, i, now, calls, r)
    ensures OnCue(w, turns, i, now, calls)
  {
    TurnAtClock(w, r);
  }

  /**
   * A turn starts when its line has been read and the turn before has finished, and a tool run in it is the
   * next one that the world has.
   */
  lemma TurnTimes(w: World, s: State, i: nat)
    requires i < |Turns(w, s)|
    ensures OnCue(w, Turns(w, s), i, s.now, s.calls)
  {
    var r := StateBefore(w, s, i);
    CueFromState(w, Turns(w, s), i, s.now, s.calls, r);
  }

  /** A session starts with its first line and the first tool run that the world has. */
  lemma FirstTurnTimes(w: World, input: seq<Arrival>)
    requires input != []
    ensures var t := Turns(w, Started(input))[0];
      t.taken == input[0] && t.at == input[0].at && (t.call.Some? ==> t.call.value == Call(t.at, w.tools(0)))
  {
    FirstTurn(w, Started(input));
    TurnTimes(w, Started(input), 0);
    assert Turns(w, Started(input))[..0] == [];
  }

  /** The client's last word on dialogs before turn `i` is that it can show them. */
  predicate Declared(turns: seq<Turn>, i: nat)
    requires i <= |turns|
  {
    i > 0 && if Declares(turns[i - 1].taken.line) then DeclaresForm(turns[i - 1].taken.line) else Declared(turns, i - 1)
  }

  lemma {:induction false} CapabilityPassesOn(w: World, s: State, i: nat)
    requires i < |Turns(w, s)|
    ensures Turns(w, s)[i].canElicit == if i == 0 then s.canElicit else Capability(Turns(w, s)[i - 1])
    decreases i
  {
    FirstTurn(w, s);
    if i > 0 {
      var after := AfterTurn(w, s, TurnAt(w, s));
      var turns, later := Turns(w, s), Turns(w, after);
      assert turns[i] == later[i - 1] && (i > 1 ==> turns[i - 1] == later[i - 2]);
      CapabilityPassesOn(w, after, i - 1);
    }
  }

  lemma {:induction false} CapabilityIsDeclared(w: World, input: seq<Arrival>, i: nat)
    requires i < |Turns(w, Started(input))|
    ensures Turns(w, Started(input))[i].canElicit <==> Declared(Turns(w, Started(input)), i)
    decreases i
  {
    CapabilityPassesOn(w, Started(input), i);
    if i > 0 {
      CapabilityIsDeclared(w, input, i - 1);
    }
  }

  /**
   * Dialogs take place in a turn exactly when it ran a tool for a request with params, the tool left
   * suggestions to approve, the server is in prompting mode and an earlier `initialize`, the last that
   * spoke of it, declared the capability. There is a second one exactly when the first, about enough
   * suggestions to be grouped, was answered by asking for the other view, and never a third.
   */
  lemma DialogsWhenAsked(w: World, input: seq<Arrival>, i: nat)
    requires i < |Turns(w, Started(input))|
    ensures var turns := Turns(w, Started(input));
      var t := turns[i];
      && (t.call.Some? <==> StartsTool(t.taken.line))
      && (t.dialogs != [] <==> t.call.Some? && NeedsUser(t.call.value.tool) && w.mode == Prompt && Declared(turns, i))
      && (|t.dialogs| >= 2 <==> t.dialogs != [] && Switches(t.dialogs[0]))
      && (|t.dialogs| >= 2 ==> |t.dialogs| == 2 && t.call.value.tool.result.approvals >= 5)
  {
    var r := TurnsAre(w, Started(input), i);
    CapabilityIsDeclared(w, input, i);
    TurnDialogs(w, r);
  }

  lemma {:induction false} AllGrouped(first: nat, rounds: nat, grouped: bool, now: nat, inbox: seq<Arrival>)
    ensures forall d :: d in DialogsAt(first, rounds, grouped, now, inbox) ==> d.grouped == grouped
    decreases rounds
  {
    if rounds > 0 {
      var d := DialogAt(DialogName(first), grouped, now, inbox);
      if Switches(d) {
        AllGrouped(first + 1, rounds - 1, grouped, d.finished, inbox[|d.lines|..]);
      }
    }
  }

  lemma TurnDialogs(w: World, s: State)
    requires s.inbox != []
    ensures var t := TurnAt(w, s);
      && (t.call.Some? <==> StartsTool(t.taken.line))
      && (t.dialogs != [] <==> t.call.Some? && Asks(w, t.canElicit, t.call.value.tool))
      && (|t.dialogs| >= 2 <==> t.dialogs != [] && Switches(t.dialogs[0]))
      && (|t.dialogs| >= 2 ==> |t.dialogs| == 2 && t.call.value.tool.result.approvals >= 5)
  {
    var t := TurnAt(w, s);
    if StartsTool(s.inbox[0].line) && Asks(w, s.canElicit, w.tools(s.calls)) {
      var approvals := w.tools(s.calls).result.approvals;
      var ran := Ran(w, Taking(s), s.inbox[0].line.content.id.value);
      AtMostTwoDialogs(s.nextRequestId, Rounds(approvals), approvals >= GROUPING_THRESHOLD, ran.now, ran.inbox);
    }
  }

  lemma AtMostTwoDialogs(first: nat, rounds: nat, grouped: bool, now: nat, inbox: seq<Arrival>)
    requires rounds == if grouped then 2 else 1
    ensures var ds := DialogsAt(first, rounds, grouped, now, inbox);
      1 <= |ds| <= rounds && (|ds| == 2 <==> Switches(ds[0]))
  {
    var d := DialogAt(DialogName(first), grouped, now, inbox);
    if Switches(d) {
      var rest := DialogsAt(first + 1, rounds - 1, grouped, d.finished, inbox[|d.lines|..]);
      assert |rest| == 1 by {
        var e := DialogAt(DialogName(first + 1), grouped, d.finished, inbox[|d.lines|..]);
        assert rest == [e] + if Switches(e)
          then DialogsAt(first + 2, 0, grouped, e.finished, inbox[|d.lines|..][|e.lines|..]) else [];
      }
    }
  }
}
