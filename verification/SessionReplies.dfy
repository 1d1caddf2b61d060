/** Who gets a reply in a session, and what ends it. */
module SessionReplies {
  import opened Sequences
  import opened Wire
  import opened SessionModel
  import opened SessionTheorems

  /** Where a line was taken off the channel: by the main loop, or by a dialog. */
  datatype Context = MainLoop | Within(dialog: string)

  datatype Taken = Taken(arrival: Arrival, context: Context)

  // ----- the lines taken -----

  function ByDialog(lines: seq<Arrival>, name: string): seq<Taken> {
    if lines == [] then []
    else ByDialog(lines[..|lines| - 1], name) + [Taken(lines[|lines| - 1], Within(name))]
  }

  function ByDialogs(dialogs: seq<Dialog>): seq<Taken> {
    if dialogs == [] then []
    else
      var d := dialogs[|dialogs| - 1];
      ByDialogs(dialogs[..|dialogs| - 1]) + ByDialog(d.lines, d.name)
  }

  function ByTurn(t: Turn): seq<Taken> {
    [Taken(t.taken, MainLoop)] + ByDialogs(t.dialogs)
  }

  /** All lines that a session takes, in order. */
  function TakenIn(turns: seq<Turn>): seq<Taken> {
    if turns == [] then [] else ByTurn(turns[0]) + TakenIn(turns[1..])
  }

  // ----- what a line is owed -----

  predicate Carries(line: Line, id: Id) {
    line.content.Object? && line.content.id == Some(id)
  }

  /** The line is a request with the id. */
  predicate Requests(t: Taken, id: Id) {
    IsRequest(t.arrival.line) && Carries(t.arrival.line, id)
  }

  /** A request that a dialog swallows: it has the dialog's id, or asks to exit, or cancels the dialog. */
  predicate Swallowed(t: Taken) {
    t.context.Within? && DialogKeeps(t.arrival.line, t.context.dialog)
  }

  /**
   * The line has to be replied to with the id: for the main loop a request with it, and with a null id
   * whatever is not a message; for a dialog everything that has the id and is not swallowed.
   */
  predicate Owed(t: Taken, id: Id) {
    if t.context.Within? then Carries(t.arrival.line, id) && !Swallowed(t)
    else Requests(t, id) || (id == NullId && !t.arrival.line.content.Blank? && !IsMessage(t.arrival.line))
  }

  function Owing(taken: seq<Taken>, id: Id): nat {
    if taken == [] then 0 else Owing(taken[..|taken| - 1], id) + if Owed(taken[|taken| - 1], id) then 1 else 0
  }

  function RepliesTo(sent: seq<Sent>, id: Id): nat {
    if sent == [] then 0
    else
      var m := sent[|sent| - 1];
      RepliesTo(sent[..|sent| - 1], id) + if m.Reply? && m.id == id then 1 else 0
  }

  lemma {:induction false} OwingConcat(a: seq<Taken>, b: seq<Taken>, id: Id)
    ensures Owing(a + b, id) == Owing(a, id) + Owing(b, id)
    decreases |b|
  {
    if b == [] {
      assert a + b == a;
    } else {
      assert (a + b)[..|a + b| - 1] == a + b[..|b| - 1];
      OwingConcat(a, b[..|b| - 1], id);
    }
  }

  lemma {:induction false} RepliesConcat(a: seq<Sent>, b: seq<Sent>, id: Id)
    ensures RepliesTo(a + b, id) == RepliesTo(a, id) + RepliesTo(b, id)
    decreases |b|
  {
    if b == [] {
      assert a + b == a;
    } else {
      assert (a + b)[..|a + b| - 1] == a + b[..|b| - 1];
      RepliesConcat(a, b[..|b| - 1], id);
    }
  }

  lemma RepliesFour(a: seq<Sent>, b: seq<Sent>, c: seq<Sent>, d: seq<Sent>, id: Id)
    ensures RepliesTo(a + b + c + d, id) ==
      RepliesTo(a, id) + RepliesTo(b, id) + RepliesTo(c, id) + RepliesTo(d, id)
  {
    RepliesConcat(a, b, id);
    RepliesConcat(a + b, c, id);
    RepliesConcat(a + b + c, d, id);
  }

  lemma RepliesAtMostOne(m: Sent, id: Id)
    ensures RepliesTo([m], id) == (if m.Reply? && m.id == id then 1 else 0) && RepliesTo([], id) == 0
  {
    assert [m][..0] == [];
  }

  // ----- level by level -----

  lemma LineReplies(a: Arrival, name: string, id: Id)
    ensures RepliesTo(LineSends(a.line, name), id) == if Owed(Taken(a, Within(name)), id) then 1 else 0
  {
    var reply := DialogReply(a.line, name);
    var notice := LineSends(a.line, name)[|reply|..];
    RepliesConcat(reply, notice, id);
    RepliesAtMostOne(Notice, id);
    if reply != [] {
      RepliesAtMostOne(reply[0], id);
      assert reply == [reply[0]];
    }
  }

  lemma {:induction false} LinesReplies(lines: seq<Arrival>, name: string, id: Id)
    ensures RepliesTo(LinesSend(lines, name), id) == Owing(ByDialog(lines, name), id)
    decreases |lines|
  {
    if lines != [] {
      var n := |lines| - 1;
      LinesReplies(lines[..n], name, id);
      LineReplies(lines[n], name, id);
      RepliesConcat(LinesSend(lines[..n], name), LineSends(lines[n].line, name), id);
    }
  }

  lemma ClosingReplies(name: string, id: Id)
    ensures RepliesTo([Notice, DialogCancel(name)], id) == 0
  {
    RepliesAtMostOne(Notice, id);
    RepliesAtMostOne(DialogCancel(name), id);
    RepliesConcat([Notice], [DialogCancel(name)], id);
    assert [Notice] + [DialogCancel(name)] == [Notice, DialogCancel(name)];
  }

  lemma DialogReplies(d: Dialog, id: Id)
    ensures RepliesTo(DialogSends(d), id) == Owing(ByDialog(d.lines, d.name), id)
  {
    var closing := if d.end.Expired? then [Notice, DialogCancel(d.name)] else [];
    RepliesAtMostOne(DialogRequest(d.name), id);
    RepliesAtMostOne(Notice, id);
    LinesReplies(d.lines, d.name, id);
    ClosingReplies(d.name, id);
    RepliesFour([DialogRequest(d.name)], LinesSend(d.lines, d.name), closing, if Switches(d) then [Notice] else [], id);
  }

  lemma {:induction false} DialogsReplies(dialogs: seq<Dialog>, id: Id)
    ensures RepliesTo(DialogsSend(dialogs), id) == Owing(ByDialogs(dialogs), id)
    decreases |dialogs|
  {
    if dialogs != [] {
      var n := |dialogs| - 1;
      DialogsReplies(dialogs[..n], id);
      DialogReplies(dialogs[n], id);
      RepliesConcat(DialogsSend(dialogs[..n]), DialogSends(dialogs[n]), id);
      OwingConcat(ByDialogs(dialogs[..n]), ByDialog(dialogs[n].lines, dialogs[n].name), id);
    }
  }

  lemma {:induction false} NoticesReplies(n: nat, id: Id)
    ensures RepliesTo(Notices(n), id) == 0
  {
    if n > 0 {
      NoticesReplies(n - 1, id);
      RepliesConcat(Notices(n - 1), [Notice], id);
      RepliesAtMostOne(Notice, id);
    }
  }

  lemma PreludeReplies(t: Turn, id: Id)
    ensures RepliesTo(Prelude(t), id) == 0
  {
    NoticesReplies(1, id);
    if t.call.Some? {
      NoticesReplies(t.call.value.tool.notices, id);
      RepliesConcat(Notices(1), Notices(t.call.value.tool.notices), id);
    }
  }

  lemma MainReplies(w: World, t: Turn, id: Id)
    ensures RepliesTo(MainReply(w, t), id) == if Owed(Taken(t.taken, MainLoop), id) then 1 else 0
  {
    var reply := MainReply(w, t);
    if reply != [] {
      RepliesAtMostOne(reply[0], id);
      assert reply == [reply[0]];
    }
  }

  /** The reply that a cut turn leaves out. */
  predicate CutOff(t: Turn, id: Id) {
    Cut(t) && Owed(Taken(t.taken, MainLoop), id)
  }

  lemma TurnReplies(w: World, t: Turn, id: Id)
    ensures RepliesTo(TurnSends(w, t), id) + (if CutOff(t, id) then 1 else 0) == Owing(ByTurn(t), id)
  {
    PreludeReplies(t, id);
    DialogsReplies(t.dialogs, id);
    RepliesAtMostOne(Notice, id);
    MainReplies(w, t, id);
    RepliesFour(Prelude(t), DialogsSend(t.dialogs), if t.call.Some? then Failure(t.call.value.tool) else [],
                if Cut(t) then [] else MainReply(w, t), id);
    OwingFirst(Taken(t.taken, MainLoop), ByDialogs(t.dialogs), id);
  }

  lemma OwingFirst(first: Taken, rest: seq<Taken>, id: Id)
    ensures Owing([first] + rest, id) == (if Owed(first, id) then 1 else 0) + Owing(rest, id)
  {
    assert [first][..0] == [];
    OwingConcat([first], rest, id);
  }

  // ----- the law of replies -----

  /** Only the last turn of a session can be cut. */
  predicate CutAtLast(turns: seq<Turn>, id: Id) {
    turns != [] && CutOff(turns[|turns| - 1], id)
  }

  /**
   * The law of replies: for every id, null included, the replies sent with it are as many as the lines
   * taken that have to be replied to with it, less one if an exit in a dialog cut off that of the call.
   */
  lemma {:induction false} RepliesBalance(w: World, s: State, id: Id)
    requires !s.exited
    ensures var turns := Turns(w, s);
      RepliesTo(Script(w, turns), id) + (if CutAtLast(turns, id) then 1 else 0) == Owing(TakenIn(turns), id)
    decreases |s.inbox|
  {
    if s.inbox != [] {
      var t := TurnAt(w, s);
      var after := AfterTurn(w, s, t);
      var turns := Turns(w, s);
      FirstTurn(w, s);
      TurnReplies(w, t, id);
      RepliesConcat(TurnSends(w, t), Script(w, turns[1..]), id);
      OwingConcat(ByTurn(t), TakenIn(turns[1..]), id);
      if after.exited {
        assert turns == [t];
      } else {
        RepliesBalance(w, after, id);
        if turns[1..] == [] {
          assert turns == [t];
        } else {
          assert turns[|turns| - 1] == turns[1..][|turns[1..]| - 1];
        }
      }
    }
  }

  lemma {:induction false} OwingOnly(taken: seq<Taken>, i: nat, id: Id)
    requires i < |taken|
    requires forall j :: 0 <= j < |taken| && j != i ==> !Owed(taken[j], id)
    ensures Owing(taken, id) == if Owed(taken[i], id) then 1 else 0
    decreases |taken|
  {
    var n := |taken| - 1;
    if i < n {
      OwingOnly(taken[..n], i, id);
    } else {
      OwingNone(taken[..n], id);
    }
  }

  lemma {:induction false} OwingNone(taken: seq<Taken>, id: Id)
    requires forall j :: 0 <= j < |taken| ==> !Owed(taken[j], id)
    ensures Owing(taken, id) == 0
    decreases |taken|
  {
    if taken != [] {
      OwingNone(taken[..|taken| - 1], id);
    }
  }

  /** The place of the last line that the main loop took. */
  function LastMain(turns: seq<Turn>): nat
    requires turns != []
  {
    |TakenIn(turns[..|turns| - 1])|
  }

  lemma {:induction false} TakenConcat(a: seq<Turn>, b: seq<Turn>)
    ensures TakenIn(a + b) == TakenIn(a) + TakenIn(b)
  {
    if a == [] {
      assert a + b == b;
    } else {
      assert (a + b)[1..] == a[1..] + b;
      TakenConcat(a[1..], b);
    }
  }

  lemma LastMainIs(turns: seq<Turn>)
    requires turns != []
    ensures LastMain(turns) < |TakenIn(turns)|
    ensures TakenIn(turns)[LastMain(turns)] == Taken(turns[|turns| - 1].taken, MainLoop)
  {
    var n := |turns| - 1;
    var last := [turns[n]];
    assert turns == turns[..n] + last;
    TakenConcat(turns[..n], last);
    assert TakenIn(last) == ByTurn(turns[n]) + TakenIn(last[1..]);
  }

  /**
   * A request whose id no other line carries is answered exactly once, unless a dialog swallowed it or it
   * is the call that an exit in a dialog cut off; then it gets no reply at all.
   */
  lemma AnsweredOnce(w: World, input: seq<Arrival>, i: nat, id: Id)
    requires var taken := TakenIn(Turns(w, Started(input)));
      i < |taken| && Requests(taken[i], id)
      && forall j :: 0 <= j < |taken| && j != i ==> !Carries(taken[j].arrival.line, id)
    ensures var turns := Turns(w, Started(input));
      RepliesTo(Script(w, turns), id) ==
        if Swallowed(TakenIn(turns)[i]) || (Cut(turns[|turns| - 1]) && i == LastMain(turns)) then 0 else 1
  {
    var turns := Turns(w, Started(input));
    var taken := TakenIn(turns);
    RepliesBalance(w, Started(input), id);
    forall j | 0 <= j < |taken| && j != i
      ensures !Owed(taken[j], id)
    {
      assert !Carries(taken[j].arrival.line, id);
    }
    OwingOnly(taken, i, id);
    LastMainIs(turns);
  }
}
