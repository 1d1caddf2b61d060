/** Which requests can stay unanswered, with a session for each. */
module SessionLosses {
  import opened Sequences
  import opened Wire
  import opened SessionModel
  import opened SessionTheorems
  import opened SessionReplies
  import opened SessionClients

  /** A prompting server whose tools always leave one suggestion to approve, at once. */
  const ASKING := World(Prompt, (n: nat) => ToolRun(0, 0, WithSuggestions(1)))

  function Declaration(id: Id): Line {
    Line(false, Object(true, Some(id), Some("initialize"), Some(Params(None, true, false)), None))
  }

  function ToolRequest(id: Id): Line {
    Line(false, Object(true, Some(id), Some("tools/call"), Some(Params(None, false, false)), None))
  }

  const EXIT_NOTICE := Line(false, Object(true, None, Some("exit"), None, None))

  /** Tool calls so far apart that each dialog expires, except the last, during which `last` arrives. */
  function Queue(call: Line, n: nat, at: nat, last: Line): seq<Arrival>
    requires n > 0
  {
    [Arrival(at, call)] + if n == 1 then [Arrival(at + 1, last)] else Queue(call, n - 1, at + 40_000, last)
  }

  lemma {:induction false} KeptInstant(arrivals: seq<Arrival>, id: Id, now: nat)
    ensures Kept(arrivals, [Watch(id, now, now)]) == arrivals
  {
    if arrivals != [] {
      KeptInstant(arrivals[1..], id, now);
    }
  }

  /** A state in which such a queue waits. */
  predicate Waiting(s: State, call: Line, n: nat, at: nat, last: Line) {
    n > 0 && s.inbox == Queue(call, n, at, last) && StartsTool(call) && s.canElicit && !s.exited && s.now <= at
  }

  lemma OneDialog(s: State, call: Line, n: nat, at: nat, last: Line)
    requires Waiting(s, call, n, at, last)
    ensures var t := TurnAt(ASKING, s);
      && t.taken == Arrival(at, call) && Kept(s.inbox[1..], WatchesOf(t)) == s.inbox[1..]
      && t.dialogs == [DialogAt(DialogName(s.nextRequestId), false, at, s.inbox[1..])]
  {
    var id := call.content.id.value;
    KeptInstant(s.inbox[1..], id, at);
    var ran := Ran(ASKING, Taking(s), id);
    var d := DialogAt(DialogName(s.nextRequestId), false, at, ran.inbox);
    assert ran.now == at && ran.inbox == s.inbox[1..];
    assert !Switches(d);
    assert DialogsAt(s.nextRequestId, 1, false, at, ran.inbox) == [d] + [] == [d];
  }

  lemma OneDialogLines(d: Dialog)
    ensures LinesIn([d]) == d.lines && ByDialogs([d]) == ByDialog(d.lines, d.name)
  {
    assert [d][..0] == [];
    assert LinesIn([d]) == [] + d.lines;
    assert ByDialogs([d]) == [] + ByDialog(d.lines, d.name);
  }

  /** The dialog of a call that another call follows expires, having taken nothing. */
  lemma SlowTurn(s: State, call: Line, n: nat, at: nat, last: Line)
    requires Waiting(s, call, n, at, last) && n > 1
    ensures var t := TurnAt(ASKING, s); var after := AfterTurn(ASKING, s, t);
      && ByTurn(t) == [Taken(Arrival(at, call), MainLoop)]
      && Waiting(after, call, n - 1, at + 40_000, last)
      && after.nextRequestId == s.nextRequestId + 1
  {
    OneDialog(s, call, n, at, last);
    var t, rest := TurnAt(ASKING, s), s.inbox[1..];
    assert rest == Queue(call, n - 1, at + 40_000, last) && rest[0].at == at + 40_000;
    var d := DialogAt(DialogName(s.nextRequestId), false, at, rest);
    assert d.lines == [] && d.end.Expired? && d.finished == at + ELICITATION_TIMEOUT;
    OneDialogLines(d);
  }

  lemma OneLine(a: Arrival, name: string)
    ensures ByDialog([a], name) == [Taken(a, Within(name))]
  {
    assert [a][..0] == [];
    assert ByDialog([a], name) == ByDialog([a][..0], name) + [Taken([a][0], Within(name))];
  }

  /** The last dialog takes the last line, if that ends it. */
  lemma LastTurn(s: State, call: Line, at: nat, last: Line)
    requires Waiting(s, call, 1, at, last) && EndsDialog(last, DialogName(s.nextRequestId))
    ensures var t, name := TurnAt(ASKING, s), DialogName(s.nextRequestId);
      && Turns(ASKING, s) == [t]
      && ByTurn(t) == [Taken(Arrival(at, call), MainLoop), Taken(Arrival(at + 1, last), Within(name))]
      && (Cut(t) <==> EndOf(last, name).ProcessExit?)
  {
    OneDialog(s, call, 1, at, last);
    var t, rest, name := TurnAt(ASKING, s), s.inbox[1..], DialogName(s.nextRequestId);
    var a := Arrival(at + 1, last);
    assert rest == [a];
    var d := DialogAt(name, false, at, rest);
    assert Reach(name, at + ELICITATION_TIMEOUT, rest) == 1 && rest[..1] == [a];
    assert d.lines == [a] && d.end == EndOf(last, name);
    OneDialogLines(d);
    OneLine(a, name);
    assert AfterTurn(ASKING, s, t).inbox == [];
  }

  /** A line taken `n` times by whomever, and then the last one by the dialog. */
  predicate Leads(taken: seq<Taken>, call: Line, n: nat, last: Line, name: string) {
    && |taken| == n + 1 && taken[n].arrival.line == last && taken[n].context == Within(name)
    && forall j :: 0 <= j < n ==> taken[j].arrival.line == call
  }

  lemma LeadsFrom(first: Taken, later: seq<Taken>, call: Line, n: nat, last: Line, name: string)
    requires first.arrival.line == call && Leads(later, call, n, last, name)
    ensures Leads([first] + later, call, n + 1, last, name)
  {
  }

  lemma ReachedLast(s: State, call: Line, at: nat, last: Line, name: string)
    requires Waiting(s, call, 1, at, last) && name == DialogName(s.nextRequestId) && EndsDialog(last, name)
    ensures Leads(TakenIn(Turns(ASKING, s)), call, 1, last, name)
  {
    LastTurn(s, call, at, last);
    TakenInOne(TurnAt(ASKING, s));
  }

  lemma ReachedLater(s: State, call: Line, n: nat, at: nat, last: Line, name: string)
    requires Waiting(s, call, n, at, last) && n > 1
    requires Leads(TakenIn(Turns(ASKING, AfterTurn(ASKING, s, TurnAt(ASKING, s)))), call, n - 1, last, name)
    ensures Leads(TakenIn(Turns(ASKING, s)), call, n, last, name)
  {
    SlowTurn(s, call, n, at, last);
    TakenInFirst(s);
    LeadsFrom(Taken(Arrival(at, call), MainLoop),
              TakenIn(Turns(ASKING, AfterTurn(ASKING, s, TurnAt(ASKING, s)))), call, n - 1, last, name);
  }

  /** The queue drives the server to its `n`-th dialog from here, which takes the last line. */
  lemma {:induction false} Reached(s: State, call: Line, n: nat, at: nat, last: Line, number: nat)
    requires Waiting(s, call, n, at, last) && number == s.nextRequestId + n - 1
    requires EndsDialog(last, DialogName(number))
    ensures Leads(TakenIn(Turns(ASKING, s)), call, n, last, DialogName(number))
    decreases n
  {
    if n == 1 {
      ReachedLast(s, call, at, last, DialogName(number));
    } else {
      SlowTurn(s, call, n, at, last);
      Reached(AfterTurn(ASKING, s, TurnAt(ASKING, s)), call, n - 1, at + 40_000, last, number);
      ReachedLater(s, call, n, at, last, DialogName(number));
    }
  }

  lemma TakenInFirst(s: State)
    requires s.inbox != [] && !s.exited
    ensures var t := TurnAt(ASKING, s);
      TakenIn(Turns(ASKING, s)) == ByTurn(t) + TakenIn(Turns(ASKING, AfterTurn(ASKING, s, t)))
  {
    FirstTurn(ASKING, s);
  }

  lemma TakenInOne(t: Turn)
    ensures TakenIn([t]) == ByTurn(t)
  {
    assert TakenIn([t]) == ByTurn(t) + [];
  }

  function Opening(id: Id, call: Line, n: nat, last: Line): seq<Arrival>
    requires n > 0
  {
    [Arrival(0, Declaration(id))] + Queue(call, n, 1, last)
  }

  lemma AfterDeclaration(id: Id, call: Line, n: nat, last: Line)
    requires n > 0 && id != NullId && StartsTool(call)
    ensures var s := Started(Opening(id, call, n, last)); var t := TurnAt(ASKING, s);
      && ByTurn(t) == [Taken(Arrival(0, Declaration(id)), MainLoop)]
      && Waiting(AfterTurn(ASKING, s, t), call, n, 1, last)
      && AfterTurn(ASKING, s, t).nextRequestId == 1
  {
    var s := Started(Opening(id, call, n, last));
    var t := TurnAt(ASKING, s);
    assert s.inbox[1..] == Queue(call, n, 1, last);
    assert t.dialogs == [] && WatchesOf(t) == [];
    KeptAll(s.inbox[1..]);
    assert ByDialogs([]) == [] && LinesIn([]) == [];
  }

  /** From the start: a declaration, `n` calls and the line, which the `n`-th dialog of the session takes. */
  lemma Driven(id: Id, call: Line, n: nat, last: Line)
    requires n > 0 && id != NullId && StartsTool(call) && EndsDialog(last, DialogName(n))
    ensures var taken := TakenIn(Turns(ASKING, Started(Opening(id, call, n, last))));
      && taken != [] && taken[0] == Taken(Arrival(0, Declaration(id)), MainLoop)
      && Leads(taken[1..], call, n, last, DialogName(n))
  {
    var s := Started(Opening(id, call, n, last));
    var after := AfterTurn(ASKING, s, TurnAt(ASKING, s));
    AfterDeclaration(id, call, n, last);
    TakenInFirst(s);
    Reached(after, call, n, 1, last, n);
    assert TakenIn(Turns(ASKING, s))
        == [Taken(Arrival(0, Declaration(id)), MainLoop)] + TakenIn(Turns(ASKING, after));
  }

  lemma LastSole(taken: seq<Taken>, call: Line, n: nat, last: Line, name: string, id: Id)
    requires taken != [] && Leads(taken[1..], call, n, last, name)
    requires !Carries(taken[0].arrival.line, id) && !Carries(call, id)
    ensures Sole(taken, n + 1, last, id) && taken[n + 1].context == Within(name)
  {
    forall j | 0 < j < |taken|
      ensures taken[j] == taken[1..][j - 1]
    {
    }
  }

  lemma CallSole(taken: seq<Taken>, call: Line, last: Line, name: string, id: Id)
    requires taken != [] && Leads(taken[1..], call, 1, last, name)
    requires !Carries(taken[0].arrival.line, id) && !Carries(last, id)
    ensures Sole(taken, 1, call, id)
  {
    assert taken[1] == taken[1..][0] && taken[2] == taken[1..][1];
  }

  /** In that session an id that only the last line carries has its line to itself. */
  lemma LastAlone(id: Id, call: Line, n: nat, last: Line, own: Id)
    requires n > 0 && id != NullId && StartsTool(call) && EndsDialog(last, DialogName(n))
    requires id != own && !Carries(call, own)
    ensures TakenAlone(ASKING, Opening(id, call, n, last), n + 1, last, own)
    ensures TakenIn(Turns(ASKING, Started(Opening(id, call, n, last))))[n + 1].context == Within(DialogName(n))
  {
    Driven(id, call, n, last);
    LastSole(TakenIn(Turns(ASKING, Started(Opening(id, call, n, last)))), call, n, last, DialogName(n), own);
  }

  /** And so has the only call, if it alone carries its id. */
  lemma CallAlone(id: Id, call: Line, last: Line, own: Id)
    requires id != NullId && StartsTool(call) && EndsDialog(last, DialogName(1))
    requires id != own && !Carries(last, own)
    ensures TakenAlone(ASKING, Opening(id, call, 1, last), 1, call, own)
  {
    Driven(id, call, 1, last);
    CallSole(TakenIn(Turns(ASKING, Started(Opening(id, call, 1, last)))), call, last, DialogName(1), own);
  }

  function OtherId(id: Id): Id {
    if id == Number(0) then Number(1) else Number(0)
  }

  /** In some session the request is taken, its id is its own, and yet no reply has it. */
  ghost predicate CanBeLost(line: Line, id: Id) {
    exists w: World, input: seq<Arrival>, i: nat ::
      TakenAlone(w, input, i, line, id) && RepliesTo(Script(w, Turns(w, Started(input))), id) == 0
  }

  lemma KeptByDialogLost(line: Line, id: Id, n: nat)
    requires IsRequest(line) && Carries(line, id) && n > 0 && DialogKeeps(line, DialogName(n))
    ensures CanBeLost(line, id)
  {
    var other := OtherId(id);
    var input := Opening(other, ToolRequest(other), n, line);
    LastAlone(other, ToolRequest(other), n, line, id);
    AnsweredOnce(ASKING, input, n + 1, id);
  }

  /** An exit met by the dialog of a call leaves the call without its reply. */
  lemma CutByExit(id: Id, call: Line, last: Line)
    requires id != NullId && StartsTool(call)
    requires EndsDialog(last, DialogName(1)) && EndOf(last, DialogName(1)).ProcessExit?
    ensures var turns := Turns(ASKING, Started(Opening(id, call, 1, last)));
      |turns| == 2 && Cut(turns[1]) && LastMain(turns) == 1
  {
    var s := Started(Opening(id, call, 1, last));
    var after := AfterTurn(ASKING, s, TurnAt(ASKING, s));
    AfterDeclaration(id, call, 1, last);
    FirstTurn(ASKING, s);
    LastTurn(after, call, 1, last);
    var turns := Turns(ASKING, s);
    assert turns == [TurnAt(ASKING, s), TurnAt(ASKING, after)];
    assert turns[..1] == [TurnAt(ASKING, s)];
    TakenInOne(TurnAt(ASKING, s));
  }

  lemma CallCutByExit(id: Id, call: Line, last: Line, own: Id)
    requires id != NullId && StartsTool(call) && Carries(call, own) && id != own && !Carries(last, own)
    requires EndsDialog(last, DialogName(1)) && EndOf(last, DialogName(1)).ProcessExit?
    ensures var input := Opening(id, call, 1, last);
      TakenAlone(ASKING, input, 1, call, own) && RepliesTo(Script(ASKING, Turns(ASKING, Started(input))), own) == 0
  {
    CallAlone(id, call, last, own);
    CutByExit(id, call, last);
    AnsweredOnce(ASKING, Opening(id, call, 1, last), 1, own);
  }

  lemma CallLost(line: Line, id: Id)
    requires StartsTool(line) && Carries(line, id)
    ensures CanBeLost(line, id)
  {
    CallCutByExit(OtherId(id), line, EXIT_NOTICE, id);
  }

  /** However the session goes, the request is answered exactly once if it is taken and its id is its own. */
  ghost predicate AlwaysAnswered(line: Line, id: Id) {
    forall w: World, input: seq<Arrival>, i: nat ::
      TakenAlone(w, input, i, line, id) ==> RepliesTo(Script(w, Turns(w, Started(input))), id) == 1
  }

  /**
   * The requests sure of their one reply are exactly those that start no tool, do not ask to exit, and
   * neither reuse nor cancel an id that the server gives to a dialog.
   */
  lemma AlwaysAnsweredIff(line: Line, id: Id)
    requires IsRequest(line) && Carries(line, id)
    ensures AlwaysAnswered(line, id) <==> !StartsTool(line) && NoDialogKeeps(line)
  {
    if !StartsTool(line) && NoDialogKeeps(line) {
      forall w: World, input: seq<Arrival>, i: nat | TakenAlone(w, input, i, line, id)
        ensures RepliesTo(Script(w, Turns(w, Started(input))), id) == 1
      {
        PlainAnswered(w, input, i, line, id);
      }
    } else {
      if StartsTool(line) {
        CallLost(line, id);
      } else {
        var n: nat :| n > 0 && DialogKeeps(line, DialogName(n));
        KeptByDialogLost(line, id, n);
      }
    }
  }

  lemma OpeningOne(id: Id, call: Line, last: Line)
    ensures Opening(id, call, 1, last) == [Arrival(0, Declaration(id)), Arrival(1, call), Arrival(2, last)]
  {
    assert Queue(call, 1, 1, last) == [Arrival(1, call)] + [Arrival(2, last)];
  }

  const EXIT_REQUEST := Line(false, Object(true, Some(Number(2)), Some("exit"), None, None))

  /** A request to exit with an id, met by a dialog: neither it nor the call gets a reply. */
  lemma ExitRequestUnanswered()
    ensures var input := Opening(Number(0), ToolRequest(Number(1)), 1, EXIT_REQUEST);
      var turns := Turns(ASKING, Started(input));
      && input == [Arrival(0, Declaration(Number(0))), Arrival(1, ToolRequest(Number(1))), Arrival(2, EXIT_REQUEST)]
      && TakenAlone(ASKING, input, 1, ToolRequest(Number(1)), Number(1))
      && TakenAlone(ASKING, input, 2, EXIT_REQUEST, Number(2))
      && RepliesTo(Script(ASKING, turns), Number(1)) == 0
      && RepliesTo(Script(ASKING, turns), Number(2)) == 0
  {
    var call := ToolRequest(Number(1));
    var input := Opening(Number(0), call, 1, EXIT_REQUEST);
    OpeningOne(Number(0), call, EXIT_REQUEST);
    CallCutByExit(Number(0), call, EXIT_REQUEST, Number(1));
    LastAlone(Number(0), call, 1, EXIT_REQUEST, Number(2));
    AnsweredOnce(ASKING, input, 2, Number(2));
  }
}
