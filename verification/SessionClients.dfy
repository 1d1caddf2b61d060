/** What a client can rely on, told by what it sends; and what it cannot. */
module SessionClients {
  import opened Sequences
  import opened Wire
  import opened SessionModel
  import opened SessionTheorems
  import opened SessionReplies
  import opened SessionWatch

  // ----- where lines are taken -----

  function ArrivalsIn(taken: seq<Taken>): seq<Arrival> {
    if taken == [] then [] else ArrivalsIn(taken[..|taken| - 1]) + [taken[|taken| - 1].arrival]
  }

  lemma {:induction false} ArrivalsConcat(a: seq<Taken>, b: seq<Taken>)
    ensures ArrivalsIn(a + b) == ArrivalsIn(a) + ArrivalsIn(b)
    decreases |b|
  {
    if b == [] {
      assert a + b == a;
    } else {
      assert (a + b)[..|a + b| - 1] == a + b[..|b| - 1];
      ArrivalsConcat(a, b[..|b| - 1]);
    }
  }

  lemma {:induction false} DialogArrivals(lines: seq<Arrival>, name: string)
    ensures ArrivalsIn(ByDialog(lines, name)) == lines
    decreases |lines|
  {
    if lines != [] {
      DialogArrivals(lines[..|lines| - 1], name);
    }
  }

  lemma {:induction false} DialogsArrivals(dialogs: seq<Dialog>)
    ensures ArrivalsIn(ByDialogs(dialogs)) == LinesIn(dialogs)
    decreases |dialogs|
  {
    if dialogs != [] {
      var n := |dialogs| - 1;
      DialogsArrivals(dialogs[..n]);
      DialogArrivals(dialogs[n].lines, dialogs[n].name);
      ArrivalsConcat(ByDialogs(dialogs[..n]), ByDialog(dialogs[n].lines, dialogs[n].name));
    }
  }

  lemma {:induction false} TurnsArrivals(turns: seq<Turn>)
    ensures ArrivalsIn(TakenIn(turns)) == Arrivals(turns)
  {
    if turns != [] {
      var t := turns[0];
      TurnsArrivals(turns[1..]);
      DialogsArrivals(t.dialogs);
      var first := [Taken(t.taken, MainLoop)];
      assert first[..0] == [] && ArrivalsIn(first) == [t.taken];
      ArrivalsConcat(first, ByDialogs(t.dialogs));
      ArrivalsConcat(ByTurn(t), TakenIn(turns[1..]));
    }
  }

  /**
   * The lines a session takes, in the main loop and in dialogs, and those that wait in the end are
   * together its input, in order, without the cancels that the reader thread consumed.
   */
  lemma LinesConserved(w: World, input: seq<Arrival>)
    ensures var turns := Turns(w, Started(input));
      ArrivalsIn(TakenIn(turns)) + Final(w, Started(input)).inbox == Kept(input, Watches(turns))
  {
    TurnsArrivals(Turns(w, Started(input)));
    Conservation(w, Started(input));
  }

  // ----- what ends a session -----

  /** A line that ends the process where it is taken. */
  predicate EndsProcess(t: Taken) {
    var line := t.arrival.line;
    match t.context
    case MainLoop => IsMessage(line) && !IsRequest(line) && IsExit(line.content.verb)
    case Within(name) => EndsDialog(line, name) && EndOf(line, name).ProcessExit?
  }

  predicate Steady(taken: seq<Taken>) {
    forall t :: t in taken ==> !EndsProcess(t)
  }

  /** At most the last of the lines ends the process, and it does if `exits`. */
  predicate EndsAtLast(taken: seq<Taken>, exits: bool) {
    if exits then taken != [] && EndsProcess(taken[|taken| - 1]) && Steady(taken[..|taken| - 1])
    else Steady(taken)
  }

  lemma EndsConcat(a: seq<Taken>, b: seq<Taken>, exits: bool)
    requires EndsAtLast(a, false) && EndsAtLast(b, exits)
    ensures EndsAtLast(a + b, exits)
  {
    if exits {
      assert (a + b)[..|a + b| - 1] == a + b[..|b| - 1];
    }
  }

  lemma {:induction false} SteadyDialog(lines: seq<Arrival>, name: string)
    requires forall i :: 0 <= i < |lines| ==> !EndsDialog(lines[i].line, name)
    ensures Steady(ByDialog(lines, name))
    decreases |lines|
  {
    if lines != [] {
      SteadyDialog(lines[..|lines| - 1], name);
    }
  }

  lemma DialogEnds(d: Dialog, now: nat, inbox: seq<Arrival>)
    requires Faces(d, now, inbox)
    ensures EndsAtLast(ByDialog(d.lines, d.name), d.end.ProcessExit?)
  {
    if d.lines != [] {
      var n := |d.lines| - 1;
      SteadyDialog(d.lines[..n], d.name);
      assert ByDialog(d.lines, d.name)[..n] == ByDialog(d.lines[..n], d.name) by {
        ByDialogLength(d.lines[..n], d.name);
      }
    }
  }

  lemma {:induction false} ByDialogLength(lines: seq<Arrival>, name: string)
    ensures |ByDialog(lines, name)| == |lines|
    decreases |lines|
  {
    if lines != [] {
      ByDialogLength(lines[..|lines| - 1], name);
    }
  }

  lemma ByDialogsPush(dialogs: seq<Dialog>, d: Dialog)
    ensures ByDialogs(dialogs + [d]) == ByDialogs(dialogs) + ByDialog(d.lines, d.name)
  {
    assert (dialogs + [d])[..|dialogs|] == dialogs;
  }

  lemma {:induction false} ByDialogsFirst(d: Dialog, rest: seq<Dialog>)
    ensures ByDialogs([d] + rest) == ByDialog(d.lines, d.name) + ByDialogs(rest)
    decreases |rest|
  {
    if rest == [] {
      assert [d] + rest == [] + [d];
      ByDialogsPush([], d);
    } else {
      var n := |rest| - 1;
      assert rest == rest[..n] + [rest[n]] && [d] + rest == ([d] + rest[..n]) + [rest[n]];
      ByDialogsFirst(d, rest[..n]);
      ByDialogsPush(rest[..n], rest[n]);
      ByDialogsPush([d] + rest[..n], rest[n]);
      Associate(ByDialog(d.lines, d.name), ByDialogs(rest[..n]), ByDialog(rest[n].lines, rest[n].name));
    }
  }

  lemma {:induction false} DialogsEnd(dialogs: seq<Dialog>, now: nat, inbox: seq<Arrival>)
    requires MeetInTurn(dialogs, now, inbox)
    ensures EndsAtLast(ByDialogs(dialogs), EndsInExit(dialogs))
    decreases |dialogs|
  {
    if dialogs != [] {
      var d, rest := dialogs[0], dialogs[1..];
      DialogEnds(d, now, inbox);
      DialogsEnd(rest, d.finished, inbox[|d.lines|..]);
      assert dialogs == [d] + rest;
      ByDialogsFirst(d, rest);
      if rest == [] {
        assert ByDialog(d.lines, d.name) + [] == ByDialog(d.lines, d.name);
      } else {
        EndsConcat(ByDialog(d.lines, d.name), ByDialogs(rest), EndsInExit(rest));
      }
    }
  }

  lemma TurnEnds(w: World, s: State)
    requires s.inbox != []
    ensures EndsAtLast(ByTurn(TurnAt(w, s)), Exits(TurnAt(w, s)))
  {
    var t := TurnAt(w, s);
    var first := [Taken(t.taken, MainLoop)];
    if t.dialogs == [] {
      assert ByTurn(t) == first && first[..0] == [];
    } else {
      CallMeets(w, s);
      DialogsEnd(t.dialogs, Ended(t.call.value), Kept(s.inbox[1..], WatchesOf(t)));
      EndsConcat(first, ByDialogs(t.dialogs), Cut(t));
    }
  }

  lemma {:induction false} TurnsEnd(w: World, s: State)
    requires !s.exited
    ensures EndsAtLast(TakenIn(Turns(w, s)), ExitsAtLast(Turns(w, s)))
    decreases |s.inbox|
  {
    if s.inbox != [] {
      var t := TurnAt(w, s);
      var after := AfterTurn(w, s, t);
      var turns := Turns(w, s);
      FirstTurn(w, s);
      TurnEnds(w, s);
      if turns[1..] == [] {
        assert turns == [t] && TakenIn(turns) == ByTurn(t) + [] == ByTurn(t);
      } else {
        TurnsEnd(w, after);
        assert turns[|turns| - 1] == turns[1..][|turns[1..]| - 1];
        EndsConcat(ByTurn(t), TakenIn(turns[1..]), ExitsAtLast(turns));
      }
    }
  }

  /**
   * The process exits exactly when the last line taken asks for it, as the main loop or the dialog that
   * took it understands; no line taken before does, and without one the session goes on to the end of its
   * input.
   */
  lemma ExitIff(w: World, input: seq<Arrival>)
    ensures var taken, r := TakenIn(Turns(w, Started(input))), Final(w, Started(input));
      && (r.exited <==> taken != [] && EndsProcess(taken[|taken| - 1]))
      && (forall i :: 0 <= i < |taken| - 1 ==> !EndsProcess(taken[i]))
      && (r.exited || r.inbox == [])
  {
    FinalFollows(w, Started(input));
    TurnsEnd(w, Started(input));
  }

  // ----- clients that are always answered -----

  lemma {:induction false} WithinNamed(lines: seq<Arrival>, name: string, t: Taken)
    requires t in ByDialog(lines, name)
    ensures t.context == Within(name)
    decreases |lines|
  {
    if t != Taken(lines[|lines| - 1], Within(name)) {
      WithinNamed(lines[..|lines| - 1], name, t);
    }
  }

  lemma {:induction false} WithinDialogs(dialogs: seq<Dialog>, t: Taken)
    requires t in ByDialogs(dialogs)
    ensures exists d :: d in dialogs && t.context == Within(d.name)
    decreases |dialogs|
  {
    var d := dialogs[|dialogs| - 1];
    if t in ByDialog(d.lines, d.name) {
      WithinNamed(d.lines, d.name, t);
      assert d in dialogs;
    } else {
      WithinDialogs(dialogs[..|dialogs| - 1], t);
    }
  }

  /** A line taken within a dialog was taken by a dialog of the session. */
  lemma {:induction false} WithinADialog(turns: seq<Turn>, t: Taken)
    requires t in TakenIn(turns) && t.context.Within?
    ensures exists d :: d in DialogsOf(turns) && t.context == Within(d.name)
  {
    if t in ByTurn(turns[0]) {
      assert t in ByDialogs(turns[0].dialogs);
      WithinDialogs(turns[0].dialogs, t);
    } else {
      WithinADialog(turns[1..], t);
    }
  }

  lemma WithinNumbered(w: World, input: seq<Arrival>, t: Taken)
    requires t in TakenIn(Turns(w, Started(input))) && t.context.Within?
    ensures exists n: nat :: n > 0 && t.context == Within(DialogName(n))
  {
    var dialogs := DialogsOf(Turns(w, Started(input)));
    WithinADialog(Turns(w, Started(input)), t);
    var d :| d in dialogs && t.context == Within(d.name);
    DialogNames(w, Started(input));
    var k :| 0 <= k < |dialogs| && dialogs[k] == d;
    assert d.name == DialogName(1 + k);
  }

  /** No dialog of any session keeps the line to itself. */
  ghost predicate NoDialogKeeps(line: Line) {
    forall n: nat :: n > 0 ==> !DialogKeeps(line, DialogName(n))
  }

  /** One of the lines taken carries the id, and no other. */
  predicate Sole(taken: seq<Taken>, i: nat, line: Line, id: Id) {
    && i < |taken| && taken[i].arrival.line == line
    && forall j :: 0 <= j < |taken| && j != i ==> !Carries(taken[j].arrival.line, id)
  }

  /** In this session the line is taken, and no other line taken carries its id. */
  predicate TakenAlone(w: World, input: seq<Arrival>, i: nat, line: Line, id: Id) {
    Sole(TakenIn(Turns(w, Started(input))), i, line, id)
  }

  /** A request that starts no tool and that no dialog can keep is answered once wherever it is taken. */
  lemma PlainAnswered(w: World, input: seq<Arrival>, i: nat, line: Line, id: Id)
    requires TakenAlone(w, input, i, line, id) && IsRequest(line) && Carries(line, id)
    requires !StartsTool(line) && NoDialogKeeps(line)
    ensures RepliesTo(Script(w, Turns(w, Started(input))), id) == 1
  {
    var turns := Turns(w, Started(input));
    var t := TakenIn(turns)[i];
    AnsweredOnce(w, input, i, id);
    if Swallowed(t) {
      WithinNumbered(w, input, t);
    }
    var last := |turns| - 1;
    if Cut(turns[last]) && i == LastMain(turns) {
      LastMainIs(turns);
      DialogsWhenAsked(w, input, last);
    }
  }

  // ----- clients that never see a dialog -----

  /** The client never declares that it can show dialogs, or the server is not to show any. */
  predicate NoDialogs(w: World, input: seq<Arrival>) {
    w.mode != Prompt || forall a :: a in input ==> !DeclaresForm(a.line)
  }

  lemma {:induction false} TakenFromInput(w: World, s: State, i: nat)
    requires i < |Turns(w, s)|
    ensures Turns(w, s)[i].taken in s.inbox
    decreases i
  {
    FirstTurn(w, s);
    if i > 0 {
      var t := TurnAt(w, s);
      var a := Turns(w, s)[i].taken;
      TakenFromInput(w, AfterTurn(w, s, t), i - 1);
      assert a in Kept(s.inbox[1..], WatchesOf(t));
      KeptMeans(s.inbox[1..], WatchesOf(t), a);
    }
  }

  lemma {:induction false} NeverDeclared(w: World, input: seq<Arrival>, i: nat)
    requires i <= |Turns(w, Started(input))| && forall a :: a in input ==> !DeclaresForm(a.line)
    ensures !Declared(Turns(w, Started(input)), i)
    decreases i
  {
    if i > 0 {
      TakenFromInput(w, Started(input), i - 1);
      NeverDeclared(w, input, i - 1);
    }
  }

  lemma {:induction false} TakenByMain(turns: seq<Turn>)
    requires forall i :: 0 <= i < |turns| ==> turns[i].dialogs == []
    ensures forall t :: t in TakenIn(turns) ==> t.context == MainLoop
  {
    if turns != [] {
      TakenByMain(turns[1..]);
    }
  }

  /** The requests with an id. */
  function RequestsFor(arrivals: seq<Arrival>, id: Id): nat {
    if arrivals == [] then 0
    else
      var line := arrivals[|arrivals| - 1].line;
      RequestsFor(arrivals[..|arrivals| - 1], id) + if IsRequest(line) && Carries(line, id) then 1 else 0
  }

  lemma {:induction false} OwingByMain(taken: seq<Taken>, id: Id)
    requires id != NullId && forall t :: t in taken ==> t.context == MainLoop
    ensures Owing(taken, id) == RequestsFor(ArrivalsIn(taken), id)
    decreases |taken|
  {
    if taken != [] {
      OwingByMain(taken[..|taken| - 1], id);
    }
  }

  /** A client that never sees a dialog gets exactly one reply to each of its requests that are taken. */
  lemma NoDialogsAllAnswered(w: World, input: seq<Arrival>, id: Id)
    requires NoDialogs(w, input) && id != NullId
    ensures var turns := Turns(w, Started(input));
      DialogsOf(turns) == [] && RepliesTo(Script(w, turns), id) == RequestsFor(ArrivalsIn(TakenIn(turns)), id)
  {
    var turns := Turns(w, Started(input));
    forall i | 0 <= i < |turns|
      ensures turns[i].dialogs == []
    {
      DialogsWhenAsked(w, input, i);
      if w.mode == Prompt {
        NeverDeclared(w, input, i);
      }
    }
    DialogsOfNone(turns);
    TakenByMain(turns);
    OwingByMain(TakenIn(turns), id);
    RepliesBalance(w, Started(input), id);
  }

  lemma {:induction false} DialogsOfNone(turns: seq<Turn>)
    requires forall i :: 0 <= i < |turns| ==> turns[i].dialogs == []
    ensures DialogsOf(turns) == []
  {
    if turns != [] {
      DialogsOfNone(turns[1..]);
    }
  }

  /** A notification that asks the main loop to end the process. */
  predicate ExitNotice(line: Line) {
    IsMessage(line) && !IsRequest(line) && IsExit(line.content.verb)
  }

  lemma {:induction false} TakenArrive(taken: seq<Taken>, t: Taken)
    requires t in taken
    ensures t.arrival in ArrivalsIn(taken)
    decreases |taken|
  {
    if t != taken[|taken| - 1] {
      TakenArrive(taken[..|taken| - 1], t);
    }
  }

  /** If it also neither cancels nor exits, each of its requests gets exactly one reply. */
  lemma QuietClientAnswered(w: World, input: seq<Arrival>, id: Id)
    requires NoDialogs(w, input) && id != NullId
    requires forall a :: a in input ==> CancelTarget(a.line).None? && !ExitNotice(a.line)
    ensures RepliesTo(Script(w, Turns(w, Started(input))), id) == RequestsFor(input, id)
  {
    var turns, r := Turns(w, Started(input)), Final(w, Started(input));
    var taken := TakenIn(turns);
    NoDialogsAllAnswered(w, input, id);
    LinesConserved(w, input);
    NothingRemoved(input, Watches(turns));
    ExitIff(w, input);
    if r.exited {
      var last := taken[|taken| - 1];
      TakenArrive(taken, last);
      assert last.arrival in input;
      if last.context.Within? {
        WithinADialog(turns, last);
      }
    }
    assert ArrivalsIn(taken) + [] == ArrivalsIn(taken);
  }

  lemma {:induction false} NothingRemoved(arrivals: seq<Arrival>, ws: seq<Watch>)
    requires forall a :: a in arrivals ==> CancelTarget(a.line).None?
    ensures Kept(arrivals, ws) == arrivals
  {
    if arrivals != [] {
      assert arrivals[0] in arrivals && !Removed(arrivals[0], ws);
      NothingRemoved(arrivals[1..], ws);
    }
  }
}
