/** What becomes of every line of a session's input, and which cancels reach whom. */
module SessionWatch {
  import opened Sequences
  import opened Wire
  import opened SessionModel
  import opened SessionTheorems

  /** The periods in which the reader thread watched for a cancel of a tool call. */
  function Watches(turns: seq<Turn>): seq<Watch> {
    if turns == [] then [] else WatchesOf(turns[0]) + Watches(turns[1..])
  }

  // ----- interception -----

  lemma {:induction false} KeptConcat(a: seq<Arrival>, b: seq<Arrival>, ws: seq<Watch>)
    ensures Kept(a + b, ws) == Kept(a, ws) + Kept(b, ws)
  {
    if a == [] {
      assert a + b == b;
    } else {
      assert (a + b)[1..] == a[1..] + b;
      KeptConcat(a[1..], b, ws);
    }
  }

  lemma {:induction false} KeptTwice(a: seq<Arrival>, v: seq<Watch>, ws: seq<Watch>)
    ensures Kept(Kept(a, v), ws) == Kept(a, v + ws)
  {
    if a != [] {
      KeptTwice(a[1..], v, ws);
      RemovedBy(a[0], v, ws);
      if Removed(a[0], v) {
        assert Kept(a, v) == Kept(a[1..], v);
        assert Kept(a, v + ws) == Kept(a[1..], v + ws);
      } else {
        assert Kept(a, v)[1..] == Kept(a[1..], v);
      }
    }
  }

  lemma RemovedBy(a: Arrival, v: seq<Watch>, ws: seq<Watch>)
    ensures Removed(a, v + ws) <==> Removed(a, v) || Removed(a, ws)
  {
    if w :| w in v && Intercepts(w, a) {
      assert w in v + ws;
    }
    if w :| w in ws && Intercepts(w, a) {
      assert w in v + ws;
    }
  }

  /**
   * What the reader thread takes out: a line read during the watch that mentions the cancel method and is an
   * object with it, whose params name the watched request.
   */
  lemma RemovedMeans(a: Arrival, ws: seq<Watch>)
    ensures Removed(a, ws) <==>
      var c := a.line.content;
      && a.line.mentionsCancel && c.Object? && c.verb == Some("notifications/cancelled") && c.params.Some?
      && exists w :: w in ws && w.from < a.at <= w.to && c.params.value.requestId == Some(w.id)
  {
    if Removed(a, ws) {
      var w :| w in ws && Intercepts(w, a);
      assert w.from < a.at <= w.to;
    }
    if w :| w in ws && w.from < a.at <= w.to && CancelTarget(a.line) == Some(w.id) {
      assert Intercepts(w, a);
    }
  }

  /** All of them were read by `now`. */
  predicate By(arrivals: seq<Arrival>, now: nat) {
    forall a :: a in arrivals ==> a.at <= now
  }

  /** None of them begins before `now`. */
  predicate From(ws: seq<Watch>, now: nat) {
    forall w :: w in ws ==> w.from >= now
  }

  lemma {:induction false} KeptEarly(arrivals: seq<Arrival>, ws: seq<Watch>, now: nat)
    requires By(arrivals, now) && From(ws, now)
    ensures Kept(arrivals, ws) == arrivals
  {
    if arrivals != [] {
      assert arrivals[0] in arrivals && !Removed(arrivals[0], ws);
      KeptEarly(arrivals[1..], ws, now);
    }
  }

  lemma {:induction false} KeptMeans(arrivals: seq<Arrival>, ws: seq<Watch>, a: Arrival)
    ensures a in Kept(arrivals, ws) <==> a in arrivals && !Removed(a, ws)
  {
    if arrivals != [] {
      KeptMeans(arrivals[1..], ws, a);
    }
  }

  // ----- the time line -----

  lemma {:induction false} LatestMeans(now: nat, lines: seq<Arrival>)
    ensures Latest(now, lines) >= now && By(lines, Latest(now, lines))
    ensures Latest(now, lines) == now || exists a :: a in lines && a.at == Latest(now, lines)
    decreases |lines|
  {
    if lines != [] {
      var n := |lines| - 1;
      LatestMeans(now, lines[..n]);
      if Latest(now, lines) != now {
        assert exists a :: a in lines && a.at == Latest(now, lines) by {
          if Latest(now, lines[..n]) >= lines[n].at {
            var a :| a in lines[..n] && a.at == Latest(now, lines[..n]);
            assert a in lines;
          } else {
            assert lines[n] in lines;
          }
        }
      }
    }
  }

  lemma {:induction false} ReachMeans(name: string, deadline: nat, inbox: seq<Arrival>)
    ensures var n := Reach(name, deadline, inbox);
      && (forall i :: 0 <= i < n ==> inbox[i].at < deadline)
      && (forall i :: 0 <= i < n - 1 ==> !EndsDialog(inbox[i].line, name))
      && (n == |inbox| || inbox[n].at >= deadline || (n > 0 && EndsDialog(inbox[n - 1].line, name)))
  {
    if inbox != [] && inbox[0].at < deadline && !EndsDialog(inbox[0].line, name) {
      ReachMeans(name, deadline, inbox[1..]);
    }
  }

  /** The dialog met this channel: its lines are the front of it, up to the first that ends the dialog. */
  predicate Meets(d: Dialog, inbox: seq<Arrival>) {
    var n, deadline := |d.lines|, d.began + 30_000;
    && n <= |inbox| && d.lines == inbox[..n]
    && (forall i :: 0 <= i < n ==> inbox[i].at < deadline)
    && (forall i :: 0 <= i < n - 1 ==> !EndsDialog(inbox[i].line, d.name))
    && if d.end.Expired? then
         && (n > 0 ==> !EndsDialog(inbox[n - 1].line, d.name))
         && (if n == |inbox| then d.finished == Latest(d.began, d.lines) else inbox[n].at >= deadline == d.finished)
       else
         && n > 0 && EndsDialog(inbox[n - 1].line, d.name) && d.end == EndOf(inbox[n - 1].line, d.name)
         && d.finished == Latest(d.began, d.lines)
  }

  /**
   * A dialog takes lines from the front of the channel, all before its deadline, up to the first that
   * ends it; it expires exactly when none does, at its deadline or at the end of the input.
   */
  lemma DialogMeans(name: string, grouped: bool, now: nat, inbox: seq<Arrival>)
    ensures Meets(DialogAt(name, grouped, now, inbox), inbox)
  {
    ReachMeans(name, now + ELICITATION_TIMEOUT, inbox);
  }

  lemma DialogTimes(name: string, grouped: bool, now: nat, inbox: seq<Arrival>)
    ensures var d := DialogAt(name, grouped, now, inbox); now == d.began <= d.finished && By(d.lines, d.finished)
  {
    var deadline := now + ELICITATION_TIMEOUT;
    var n := Reach(name, deadline, inbox);
    ReachMeans(name, deadline, inbox);
    LatestMeans(now, inbox[..n]);
  }

  lemma {:induction false} LinesInFirst(d: Dialog, rest: seq<Dialog>)
    ensures LinesIn([d] + rest) == d.lines + LinesIn(rest)
    decreases |rest|
  {
    if rest == [] {
      assert [d] + rest == [d] && [d][..0] == [];
      assert LinesIn([d]) == [] + d.lines == d.lines;
    } else {
      var n := |rest| - 1;
      assert ([d] + rest)[..n + 1] == [d] + rest[..n];
      LinesInFirst(d, rest[..n]);
      Associate(d.lines, LinesIn(rest[..n]), rest[n].lines);
    }
  }

  /** Dialogs follow one another from `now` on, each with the lines read by its end. */
  predicate Consecutive(dialogs: seq<Dialog>, now: nat) {
    && (forall k :: 0 <= k < |dialogs| ==> now <= dialogs[k].began <= dialogs[k].finished)
    && (forall k :: 0 <= k < |dialogs| ==> dialogs[k].finished <= dialogs[|dialogs| - 1].finished)
    && (dialogs != [] ==> By(LinesIn(dialogs), dialogs[|dialogs| - 1].finished))
  }

  /** Dialogs take their lines from the front of the channel, one after the other. */
  predicate TakeFront(dialogs: seq<Dialog>, inbox: seq<Arrival>) {
    |LinesIn(dialogs)| <= |inbox| && LinesIn(dialogs) == inbox[..|LinesIn(dialogs)|]
  }

  lemma NoneTakeFront(inbox: seq<Arrival>)
    ensures TakeFront([], inbox)
  {
  }

  lemma FrontGrows(d: Dialog, rest: seq<Dialog>, inbox: seq<Arrival>)
    requires |d.lines| <= |inbox| && d.lines == inbox[..|d.lines|] && TakeFront(rest, inbox[|d.lines|..])
    ensures TakeFront([d] + rest, inbox)
  {
    var n := |d.lines|;
    LinesInFirst(d, rest);
    assert inbox == inbox[..n] + inbox[n..];
  }

  lemma FollowOn(d: Dialog, rest: seq<Dialog>, now: nat)
    requires now == d.began <= d.finished && By(d.lines, d.finished) && Consecutive(rest, d.finished)
    ensures Consecutive([d] + rest, now)
  {
    LinesInFirst(d, rest);
  }

  predicate Faces(d: Dialog, now: nat, inbox: seq<Arrival>) {
    now == d.began <= d.finished && By(d.lines, d.finished) && Meets(d, inbox)
  }

  lemma DialogFaces(name: string, grouped: bool, now: nat, inbox: seq<Arrival>)
    ensures Faces(DialogAt(name, grouped, now, inbox), now, inbox)
  {
    DialogMeans(name, grouped, now, inbox);
    DialogTimes(name, grouped, now, inbox);
  }

  /** Dialogs met this channel one after the other, from `now` on, each but the last switching the view. */
  predicate MeetInTurn(dialogs: seq<Dialog>, now: nat, inbox: seq<Arrival>)
    decreases |dialogs|
  {
    dialogs == [] ||
      (Faces(dialogs[0], now, inbox) && (|dialogs| > 1 ==> Switches(dialogs[0]))
       && MeetInTurn(dialogs[1..], dialogs[0].finished, inbox[|dialogs[0].lines|..]))
  }

  lemma MeetFirst(d: Dialog, rest: seq<Dialog>, now: nat, inbox: seq<Arrival>)
    requires Faces(d, now, inbox) && MeetInTurn(rest, d.finished, inbox[|d.lines|..])
    requires rest != [] ==> Switches(d)
    ensures MeetInTurn([d] + rest, now, inbox)
  {
    assert ([d] + rest)[1..] == rest;
  }

  lemma MeetAlone(d: Dialog, now: nat, inbox: seq<Arrival>)
    requires Faces(d, now, inbox)
    ensures MeetInTurn([d] + [], now, inbox)
  {
    MeetFirst(d, [], now, inbox);
  }

  lemma {:induction false} DialogsMeet(first: nat, rounds: nat, grouped: bool, now: nat, inbox: seq<Arrival>)
    ensures MeetInTurn(DialogsAt(first, rounds, grouped, now, inbox), now, inbox)
    decreases rounds
  {
    if rounds > 0 {
      var d := DialogAt(DialogName(first), grouped, now, inbox);
      DialogFaces(DialogName(first), grouped, now, inbox);
      if Switches(d) {
        var beyond := inbox[|d.lines|..];
        DialogsMeet(first + 1, rounds - 1, grouped, d.finished, beyond);
        MeetFirst(d, DialogsAt(first + 1, rounds - 1, grouped, d.finished, beyond), now, inbox);
      } else {
        MeetAlone(d, now, inbox);
      }
    }
  }

  lemma {:induction false} DialogsTake(dialogs: seq<Dialog>, now: nat, inbox: seq<Arrival>)
    requires MeetInTurn(dialogs, now, inbox)
    ensures TakeFront(dialogs, inbox) && Consecutive(dialogs, now)
    decreases |dialogs|
  {
    if dialogs == [] {
      NoneTakeFront(inbox);
    } else {
      var d, rest := dialogs[0], dialogs[1..];
      DialogsTake(rest, d.finished, inbox[|d.lines|..]);
      FrontGrows(d, rest, inbox);
      FollowOn(d, rest, now);
      assert dialogs == [d] + rest;
    }
  }

  lemma DialogsAfterMeet(w: World, s: State, run: ToolRun)
    ensures MeetInTurn(DialogsAfter(w, s, run), s.now, s.inbox)
  {
    if Asks(w, s.canElicit, run) {
      var approvals := run.result.approvals;
      DialogsMeet(s.nextRequestId, Rounds(approvals), approvals >= GROUPING_THRESHOLD, s.now, s.inbox);
    }
  }

  lemma CallMeets(w: World, s: State)
    requires s.inbox != [] && TurnAt(w, s).dialogs != []
    ensures var t := TurnAt(w, s);
      t.call.Some? && MeetInTurn(t.dialogs, Ended(t.call.value), Kept(s.inbox[1..], WatchesOf(t)))
  {
    CallParts(w, s);
    DialogsAfterMeet(w, Ran(w, Taking(s), s.inbox[0].line.content.id.value), w.tools(s.calls));
  }

  lemma CallParts(w: World, s: State)
    requires s.inbox != [] && StartsTool(s.inbox[0].line)
    ensures var t, run, ran := TurnAt(w, s), w.tools(s.calls), Ran(w, Taking(s), s.inbox[0].line.content.id.value);
      && t.call.Some? && t.dialogs == DialogsAfter(w, ran, run) && Ended(t.call.value) == ran.now
      && Kept(s.inbox[1..], WatchesOf(t)) == ran.inbox
  {
  }

  /** What a turn takes, its watch and its dialogs lie between its start and its end. */
  predicate OnTime(t: Turn) {
    && t.taken.at <= t.at <= Finished(t)
    && By(LinesIn(t.dialogs), Finished(t))
    && From(WatchesOf(t), t.at)
    && (forall v :: v in WatchesOf(t) ==> v.to <= Finished(t) && Consecutive(t.dialogs, v.to))
    && (t.dialogs != [] ==> WatchesOf(t) != [])
  }

  lemma TurnOnTime(w: World, s: State)
    requires s.inbox != []
    ensures var t := TurnAt(w, s);
      s.now <= t.at && OnTime(t) && TakeFront(t.dialogs, Kept(s.inbox[1..], WatchesOf(t)))
  {
    var t := TurnAt(w, s);
    var kept := Kept(s.inbox[1..], WatchesOf(t));
    NoneTakeFront(kept);
    if t.call.Some? {
      if t.dialogs != [] {
        CallMeets(w, s);
        DialogsTake(t.dialogs, Ended(t.call.value), kept);
      }
      CallOnTime(t);
    }
  }

  lemma CallOnTime(t: Turn)
    requires t.call.Some? && IsRequest(t.taken.line) && t.taken.at <= t.at == t.call.value.from
    requires Consecutive(t.dialogs, Ended(t.call.value))
    ensures OnTime(t)
  {
    if t.dialogs != [] {
      assert t.dialogs[|t.dialogs| - 1].finished == Finished(t);
    }
  }

  lemma {:induction false} WatchesLate(w: World, s: State)
    ensures From(Watches(Turns(w, s)), s.now)
    decreases |s.inbox|
  {
    if s.inbox != [] && !s.exited {
      FirstTurn(w, s);
      TurnOnTime(w, s);
      WatchesLate(w, AfterTurn(w, s, TurnAt(w, s)));
    }
  }

  // ----- conservation -----

  function Arrivals(turns: seq<Turn>): seq<Arrival> {
    if turns == [] then [] else [turns[0].taken] + LinesIn(turns[0].dialogs) + Arrivals(turns[1..])
  }

  /**
   * Nothing is lost, repeated or reordered: what the turns take and what waits in the end are together
   * the input without the cancels that the reader thread consumed.
   */
  lemma {:induction false} Conservation(w: World, s: State)
    requires !s.exited
    ensures Arrivals(Turns(w, s)) + Final(w, s).inbox == Kept(s.inbox, Watches(Turns(w, s)))
    decreases |s.inbox|
  {
    if s.inbox != [] {
      var t := TurnAt(w, s);
      var after := AfterTurn(w, s, t);
      FirstTurn(w, s);
      TurnOnTime(w, s);
      WatchesLate(w, after);
      if after.exited {
        KeptAll(after.inbox);
        assert Turns(w, after) == [] && Watches([]) == [] && Arrivals([]) == [];
        assert [] + after.inbox == after.inbox;
      } else {
        Conservation(w, after);
      }
      KeptByTurn(s.inbox, t, Watches(Turns(w, after)));
      Reassociate([t.taken], LinesIn(t.dialogs), Arrivals(Turns(w, after)), Final(w, s).inbox);
    }
  }

  lemma Reassociate<T>(a: seq<T>, b: seq<T>, c: seq<T>, d: seq<T>)
    ensures a + b + c + d == a + b + (c + d)
  {
  }

  /** Later watches do not touch what a turn has taken. */
  lemma KeptByTurn(inbox: seq<Arrival>, t: Turn, later: seq<Watch>)
    requires inbox != [] && t.taken == inbox[0] && OnTime(t)
    requires TakeFront(t.dialogs, Kept(inbox[1..], WatchesOf(t))) && From(later, Finished(t))
    ensures Kept(inbox, WatchesOf(t) + later) ==
      [t.taken] + LinesIn(t.dialogs) + Kept(Remaining(t, inbox), later)
  {
    var ws := WatchesOf(t);
    var kept := Kept(inbox[1..], ws);
    var lines, rest := LinesIn(t.dialogs), Remaining(t, inbox);
    assert From(ws + later, t.at);
    assert !Removed(inbox[0], ws + later);
    KeptTwice(inbox[1..], ws, later);
    assert kept == lines + rest;
    KeptConcat(lines, rest, later);
    KeptEarly(lines, later, Finished(t));
    Reassociate<Arrival>([], [t.taken], lines, Kept(rest, later));
    assert [] + [t.taken] == [t.taken];
  }

  // ----- cancels and dialogs -----

  /**
   * While a dialog runs, the reader thread consumes nothing: whatever is read then, a cancel that names
   * the dialog or the call itself, goes into the channel.
   */
  lemma {:induction false} NeverRemoved(w: World, s: State, d: Dialog, a: Arrival)
    requires d in DialogsOf(Turns(w, s)) && d.began < a.at <= d.finished
    ensures !Removed(a, Watches(Turns(w, s)))
    decreases |s.inbox|
  {
    var t := TurnAt(w, s);
    var after := AfterTurn(w, s, t);
    FirstTurn(w, s);
    TurnOnTime(w, s);
    WatchesLate(w, after);
    RemovedBy(a, WatchesOf(t), Watches(Turns(w, after)));
    if d in t.dialogs {
      WithinTurn(t, d);
    } else {
      NeverRemoved(w, after, d, a);
      DialogsLate(w, after, d);
    }
  }

  lemma WithinTurn(t: Turn, d: Dialog)
    requires OnTime(t) && d in t.dialogs
    ensures t.at <= d.began <= d.finished <= Finished(t) && (forall v :: v in WatchesOf(t) ==> v.to <= d.began)
  {
  }

  lemma {:induction false} DialogsLate(w: World, s: State, d: Dialog)
    requires d in DialogsOf(Turns(w, s))
    ensures s.now <= d.began
    decreases |s.inbox|
  {
    var t := TurnAt(w, s);
    FirstTurn(w, s);
    TurnOnTime(w, s);
    if d in t.dialogs {
      assert WatchesOf(t)[0] in WatchesOf(t);
    } else {
      DialogsLate(w, AfterTurn(w, s, t), d);
    }
  }

  /** The reader thread reads lines in order. */
  predicate Sorted(arrivals: seq<Arrival>) {
    forall i, j :: 0 <= i < j < |arrivals| ==> arrivals[i].at <= arrivals[j].at
  }

  lemma {:induction false} KeptSorted(arrivals: seq<Arrival>, ws: seq<Watch>)
    requires Sorted(arrivals)
    ensures Sorted(Kept(arrivals, ws))
  {
    if arrivals != [] {
      KeptSorted(arrivals[1..], ws);
      var tail := Kept(arrivals[1..], ws);
      forall a | a in tail
        ensures arrivals[0].at <= a.at
      {
        KeptMeans(arrivals[1..], ws, a);
      }
    }
  }

  /** The line ends the dialog, and it is read in the dialog's time. */
  predicate Timely(d: Dialog, a: Arrival) {
    d.began < a.at < d.began + 30_000 && EndsDialog(a.line, d.name)
  }

  lemma DialogHeeds(d: Dialog, inbox: seq<Arrival>, a: Arrival)
    requires Meets(d, inbox) && Sorted(inbox) && a in inbox && Timely(d, a)
    ensures !d.end.Expired? && d.finished <= a.at
  {
    var i :| 0 <= i < |inbox| && inbox[i] == a;
    assert i >= |d.lines| - 1;
    if !d.end.Expired? {
      LatestMeans(d.began, d.lines);
      forall b | b in d.lines
        ensures b.at <= a.at
      {
      }
    }
  }

  lemma BehindThem(inbox: seq<Arrival>, n: nat, now: nat, a: Arrival)
    requires n <= |inbox| && By(inbox[..n], now) && a in inbox && now < a.at && Sorted(inbox)
    ensures a in inbox[n..] && Sorted(inbox[n..])
  {
    assert a !in inbox[..n];
    assert inbox == inbox[..n] + inbox[n..];
  }

  lemma {:induction false} BeginLater(dialogs: seq<Dialog>, now: nat, inbox: seq<Arrival>, d: Dialog)
    requires MeetInTurn(dialogs, now, inbox) && d in dialogs
    ensures now <= d.began
    decreases |dialogs|
  {
    if d != dialogs[0] {
      BeginLater(dialogs[1..], dialogs[0].finished, inbox[|dialogs[0].lines|..], d);
    }
  }

  lemma {:induction false} DialogsHeed(dialogs: seq<Dialog>, now: nat, inbox: seq<Arrival>, d: Dialog, a: Arrival)
    requires MeetInTurn(dialogs, now, inbox) && d in dialogs && Sorted(inbox) && a in inbox && Timely(d, a)
    ensures !d.end.Expired? && d.finished <= a.at
    decreases |dialogs|
  {
    var e := dialogs[0];
    if d == e {
      DialogHeeds(d, inbox, a);
    } else {
      BeginLater(dialogs[1..], e.finished, inbox[|e.lines|..], d);
      BehindThem(inbox, |e.lines|, e.finished, a);
      DialogsHeed(dialogs[1..], e.finished, inbox[|e.lines|..], d, a);
    }
  }

  lemma TurnHeeds(w: World, s: State, d: Dialog, a: Arrival)
    requires s.inbox != [] && d in TurnAt(w, s).dialogs && Timely(d, a)
    requires var kept := Kept(s.inbox[1..], WatchesOf(TurnAt(w, s))); a in kept && Sorted(kept)
    ensures !d.end.Expired? && d.finished <= a.at
  {
    var t := TurnAt(w, s);
    CallMeets(w, s);
    DialogsHeed(t.dialogs, Ended(t.call.value), Kept(s.inbox[1..], WatchesOf(t)), d, a);
  }

  /** What is read after a turn's watch is still in the channel then. */
  lemma StillThere(inbox: seq<Arrival>, t: Turn, a: Arrival, now: nat)
    requires inbox != [] && t.taken == inbox[0] && OnTime(t) && a in inbox && Sorted(inbox)
    requires t.at <= now < a.at && forall v :: v in WatchesOf(t) ==> v.to <= now
    ensures a in Kept(inbox[1..], WatchesOf(t)) && Sorted(Kept(inbox[1..], WatchesOf(t)))
  {
    KeptMeans(inbox[1..], WatchesOf(t), a);
    KeptSorted(inbox[1..], WatchesOf(t));
  }

  /** What is read after a turn is still in the channel then. */
  lemma LeftBehind(inbox: seq<Arrival>, t: Turn, a: Arrival)
    requires inbox != [] && t.taken == inbox[0] && OnTime(t) && a in inbox && Sorted(inbox)
    requires TakeFront(t.dialogs, Kept(inbox[1..], WatchesOf(t))) && Finished(t) < a.at
    ensures a in Remaining(t, inbox) && Sorted(Remaining(t, inbox))
  {
    StillThere(inbox, t, a, Finished(t));
    BehindThem(Kept(inbox[1..], WatchesOf(t)), |LinesIn(t.dialogs)|, Finished(t), a);
  }

  /**
   * A line that ends a dialog, such as a cancel that names it, and is read during the dialog's time reaches
   * the dialog: it does not expire, and it is over by the time that line is read.
   */
  lemma {:induction false} TimelyCancelHeeded(w: World, s: State, d: Dialog, a: Arrival)
    requires Sorted(s.inbox) && d in DialogsOf(Turns(w, s)) && a in s.inbox && Timely(d, a)
    ensures !d.end.Expired? && d.finished <= a.at
    decreases |s.inbox|
  {
    var t := TurnAt(w, s);
    var after := AfterTurn(w, s, t);
    FirstTurn(w, s);
    TurnOnTime(w, s);
    if d in t.dialogs {
      WithinTurn(t, d);
      StillThere(s.inbox, t, a, d.began);
      TurnHeeds(w, s, d, a);
    } else {
      DialogsLate(w, after, d);
      LeftBehind(s.inbox, t, a);
      TimelyCancelHeeded(w, after, d, a);
    }
  }
}
