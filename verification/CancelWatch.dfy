/** The line reader and its cancel watcher, shared by two threads (line_reader.rs). */
module CancelWatch {
  import opened Sequences
  import opened Wire

  /** The watched request, and which of the tokens handed out so far stands for it. */
  datatype Watch = Watch(id: Id, token: nat)

  /** What either thread can do to the shared state without interruption. */
  datatype Event = Inspect(line: Line) | Forward | Register(id: Id) | Clear | Take

  datatype State = State(
    watcher: Option<Watch>, tokens: seq<bool>, inHand: Option<Line>, channel: seq<Line>, taken: seq<Line>)

  const INITIAL := State(None, [], None, [], [])

  predicate CancelsFor(line: Line, watcher: Option<Watch>) {
    watcher.Some? && CancelTarget(line) == Some(watcher.value.id)
  }

  predicate Enabled(s: State, e: Event) {
    match e
    case Inspect(_) => s.inHand.None?
    case Forward => s.inHand.Some?
    case Take => s.channel != []
    case _ => true
  }

  function Step(s: State, e: Event): State
    requires Enabled(s, e)
  {
    match e
    case Inspect(line) =>
      if CancelsFor(line, s.watcher) && s.watcher.value.token < |s.tokens|
      then s.(tokens := s.tokens[s.watcher.value.token := true])
      else s.(inHand := Some(line))
    case Forward => s.(inHand := None, channel := s.channel + [s.inHand.value])
    case Register(id) => s.(watcher := Some(Watch(id, |s.tokens|)), tokens := s.tokens + [false])
    case Clear => s.(watcher := None)
    case Take => s.(channel := s.channel[1..], taken := s.taken + [s.channel[0]])
  }

  predicate Trace(events: seq<Event>)
    decreases |events|, 0
  {
    events == [] ||
      (Trace(events[..|events| - 1]) && Enabled(After(events[..|events| - 1]), events[|events| - 1]))
  }

  function After(events: seq<Event>): State
    requires Trace(events)
    decreases |events|, 1
  {
    if events == [] then INITIAL else Step(After(events[..|events| - 1]), events[|events| - 1])
  }

  // ----- what a trace determines -----

  function Registrations(events: seq<Event>): nat {
    if events == [] then 0 else Registrations(events[..|events| - 1]) + if events[|events| - 1].Register? then 1 else 0
  }

  /** The watch in force: that of the last registration, if no clear came after it. */
  function WatchAfter(events: seq<Event>): Option<Watch> {
    if events == [] then None
    else
      var earlier, e := events[..|events| - 1], events[|events| - 1];
      match e
      case Register(id) => Some(Watch(id, Registrations(earlier)))
      case Clear => None
      case _ => WatchAfter(earlier)
  }

  predicate Intercepts(events: seq<Event>, i: nat)
    requires i < |events|
  {
    events[i].Inspect? && CancelsFor(events[i].line, WatchAfter(events[..i]))
  }

  /** The lines read, without those intercepted. */
  function Survivors(events: seq<Event>): seq<Line> {
    if events == [] then []
    else
      var n := |events| - 1;
      Survivors(events[..n]) + if events[n].Inspect? && !Intercepts(events, n) then [events[n].line] else []
  }

  function InHand(s: State): seq<Line> {
    if s.inHand.Some? then [s.inHand.value] else []
  }

  lemma {:induction false} WatchTokenBound(events: seq<Event>)
    ensures WatchAfter(events).Some? ==> WatchAfter(events).value.token < Registrations(events)
    decreases |events|
  {
    if events != [] {
      WatchTokenBound(events[..|events| - 1]);
    }
  }

  lemma {:induction false} StateAfter(events: seq<Event>)
    requires Trace(events)
    ensures After(events).watcher == WatchAfter(events) && |After(events).tokens| == Registrations(events)
    decreases |events|
  {
    if events != [] {
      StateAfter(events[..|events| - 1]);
    }
  }

  /**
   * In every interleaving, the lines taken, waiting and in hand are together the lines read, in order,
   * without the intercepted ones.
   */
  lemma {:induction false} ForwardsTheRest(events: seq<Event>)
    requires Trace(events)
    ensures var s := After(events); s.taken + s.channel + InHand(s) == Survivors(events)
    decreases |events|
  {
    if events != [] {
      var n := |events| - 1;
      var before, e, after := After(events[..n]), events[n], After(events);
      ForwardsTheRest(events[..n]);
      StateAfter(events[..n]);
      WatchTokenBound(events[..n]);
      match e {
        case Inspect(line) => assert before.inHand.None?;
        case Forward =>
          Associate(before.taken, before.channel, InHand(before));
          assert after.taken + after.channel + [] == after.taken + after.channel;
        case Take =>
          assert before.channel == [before.channel[0]] + after.channel;
          Associate(before.taken, [before.channel[0]], after.channel);
        case _ =>
      }
    }
  }

  // ----- tokens -----

  /** Event `r` hands out token `t`, for request `id`. */
  predicate HandsOut(events: seq<Event>, r: nat, t: nat) {
    r < |events| && events[r].Register? && Registrations(events[..r]) == t
  }

  /** Neither a registration nor a clear between two events. */
  predicate Undisturbed(events: seq<Event>, r: nat, i: nat) {
    i <= |events| && forall k :: r < k < i ==> !events[k].Register? && !events[k].Clear?
  }

  /**
   * A cancel for token `t`'s request is inspected while its registration is current: a line that mentions
   * the method and is an object with it, whose params name the id registered.
   */
  predicate Hits(events: seq<Event>, r: nat, i: nat, t: nat) {
    && HandsOut(events, r, t) && r < i < |events| && Undisturbed(events, r, i)
    && events[i].Inspect? && events[i].line.mentionsCancel
    && var c := events[i].line.content;
    c.Object? && c.verb == Some("notifications/cancelled")
    && c.params.Some? && c.params.value.requestId == Some(events[r].id)
  }

  /** The watch in force names the last registration, and nothing has disturbed it since. */
  lemma {:induction false} WatchIsCurrent(events: seq<Event>, t: nat, id: Id)
    ensures WatchAfter(events) == Some(Watch(id, t)) <==>
      exists r: nat :: HandsOut(events, r, t) && Undisturbed(events, r, |events|) && events[r].id == id
    decreases |events|
  {
    if events != [] {
      var n := |events| - 1;
      var earlier := events[..n];
      WatchIsCurrent(earlier, t, id);
      if WatchAfter(events) == Some(Watch(id, t)) {
        if events[n].Register? {
          assert HandsOut(events, n, t) && Undisturbed(events, n, |events|) && events[n].id == id;
        } else {
          var r: nat :| HandsOut(earlier, r, t) && Undisturbed(earlier, r, n) && earlier[r].id == id;
          assert earlier[..r] == events[..r];
          assert HandsOut(events, r, t) && Undisturbed(events, r, |events|) && events[r].id == id;
        }
      }
      if r: nat :| HandsOut(events, r, t) && Undisturbed(events, r, |events|) && events[r].id == id {
        if r < n {
          assert earlier[..r] == events[..r];
          assert HandsOut(earlier, r, t) && Undisturbed(earlier, r, n) && earlier[r].id == id;
        }
      }
    }
  }

  lemma HitsLater(events: seq<Event>, n: nat, r: nat, i: nat, t: nat)
    requires n <= |events| && i < n
    ensures Hits(events[..n], r, i, t) <==> Hits(events, r, i, t)
  {
    if r < i {
      assert events[..n][..r] == events[..r];
    }
  }

  lemma {:induction false} RegistrationsGrow(events: seq<Event>, n: nat)
    requires n <= |events|
    ensures Registrations(events[..n]) <= Registrations(events)
    decreases |events|
  {
    if n < |events| {
      assert events[..|events| - 1][..n] == events[..n];
      RegistrationsGrow(events[..|events| - 1], n);
    } else {
      assert events[..n] == events;
    }
  }

  /**
   * In every interleaving a token is set iff a cancel naming its request was read while its registration
   * was current.
   */
  lemma {:induction false} TokenSetIff(events: seq<Event>, t: nat)
    requires Trace(events) && t < Registrations(events)
    ensures t < |After(events).tokens|
    ensures After(events).tokens[t] <==> exists r: nat, i: nat :: Hits(events, r, i, t)
    decreases |events|
  {
    var n := |events| - 1;
    var earlier := events[..n];
    StateAfter(events);
    StateAfter(earlier);
    WatchTokenBound(earlier);
    if t < Registrations(earlier) {
      TokenSetIff(earlier, t);
      HitsSplit(events, t);
    } else {
      NoHitsYet(events, t);
    }
  }

  /** A hit is an earlier hit or the interception of the last event. */
  lemma HitsSplit(events: seq<Event>, t: nat)
    requires events != []
    ensures var n := |events| - 1;
      (exists r: nat, i: nat :: Hits(events, r, i, t)) <==>
        (exists r: nat, i: nat :: Hits(events[..n], r, i, t)) ||
        (Intercepts(events, n) && WatchAfter(events[..n]).value.token == t)
  {
    var n := |events| - 1;
    if r: nat, i: nat :| Hits(events, r, i, t) {
      if i < n {
        HitsLater(events, n, r, i, t);
      } else {
        LastHit(events, r, t);
      }
    }
    if r: nat, i: nat :| Hits(events[..n], r, i, t) {
      HitsLater(events, n, r, i, t);
      assert Hits(events, r, i, t);
    }
    if Intercepts(events, n) && WatchAfter(events[..n]).value.token == t {
      var r := InterceptionHits(events, t);
    }
  }

  lemma LastHit(events: seq<Event>, r: nat, t: nat)
    requires events != [] && Hits(events, r, |events| - 1, t)
    ensures Intercepts(events, |events| - 1) && WatchAfter(events[..|events| - 1]).value.token == t
  {
    var n := |events| - 1;
    var earlier := events[..n];
    assert earlier[..r] == events[..r];
    assert HandsOut(earlier, r, t) && Undisturbed(earlier, r, n) && earlier[r].id == events[r].id;
    WatchIsCurrent(earlier, t, events[r].id);
  }

  lemma InterceptionHits(events: seq<Event>, t: nat) returns (r: nat)
    requires events != [] && Intercepts(events, |events| - 1)
    requires WatchAfter(events[..|events| - 1]).value.token == t
    ensures Hits(events, r, |events| - 1, t)
  {
    var n := |events| - 1;
    var earlier := events[..n];
    var id := WatchAfter(earlier).value.id;
    WatchIsCurrent(earlier, t, id);
    r :| HandsOut(earlier, r, t) && Undisturbed(earlier, r, n) && earlier[r].id == id;
    assert earlier[..r] == events[..r];
  }

  lemma NoHitsYet(events: seq<Event>, t: nat)
    requires events != [] && t >= Registrations(events[..|events| - 1])
    ensures forall r: nat, i: nat :: !Hits(events, r, i, t)
  {
    var earlier := events[..|events| - 1];
    forall r: nat, i: nat
      ensures !Hits(events, r, i, t)
    {
      if r < |earlier| && earlier[r].Register? {
        assert earlier[..r] == events[..r];
        assert earlier[..r + 1][..r] == earlier[..r];
        RegistrationsGrow(earlier, r + 1);
      }
    }
  }

  /** Once its registration is cleared or replaced, a token keeps its value for good. */
  lemma {:induction false} RetiredTokenFrozen(events: seq<Event>, n: nat, t: nat)
    requires Trace(events) && n <= |events| && Trace(events[..n])
    requires t < Registrations(events[..n])
    requires forall id :: WatchAfter(events[..n]) != Some(Watch(id, t))
    ensures t < |After(events[..n]).tokens| && t < |After(events).tokens|
    ensures After(events).tokens[t] == After(events[..n]).tokens[t]
    ensures forall id :: WatchAfter(events) != Some(Watch(id, t))
    decreases |events|
  {
    StateAfter(events);
    StateAfter(events[..n]);
    if n == |events| {
      assert events[..n] == events;
    } else {
      var earlier := events[..|events| - 1];
      assert earlier[..n] == events[..n];
      RetiredTokenFrozen(earlier, n, t);
      StateAfter(earlier);
      RegistrationsGrow(earlier, n);
    }
  }

  /**
   * From a clear until the next registration no line is intercepted, whatever it says: a cancel that
   * names a dialog, which runs only then, is always forwarded to it.
   */
  lemma {:induction false} NothingInterceptedWhileClear(events: seq<Event>, n: nat, i: nat)
    requires n <= i < |events| && WatchAfter(events[..n]).None?
    requires forall k :: n <= k < i ==> !events[k].Register?
    ensures WatchAfter(events[..i]).None? && !Intercepts(events, i)
    decreases i
  {
    if n < i {
      NothingInterceptedWhileClear(events, n, i - 1);
      assert events[..i][..i - 1] == events[..i - 1];
    }
  }

  // ----- the reader object -----

  lemma TraceStep(events: seq<Event>, e: Event)
    requires Trace(events) && Enabled(After(events), e)
    ensures Trace(events + [e]) && After(events + [e]) == Step(After(events), e)
  {
    assert (events + [e])[..|events|] == events;
  }

  /**
   * The reader object; the thread's turn is split where another thread can come between. `history` is the
   * trace of what the two threads did to it.
   */
  class LineReader {
    var watcher: Option<Watch>
    var tokens: seq<bool>
    var inHand: Option<Line>
    var channel: seq<Line>
    var taken: seq<Line>
    ghost var history: seq<Event>

    ghost predicate Valid()
      reads this
    {
      Trace(history) && View() == After(history)
    }

    ghost function View(): State
      reads this
    {
      State(watcher, tokens, inHand, channel, taken)
    }

    constructor ()
      ensures Valid() && history == [] && View() == INITIAL
    {
      watcher, tokens, inHand, channel, taken, history := None, [], None, [], [], [];
    }

    /** No line is lost, doubled or reordered on its way through this object. */
    lemma Conserved()
      requires Valid()
      ensures taken + channel + InHand(View()) == Survivors(history)
    {
      ForwardsTheRest(history);
    }

    /** The watch is that of the last registration not cleared, and its token is one handed out. */
    lemma WatchIs()
      requires Valid()
      ensures watcher == WatchAfter(history) && |tokens| == Registrations(history)
      ensures watcher.Some? ==> watcher.value.token < |tokens|
    {
      StateAfter(history);
      WatchTokenBound(history);
    }

    /** A token of this object is set iff its request was cancelled while its registration was current. */
    lemma TokenMeans(t: nat)
      requires Valid() && t < |tokens|
      ensures tokens[t] <==> exists r: nat, i: nat :: Hits(history, r, i, t)
    {
      WatchIs();
      TokenSetIff(history, t);
    }

    /** One line read by the thread: consumed when it cancels the watched request, else on its way. */
    method InspectLine(line: Line) returns (intercepted: bool)
      requires Valid() && inHand.None?
      modifies this
      ensures Valid() && history == old(history) + [Inspect(line)]
      ensures intercepted <==> Intercepts(history, |old(history)|)
      ensures intercepted <==>
        var c, watch := line.content, WatchAfter(old(history));
        && watch.Some? && line.mentionsCancel && c.Object? && c.verb == Some("notifications/cancelled")
        && c.params.Some? && c.params.value.requestId == Some(watch.value.id)
      ensures |tokens| == |old(tokens)| && forall t :: 0 <= t < |tokens| ==>
        tokens[t] == (old(tokens)[t] || (intercepted && WatchAfter(old(history)).value.token == t))
      ensures inHand == if intercepted then None else Some(line)
      ensures Survivors(history) == Survivors(old(history)) + if intercepted then [] else [line]
    {
      WatchIs();
      intercepted := false;
      if line.mentionsCancel {
        match line.content {
          case Object(_, _, verb, params, _) =>
            if verb == Some(CANCELLED) && params.Some? && params.value.requestId.Some? {
              if watcher.Some? && params.value.requestId.value == watcher.value.id {
                tokens := tokens[watcher.value.token := true];
                intercepted := true;
              }
            }
          case _ =>
        }
      }
      if !intercepted {
        inHand := Some(line);
      }
      TraceStep(history, Inspect(line));
      assert (history + [Inspect(line)])[..|history|] == history;
      history := history + [Inspect(line)];
    }

    /** The thread's `tx.send`: afterwards every surviving line has been put into the channel. */
    method ForwardLine()
      requires Valid() && inHand.Some?
      modifies this
      ensures Valid() && history == old(history) + [Forward]
      ensures taken == old(taken) && taken + channel == Survivors(history) == Survivors(old(history))
    {
      Conserved();
      channel, inHand := channel + [inHand.value], None;
      TraceStep(history, Forward);
      assert (history + [Forward])[..|history|] == history;
      history := history + [Forward];
    }

    /** The token handed out stands for the request from now on, and nothing has cancelled it yet. */
    method RegisterCancel(requestId: Id) returns (token: nat)
      requires Valid()
      modifies this
      ensures Valid() && history == old(history) + [Register(requestId)]
      ensures HandsOut(history, |old(history)|, token) && WatchAfter(history) == Some(Watch(requestId, token))
      ensures tokens == old(tokens) + [false] && forall r: nat, i: nat :: !Hits(history, r, i, token)
    {
      WatchIs();
      token := |tokens|;
      tokens := tokens + [false];
      watcher := Some(Watch(requestId, token));
      TraceStep(history, Register(requestId));
      assert (history + [Register(requestId)])[..|history|] == history;
      NoHitsYet(history + [Register(requestId)], token);
      history := history + [Register(requestId)];
    }

    /** From now on no token stands for any request, until the next registration. */
    method ClearCancel()
      requires Valid()
      modifies this
      ensures Valid() && history == old(history) + [Clear]
      ensures WatchAfter(history).None? && tokens == old(tokens)
      ensures Survivors(history) == Survivors(old(history))
    {
      watcher := None;
      TraceStep(history, Clear);
      assert (history + [Clear])[..|history|] == history;
      history := history + [Clear];
    }

    /** A receive that finds a line: the first surviving line that has not been received yet. */
    method ReadLine() returns (line: Line)
      requires Valid() && channel != []
      modifies this
      ensures Valid() && history == old(history) + [Take]
      ensures |old(taken)| < |Survivors(history)| && line == Survivors(history)[|old(taken)|]
      ensures taken == old(taken) + [line] && Survivors(history) == Survivors(old(history))
    {
      Conserved();
      line := channel[0];
      channel, taken := channel[1..], taken + [line];
      TraceStep(history, Take);
      assert (history + [Take])[..|history|] == history;
      history := history + [Take];
    }
  }
}
