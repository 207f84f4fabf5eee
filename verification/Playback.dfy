/** What a terminal reader is meant to show: the simple specification that the TerminalReader
    class refines. A player has no terminal text and no buffers; its text is a fold over the
    events before its index. `nl` stands for the rewriting of line breaks; nothing here depends
    on what it does, and a reader is built with Newlines.Normalise. */
module Playback {
  import opened Events

  /** The terminal text of one event. */
  function Rendering(nl: string -> string, e: SessionEvent): string {
    match e
    case NewMessage(direction, data) => if direction == "incoming" then nl(data) else ""
    case _ => ""
  }

  /** The concatenated rendering of the first `n` events. */
  function Render(nl: string -> string, events: seq<SessionEvent>, n: nat): string
    requires n <= |events|
  {
    if n == 0 then "" else Render(nl, events, n - 1) + Rendering(nl, events[n - 1])
  }

  datatype Player = Player(events: seq<SessionEvent>, index: nat, paused: bool, live: bool)

  predicate InRange(p: Player) {
    p.index <= |p.events|
  }

  function Text(nl: string -> string, p: Player): string
    requires InRange(p)
  {
    Render(nl, p.events, p.index)
  }

  /** Everything that can reach the reader: its own handlers, timers and socket messages. */
  datatype Input =
    | Load(loaded: seq<SessionEvent>)
    | Timer
    | NextButton
    | PrevButton
    | Seek(id: int)
    | Pause
    | Play
    | Speed
    | Reset
    | SetLive
    | SetDisconnected

  /** process_next_event: nothing when paused and not live; when paused and live the event is
      looked at but not shown; at the end of a recording it pauses. */
  function Process(p: Player): Player {
    if p.paused && !p.live then p
    else if p.index < |p.events| then (if p.paused then p else p.(index := p.index + 1))
    else if !p.live then p.(paused := true)
    else p
  }

  /** How often process_next_event calls its callback. */
  function Callbacks(p: Player): nat {
    if p.paused && !p.live then 0
    else if p.index < |p.events| || p.live then 1
    else 0
  }

  /** next: one event further, paused or not. */
  function Forward(p: Player): Player {
    if p.index >= |p.events| then p
    else if p.paused then p.(index := p.index + 1)
    else Process(p)
  }

  predicate Seeks(p: Player, id: int) {
    0 <= id < |p.events| && id != p.index
  }

  /** move_to_event: out-of-range targets and the current index are ignored; otherwise the player
      pauses after showing the events up to and including `id`. */
  function MoveTo(p: Player, id: int, dontPlay: bool): Player {
    if !Seeks(p, id) then p
    else p.(index := id + 1, paused := p.paused || dontPlay)
  }

  function React(p: Player, i: Input): Player {
    match i
    case Load(loaded) => p.(events := p.events + loaded)
    case Timer => Process(p)
    case NextButton => Forward(p)
    case PrevButton => MoveTo(p, if p.index < 2 then 0 else p.index - 2, true)
    case Seek(id) => MoveTo(p, id, true)
    case Pause => p.(paused := true)
    case Play => p.(paused := false)
    case Speed => p
    case Reset => Player([], 0, false, false)
    case SetLive => p.(live := true)
    case SetDisconnected => p.(live := false)
  }

  /** How many timers the reader arms on an input. None is ever cancelled. */
  function Armed(p: Player, i: Input): nat {
    match i
    case Timer => Process(p).index - p.index
    case NextButton => if p.paused then 0 else Process(p).index - p.index
    case Play => 1
    case Speed => if p.paused then 0 else 1
    case _ => 0
  }

  function ReactAll(p: Player, inputs: seq<Input>): Player
    decreases |inputs|
  {
    if inputs == [] then p else ReactAll(React(p, inputs[0]), inputs[1..])
  }

  lemma {:induction false} StaysInRange(p: Player, inputs: seq<Input>)
    requires InRange(p)
    ensures InRange(ReactAll(p, inputs))
    decreases |inputs|
  {
    if inputs != [] {
      StaysInRange(React(p, inputs[0]), inputs[1..]);
    }
  }

  /** The text of a prefix does not depend on what follows it. */
  lemma {:induction false} RenderPrefix(nl: string -> string,
        events: seq<SessionEvent>, longer: seq<SessionEvent>, n: nat)
    requires n <= |events| && events <= longer
    ensures Render(nl, longer, n) == Render(nl, events, n)
  {
    if n > 0 {
      RenderPrefix(nl, events, longer, n - 1);
    }
  }

  /** What the server sent, as opposed to what was typed, and everything that is no message. */
  predicate IsIncoming(e: SessionEvent) {
    e.NewMessage? && e.direction == "incoming"
  }

  lemma RenderNext(nl: string -> string, events: seq<SessionEvent>, e: SessionEvent)
    ensures Render(nl, events + [e], |events| + 1) == Render(nl, events, |events|) + Rendering(nl, e)
  {
    RenderPrefix(nl, events, events + [e], |events|);
  }

  /** A message from the server adds its normalised data, and nothing else. */
  lemma IncomingIsShown(nl: string -> string, events: seq<SessionEvent>, data: string)
    ensures Render(nl, events + [NewMessage("incoming", data)], |events| + 1)
         == Render(nl, events, |events|) + nl(data)
  {
    RenderNext(nl, events, NewMessage("incoming", data));
  }

  /** Anything else, typed text above all, changes nothing on the screen wherever it stands. */
  lemma {:induction false} NothingElseIsShown(nl: string -> string,
        before: seq<SessionEvent>, e: SessionEvent, after: seq<SessionEvent>)
    requires !IsIncoming(e)
    ensures Render(nl, before + [e] + after, |before| + 1 + |after|)
         == Render(nl, before + after, |before| + |after|)
    decreases |after|
  {
    if after == [] {
      assert before + [e] + after == before + [e] && before + after == before;
      RenderNext(nl, before, e);
    } else {
      var init, last := after[..|after| - 1], after[|after| - 1];
      assert before + [e] + after == (before + [e] + init) + [last];
      assert before + after == (before + init) + [last];
      NothingElseIsShown(nl, before, e, init);
      RenderNext(nl, before + [e] + init, last);
      RenderNext(nl, before + init, last);
    }
  }

  /** The data of the incoming messages. */
  function IncomingData(events: seq<SessionEvent>): seq<string> {
    if events == [] then []
    else
      var init, last := events[..|events| - 1], events[|events| - 1];
      IncomingData(init) + (if IsIncoming(last) then [last.data] else [])
  }

  function Joined(nl: string -> string, texts: seq<string>): string {
    if texts == [] then "" else Joined(nl, texts[..|texts| - 1]) + nl(texts[|texts| - 1])
  }

  /** The screen is the normalised incoming data, one after the other. */
  lemma {:induction false} RenderIsIncomingData(nl: string -> string, events: seq<SessionEvent>, n: nat)
    requires n <= |events|
    ensures Render(nl, events, n) == Joined(nl, IncomingData(events[..n]))
  {
    if n > 0 {
      RenderIsIncomingData(nl, events, n - 1);
      assert events[..n][..n - 1] == events[..n - 1];
      var shown, texts := IncomingData(events[..n - 1]), IncomingData(events[..n]);
      if IsIncoming(events[n - 1]) {
        assert texts[..|texts| - 1] == shown;
      } else {
        assert texts == shown;
      }
    }
  }

  /** `n` firings of the playback timer. */
  function Ticks(p: Player, n: nat): Player {
    if n == 0 then p else Process(Ticks(p, n - 1))
  }

  lemma {:induction false} TicksAdvance(p: Player, n: nat)
    requires InRange(p) && !p.paused && p.index + n <= |p.events|
    ensures Ticks(p, n) == p.(index := p.index + n)
  {
    if n > 0 {
      TicksAdvance(p, n - 1);
    }
  }

  /** Seeking to `id`, forwards or backwards, shows what playing the recording from its start through
      `id` shows, except that seeking to the current index is ignored. */
  lemma SeekEqualsPlay(nl: string -> string, p: Player, id: nat)
    requires InRange(p) && id < |p.events|
    ensures InRange(FromStart(p, id + 1)) && InRange(MoveTo(p, id, true))
    ensures Text(nl, MoveTo(p, id, true)) == Text(nl, FromStart(p, id + 1))
       <==> id != p.index || Rendering(nl, p.events[id]) == ""
  {
    TicksAdvance(Player(p.events, 0, false, p.live), id + 1);
    var shown, last := Render(nl, p.events, id), Rendering(nl, p.events[id]);
    Grows(shown, last);
    assert Text(nl, FromStart(p, id + 1)) == shown + last;
  }

  /** Where a seek leaves the player: just after its target and paused, with the same recording; a target
      outside the recording, or the current index, leaves everything as it was. */
  lemma SeekLands(p: Player, id: int)
    requires InRange(p)
    ensures var q := React(p, Seek(id));
            && q.events == p.events && q.live == p.live
            && (id < 0 || id >= |p.events| || id == p.index ==> q == p)
            && (0 <= id < |p.events| && id != p.index ==> q.index == id + 1 && q.paused)
  {
  }

  /** The next button shows one more event if there is one, paused or not, and does not stop playing; the
      prev button takes one back, never the first, and pauses. */
  lemma ButtonsStepByOne(p: Player)
    requires InRange(p)
    ensures React(p, NextButton) == p.(index := if p.index < |p.events| then p.index + 1 else p.index)
    ensures var q := React(p, PrevButton);
            && q.events == p.events && q.live == p.live
            && q.index == (if p.index >= 2 then p.index - 1 else p.index)
            && (if p.index == 0 then q == p else q.paused)
  {
  }

  /** A player and its outstanding timers after one of them fires. */
  function Fire(p: Player, timers: nat): (Player, nat)
    requires timers > 0
  {
    (React(p, Timer), timers - 1 + Armed(p, Timer))
  }

  /** `n` firings, each of a timer that is outstanding. */
  ghost predicate Fires(p: Player, timers: nat, n: nat, q: Player, left: nat)
    decreases n
  {
    if n == 0 then q == p && left == timers
    else timers > 0 && Fires(Fire(p, timers).0, Fire(p, timers).1, n - 1, q, left)
  }

  /** A playing recording plays to its end by itself: one outstanding timer is enough to show every event
      that is left, and the firing after the last one pauses. */
  lemma {:induction false} PlaysToTheEnd(p: Player, timers: nat)
    requires InRange(p) && !p.paused && !p.live && timers > 0
    ensures var end := p.(index := |p.events|);
            && Fires(p, timers, |p.events| - p.index, end, timers)
            && Fire(end, timers) == (end.(paused := true), timers - 1)
    decreases |p.events| - p.index
  {
    if p.index < |p.events| {
      assert Fire(p, timers) == (p.(index := p.index + 1), timers);
      PlaysToTheEnd(p.(index := p.index + 1), timers);
    }
  }

  /** Playing the recording from its start for `n` timer firings. */
  function FromStart(p: Player, n: nat): Player {
    Ticks(Player(p.events, 0, false, p.live), n)
  }

  lemma Grows(before: string, last: string)
    ensures before + last == before <==> last == ""
  {
    assert |before + last| == |before| + |last|;
  }

  /** On a paused player, `next` then `prev` is the identity exactly when it is neither at the start
      of a non-empty recording nor, with two or more events, at its end. */
  lemma NextThenPrev(p: Player)
    requires InRange(p) && p.paused
    ensures ReactAll(p, [NextButton, PrevButton]) == p
       <==> 1 <= p.index < |p.events| || p.index == |p.events| <= 1
  {
    var q := React(p, NextButton);
    assert [NextButton, PrevButton][1..] == [PrevButton];
    assert [PrevButton][1..] == [];
    assert ReactAll(p, [NextButton, PrevButton]) == ReactAll(q, [PrevButton]);
    assert ReactAll(q, [PrevButton]) == ReactAll(React(q, PrevButton), []);
  }

  /** Without loads and resets the index alone decides what is on screen, whatever happened in between. */
  lemma SameIndexSameText(nl: string -> string, p: Player, left: seq<Input>, right: seq<Input>)
    requires InRange(p)
    requires forall i :: 0 <= i < |left| ==> !left[i].Load? && !left[i].Reset?
    requires forall i :: 0 <= i < |right| ==> !right[i].Load? && !right[i].Reset?
    requires ReactAll(p, left).index == ReactAll(p, right).index
    ensures InRange(ReactAll(p, left)) && InRange(ReactAll(p, right))
    ensures Text(nl, ReactAll(p, left)) == Text(nl, ReactAll(p, right))
  {
    StaysInRange(p, left);
    StaysInRange(p, right);
    KeepsEvents(p, left);
    KeepsEvents(p, right);
  }

  lemma {:induction false} KeepsEvents(p: Player, inputs: seq<Input>)
    requires forall i :: 0 <= i < |inputs| ==> !inputs[i].Load? && !inputs[i].Reset?
    ensures ReactAll(p, inputs).events == p.events
    decreases |inputs|
  {
    if inputs != [] {
      assert !inputs[0].Load? && !inputs[0].Reset?;
      KeepsEvents(React(p, inputs[0]), inputs[1..]);
    }
  }

  /** What file replay loads: every event but the session-starts. */
  function DropStarts(data: seq<SessionEvent>): seq<SessionEvent> {
    if data == [] then []
    else DropStarts(data[..|data| - 1]) + (if data[|data| - 1].SessionStart? then [] else [data[|data| - 1]])
  }

  /** Exactly the session-starts go, and the rest keeps its order. */
  lemma {:induction false} DropStartsDropsStarts(before: seq<SessionEvent>, after: seq<SessionEvent>)
    ensures DropStarts(before + after) == DropStarts(before) + DropStarts(after)
    ensures SessionStart !in DropStarts(after)
    ensures SessionStart !in after ==> DropStarts(after) == after
    decreases |after|
  {
    if after == [] {
      assert before + after == before;
    } else {
      var init, last := after[..|after| - 1], after[|after| - 1];
      DropStartsDropsStarts(before, init);
      assert (before + after)[..|before + after| - 1] == before + init;
      assert after == init + [last];
    }
  }

  /** Leaving out the session-starts does not change what a recording shows. */
  lemma {:induction false} DropStartsKeepsText(nl: string -> string, data: seq<SessionEvent>)
    ensures Render(nl, DropStarts(data), |DropStarts(data)|) == Render(nl, data, |data|)
  {
    if data != [] {
      var init, last := data[..|data| - 1], data[|data| - 1];
      DropStartsKeepsText(nl, init);
      RenderPrefix(nl, init, data, |init|);
      if last.SessionStart? {
        Grows(Render(nl, init, |init|), Rendering(nl, last));
        assert DropStarts(data) == DropStarts(init);
      } else {
        RenderPrefix(nl, DropStarts(init), DropStarts(data), |DropStarts(init)|);
      }
    }
  }
}
