/** The browser's terminal reader: incremental play, batch seek, reset-and-replay. */
module TerminalReader {
  import opened Events
  import opened Newlines
  import opened Playback
  import opened Prelude

  /** `screen` is the text written to the terminal since its last reset. `consumed` holds the
      indices of events whose type field a session-start or window-resize action has deleted.
      `timers` counts the timeouts that are still going to fire; none is ever cancelled. */
  class Reader {
    const nl: string -> string
    var paused: bool
    var live: bool
    var events: seq<SessionEvent>
    var consumed: set<nat>
    var eventIndex: nat
    var screen: string
    var terminalBuffer: string
    var keystrokeBuffer: string
    var timers: nat

    /** The simple player this reader implements. */
    ghost function View(): Player
      reads this
    {
      Player(events, eventIndex, paused, live)
    }

    /** Between handlers both buffers are empty and the screen shows exactly the events before the index. */
    ghost predicate Valid()
      reads this
    {
      && eventIndex <= |events|
      && ConsumedOk()
      && terminalBuffer == "" && keystrokeBuffer == ""
      && screen == Render(nl, events, eventIndex)
    }

    ghost predicate ConsumedOk()
      reads this
    {
      forall i :: i in consumed ==> i < |events| && (events[i].SessionStart? || events[i].WindowResize?)
    }

    constructor ()
      ensures Valid() && View() == Player([], 0, true, false) && timers == 0
      ensures nl == Normalise
    {
      nl := Normalise;
      paused, live, events, consumed, eventIndex := true, false, [], {}, 0;
      screen, terminalBuffer, keystrokeBuffer, timers := "", "", "", 0;
    }

    method LoadEvents(loaded: seq<SessionEvent>)
      requires Valid()
      modifies this`events
      ensures Valid() && View() == old(View()).(events := old(events) + loaded)
    {
      events := events + loaded;
      RenderPrefix(nl, old(events), events, eventIndex);
    }

    /** action_event: session-start and window-resize lose their type, incoming messages go to the terminal
        buffer, and only there; outgoing messages but a single NUL, and the command of an exec request
        behind its length, go to the keystroke buffer, and only there. */
    method ActionEvent(i: nat)
      requires i < |events| && ConsumedOk()
      modifies this`consumed, this`terminalBuffer, this`keystrokeBuffer
      ensures terminalBuffer == old(terminalBuffer) + Rendering(nl, events[i])
      ensures consumed == old(consumed) + (if events[i].SessionStart? || events[i].WindowResize? then {i} else {})
      ensures ConsumedOk()
      ensures match events[i]
              case NewMessage(direction, data) =>
                && terminalBuffer == old(terminalBuffer) + (if direction == "incoming" then nl(data) else "")
                && keystrokeBuffer == old(keystrokeBuffer)
                                      + (if direction == "outgoing" && data != [0 as char] then data else "")
              case NewRequest(requestType, payload) =>
                && terminalBuffer == old(terminalBuffer)
                && keystrokeBuffer == old(keystrokeBuffer)
                                      + (if requestType == "exec" && |payload| > 4 then payload[4..] else "")
              case _ => terminalBuffer == old(terminalBuffer) && keystrokeBuffer == old(keystrokeBuffer)
    {
      if i in consumed {
        return;
      }
      match events[i] {
        case SessionStart => consumed := consumed + {i};
        case WindowResize(_, _) => consumed := consumed + {i};
        case NewMessage(direction, data) =>
          if direction == "incoming" {
            terminalBuffer := terminalBuffer + nl(data);
          } else if direction == "outgoing" {
            if data != [0 as char] {
              keystrokeBuffer := keystrokeBuffer + data;
            }
          }
        case NewRequest(requestType, payload) =>
          if requestType == "exec" {
            keystrokeBuffer := keystrokeBuffer + (if |payload| < 4 then "" else payload[4..]);
          }
        case SessionStop =>
        case NewChannel(_) =>
      }
    }

    method WriteTerminalBuffer()
      modifies this`screen, this`terminalBuffer
      ensures screen == old(screen) + old(terminalBuffer) && terminalBuffer == ""
    {
      screen := screen + terminalBuffer;
      terminalBuffer := "";
    }

    method WriteKeystrokeBuffer()
      modifies this`keystrokeBuffer
      ensures keystrokeBuffer == ""
    {
      keystrokeBuffer := "";
    }

    /** write_buffers; `calls` counts the calls of its callback. */
    method WriteBuffers(alwaysCallback: bool) returns (calls: nat)
      modifies this`screen, this`terminalBuffer, this`keystrokeBuffer
      ensures screen == old(screen) + old(terminalBuffer) && terminalBuffer == "" && keystrokeBuffer == ""
      ensures calls == if alwaysCallback || old(terminalBuffer) != "" || old(keystrokeBuffer) == "" then 1 else 0
    {
      if terminalBuffer != "" {
        if keystrokeBuffer != "" {
          WriteKeystrokeBuffer();
        }
        WriteTerminalBuffer();
        calls := 1;
      } else if keystrokeBuffer != "" {
        WriteKeystrokeBuffer();
        calls := if alwaysCallback then 1 else 0;
      } else {
        calls := 1;
      }
    }

    /** The pair of calls that play and next share: act on the current event, then write. */
    method ShowCurrent() returns (calls: nat)
      requires Valid() && eventIndex < |events|
      modifies this`consumed, this`screen, this`terminalBuffer, this`keystrokeBuffer
      ensures calls == 1 && ConsumedOk() && terminalBuffer == "" && keystrokeBuffer == ""
      ensures screen == Render(nl, events, eventIndex + 1)
    {
      ActionEvent(eventIndex);
      assert terminalBuffer == Rendering(nl, events[eventIndex]);
      calls := WriteBuffers(true);
    }

    /** What a paused live reader does with the current event: act on it, then clear the buffers. */
    method DropCurrent()
      requires Valid() && eventIndex < |events|
      modifies this`consumed, this`terminalBuffer, this`keystrokeBuffer
      ensures Valid()
    {
      ActionEvent(eventIndex);
      terminalBuffer, keystrokeBuffer := "", "";
    }

    /** `callbacks` counts the calls of the handler passed in. */
    method ProcessNextEvent() returns (callbacks: nat)
      requires Valid()
      modifies this`paused, this`consumed, this`screen, this`terminalBuffer, this`keystrokeBuffer
      modifies this`eventIndex, this`timers
      ensures Valid() && View() == Process(old(View())) && callbacks == Callbacks(old(View()))
      ensures timers == old(timers) + eventIndex - old(eventIndex)
    {
      callbacks := 0;
      if paused && !live {
        return;
      }
      if |events| > eventIndex {
        if !paused {
          callbacks := ShowCurrent();
          timers := timers + 1;
          eventIndex := eventIndex + 1;
        } else {
          callbacks := 1;
          DropCurrent();
        }
      } else if !live {
        DoPause();
      } else {
        callbacks := 1;
      }
    }

    /** A timeout fires; it was armed earlier and may be stale. */
    method TimerFires()
      requires Valid() && timers > 0
      modifies this
      ensures Valid() && View() == Process(old(View()))
      ensures timers == old(timers) - 1 + Armed(old(View()), Timer)
    {
      timers := timers - 1;
      var _ := ProcessNextEvent();
    }

    method DoNext()
      requires Valid()
      modifies this
      ensures Valid() && View() == Forward(old(View()))
      ensures timers == old(timers) + Armed(old(View()), NextButton)
    {
      if eventIndex < |events| {
        if paused {
          var _ := ShowCurrent();
          eventIndex := eventIndex + 1;
        } else {
          var _ := ProcessNextEvent();
        }
      }
    }

    method DoPause()
      requires eventIndex <= |events|
      modifies this`paused
      ensures View() == old(View()).(paused := true)
    {
      paused := true;
    }

    method DoPlay()
      requires Valid()
      modifies this`paused, this`timers
      ensures Valid() && View() == old(View()).(paused := false) && timers == old(timers) + 1
    {
      paused := false;
      timers := timers + 1;
    }

    /** One action of a batch: the next event's text goes behind what is buffered. */
    method ActionInTurn(i: nat)
      requires i < |events| && ConsumedOk()
      requires screen + terminalBuffer == Render(nl, events, i)
      modifies this`consumed, this`terminalBuffer, this`keystrokeBuffer
      ensures ConsumedOk() && screen + terminalBuffer == Render(nl, events, i + 1)
    {
      Assoc(screen, terminalBuffer, Rendering(nl, events[i]));
      ActionEvent(i);
    }

    /** The loop of move_to_event: the actions of `first` through `last`, into the buffers. */
    method ActionThrough(first: nat, last: nat)
      requires first <= last + 1 <= |events| && ConsumedOk()
      requires screen + terminalBuffer == Render(nl, events, first)
      modifies this`consumed, this`terminalBuffer, this`keystrokeBuffer
      ensures ConsumedOk() && screen + terminalBuffer == Render(nl, events, last + 1)
    {
      var i := first;
      while i <= last
        invariant first <= i <= last + 1
        invariant ConsumedOk() && screen + terminalBuffer == Render(nl, events, i)
      {
        ActionInTurn(i);
        i := i + 1;
      }
    }

    /** The batch part of move_to_event: forwards from the index, or from a cleared terminal. */
    method ShowThrough(eventId: nat)
      requires Valid() && eventId < |events| && eventId != eventIndex
      modifies this`consumed, this`screen, this`terminalBuffer, this`keystrokeBuffer, this`eventIndex
      ensures Valid() && eventIndex == eventId + 1
    {
      var first := 0;
      if eventId > eventIndex {
        first := eventIndex;
      } else {
        screen := "";
      }
      ActionThrough(first, eventId);
      var _ := WriteBuffers(true);
      eventIndex := eventId + 1;
    }

    method MoveToEvent(eventId: int, dontPlay: bool)
      requires Valid()
      modifies this
      ensures Valid() && View() == MoveTo(old(View()), eventId, dontPlay)
      ensures timers == old(timers)
                        + (if Seeks(old(View()), eventId) && !old(paused) && !dontPlay then 1 else 0)
    {
      if eventId < 0 || eventId > |events| - 1 || eventId == eventIndex {
        return;
      }
      var wasPaused := paused;
      DoPause();
      ShowThrough(eventId);
      if !wasPaused && !dontPlay {
        DoPlay();
      }
    }

    method DoPrev()
      requires Valid()
      modifies this
      ensures Valid() && View() == React(old(View()), PrevButton) && timers == old(timers)
    {
      var newId := if eventIndex - 2 > 0 then eventIndex - 2 else 0;
      MoveToEvent(newId, true);
    }

    /** change_speed_to_new_val, as far as it concerns what is shown. */
    method ChangeSpeed()
      requires Valid()
      modifies this
      ensures Valid() && View() == old(View())
      ensures timers == old(timers) + (if old(paused) then 0 else 1)
    {
      if !paused {
        DoPause();
        DoPlay();
      }
    }

    method DoReset()
      modifies this
      ensures Valid() && View() == Player([], 0, false, false) && timers == old(timers)
    {
      paused, live := false, false;
      screen := "";
      events, consumed, eventIndex := [], {}, 0;
      terminalBuffer, keystrokeBuffer := "", "";
    }

    method SetMode(isLive: bool)
      requires Valid()
      modifies this`live
      ensures Valid() && View() == old(View()).(live := isLive)
    {
      live := isLive;
    }

    /** One handler, with the timers it arms. A timer input does nothing when no timeout is outstanding. */
    method Handle(i: Input)
      requires Valid()
      modifies this
      ensures Valid()
      ensures View() == if i.Timer? && old(timers) == 0 then old(View()) else React(old(View()), i)
      ensures i.Timer? && old(timers) == 0 ==> timers == 0
      ensures !(i.Timer? && old(timers) == 0) ==>
                timers == old(timers) + Armed(old(View()), i) - (if i.Timer? then 1 else 0)
    {
      match i {
        case Load(loaded) => LoadEvents(loaded);
        case Timer => if timers > 0 { TimerFires(); }
        case NextButton => DoNext();
        case PrevButton => DoPrev();
        case Seek(id) => MoveToEvent(id, true);
        case Pause => DoPause();
        case Play => DoPlay();
        case Speed => ChangeSpeed();
        case Reset => DoReset();
        case SetLive => SetMode(true);
        case SetDisconnected => SetMode(false);
      }
    }

    /** Any interleaving of handlers: afterwards the screen still is the fold over the events before the index. */
    method HandleAll(inputs: seq<Input>)
      requires Valid()
      modifies this
      ensures Valid() && screen == Render(nl, events, eventIndex) && eventIndex <= |events|
      ensures screen == Joined(nl, IncomingData(events[..eventIndex]))
      ensures terminalBuffer == keystrokeBuffer == ""
    {
      for k := 0 to |inputs|
        invariant Valid()
      {
        Handle(inputs[k]);
      }
      RenderIsIncomingData(nl, events, eventIndex);
    }

    /** The socket handler for one message of a session: `acks` counts the acks sent. A session that
        was active when selected is shown as it arrives; a finished one starts playing at its stop. */
    method OnMessage(e: SessionEvent, active: bool) returns (acks: nat)
      requires Valid()
      modifies this
      ensures Valid()
      ensures events == old(events) + [e]
      ensures acks == if active && old(paused) && !old(live) then 0 else 1
      ensures active ==> timers == old(timers) + eventIndex - old(eventIndex)
      ensures var received := React(old(View()), Load([e]));
              var shown := if active then Process(received) else received;
              View() == if !e.SessionStop? then shown
                        else if active then shown.(live := false)
                        else shown.(paused := false)
    {
      LoadEvents([e]);
      if active {
        acks := ProcessNextEvent();
      } else {
        acks := 1;
      }
      if e.SessionStop? {
        if active {
          SetMode(false);
        } else {
          DoPlay();
        }
      }
    }

    /** Replay of a log file: a fresh start with every event but the session-starts. */
    method ReplaySessionEventList(data: seq<SessionEvent>)
      modifies this
      ensures Valid() && View() == Player(DropStarts(data), 0, false, false)
      ensures timers == old(timers) + 1
    {
      DoReset();
      var eventQueue := [];
      for index := 0 to |data|
        invariant eventQueue == DropStarts(data[..index])
        invariant Valid() && View() == Player([], 0, false, false) && timers == old(timers)
      {
        assert data[..index + 1][..index] == data[..index];
        if !data[index].SessionStart? {
          eventQueue := eventQueue + [data[index]];
        }
      }
      assert data[..|data|] == data;
      LoadEvents(eventQueue);
      DoPlay();
    }
  }
}
