/** The concurrent core of a session: writers running HandleEvent, viewers running
    playSession, and the one effective call of End, as an interleaving of atomic steps.

    A step is one lock-protected block, one unsynchronised read, or one hand-off on an
    unbuffered channel. Channels are numbered in the order MakeNewSignal created them, so
    channel `v` belongs to viewer `v`. `msg_signal` is a slice header over a backing
    store; headers captured by `range` share that store with the live list. */
module SessionProtocol {
  import opened Events
  import opened Prelude
  import opened Slices

  /** The writer that runs HandleEvent on behalf of End. */
  const ENDER: nat := 0

  datatype Posted = Posted(author: nat, event: SessionEvent)

  /** A Go slice header that starts at slot 0 of backing store `store`. */
  datatype Slice = Slice(store: nat, len: nat)

  /** Where a goroutine is inside HandleEvent, for the event at index `k`. */
  datatype Writer =
    | Idle
    | Appended(k: nat)
    | Logged(k: nat)
    | Sending(k: nat, slice: Slice, next: nat)

  datatype Phase = Delivering | Waiting | Signalled | Ended | Departed

  /** `cursor` counts the events dealt with, `target` is the length last read from the list, and
      `broken` tells that the socket has failed, after which every event is given up. The rest is
      history: the list length at registration, the length read before it, whether a signal ever
      made the viewer read the length again, and the events the client acked, in order. */
  datatype Viewer = Viewer(
    phase: Phase, cursor: nat, target: nat, broken: bool,
    registeredAt: nat, counted: nat, woken: bool, acked: seq<Posted>)

  /** `locked` tells End called by markThreadStopped (mutex held) from End called by Stop. The log is
      sealed by its closing bracket before its file is closed. `walked` and `size` are history: how
      many channels the END broadcast captured and how many events were logged before the bracket. */
  datatype Ending =
    | Running
    | Stopping(locked: bool)
    | Closing(locked: bool, slice: Slice, next: nat)
    | Sealed(locked: bool, walked: nat, size: nat)
    | Closed(locked: bool, walked: nat, size: nat)

  /** Slots that were overwritten, with the viewers that took them; the latest first. */
  datatype Losses = NoLoss | Loss(slot: nat, taker: nat, earlier: Losses)

  predicate IsLost(lost: Losses, j: nat) {
    lost.Loss? && (lost.slot == j || IsLost(lost.earlier, j))
  }

  /** The last viewer to take slot `j`, or the one captured there. */
  function Holder(lost: Losses, j: nat): nat {
    if lost.NoLoss? then j else if lost.slot == j then lost.taker else Holder(lost.earlier, j)
  }

  /** The last three are history. `heard[k]`: how many channels the broadcast for event `k` captured.
      `shrunk`: some viewer has removed its channel. `lost`: what registrations overwrote before the
      END broadcast read it. */
  datatype State = State(
    events: seq<Posted>, log: seq<Posted>, logOpen: bool,
    stores: seq<seq<nat>>, signals: Slice,
    viewers: seq<Viewer>, writers: map<nat, Writer>,
    ending: Ending, stopAt: Option<nat>,
    heard: map<nat, nat>, shrunk: bool, lost: Losses)

  const INITIAL := State([], [], true, [[]], Slice(0, 0), [], map[], Running, None, map[], false, NoLoss)

  datatype Action =
    | Append(w: nat, e: SessionEvent)
    | Log(w: nat)
    | Capture(w: nat)
    | Send(w: nat)
    | Finish(w: nat)
    | Register(n: nat, spare: nat)
    | Read(v: nat)
    | Transmit(v: nat, reply: bool)
    | Fail(v: nat)
    | Rest(v: nat)
    | BeginEnd(locked: bool)
    | CaptureEnd
    | SendEnd
    | Seal
    | CloseLog
    | Remove(v: nat)

  function At(s: State, w: nat): Writer {
    if w in s.writers then s.writers[w] else Idle
  }

  predicate MutexFree(s: State) {
    match s.ending
    case Stopping(locked) => !locked
    case Closing(locked, _, _) => !locked
    case Sealed(locked, _, _) => !locked
    case _ => true
  }

  predicate InBounds(s: State, slice: Slice) {
    slice.store < |s.stores| && slice.len <= |s.stores[slice.store]|
  }

  predicate InPhase(s: State, v: nat, phase: Phase) {
    v < |s.viewers| && s.viewers[v].phase == phase
  }

  /** The channel that a walk over `slice` would send to at position `i`, if it can. */
  predicate CanSend(s: State, slice: Slice, i: nat) {
    InBounds(s, slice) && i < slice.len && InPhase(s, s.stores[slice.store][i], Waiting)
  }

  predicate Sends(s: State, v: nat) {
    InPhase(s, v, Delivering) && s.viewers[v].cursor < s.viewers[v].target <= |s.events|
  }

  predicate Enabled(s: State, a: Action) {
    match a
    case Append(w, e) =>
      && At(s, w).Idle?
      && (e.SessionStop? <==> w == ENDER)
      && (w == ENDER ==> s.ending.Stopping? && s.stopAt.None?)
    case Log(w) => At(s, w).Appended? && At(s, w).k < |s.events|
    case Capture(w) => At(s, w).Logged?
    case Send(w) => At(s, w).Sending? && CanSend(s, At(s, w).slice, At(s, w).next)
    case Finish(w) => At(s, w).Sending? && At(s, w).next >= At(s, w).slice.len
    case Register(n, _) => MutexFree(s) && n <= |s.events| && InBounds(s, s.signals)
    case Read(v) => InPhase(s, v, Signalled)
    case Transmit(v, _) => Sends(s, v) && !s.viewers[v].broken
    case Fail(v) => Sends(s, v)
    case Rest(v) => InPhase(s, v, Delivering) && s.viewers[v].cursor >= s.viewers[v].target
    case BeginEnd(_) => s.ending.Running?
    case CaptureEnd => s.ending.Stopping? && s.stopAt.Some? && At(s, ENDER).Idle?
    case SendEnd => s.ending.Closing? && CanSend(s, s.ending.slice, s.ending.next)
    case Seal => s.ending.Closing? && s.ending.next >= s.ending.slice.len
    case CloseLog => s.ending.Sealed?
    case Remove(v) => InPhase(s, v, Ended) && MutexFree(s) && InBounds(s, s.signals)
  }

  function SetPhase(s: State, v: nat, phase: Phase): State
    requires v < |s.viewers|
  {
    s.(viewers := s.viewers[v := s.viewers[v].(phase := phase)])
  }

  /** The slot after the live list is one that the END broadcast has yet to read. */
  predicate Overwrites(s: State) {
    && s.ending.Closing? && s.signals.store == s.ending.slice.store
    && s.ending.next <= s.signals.len < s.ending.slice.len
  }

  /** MakeNewSignal: Go's append, in place while there is room, otherwise into a new store. */
  function AppendSignal(s: State, n: nat, spare: nat): State
    requires InBounds(s, s.signals)
  {
    var v: nat := |s.viewers|;
    var store: seq<nat> := s.stores[s.signals.store];
    var joined := s.(viewers := s.viewers + [Viewer(Delivering, 0, n, false, |s.events|, n, false, [])]);
    if s.signals.len < |store| then
      joined.(stores := s.stores[s.signals.store := store[s.signals.len := v]],
              signals := Slice(s.signals.store, s.signals.len + 1),
              lost := if Overwrites(s) then Loss(s.signals.len, v, s.lost) else s.lost)
    else
      joined.(stores := s.stores + [store[..s.signals.len] + [v] + seq(spare, _ => 0)],
              signals := Slice(|s.stores|, s.signals.len + 1))
  }

  /** RemoveSignal: the last live slot overwrites the first match and the header shrinks. */
  function RemoveSignal(s: State, v: nat): State
    requires InBounds(s, s.signals) && v < |s.viewers|
  {
    var store: seq<nat> := s.stores[s.signals.store];
    var i := Find(store[..s.signals.len], v);
    var gone := SetPhase(s, v, Departed).(shrunk := true);
    if i < s.signals.len then
      gone.(stores := s.stores[s.signals.store := store[i := store[s.signals.len - 1]]],
            signals := Slice(s.signals.store, s.signals.len - 1))
    else gone
  }

  function Next(s: State, a: Action): State
    requires Enabled(s, a)
  {
    match a
    case Append(w, e) =>
      s.(events := s.events + [Posted(w, e)],
         writers := s.writers[w := Appended(|s.events|)],
         stopAt := if w == ENDER then Some(|s.events|) else s.stopAt)
    case Log(w) =>
      var k := At(s, w).k;
      s.(log := if s.logOpen then s.log + [s.events[k]] else s.log,
         writers := s.writers[w := Logged(k)])
    case Capture(w) =>
      var k := At(s, w).k;
      s.(writers := s.writers[w := Sending(k, s.signals, 0)], heard := s.heard[k := s.signals.len])
    case Send(w) =>
      var Sending(k, slice, next) := At(s, w);
      SetPhase(s, s.stores[slice.store][next], Signalled)
        .(writers := s.writers[w := Sending(k, slice, next + 1)])
    case Finish(w) => s.(writers := s.writers[w := Idle])
    case Register(n, spare) => AppendSignal(s, n, spare)
    case Read(v) =>
      s.(viewers := s.viewers[v := s.viewers[v].(phase := Delivering, target := |s.events|, woken := true)])
    case Transmit(v, reply) =>
      var x := s.viewers[v];
      if reply then
        s.(viewers := s.viewers[v := x.(cursor := x.cursor + 1, acked := x.acked + [s.events[x.cursor]])])
      else s
    case Fail(v) =>
      s.(viewers := s.viewers[v := s.viewers[v].(cursor := s.viewers[v].cursor + 1, broken := true)])
    case Rest(v) => SetPhase(s, v, Waiting)
    case BeginEnd(locked) => s.(ending := Stopping(locked))
    case CaptureEnd => s.(ending := Closing(s.ending.locked, s.signals, 0))
    case SendEnd =>
      var Closing(locked, slice, next) := s.ending;
      SetPhase(s, s.stores[slice.store][next], Ended).(ending := Closing(locked, slice, next + 1))
    case Seal => s.(ending := Sealed(s.ending.locked, s.ending.slice.len, |s.log|))
    case CloseLog => s.(logOpen := false, ending := Closed(s.ending.locked, s.ending.walked, s.ending.size))
    case Remove(v) => RemoveSignal(s, v)
  }

  /** A run: every action is enabled where it happens. */
  predicate Legal(s: State, run: seq<Action>)
    decreases |run|
  {
    run == [] || (Enabled(s, run[0]) && Legal(Next(s, run[0]), run[1..]))
  }

  function After(s: State, run: seq<Action>): State
    requires Legal(s, run)
    decreases |run|
  {
    if run == [] then s else After(Next(s, run[0]), run[1..])
  }

  ghost predicate Reachable(s: State) {
    exists run :: Legal(INITIAL, run) && After(INITIAL, run) == s
  }
}
