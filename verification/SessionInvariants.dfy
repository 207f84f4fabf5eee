/** What every step of SessionProtocol keeps. Each conjunct has its own preservation lemma. */
module SessionInvariants {
  import opened Events
  import opened Prelude
  import opened SessionProtocol

  /** Viewers: what was acked is the first events of the list, up to the cursor unless the socket failed. */
  predicate ViewerOk(x: Viewer, events: seq<Posted>) {
    && x.cursor <= x.target <= |events|
    && x.registeredAt <= |events|
    && |x.acked| <= x.cursor && x.acked == events[..|x.acked|]
    && (!x.broken ==> |x.acked| == x.cursor)
    && (x.phase != Delivering ==> x.cursor == x.target)
    && (if x.woken then x.registeredAt <= x.target else x.target == x.counted)
  }

  ghost predicate ViewersOk(s: State) {
    forall v :: 0 <= v < |s.viewers| ==> ViewerOk(s.viewers[v], s.events)
  }

  /** Writer `w` is between the append and the end of the broadcast of event `k`. */
  predicate Handles(s: State, w: nat, k: nat) {
    !At(s, w).Idle? && At(s, w).k == k
  }

  predicate WriterOk(s: State, w: nat) {
    var x := At(s, w);
    !x.Idle? ==>
      && x.k < |s.events| && s.events[x.k].author == w
      && (x.k in s.heard <==> x.Sending?)
      && (x.Sending? ==> s.heard[x.k] == x.slice.len)
  }

  predicate HeardOk(s: State) {
    forall k :: k in s.heard ==> k < |s.events| && s.heard[k] <= |s.viewers|
  }

  /** Writers: each handles an event it appended itself, whose broadcast has started
      exactly when the writer is sending. */
  ghost predicate WritersOk(s: State) {
    && (forall w: nat :: WriterOk(s, w))
    && HeardOk(s)
    && (forall k: nat :: k < |s.events| && k !in s.heard ==> Handles(s, s.events[k].author, k))
  }

  /** Slot `j` of a header holds channel `j`. */
  ghost predicate InOrder(s: State, slice: Slice) {
    && InBounds(s, slice)
    && slice.len <= |s.viewers|
    && forall j :: 0 <= j < slice.len ==> s.stores[slice.store][j] == j
  }

  ghost predicate WalkOk(s: State, w: nat) {
    At(s, w).Sending? ==> InOrder(s, At(s, w).slice) && At(s, w).next <= At(s, w).slice.len
  }

  /** Until the first removal, the list and every captured header hold channels 0, 1, 2, ... */
  ghost predicate ListOk(s: State) {
    && InBounds(s, s.signals)
    && s.signals.len <= |s.viewers|
    && (!s.shrunk ==>
          && InOrder(s, s.signals)
          && s.signals.len == |s.viewers|
          && (forall w: nat :: WalkOk(s, w))
          && (s.ending.Closing? ==> InOrder(s, s.ending.slice) && s.ending.next <= s.ending.slice.len))
  }

  /** The writer of event `k` has not begun its broadcast, or channel `v` comes later in it. */
  predicate Due(s: State, k: nat, v: nat)
    requires k < |s.events|
  {
    var x := At(s, s.events[k].author);
    !x.Idle? && x.k == k && (x.Sending? ==> x.next <= v < x.slice.len)
  }

  /** The broadcast for event `k` captured its list before viewer `v` was on it. */
  predicate Missed(s: State, k: nat, v: nat) {
    k in s.heard && s.heard[k] <= v
  }

  predicate Settled(s: State, k: nat, v: nat)
    requires k < |s.events| && v < |s.viewers|
  {
    || Missed(s, k, v)
    || Due(s, k, v)
    || s.viewers[v].phase == Signalled
    || k < s.viewers[v].target
  }

  /** The broadcast of an event appended after viewer `v` registered has captured its channel. */
  predicate HeardLater(s: State, k: nat, v: nat) {
    k in s.heard && v < |s.viewers| && s.viewers[v].registeredAt <= k ==> v < s.heard[k]
  }

  /** No lost wake-up, for every event and every viewer. */
  ghost predicate WakeupsOk(s: State) {
    !s.shrunk ==>
      && (forall k: nat, v: nat :: k < |s.events| && v < |s.viewers| ==> Settled(s, k, v))
      && (forall k: nat, v: nat :: HeardLater(s, k, v))
  }

  predicate EndSent(s: State) {
    !s.ending.Running? && !s.ending.Stopping?
  }

  /** Event `k` is the session-stop if and only if End wrote it. */
  predicate StopOk(s: State, k: nat) {
    k < |s.events| ==>
      && (s.events[k].event.SessionStop? <==> s.stopAt == Some(k))
      && (s.events[k].author == ENDER <==> s.stopAt == Some(k))
  }

  predicate PhaseOk(s: State) {
    && (s.stopAt.Some? ==> s.stopAt.value < |s.events|)
    && (s.ending.Running? ==> s.stopAt.None?)
    && (s.stopAt.None? ==> At(s, ENDER).Idle?)
    && (EndSent(s) ==> s.stopAt.Some? && At(s, ENDER).Idle?)
    && (s.shrunk ==> EndSent(s))
  }

  predicate Gone(x: Viewer) {
    x.phase == Ended || x.phase == Departed
  }

  /** End: one session-stop at most, written by End, and END goes out only after it was broadcast. */
  ghost predicate EndingOk(s: State) {
    && (forall k: nat :: StopOk(s, k))
    && PhaseOk(s)
    && (!EndSent(s) ==> forall v :: 0 <= v < |s.viewers| ==> !Gone(s.viewers[v]))
  }

  /** Viewer `v`, if it registered before the stop, has it within its target or is about to read the list. */
  predicate HearsStop(s: State, v: nat) {
    EndSent(s) && s.stopAt.Some? && v < |s.viewers| && s.viewers[v].registeredAt <= s.stopAt.value ==>
      s.viewers[v].phase == Signalled || s.stopAt.value < s.viewers[v].target
  }

  /** While End holds the mutex nobody registers, so END only reaches viewers registered before the stop. */
  predicate InTime(s: State, v: nat) {
    s.stopAt.Some? && !s.ending.Running? && s.ending.locked && v < |s.viewers|
    && (s.ending.Closed? ==> Gone(s.viewers[v])) ==>
      s.viewers[v].registeredAt <= s.stopAt.value
  }

  ghost predicate DeliveryOk(s: State) {
    forall v: nat :: HearsStop(s, v) && InTime(s, v)
  }

  /** The events of one writer, in order. */
  function By(list: seq<Posted>, w: nat): (r: seq<Posted>)
  {
    if list == [] then []
    else By(list[..|list| - 1], w) + (if list[|list| - 1].author == w then [list[|list| - 1]] else [])
  }

  function Unlogged(s: State, w: nat): seq<Posted> {
    if At(s, w).Appended? && At(s, w).k < |s.events| then [s.events[At(s, w).k]] else []
  }

  predicate LoggedBy(s: State, w: nat) {
    && By(s.log, w) <= By(s.events, w)
    && (s.logOpen ==> By(s.events, w) == By(s.log, w) + Unlogged(s, w))
  }

  /** Memory and log: per writer, the log lags memory by exactly the event between append and log. */
  ghost predicate LogOk(s: State) {
    && (forall w: nat :: LoggedBy(s, w))
    && (s.logOpen <==> !s.ending.Closed?)
  }

  ghost predicate Inv(s: State) {
    && ViewersOk(s) && WritersOk(s) && ListOk(s) && WakeupsOk(s)
    && EndingOk(s) && DeliveryOk(s) && LogOk(s)
  }

  // ---------- What a step does, part by part ----------

  /** The writer an action moves. */
  function Mover(a: Action): nat {
    match a
    case Append(w, _) => w
    case Log(w) => w
    case Capture(w) => w
    case Send(w) => w
    case Finish(w) => w
    case _ => ENDER
  }

  predicate MovesWriter(a: Action) {
    a.Append? || a.Log? || a.Capture? || a.Send? || a.Finish?
  }

  /** What a step makes of writer `w`. */
  function MovedWriter(s: State, a: Action, w: nat): Writer
    requires Enabled(s, a)
  {
    var x := At(s, w);
    if !MovesWriter(a) || Mover(a) != w then x
    else
      match a
      case Append(_, _) => Appended(|s.events|)
      case Log(_) => Logged(x.k)
      case Capture(_) => Sending(x.k, s.signals, 0)
      case Send(_) => Sending(x.k, x.slice, x.next + 1)
      case _ => Idle
  }

  lemma StepMovesWriter(s: State, a: Action, w: nat)
    requires Enabled(s, a)
    ensures At(Next(s, a), w) == MovedWriter(s, a, w)
  {
  }

  /** Only Append adds an event and only Capture begins a broadcast. */
  predicate EventsMoved(s: State, s': State, a: Action)
    requires Enabled(s, a)
  {
    && s'.events == (match a case Append(w, e) => s.events + [Posted(w, e)] case _ => s.events)
    && s'.heard == (match a case Capture(w) => s.heard[At(s, w).k := s.signals.len] case _ => s.heard)
  }

  lemma StepMovesEvents(s: State, a: Action)
    requires Enabled(s, a)
    ensures EventsMoved(s, Next(s, a), a)
  {
  }

  /** What a step makes of viewer `v`. */
  function Moved(s: State, a: Action, v: nat): Viewer
    requires Enabled(s, a) && v < |s.viewers|
  {
    var x := s.viewers[v];
    match a
    case Send(w) => if s.stores[At(s, w).slice.store][At(s, w).next] == v then x.(phase := Signalled) else x
    case SendEnd => if s.stores[s.ending.slice.store][s.ending.next] == v then x.(phase := Ended) else x
    case Read(u) => if u == v then x.(phase := Delivering, target := |s.events|, woken := true) else x
    case Transmit(u, reply) =>
      if u == v && reply then x.(cursor := x.cursor + 1, acked := x.acked + [s.events[x.cursor]]) else x
    case Fail(u) => if u == v then x.(cursor := x.cursor + 1, broken := true) else x
    case Rest(u) => if u == v then x.(phase := Waiting) else x
    case Remove(u) => if u == v then x.(phase := Departed) else x
    case _ => x
  }

  lemma StepMoves(s: State, a: Action, v: nat)
    requires Enabled(s, a) && v < |s.viewers|
    ensures v < |Next(s, a).viewers| && Next(s, a).viewers[v] == Moved(s, a, v)
  {
    match a
    case Register(n, spare) =>
    case Remove(u) =>
    case _ => OtherStepMoves(s, a, v);
  }

  lemma OtherStepMoves(s: State, a: Action, v: nat)
    requires Enabled(s, a) && v < |s.viewers| && !a.Register? && !a.Remove?
    ensures v < |Next(s, a).viewers| && Next(s, a).viewers[v] == Moved(s, a, v)
  {
  }

  // ---------- Preservation ----------

  lemma KeepsViewers(s: State, a: Action)
    requires ViewersOk(s) && Enabled(s, a)
    ensures ViewersOk(Next(s, a))
  {
    match a
    case Append(w, e) => ViewersAfterAppend(s, w, e);
    case Transmit(v, reply) => ViewersAfterTransmit(s, v, reply);
    case Register(n, spare) => ViewersAfterRegister(s, n, spare);
    case _ => ViewersAfterOther(s, a);
  }

  lemma ViewersAfterOther(s: State, a: Action)
    requires ViewersOk(s) && Enabled(s, a) && !a.Append? && !a.Transmit? && !a.Register?
    ensures ViewersOk(Next(s, a))
  {
    OtherKeepsEvents(s, a);
    forall v | 0 <= v < |Next(s, a).viewers|
      ensures ViewerOk(Next(s, a).viewers[v], s.events)
    {
      OtherMovesViewer(s, a, v);
    }
  }

  lemma OtherMovesViewer(s: State, a: Action, v: nat)
    requires Enabled(s, a) && !a.Append? && !a.Transmit? && !a.Register? && v < |Next(s, a).viewers|
    requires v < |s.viewers| ==> ViewerOk(s.viewers[v], s.events)
    ensures ViewerOk(Next(s, a).viewers[v], s.events)
  {
    if v < |s.viewers| {
      StepMoves(s, a, v);
    }
  }

  lemma ViewersAfterAppend(s: State, w: nat, e: SessionEvent)
    requires ViewersOk(s) && Enabled(s, Append(w, e))
    ensures ViewersOk(Next(s, Append(w, e)))
  {
    var s' := Next(s, Append(w, e));
    forall v | 0 <= v < |s.viewers|
      ensures ViewerOk(s.viewers[v], s'.events)
    {
      assert ViewerOk(s.viewers[v], s.events);
      assert s'.events[..|s.viewers[v].acked|] == s.events[..|s.viewers[v].acked|];
    }
  }

  lemma ViewersAfterTransmit(s: State, v: nat, reply: bool)
    requires ViewersOk(s) && Enabled(s, Transmit(v, reply))
    ensures ViewersOk(Next(s, Transmit(v, reply)))
  {
    var c := s.viewers[v].cursor;
    assert ViewerOk(s.viewers[v], s.events);
    assert s.events[..c + 1] == s.events[..c] + [s.events[c]];
  }

  lemma ViewersAfterRegister(s: State, n: nat, spare: nat)
    requires ViewersOk(s) && Enabled(s, Register(n, spare))
    ensures ViewersOk(Next(s, Register(n, spare)))
  {
    var joined := Viewer(Delivering, 0, n, false, |s.events|, n, false, []);
    assert ViewerOk(joined, s.events);
    assert Next(s, Register(n, spare)).viewers == s.viewers + [joined];
  }

  lemma KeepsWriters(s: State, a: Action)
    requires WritersOk(s) && ListOk(s) && Enabled(s, a)
    ensures WritersOk(Next(s, a))
  {
    var s' := Next(s, a);
    assert WriterOk(s, Mover(a));
    HeardStaysOk(s, a);
    forall w: nat
      ensures WriterOk(s', w)
    {
      WriterStaysOk(s, a, w);
    }
    forall k: nat | k < |s'.events| && k !in s'.heard
      ensures Handles(s', s'.events[k].author, k)
    {
      StaysHandled(s, a, k);
    }
  }

  lemma HeardStaysOk(s: State, a: Action)
    requires HeardOk(s) && WriterOk(s, Mover(a)) && s.signals.len <= |s.viewers| && Enabled(s, a)
    ensures HeardOk(Next(s, a))
  {
    StepMovesEvents(s, a);
    NobodyIsForgotten(s, a);
    MovedHeardOk(s, Next(s, a), a);
  }

  lemma NobodyIsForgotten(s: State, a: Action)
    requires Enabled(s, a)
    ensures |Next(s, a).viewers| >= |s.viewers|
  {
    if !a.Register? {
      OtherJoinsNobody(s, a);
    }
  }

  lemma MovedHeardOk(s: State, s': State, a: Action)
    requires HeardOk(s) && WriterOk(s, Mover(a)) && s.signals.len <= |s.viewers| && Enabled(s, a)
    requires EventsMoved(s, s', a) && |s'.viewers| >= |s.viewers|
    ensures HeardOk(s')
  {
  }

  lemma WriterStaysOk(s: State, a: Action, w: nat)
    requires WriterOk(s, w) && WriterOk(s, Mover(a)) && HeardOk(s) && Enabled(s, a)
    ensures WriterOk(Next(s, a), w)
  {
    StepMovesWriter(s, a, w);
    StepMovesEvents(s, a);
    MovedWriterOk(s, Next(s, a), a, w);
  }

  lemma MovedWriterOk(s: State, s': State, a: Action, w: nat)
    requires WriterOk(s, w) && WriterOk(s, Mover(a)) && HeardOk(s) && Enabled(s, a)
    requires EventsMoved(s, s', a) && At(s', w) == MovedWriter(s, a, w)
    ensures WriterOk(s', w)
  {
  }

  lemma StaysHandled(s: State, a: Action, k: nat)
    requires Enabled(s, a) && k < |Next(s, a).events| && k !in Next(s, a).heard
    requires WriterOk(s, Mover(a)) && (k < |s.events| && k !in s.heard ==> Handles(s, s.events[k].author, k))
    ensures Handles(Next(s, a), Next(s, a).events[k].author, k)
  {
    StepMovesEvents(s, a);
    StepMovesWriter(s, a, Next(s, a).events[k].author);
    MovedHandles(s, Next(s, a), a, k);
  }

  lemma MovedHandles(s: State, s': State, a: Action, k: nat)
    requires Enabled(s, a) && EventsMoved(s, s', a) && k < |s'.events| && k !in s'.heard
    requires At(s', s'.events[k].author) == MovedWriter(s, a, s'.events[k].author)
    requires WriterOk(s, Mover(a)) && (k < |s.events| && k !in s.heard ==> Handles(s, s.events[k].author, k))
    ensures Handles(s', s'.events[k].author, k)
  {
  }

  lemma KeepsList(s: State, a: Action)
    requires ListOk(s) && Enabled(s, a)
    ensures ListOk(Next(s, a))
  {
    match a
    case Register(n, spare) => ListAfterRegister(s, n, spare);
    case Remove(v) =>
    case _ => ListAfterOther(s, a);
  }

  lemma ListAfterRegister(s: State, n: nat, spare: nat)
    requires ListOk(s) && Enabled(s, Register(n, spare))
    ensures ListOk(Next(s, Register(n, spare)))
  {
    var s' := Next(s, Register(n, spare));
    if !s.shrunk {
      forall w: nat
        ensures WalkOk(s', w)
      {
        assert WalkOk(s, w);
      }
    }
  }

  lemma ListAfterOther(s: State, a: Action)
    requires ListOk(s) && Enabled(s, a) && !a.Register? && !a.Remove?
    ensures ListOk(Next(s, a))
  {
    var s' := Next(s, a);
    OtherKeepsStores(s, a);
    if s'.ending.Closing? {
      OtherWalksEnd(s, a);
    }
    if !s.shrunk {
      forall w: nat
        ensures WalkOk(s', w)
      {
        assert WalkOk(s, w);
        OtherWalks(s, a, w);
        SameWalk(s, s', w);
      }
    }
  }

  lemma OtherKeepsStores(s: State, a: Action)
    requires Enabled(s, a) && !a.Register? && !a.Remove?
    ensures Next(s, a).stores == s.stores && Next(s, a).signals == s.signals
    ensures Next(s, a).shrunk == s.shrunk && |Next(s, a).viewers| == |s.viewers|
  {
  }

  /** A walk starts at the head of the live list or goes on in the header it captured. */
  predicate Walks(s: State, s': State, w: nat) {
    At(s', w).Sending? ==>
      || (At(s', w).slice == s.signals && At(s', w).next == 0)
      || (At(s, w).Sending? && At(s', w).slice == At(s, w).slice
          && (At(s', w).next == At(s, w).next || (At(s', w).next == At(s, w).next + 1 <= At(s, w).slice.len)))
  }

  lemma OtherWalks(s: State, a: Action, w: nat)
    requires Enabled(s, a) && !a.Register? && !a.Remove?
    ensures Walks(s, Next(s, a), w)
  {
  }

  lemma OtherWalksEnd(s: State, a: Action)
    requires Enabled(s, a) && !a.Register? && !a.Remove? && Next(s, a).ending.Closing?
    ensures var e := Next(s, a).ending;
            || (e.slice == s.signals && e.next == 0)
            || (s.ending.Closing? && e.slice == s.ending.slice
                && (e.next == s.ending.next || (e.next == s.ending.next + 1 <= e.slice.len)))
  {
  }

  lemma SameWalk(s: State, s': State, w: nat)
    requires WalkOk(s, w) && Walks(s, s', w) && InOrder(s, s.signals)
    requires s'.stores == s.stores && |s'.viewers| == |s.viewers|
    ensures WalkOk(s', w)
  {
  }

  lemma KeepsWakeups(s: State, a: Action)
    requires ViewersOk(s) && WritersOk(s) && ListOk(s) && WakeupsOk(s) && Enabled(s, a)
    ensures WakeupsOk(Next(s, a))
  {
    var s' := Next(s, a);
    if !s'.shrunk {
      assert WriterOk(s, Mover(a)) && WalkOk(s, Mover(a));
      forall k: nat, v: nat | k < |s'.events| && v < |s'.viewers|
        ensures Settled(s', k, v)
      {
        if k < |s.events| && v < |s.viewers| {
          assert Settled(s, k, v);
          StaysSettled(s, a, k, v);
        } else {
          if k < |s.events| { assert WriterOk(s, s.events[k].author); }
          StartsSettled(s, a, k, v);
        }
      }
      forall k: nat, v: nat
        ensures HeardLater(s', k, v)
      {
        assert HeardLater(s, k, v);
        StaysHeardLater(s, a, k, v);
      }
    }
  }

  lemma StaysSettled(s: State, a: Action, k: nat, v: nat)
    requires Enabled(s, a) && !a.Remove? && k < |s.events| && v < |s.viewers| && Settled(s, k, v)
    requires WriterOk(s, Mover(a)) && WalkOk(s, Mover(a)) && s.signals.len == |s.viewers|
    ensures Settled(Next(s, a), k, v)
  {
    StepMovesEvents(s, a);
    StepMovesWriter(s, a, s.events[k].author);
    StepMoves(s, a, v);
    MovedSettled(s, Next(s, a), a, k, v);
  }

  lemma MovedSettled(s: State, s': State, a: Action, k: nat, v: nat)
    requires Enabled(s, a) && !a.Remove? && k < |s.events| && v < |s.viewers| && Settled(s, k, v)
    requires WriterOk(s, Mover(a)) && WalkOk(s, Mover(a)) && s.signals.len == |s.viewers|
    requires EventsMoved(s, s', a) && At(s', s.events[k].author) == MovedWriter(s, a, s.events[k].author)
    requires v < |s'.viewers| && s'.viewers[v] == Moved(s, a, v)
    ensures Settled(s', k, v)
  {
  }

  /** A new event is owed to everyone, and a new viewer is owed everything whose broadcast has not begun. */
  lemma StartsSettled(s: State, a: Action, k: nat, v: nat)
    requires Enabled(s, a) && HeardOk(s)
    requires k < |Next(s, a).events| && v < |Next(s, a).viewers| && (k == |s.events| || v == |s.viewers|)
    requires k < |s.events| && k !in s.heard ==>
      WriterOk(s, s.events[k].author) && Handles(s, s.events[k].author, k)
    ensures Settled(Next(s, a), k, v)
  {
  }

  lemma StaysHeardLater(s: State, a: Action, k: nat, v: nat)
    requires Enabled(s, a) && HeardOk(s) && !a.Remove? && HeardLater(s, k, v)
    requires WriterOk(s, Mover(a)) && s.signals.len == |s.viewers|
    ensures HeardLater(Next(s, a), k, v)
  {
  }

  lemma KeepsEnding(s: State, a: Action)
    requires EndingOk(s) && Enabled(s, a)
    ensures EndingOk(Next(s, a))
  {
    var s' := Next(s, a);
    PhaseStaysOk(s, a);
    forall k: nat
      ensures StopOk(s', k)
    {
      assert StopOk(s, k);
      StopStaysOk(s, a, k);
    }
    if !EndSent(s') {
      forall v | 0 <= v < |s'.viewers|
        ensures !Gone(s'.viewers[v])
      {
        StepMovesViewer(s, a, v);
        StepMovesEnd(s, a);
      }
    }
  }

  lemma PhaseStaysOk(s: State, a: Action)
    requires EndingOk(s) && Enabled(s, a)
    ensures PhaseOk(Next(s, a))
  {
    if a.Remove? {
      assert Gone(s.viewers[a.v]);
    }
  }

  lemma StopStaysOk(s: State, a: Action, k: nat)
    requires StopOk(s, k) && PhaseOk(s) && Enabled(s, a)
    ensures StopOk(Next(s, a), k)
  {
  }

  lemma KeepsDelivery(s: State, a: Action)
    requires ViewersOk(s) && WritersOk(s) && WakeupsOk(s) && EndingOk(s) && DeliveryOk(s) && Enabled(s, a)
    ensures DeliveryOk(Next(s, a))
  {
    forall v: nat
      ensures HearsStop(Next(s, a), v) && InTime(Next(s, a), v)
    {
      assert HearsStop(s, v) && InTime(s, v);
      if v < |s.viewers| {
        assert ViewerOk(s.viewers[v], s.events);
      }
      StepMovesViewer(s, a, v);
      StepMovesEnd(s, a);
      if a.CaptureEnd? {
        StopWasHeard(s, v);
      } else {
        StaysHearing(s, Next(s, a), v);
      }
      StaysInTime(s, Next(s, a), v);
    }
  }

  /** When End starts its second broadcast the first has reached everyone who registered in time. */
  lemma StopWasHeard(s: State, v: nat)
    requires WritersOk(s) && WakeupsOk(s) && EndingOk(s) && Enabled(s, CaptureEnd)
    ensures HearsStop(Next(s, CaptureEnd), v)
  {
    if v < |s.viewers| {
      var k := s.stopAt.value;
      assert Settled(s, k, v) && HeardLater(s, k, v) && StopOk(s, k);
    }
  }

  /** What a step can do to viewer `v`, as far as delivery is concerned. */
  predicate ViewerMoved(s: State, s': State, v: nat) {
    v < |s'.viewers| ==>
      var x' := s'.viewers[v];
      if v < |s.viewers| then
        var x := s.viewers[v];
        && x'.registeredAt == x.registeredAt
        && (x'.target == x.target || x'.target == |s.events|)
        && (x.phase == Signalled ==> x'.phase == Signalled || x'.target == |s.events|)
        && (Gone(x') && !Gone(x) ==> s.ending.Closing?)
      else x'.registeredAt == |s.events| && !Gone(x') && MutexFree(s)
  }

  /** What a step can do to the end of the session. */
  predicate EndMoved(s: State, s': State) {
    && (s'.stopAt == s.stopAt || (s.stopAt.None? && s'.stopAt == Some(|s.events|) && s'.ending == s.ending))
    && (s'.ending == s.ending
        || (s.ending.Running? && s'.ending.Stopping?)
        || (s.ending.Stopping? && s'.ending.Closing? && s'.ending.locked == s.ending.locked)
        || (s.ending.Closing? && (s'.ending.Closing? || s'.ending.Sealed?) && s'.ending.locked == s.ending.locked)
        || (s.ending.Sealed? && s'.ending.Closed? && s'.ending.locked == s.ending.locked))
  }

  lemma StepMovesViewer(s: State, a: Action, v: nat)
    requires Enabled(s, a)
    ensures ViewerMoved(s, Next(s, a), v)
  {
    if v < |s.viewers| {
      StepMoves(s, a, v);
    } else if v < |Next(s, a).viewers| {
      StepJoinsViewer(s, a, v);
    }
  }

  lemma StepJoinsViewer(s: State, a: Action, v: nat)
    requires Enabled(s, a) && |s.viewers| <= v < |Next(s, a).viewers|
    ensures Next(s, a).viewers[v].registeredAt == |s.events| && !Gone(Next(s, a).viewers[v]) && MutexFree(s)
  {
    if !a.Register? {
      OtherJoinsNobody(s, a);
    }
  }

  lemma OtherJoinsNobody(s: State, a: Action)
    requires Enabled(s, a) && !a.Register?
    ensures |Next(s, a).viewers| == |s.viewers|
  {
  }

  /** The step hands END to viewer `v`. */
  predicate HandsEnd(s: State, a: Action, v: nat) {
    && a.SendEnd? && s.ending.Closing? && InBounds(s, s.ending.slice)
    && s.ending.next < s.ending.slice.len && s.stores[s.ending.slice.store][s.ending.next] == v
  }

  /** A viewer is ended by the hand-off of END on its own channel and by nothing else. */
  predicate EndedBySend(s: State, s': State, a: Action, v: nat) {
    v < |s.viewers| && v < |s'.viewers| ==> (Gone(s'.viewers[v]) <==> Gone(s.viewers[v]) || HandsEnd(s, a, v))
  }

  lemma StepEndsViewer(s: State, a: Action, v: nat)
    requires Enabled(s, a)
    ensures EndedBySend(s, Next(s, a), a, v)
  {
    if v < |s.viewers| {
      StepMoves(s, a, v);
    }
  }

  lemma StepMovesEnd(s: State, a: Action)
    requires Enabled(s, a) && PhaseOk(s)
    ensures EndMoved(s, Next(s, a))
    ensures s.ending.Stopping? && Next(s, a).ending.Closing? ==> a.CaptureEnd?
  {
  }

  lemma StaysHearing(s: State, s': State, v: nat)
    requires HearsStop(s, v) && PhaseOk(s) && ViewerMoved(s, s', v) && EndMoved(s, s')
    requires s.ending.Stopping? ==> !s'.ending.Closing?
    requires v < |s.viewers| ==> ViewerOk(s.viewers[v], s.events)
    ensures HearsStop(s', v)
  {
  }

  lemma StaysInTime(s: State, s': State, v: nat)
    requires InTime(s, v) && PhaseOk(s) && ViewerMoved(s, s', v) && EndMoved(s, s')
    requires v < |s.viewers| ==> ViewerOk(s.viewers[v], s.events)
    ensures InTime(s', v)
  {
  }

  lemma KeepsLog(s: State, a: Action)
    requires WritersOk(s) && LogOk(s) && Enabled(s, a)
    ensures LogOk(Next(s, a))
  {
    assert WriterOk(s, Mover(a));
    forall w: nat
      ensures LoggedBy(Next(s, a), w)
    {
      assert LoggedBy(s, w) && WriterOk(s, w);
      match a
      case Append(u, e) => LoggedAfterAppend(s, u, e, w);
      case Log(u) => LoggedAfterLog(s, u, w);
      case _ => LoggedAfterOther(s, a, w);
    }
  }

  lemma LoggedAfterOther(s: State, a: Action, w: nat)
    requires LoggedBy(s, w) && Enabled(s, a) && !a.Append? && !a.Log?
    ensures LoggedBy(Next(s, a), w)
  {
    OtherKeepsEvents(s, a);
    OtherKeepsUnlogged(s, a, w);
    SameLogged(s, Next(s, a), w);
  }

  lemma OtherKeepsEvents(s: State, a: Action)
    requires Enabled(s, a) && !a.Append?
    ensures Next(s, a).events == s.events
    ensures !a.Log? ==> Next(s, a).log == s.log && (Next(s, a).logOpen ==> s.logOpen)
  {
  }

  lemma OtherKeepsUnlogged(s: State, a: Action, w: nat)
    requires Enabled(s, a) && !a.Append? && !a.Log?
    ensures At(Next(s, a), w) == At(s, w) || !(At(s, w).Appended? || At(Next(s, a), w).Appended?)
  {
  }

  lemma SameLogged(s: State, s': State, w: nat)
    requires LoggedBy(s, w) && s'.events == s.events && s'.log == s.log && (s'.logOpen ==> s.logOpen)
    requires At(s', w) == At(s, w) || !(At(s, w).Appended? || At(s', w).Appended?)
    ensures LoggedBy(s', w)
  {
  }

  lemma BySnoc(list: seq<Posted>, p: Posted, w: nat)
    ensures By(list + [p], w) == By(list, w) + (if p.author == w then [p] else [])
  {
    assert (list + [p])[..|list|] == list;
  }

  lemma LoggedAfterAppend(s: State, u: nat, e: SessionEvent, w: nat)
    requires LoggedBy(s, w) && WriterOk(s, w) && Enabled(s, Append(u, e))
    ensures LoggedBy(Next(s, Append(u, e)), w)
  {
    BySnoc(s.events, Posted(u, e), w);
  }

  lemma LoggedAfterLog(s: State, u: nat, w: nat)
    requires LoggedBy(s, w) && WriterOk(s, u) && Enabled(s, Log(u))
    ensures LoggedBy(Next(s, Log(u)), w)
  {
    BySnoc(s.log, s.events[At(s, u).k], w);
  }

  lemma KeepsInv(s: State, a: Action)
    requires Inv(s) && Enabled(s, a)
    ensures Inv(Next(s, a))
  {
    KeepsViewers(s, a);
    KeepsWriters(s, a);
    KeepsList(s, a);
    KeepsWakeups(s, a);
    KeepsEnding(s, a);
    KeepsDelivery(s, a);
    KeepsLog(s, a);
  }

  lemma {:induction false} RunsKeepInv(s: State, run: seq<Action>)
    requires Inv(s) && Legal(s, run)
    ensures Inv(After(s, run))
    decreases |run|
  {
    if run != [] {
      KeepsInv(s, run[0]);
      RunsKeepInv(Next(s, run[0]), run[1..]);
    }
  }

  lemma ReachableInv(s: State)
    requires Reachable(s)
    ensures Inv(s)
  {
    var run :| Legal(INITIAL, run) && After(INITIAL, run) == s;
    RunsKeepInv(INITIAL, run);
  }
}
