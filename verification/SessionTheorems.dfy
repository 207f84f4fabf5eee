/** What the invariants of SessionInvariants say to the people who use the proxy. */
module SessionTheorems {
  import opened Events
  import opened Prelude
  import opened Slices
  import opened SessionProtocol
  import opened SessionInvariants
  import opened SessionList

  /** The writer of event `k` still has to signal viewer `v`: it has not begun its broadcast, or
      some unsent slot of the header it captured holds channel `v`. */
  ghost predicate Owes(s: State, k: nat, v: nat)
    requires k < |s.events|
  {
    match At(s, s.events[k].author)
    case Idle => false
    case Appended(k') => k' == k
    case Logged(k') => k' == k
    case Sending(k', slice, next) =>
      k' == k && InBounds(s, slice) && exists j :: next <= j < slice.len && s.stores[slice.store][j] == v
  }

  lemma DueIsOwed(s: State, k: nat, v: nat)
    requires ListOk(s) && !s.shrunk && k < |s.events|
    ensures Due(s, k, v) <==> Owes(s, k, v)
  {
    var w := s.events[k].author;
    assert WalkOk(s, w);
    match At(s, w)
    case Sending(k', slice, next) =>
      if next <= v < slice.len {
        assert s.stores[slice.store][v] == v;
      }
    case _ =>
  }

  /** No lost wake-up, and exactly when one is lost. As long as no viewer has left, an event that
      a blocked viewer has not seen is still owed to it if and only if the event's broadcast was
      not captured before the viewer registered; registering before the append is enough. */
  lemma NoLostWakeup(s: State, v: nat, k: nat)
    requires Reachable(s) && !s.shrunk
    requires InPhase(s, v, Waiting) && s.viewers[v].cursor <= k < |s.events|
    ensures Owes(s, k, v) <==> !Missed(s, k, v)
    ensures s.viewers[v].registeredAt <= k ==> Owes(s, k, v)
  {
    ReachableInv(s);
    DueIsOwed(s, k, v);
    assert ViewerOk(s.viewers[v], s.events) && WriterOk(s, s.events[k].author);
    assert Settled(s, k, v) && HeardLater(s, k, v);
  }

  /** `NoLostWakeup` covers every state before End. */
  lemma NobodyLeavesBeforeEnd(s: State)
    requires Reachable(s) && (s.ending.Running? || s.ending.Stopping?)
    ensures !s.shrunk && forall v :: 0 <= v < |s.viewers| ==> s.viewers[v].phase !in {Ended, Departed}
    ensures s.signals.len == |s.viewers|
  {
    ReachableInv(s);
  }

  /** When every writer is done, a blocked viewer whose socket works has acked the whole list, in order,
      unless nothing was appended since it registered; whatever it lacks was broadcast before that. */
  lemma QuietViewerIsUpToDate(s: State, v: nat)
    requires Reachable(s) && !s.shrunk && InPhase(s, v, Waiting)
    requires forall w: nat :: At(s, w).Idle?
    ensures s.viewers[v].registeredAt < |s.events| ==>
              s.viewers[v].cursor == |s.events| && (!s.viewers[v].broken ==> s.viewers[v].acked == s.events)
    ensures forall k: nat :: s.viewers[v].cursor <= k < |s.events| ==> Missed(s, k, v)
  {
    ReachableInv(s);
    assert ViewerOk(s.viewers[v], s.events);
    forall k: nat | s.viewers[v].cursor <= k < |s.events|
      ensures Missed(s, k, v) && k < s.viewers[v].registeredAt
    {
      NoLostWakeup(s, v, k);
    }
    if s.viewers[v].registeredAt < |s.events| {
      var last: nat := |s.events| - 1;
      assert s.viewers[v].cursor <= last ==> Missed(s, last, v);
      assert s.events[..|s.events|] == s.events;
    }
  }

  lemma {:induction false} LegalSnoc(s: State, run: seq<Action>, a: Action)
    requires Legal(s, run) && Enabled(After(s, run), a)
    ensures Legal(s, run + [a]) && After(s, run + [a]) == Next(After(s, run), a)
    decreases |run|
  {
    if run == [] {
      assert [a][1..] == [];
    } else {
      assert (run + [a])[1..] == run[1..] + [a];
      LegalSnoc(Next(s, run[0]), run[1..], a);
    }
  }

  lemma Step(s: State, a: Action) returns (s': State)
    requires Reachable(s) || s == INITIAL
    requires Enabled(s, a)
    ensures s' == Next(s, a) && Reachable(s')
  {
    var run: seq<Action> := [];
    if s != INITIAL {
      run :| Legal(INITIAL, run) && After(INITIAL, run) == s;
    }
    LegalSnoc(INITIAL, run, a);
    s' := Next(s, a);
  }

  /** HandleEvent from start to end while the list of channels is empty. */
  function Unheard(s: State, w: nat, e: SessionEvent): State {
    s.(events := s.events + [Posted(w, e)],
       log := s.log + [Posted(w, e)],
       writers := s.writers[w := Idle],
       stopAt := if w == ENDER then Some(|s.events|) else s.stopAt,
       heard := s.heard[|s.events| := 0])
  }

  lemma AppendedAndLogged(s: State, w: nat, e: SessionEvent) returns (s': State)
    requires Reachable(s) || s == INITIAL
    requires Enabled(s, Append(w, e)) && s.logOpen
    ensures Reachable(s')
    ensures s' == Unheard(s, w, e).(writers := s.writers[w := Logged(|s.events|)], heard := s.heard)
  {
    s' := Step(s, Append(w, e));
    s' := Step(s', Log(w));
    assert s'.writers == s.writers[w := Logged(|s.events|)];
  }

  lemma SentToNobody(s: State, w: nat)
    requires Reachable(s) && At(s, w).Logged? && s.signals.len == 0
    ensures Reachable(s.(writers := s.writers[w := Idle], heard := s.heard[At(s, w).k := 0]))
  {
    var s' := Step(s, Capture(w));
    s' := Step(s', Finish(w));
    assert s'.writers == s.writers[w := Idle];
  }

  lemma HandledUnheard(s: State, w: nat, e: SessionEvent)
    requires Reachable(s) || s == INITIAL
    requires Enabled(s, Append(w, e)) && s.logOpen && s.signals.len == 0
    ensures Reachable(Unheard(s, w, e))
  {
    var logged := AppendedAndLogged(s, w, e);
    SentToNobody(logged, w);
    assert logged.writers[w := Idle] == s.writers[w := Idle];
  }

  /** A viewer that read the length while the list was empty registers and blocks. */
  lemma LateViewerWaits(s: State) returns (s': State)
    requires Reachable(s) && s.viewers == [] && MutexFree(s) && s.stores == [[]] && s.signals == Slice(0, 0)
    ensures Reachable(s') && InPhase(s', 0, Waiting) && s'.viewers[0].acked == []
    ensures s'.stores == [[], [0]] && s'.signals == Slice(1, 1)
    ensures s'.ending == s.ending && s'.stopAt == s.stopAt && s'.writers == s.writers && s'.events == s.events
    ensures s'.logOpen == s.logOpen && s'.lost == s.lost
  {
    s' := Step(s, Register(0, 0));
    s' := Step(s', Rest(0));
    assert s'.stores[1] == [0];
  }

  /** The gap between reading the length and registering is real: the one event of this run is
      never delivered, although no writer is left to announce it. */
  lemma GapLosesAnEvent() returns (s: State)
    ensures Reachable(s) && s.ending.Running? && (forall w: nat :: At(s, w).Idle?)
    ensures |s.events| == 1 && InPhase(s, 0, Waiting) && s.viewers[0].acked == []
  {
    HandledUnheard(INITIAL, 1, SessionStart);
    s := LateViewerWaits(Unheard(INITIAL, 1, SessionStart));
  }

  /** Whatever a client replies and however the steps interleave, the events a client has acked are
      a prefix of the list: no gap, no repeat, no reordering. It reaches the cursor as long as the
      socket works. */
  lemma AckedIsPrefix(s: State, v: nat)
    requires Reachable(s) && v < |s.viewers|
    ensures s.viewers[v].acked <= s.events && |s.viewers[v].acked| <= s.viewers[v].cursor
    ensures !s.viewers[v].broken ==> |s.viewers[v].acked| == s.viewers[v].cursor
  {
    ReachableInv(s);
    assert ViewerOk(s.viewers[v], s.events);
  }

  /** End was called by markThreadStopped. */
  predicate EndHoldsMutex(s: State) {
    !s.ending.Running? && s.ending.locked
  }

  /** A viewer that got END had dealt with everything up to and including session-stop exactly when it
      registered before the stop was appended, first read a length that counted the stop, or was
      signalled at least once; if its socket never failed, the client has acked all of it. Under the
      mutex every viewer that got END registered in time. */
  lemma FinalDelivery(s: State, v: nat)
    requires Reachable(s) && v < |s.viewers| && Gone(s.viewers[v])
    ensures s.stopAt.Some? && s.stopAt.value < |s.events| && s.events[s.stopAt.value].event == SessionStop
    ensures var x, stop := s.viewers[v], s.stopAt.value;
            && (stop < x.cursor <==> x.registeredAt <= stop || stop < x.counted || x.woken)
            && (!x.broken ==> (s.events[..stop + 1] <= x.acked <==> stop < x.cursor))
            && (EndHoldsMutex(s) ==> x.registeredAt <= stop)
  {
    ReachableInv(s);
    assert ViewerOk(s.viewers[v], s.events) && StopOk(s, s.stopAt.value);
    assert HearsStop(s, v) && InTime(s, v);
  }

  /** Without the mutex a viewer can register between the two broadcasts and be ended without the stop. */
  lemma UnlockedEndSkipsALateViewer() returns (s: State)
    ensures Reachable(s) && !s.ending.Running? && !EndHoldsMutex(s) && s.stopAt == Some(0)
    ensures InPhase(s, 0, Ended) && s.viewers[0].acked == []
  {
    s := StopUnheard();
    assert At(s, ENDER).Idle?;
    s := LateViewerWaits(s);
    s := Step(s, CaptureEnd);
    s := Step(s, SendEnd);
  }

  lemma AtMostOneStop(s: State, i: nat, j: nat)
    requires Reachable(s) && i < |s.events| && j < |s.events|
    requires s.events[i].event.SessionStop? && s.events[j].event.SessionStop?
    ensures i == j && !s.ending.Running?
  {
    ReachableInv(s);
    assert StopOk(s, i) && StopOk(s, j);
  }

  lemma CountSnoc(list: seq<Posted>, last: Posted, p: Posted)
    ensures multiset(list + [last])[p] == multiset(list)[p] + (if last == p then 1 else 0)
  {
  }

  lemma {:induction false} ByCounts(list: seq<Posted>, p: Posted)
    ensures multiset(By(list, p.author))[p] == multiset(list)[p]
  {
    if list != [] {
      var init, last := list[..|list| - 1], list[|list| - 1];
      ByCounts(init, p);
      CountSnoc(init, last, p);
      assert init + [last] == list;
      if last.author == p.author {
        CountSnoc(By(init, p.author), last, p);
      }
    }
  }

  /** Memory and log conserve events. In every state the log is a sub-multiset of memory, each writer's
      events are in the same order in both, and while the file is open the difference is exactly the
      events between append and log. */
  lemma LogConserves(s: State, p: Posted)
    requires Reachable(s)
    ensures By(s.log, p.author) <= By(s.events, p.author)
    ensures multiset(s.log)[p] <= multiset(s.events)[p]
    ensures s.logOpen ==> multiset(s.events)[p] == multiset(s.log)[p] + (if Unlogged(s, p.author) == [p] then 1 else 0)
  {
    ReachableInv(s);
    assert LoggedBy(s, p.author);
    ByCounts(s.log, p);
    ByCounts(s.events, p);
    CountsAdd(By(s.log, p.author), By(s.events, p.author), p);
  }

  lemma CountsAdd(logged: seq<Posted>, kept: seq<Posted>, p: Posted)
    requires logged <= kept
    ensures multiset(kept)[p] == multiset(logged)[p] + multiset(kept[|logged|..])[p]
  {
    assert kept == logged + kept[|logged|..];
  }

  /** With no writer between append and log, the open file holds exactly the events in memory. */
  lemma QuietLogIsComplete(s: State)
    requires Reachable(s) && s.logOpen && forall w: nat :: !At(s, w).Appended?
    ensures multiset(s.log) == multiset(s.events)
    ensures forall w: nat :: By(s.log, w) == By(s.events, w)
  {
    ReachableInv(s);
    forall p: Posted
      ensures multiset(s.log)[p] == multiset(s.events)[p]
    {
      LogConserves(s, p);
    }
    forall w: nat
      ensures By(s.log, w) == By(s.events, w)
    {
      assert LoggedBy(s, w);
    }
  }

  /** In reachable states, before and after departures, the bounds in the guards are always met: a
      goroutine is held up only by a mutex, by a channel nobody reads, or by having nothing to do. */
  lemma GuardsHoldNothingBack(s: State, a: Action)
    requires Reachable(s)
    ensures a.Log? ==> (Enabled(s, a) <==> At(s, a.w).Appended?)
    ensures a.Register? ==> (Enabled(s, a) <==> MutexFree(s) && a.n <= |s.events|)
    ensures a.Transmit? && a.v < |s.viewers| ==>
              (Enabled(s, a) <==> s.viewers[a.v].phase == Delivering
                                  && s.viewers[a.v].cursor != s.viewers[a.v].target && !s.viewers[a.v].broken)
    ensures a.Send? && At(s, a.w).Sending? && At(s, a.w).next < At(s, a.w).slice.len ==>
              && NamesViewer(s, At(s, a.w).slice, At(s, a.w).next)
              && (Enabled(s, a) <==> Receiver(s, At(s, a.w).slice, At(s, a.w).next).phase == Waiting)
    ensures a.SendEnd? && s.ending.Closing? && s.ending.next < s.ending.slice.len ==>
              && NamesViewer(s, s.ending.slice, s.ending.next)
              && (Enabled(s, a) <==> Receiver(s, s.ending.slice, s.ending.next).phase == Waiting)
    ensures a.Remove? ==> (Enabled(s, a) <==> MutexFree(s) && InPhase(s, a.v, Ended))
  {
    ReachableList(s);
    match a
    case Log(w) => assert WriterOk(s, w);
    case Send(w) =>
      assert WalkInBounds(s, w);
      assert At(s, w).Sending? ==> SlotOk(s, At(s, w).slice.store, At(s, w).next);
    case SendEnd => assert s.ending.Closing? ==> SlotOk(s, s.ending.slice.store, s.ending.next);
    case Transmit(v, _) => assert v < |s.viewers| ==> ViewerOk(s.viewers[v], s.events);
    case _ =>
  }

  predicate NamesViewer(s: State, slice: Slice, i: nat) {
    InBounds(s, slice) && i < slice.len && s.stores[slice.store][i] < |s.viewers|
  }

  function Receiver(s: State, slice: Slice, i: nat): Viewer
    requires NamesViewer(s, slice, i)
  {
    s.viewers[s.stores[slice.store][i]]
  }

  // ---------- A writer that waits for a viewer that has left ----------

  /** Writer `w` waits for a viewer that will not receive again. */
  predicate Stuck(s: State, w: nat) {
    && At(s, w).Sending? && NamesViewer(s, At(s, w).slice, At(s, w).next)
    && Gone(Receiver(s, At(s, w).slice, At(s, w).next))
  }

  /** When a writer in mid-broadcast is stuck: exactly when END has already reached the viewer its next
      slot names. As long as nobody has left, that is exactly when the END walk has overtaken it. */
  lemma StuckIffOvertaken(s: State, w: nat)
    requires Reachable(s) && At(s, w).Sending? && At(s, w).next < At(s, w).slice.len
    ensures NamesViewer(s, At(s, w).slice, At(s, w).next)
    ensures Stuck(s, w) <==> Reached(s, s.stores[At(s, w).slice.store][At(s, w).next])
    ensures !s.shrunk ==> (Stuck(s, w) <==> At(s, w).next < Passed(s))
  {
    ReachableList(s);
    var next, store := At(s, w).next, At(s, w).slice.store;
    assert WalkInBounds(s, w) && SlotOk(s, store, next);
    var v := s.stores[store][next];
    assert ReachedOk(s, v);
    if !s.shrunk {
      assert WalkOk(s, w);
      assert forall j: nat :: HolderOf(s, j) == j;
      if next < Passed(s) {
        assert HolderOf(s, next) == v;
      }
    }
  }

  lemma StuckStays(s: State, w: nat, a: Action)
    requires Stuck(s, w) && Enabled(s, a) && !a.Register? && !a.Remove?
    ensures Stuck(Next(s, a), w) && At(Next(s, a), w) == At(s, w)
  {
    OtherKeepsStores(s, a);
    StepEndsViewer(s, a, s.stores[At(s, w).slice.store][At(s, w).next]);
    StuckStandsStill(s, w, a);
  }

  lemma StuckStandsStill(s: State, w: nat, a: Action)
    requires Stuck(s, w) && Enabled(s, a)
    ensures At(Next(s, a), w) == At(s, w)
  {
  }

  /** As long as nobody registers or leaves, a writer whose next receiver has been ended never moves
      again: its event is announced to nobody further along. */
  lemma {:induction false} StuckForGood(s: State, w: nat, run: seq<Action>)
    requires Stuck(s, w) && Legal(s, run) && forall i :: 0 <= i < |run| ==> !run[i].Register? && !run[i].Remove?
    ensures Stuck(After(s, run), w) && At(After(s, run), w) == At(s, w)
    decreases |run|
  {
    if run != [] {
      StuckStays(s, w, run[0]);
      StuckForGood(Next(s, run[0]), w, run[1..]);
    }
  }

  /** Such a writer exists: it captured the list before END reached the viewer. */
  lemma WriterGetsStuck() returns (s: State)
    ensures Reachable(s) && Stuck(s, 1)
  {
    s := StopUnheard();
    assert At(s, 1).Idle? && At(s, ENDER).Idle?;
    s := LateViewerWaits(s);
    s := AppendedAndLogged(s, 1, NewChannel("session"));
    s := WriterMeetsEnd(s);
  }

  lemma WriterMeetsEnd(s: State) returns (s': State)
    requires Reachable(s) && At(s, 1).Logged? && s.ending.Stopping? && s.stopAt.Some? && At(s, ENDER).Idle?
    requires InPhase(s, 0, Waiting) && s.stores == [[], [0]] && s.signals == Slice(1, 1)
    ensures Reachable(s') && Stuck(s', 1)
  {
    s' := Step(s, Capture(1));
    s' := Step(s', CaptureEnd);
    assert At(s', 1) == Sending(At(s, 1).k, Slice(1, 1), 0);
    s' := Step(s', SendEnd);
  }

  // ---------- A viewer that END never reaches ----------

  /** Without the mutex: viewer 0 gets END and leaves, which moves viewer 1 to the slot just read;
      viewer 2 registers into the slot viewer 1 had. The walk ends without viewer 1. */
  lemma EndStrandsAViewer() returns (s: State)
    ensures Reachable(s) && s.ending.Closed? && s.ending.walked == 2
    ensures InPhase(s, 1, Waiting) && s.lost == Loss(1, 2, NoLoss)
  {
    s := StopUnheard();
    s := TwoRegister(s);
    s := FirstIsEnded(s);
    s := FirstLeaves(s);
    s := ThirdTakesSlot(s);
    s := Step(s, Seal);
    s := Step(s, CloseLog);
  }

  /** Stop has broadcast a session-stop that nobody was there to hear. */
  lemma StopUnheard() returns (s: State)
    ensures Reachable(s) && s.viewers == [] && s.stores == [[]] && s.signals == Slice(0, 0) && s.lost == NoLoss
    ensures s.ending == Stopping(false) && s.stopAt == Some(0) && s.logOpen && forall w: nat :: At(s, w).Idle?
  {
    s := Step(INITIAL, BeginEnd(false));
    HandledUnheard(s, ENDER, SessionStop);
    s := Unheard(s, ENDER, SessionStop);
  }

  ghost predicate Waits(s: State, v: nat) {
    Reachable(s) && InPhase(s, v, Waiting)
  }

  lemma TwoRegister(s: State) returns (s': State)
    requires Reachable(s) && s.viewers == [] && s.stores == [[]] && s.signals == Slice(0, 0) && s.lost == NoLoss
    requires s.ending == Stopping(false) && s.stopAt == Some(0) && At(s, ENDER).Idle?
    ensures Waits(s', 0) && Waits(s', 1) && |s'.viewers| == 2
    ensures s'.stores == [[], [0, 1]] && s'.signals == Slice(1, 2) && s'.lost == NoLoss
    ensures s'.ending == Stopping(false) && s'.stopAt == Some(0) && At(s', ENDER).Idle?
  {
    s' := Step(s, Register(0, 1));
    assert s'.stores[1] == [0, 0];
    s' := Step(s', Register(0, 0));
    assert s'.stores[1] == [0, 1];
    s' := BothRest(s');
  }

  lemma BothRest(s: State) returns (s': State)
    requires Reachable(s) && |s.viewers| == 2
    requires forall v :: 0 <= v < 2 ==> s.viewers[v].phase == Delivering && s.viewers[v].cursor == s.viewers[v].target
    ensures Waits(s', 0) && Waits(s', 1) && |s'.viewers| == 2
    ensures s'.stores == s.stores && s'.signals == s.signals && s'.lost == s.lost
    ensures s'.ending == s.ending && s'.stopAt == s.stopAt && s'.writers == s.writers
  {
    s' := Step(s, Rest(0));
    s' := Step(s', Rest(1));
  }

  lemma FirstIsEnded(s: State) returns (s': State)
    requires Waits(s, 0) && Waits(s, 1) && |s.viewers| == 2
    requires s.stores == [[], [0, 1]] && s.signals == Slice(1, 2) && s.lost == NoLoss
    requires s.ending == Stopping(false) && s.stopAt == Some(0) && At(s, ENDER).Idle?
    ensures Waits(s', 1) && InPhase(s', 0, Ended) && |s'.viewers| == 2
    ensures s'.stores == [[], [0, 1]] && s'.signals == Slice(1, 2) && s'.lost == NoLoss
    ensures s'.ending == Closing(false, Slice(1, 2), 1)
  {
    s' := Step(s, CaptureEnd);
    s' := Step(s', SendEnd);
  }

  lemma FirstLeaves(s: State) returns (s': State)
    requires Waits(s, 1) && InPhase(s, 0, Ended) && |s.viewers| == 2
    requires s.stores == [[], [0, 1]] && s.signals == Slice(1, 2) && s.lost == NoLoss
    requires s.ending == Closing(false, Slice(1, 2), 1)
    ensures Waits(s', 1) && |s'.viewers| == 2
    ensures s'.stores == [[], [1, 1]] && s'.signals == Slice(1, 1) && s'.lost == NoLoss
    ensures s'.ending == Closing(false, Slice(1, 2), 1)
  {
    assert Listed(s) == [0, 1];
    assert Find(Listed(s), 0) == 0;
    s' := Step(s, Remove(0));
    assert s'.stores[1] == [1, 1];
  }

  lemma ThirdTakesSlot(s: State) returns (s': State)
    requires Waits(s, 1) && |s.viewers| == 2
    requires s.stores == [[], [1, 1]] && s.signals == Slice(1, 1) && s.lost == NoLoss
    requires s.ending == Closing(false, Slice(1, 2), 1)
    ensures Waits(s', 1) && s'.lost == Loss(1, 2, NoLoss) && s'.ending == Closing(false, Slice(1, 2), 2)
  {
    s' := Step(s, Register(0, 0));
    assert s'.stores[1] == [1, 2];
    s' := Step(s', Rest(2));
    s' := Step(s', SendEnd);
  }
}
