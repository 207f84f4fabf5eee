/** What runs of the protocol say about the mutex and about the acks: facts about which steps were
    taken, not only about the states they lead to. */
module SessionRuns {
  import opened Events
  import opened Prelude
  import opened SessionProtocol
  import opened SessionInvariants
  import opened SessionList
  import opened SessionTheorems

  // ---------- The mutex ----------

  /** Once End has begun, who called it does not change, and only CloseLog closes the log. */
  lemma EndGoesOn(s: State, a: Action)
    requires Enabled(s, a) && !s.ending.Running?
    ensures var e, e' := s.ending, Next(s, a).ending;
            && !e'.Running? && e'.locked == e.locked
            && (e'.Closed? <==> e.Closed? || a == CloseLog)
  {
  }

  lemma {:induction false} EndGoesOnInRuns(s: State, run: seq<Action>)
    requires Legal(s, run) && !s.ending.Running?
    ensures var e, e' := s.ending, After(s, run).ending;
            && !e'.Running? && e'.locked == e.locked
            && (e'.Closed? <==> e.Closed? || CloseLog in run)
    decreases |run|
  {
    if run != [] {
      EndGoesOn(s, run[0]);
      EndGoesOnInRuns(Next(s, run[0]), run[1..]);
      assert CloseLog in run <==> run[0] == CloseLog || CloseLog in run[1..];
    }
  }

  lemma {:induction false} ReachableAfter(s: State, run: seq<Action>)
    requires (Reachable(s) || s == INITIAL) && Legal(s, run) && run != []
    ensures Reachable(After(s, run))
    decreases |run|
  {
    var s' := Step(s, run[0]);
    if |run| > 1 {
      ReachableAfter(s', run[1..]);
    } else {
      assert run[1..] == [] && After(s, run) == After(s', []);
    }
  }

  lemma WhoWaitsForEnd(s: State, n: nat, spare: nat, v: nat)
    requires Reachable(s) && !s.ending.Running?
    ensures Enabled(s, Register(n, spare)) <==> n <= |s.events| && (!s.ending.locked || s.ending.Closed?)
    ensures Enabled(s, Remove(v)) <==> InPhase(s, v, Ended) && (!s.ending.locked || s.ending.Closed?)
  {
    GuardsHoldNothingBack(s, Register(n, spare));
    GuardsHoldNothingBack(s, Remove(v));
    assert MutexFree(s) <==> !s.ending.locked || s.ending.Closed?;
  }

  /** From the moment End begins: when it was called by the last thread, nobody registers or leaves until
      the log has been closed, whatever happens in between; when it was called by Stop, or once the log
      is closed, anybody can register at any time. */
  lemma MutexIsHeldThroughEnd(s: State, locked: bool, run: seq<Action>, n: nat, spare: nat, v: nat)
    requires (Reachable(s) || s == INITIAL) && Enabled(s, BeginEnd(locked))
    requires Legal(Next(s, BeginEnd(locked)), run)
    ensures var s' := After(Next(s, BeginEnd(locked)), run);
            && (Enabled(s', Register(n, spare)) <==> n <= |s'.events| && (!locked || CloseLog in run))
            && (Enabled(s', Remove(v)) <==> InPhase(s', v, Ended) && (!locked || CloseLog in run))
  {
    var begun := Step(s, BeginEnd(locked));
    assert begun.ending == Stopping(locked);
    EndGoesOnInRuns(begun, run);
    if run != [] {
      ReachableAfter(begun, run);
    }
    WhoWaitsForEnd(After(begun, run), n, spare, v);
  }

  // ---------- The acks ----------

  predicate IsAck(a: Action, v: nat) {
    a == Transmit(v, true)
  }

  /** How often the client of viewer `v` acked. */
  function Acks(run: seq<Action>, v: nat): nat {
    if run == [] then 0 else (if IsAck(run[0], v) then 1 else 0) + Acks(run[1..], v)
  }

  /** How often the server gave an event up because the socket had failed. */
  function Failures(run: seq<Action>, v: nat): nat {
    if run == [] then 0 else (if run[0] == Fail(v) then 1 else 0) + Failures(run[1..], v)
  }

  function AckedBy(s: State, v: nat): nat {
    if v < |s.viewers| then |s.viewers[v].acked| else 0
  }

  function DealtWith(s: State, v: nat): nat {
    if v < |s.viewers| then s.viewers[v].cursor else 0
  }

  lemma StepAcks(s: State, a: Action, v: nat)
    requires Enabled(s, a)
    ensures AckedBy(Next(s, a), v) == AckedBy(s, v) + (if IsAck(a, v) then 1 else 0)
    ensures DealtWith(Next(s, a), v) == DealtWith(s, v) + (if IsAck(a, v) || a == Fail(v) then 1 else 0)
  {
    if v < |s.viewers| {
      StepMoves(s, a, v);
    } else {
      NewcomerHasNothing(s, a, v);
    }
  }

  lemma NewcomerHasNothing(s: State, a: Action, v: nat)
    requires Enabled(s, a) && v >= |s.viewers|
    ensures AckedBy(Next(s, a), v) == 0 && DealtWith(Next(s, a), v) == 0
    ensures !IsAck(a, v) && a != Fail(v)
  {
    if !a.Register? {
      OtherJoinsNobody(s, a);
    }
  }

  lemma {:induction false} RunAcks(s: State, run: seq<Action>, v: nat)
    requires Legal(s, run)
    ensures AckedBy(After(s, run), v) == AckedBy(s, v) + Acks(run, v)
    ensures DealtWith(After(s, run), v) == DealtWith(s, v) + Acks(run, v) + Failures(run, v)
    decreases |run|
  {
    if run != [] {
      StepAcks(s, run[0], v);
      RunAcks(Next(s, run[0]), run[1..], v);
    }
  }

  /** Nothing counts as acked without an ack: over every run a viewer's acked events are as many as the
      acks its client sent, and its cursor has moved once for each ack and each failure; other replies
      move nothing. */
  lemma AcksAreCounted(run: seq<Action>, v: nat)
    requires Legal(INITIAL, run) && v < |After(INITIAL, run).viewers|
    ensures var x := After(INITIAL, run).viewers[v];
            |x.acked| == Acks(run, v) && x.cursor == Acks(run, v) + Failures(run, v)
  {
    RunAcks(INITIAL, run, v);
  }

  // ---------- A whole run under the mutex ----------

  ghost predicate Listens(s: State) {
    && Reachable(s) && |s.viewers| == 1 && s.stores == [[], [0]] && s.signals == Slice(1, 1)
    && s.ending == Stopping(true) && s.logOpen && s.viewers[0].acked == [] && s.viewers[0].cursor == 0
    && !s.viewers[0].broken
  }

  lemma ViewerThenLastThread() returns (s: State)
    ensures Listens(s) && s.viewers[0].phase == Waiting
    ensures s.events == [] && s.stopAt.None? && forall w: nat :: At(s, w).Idle?
  {
    s := Step(INITIAL, Register(0, 0));
    assert s.stores[1] == [0];
    s := Step(s, Rest(0));
    s := Step(s, BeginEnd(true));
  }

  lemma StopIsBroadcast(s: State) returns (s': State)
    requires Listens(s) && s.viewers[0].phase == Waiting
    requires s.events == [] && s.stopAt.None? && forall w: nat :: At(s, w).Idle?
    ensures Listens(s') && s'.viewers[0].phase == Signalled
    ensures s'.events == [Posted(ENDER, SessionStop)] && s'.stopAt == Some(0) && At(s', ENDER).Idle?
  {
    assert At(s, ENDER).Idle?;
    s' := AppendedAndLogged(s, ENDER, SessionStop);
    s' := StopIsSent(s');
  }

  lemma StopIsSent(s: State) returns (s': State)
    requires Listens(s) && s.viewers[0].phase == Waiting && At(s, ENDER) == Logged(0)
    requires s.events == [Posted(ENDER, SessionStop)] && s.stopAt == Some(0)
    ensures Listens(s') && s'.viewers[0].phase == Signalled
    ensures s'.events == s.events && s'.stopAt == s.stopAt && At(s', ENDER).Idle?
  {
    s' := Step(s, Capture(ENDER));
    s' := Step(s', Send(ENDER));
    s' := Step(s', Finish(ENDER));
  }

  lemma StopIsAcked(s: State) returns (s': State)
    requires Listens(s) && s.viewers[0].phase == Signalled
    requires s.events == [Posted(ENDER, SessionStop)] && s.stopAt == Some(0) && At(s, ENDER).Idle?
    ensures Reachable(s') && InPhase(s', 0, Waiting) && s'.viewers[0].acked == s'.events == s.events
    ensures s'.stores == s.stores && s'.signals == s.signals
    ensures s'.ending == s.ending && s'.stopAt == s.stopAt && At(s', ENDER).Idle?
  {
    s' := Step(s, Read(0));
    s' := Step(s', Transmit(0, true));
    s' := Step(s', Rest(0));
  }

  lemma EndIsSent(s: State) returns (s': State)
    requires Reachable(s) && InPhase(s, 0, Waiting) && s.ending == Stopping(true)
    requires s.stores == [[], [0]] && s.signals == Slice(1, 1) && s.stopAt.Some? && At(s, ENDER).Idle?
    ensures Reachable(s') && InPhase(s', 0, Ended) && s'.viewers[0].acked == s.viewers[0].acked
    ensures s'.events == s.events && s'.stopAt == s.stopAt
    ensures s'.ending == Closing(true, Slice(1, 1), 1)
  {
    s' := Step(s, CaptureEnd);
    s' := Step(s', SendEnd);
  }

  /** The last thread ends a session with one viewer: the viewer gets and acks the session-stop, gets
      END, and the log is closed. */
  lemma LastThreadServesAViewer() returns (s: State)
    ensures Reachable(s) && s.ending.Closed? && s.ending.locked
    ensures InPhase(s, 0, Ended) && s.viewers[0].acked == s.events == [Posted(ENDER, SessionStop)]
  {
    s := ViewerThenLastThread();
    s := StopIsBroadcast(s);
    s := StopIsAcked(s);
    s := EndIsSent(s);
    s := Step(s, Seal);
    s := Step(s, CloseLog);
  }
}
