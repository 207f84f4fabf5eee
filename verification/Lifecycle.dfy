/** Threads entering and leaving a session, and every call of End, with the test of `active` and its
    clearing as the two separate steps they are. markThreadStopped calls End holding the session
    mutex; ProxyContext.Stop calls it without. */
module Lifecycle {
  import opened Prelude

  /** A call of End: made, past the test, past the clearing, or over. */
  datatype Call = Entered | Tested | Cleared | Over

  /** `holder` is the End call that runs under the mutex. `started`, `passed`, `appended` and
      `overlapped` are history: some thread has started; the calls that found the session active; the
      calls that appended a session-stop; some call found it active while another was between its
      test and its clearing. */
  datatype State = State(
    threads: set<nat>, count: int, active: bool, calls: map<nat, Call>, holder: Option<nat>,
    started: bool, passed: set<nat>, appended: set<nat>, overlapped: bool)

  const INITIAL := State({}, 0, true, map[], None, false, {}, {}, false)

  datatype Action =
    | Start(t: nat)
    | Leave(t: nat, j: nat)
    | Stop(j: nat)
    | Test(j: nat)
    | Clear(j: nat)
    | AppendStop(j: nat)

  predicate InCall(s: State, j: nat, c: Call) {
    j in s.calls && s.calls[j] == c
  }

  predicate Enabled(s: State, a: Action) {
    match a
    case Start(t) => s.holder.None? && t !in s.threads
    case Leave(t, j) => s.holder.None? && t in s.threads && j !in s.calls
    case Stop(j) => j !in s.calls
    case Test(j) => InCall(s, j, Entered)
    case Clear(j) => InCall(s, j, Tested)
    case AppendStop(j) => InCall(s, j, Cleared)
  }

  /** The end of call `j`, which gives the mutex back if the call held it. */
  function Return(s: State, j: nat): State {
    s.(calls := s.calls[j := Over], holder := if s.holder == Some(j) then None else s.holder)
  }

  function Next(s: State, a: Action): State
    requires Enabled(s, a)
  {
    match a
    case Start(t) => s.(threads := s.threads + {t}, count := s.count + 1, started := true)
    case Leave(t, j) =>
      var left := s.(threads := s.threads - {t}, count := s.count - 1);
      if left.count < 1 then left.(calls := s.calls[j := Entered], holder := Some(j)) else left
    case Stop(j) => s.(calls := s.calls[j := Entered])
    case Test(j) =>
      if !s.active then Return(s, j)
      else s.(calls := s.calls[j := Tested], passed := s.passed + {j},
              overlapped := s.overlapped || exists i :: i in s.calls && s.calls[i] == Tested)
    case Clear(j) => s.(calls := s.calls[j := Cleared], active := false)
    case AppendStop(j) => Return(s.(appended := s.appended + {j}), j)
  }

  predicate Legal(s: State, run: seq<Action>)
    decreases |run|
  {
    run == [] || (Enabled(s, run[0]) && Legal(Next(s, run[0]), run[1..]))
  }

  function After(s: State, run: seq<Action>): State
    requires Legal(s, run)
    decreases |run|
  {
    if run == [] then s else After(Next(s, run[0]), run[1..])
  }

  ghost predicate ThreadsOk(s: State) {
    && s.count == |s.threads|
    && (s.holder.Some? ==> s.holder.value in s.calls && s.calls[s.holder.value] != Over)
    && (s.holder.None? && s.active && s.started ==> s.count >= 1)
  }

  ghost predicate CallsOk(s: State) {
    && (!s.active ==> s.passed != {})
    && (forall j :: j in s.passed ==> j in s.calls)
    && (forall j :: j in s.appended <==> j in s.passed && s.calls[j] == Over)
    && (forall j :: j in s.calls && s.calls[j] in {Tested, Cleared} ==> j in s.passed)
    && (forall j :: j in s.passed ==> s.calls[j] != Entered && (s.active ==> s.calls[j] == Tested))
    && (s.overlapped <==> |s.passed| >= 2)
  }

  ghost predicate Inv(s: State) {
    ThreadsOk(s) && CallsOk(s)
  }

  lemma KeepsThreads(s: State, a: Action)
    requires ThreadsOk(s) && Enabled(s, a) && (a.AppendStop? ==> !s.active)
    ensures ThreadsOk(Next(s, a)) && (Next(s, a).active ==> s.active)
  {
    if a.Leave? {
      assert s.threads == (s.threads - {a.t}) + {a.t};
    }
  }

  lemma KeepsCalls(s: State, a: Action)
    requires CallsOk(s) && Enabled(s, a)
    ensures CallsOk(Next(s, a))
  {
    match a
    case Test(j) => if s.active { AfterTest(s, j); }
    case Clear(j) => AfterClear(s, j);
    case AppendStop(j) => AfterAppend(s, j);
    case _ =>
  }

  lemma AfterClear(s: State, j: nat)
    requires CallsOk(s) && InCall(s, j, Tested)
    ensures CallsOk(Next(s, Clear(j)))
  {
    assert j in s.passed;
  }

  lemma AfterAppend(s: State, j: nat)
    requires CallsOk(s) && InCall(s, j, Cleared)
    ensures CallsOk(Next(s, AppendStop(j)))
  {
    assert j in s.passed;
  }

  lemma AfterTest(s: State, j: nat)
    requires CallsOk(s) && InCall(s, j, Entered) && s.active
    ensures CallsOk(Next(s, Test(j)))
  {
    PassCounts(s, j);
  }

  lemma KeepsInv(s: State, a: Action)
    requires Inv(s) && Enabled(s, a)
    ensures Inv(Next(s, a)) && (Next(s, a).active ==> s.active)
  {
    assert a.AppendStop? ==> a.j in s.passed;
    KeepsThreads(s, a);
    KeepsCalls(s, a);
  }

  /** Passing the test makes two or more exactly when somebody else is still in the window. */
  lemma PassCounts(s: State, j: nat)
    requires CallsOk(s) && InCall(s, j, Entered) && s.active
    ensures |s.passed + {j}| == |s.passed| + 1
    ensures |s.passed| >= 1 <==> exists i :: i in s.calls && s.calls[i] == Tested
  {
    assert j !in s.passed;
    if s.passed != {} {
      var i :| i in s.passed;
      assert s.calls[i] == Tested;
    }
  }

  lemma {:induction false} RunsKeepInv(s: State, run: seq<Action>)
    requires Inv(s) && Legal(s, run)
    ensures Inv(After(s, run))
    ensures After(s, run).active ==> s.active
    decreases |run|
  {
    if run != [] {
      KeepsInv(s, run[0]);
      RunsKeepInv(Next(s, run[0]), run[1..]);
    }
  }

  /** In every state of every run: the count is the number of threads inside; unless an End call
      holds the mutex, an active session that has started a thread has one; and End is irreversible. */
  lemma CountTracksThreads(run: seq<Action>, rest: seq<Action>)
    requires Legal(INITIAL, run) && Legal(After(INITIAL, run), rest)
    ensures var s := After(INITIAL, run);
            && s.count == |s.threads|
            && (s.holder.None? && s.active && s.started ==> s.count >= 1)
            && (After(s, rest).active ==> s.active)
  {
    RunsKeepInv(INITIAL, run);
    RunsKeepInv(After(INITIAL, run), rest);
  }

  /** Session-stops: never more than the calls that found the session active. With every call over, at
      most one session-stop was appended if and only if no call tested `active` while another was between its
      test and its clearing; and then a session that all threads have left has exactly one. */
  lemma AtMostOneStop(run: seq<Action>)
    requires Legal(INITIAL, run)
    ensures var s := After(INITIAL, run);
            && (!s.overlapped ==> |s.appended| <= 1)
            && ((forall j :: j in s.calls ==> s.calls[j] == Over) ==>
                  && (|s.appended| <= 1 <==> !s.overlapped)
                  && (s.started && s.threads == {} ==> |s.appended| >= 1))
  {
    RunsKeepInv(INITIAL, run);
    var s := After(INITIAL, run);
    assert s.appended <= s.passed;
    SubsetIsSmaller(s.appended, s.passed);
    if forall j :: j in s.calls ==> s.calls[j] == Over {
      assert s.appended == s.passed;
      assert s.threads == {} ==> s.count == 0;
    }
  }

  /** A thread's leaving calls End, under the mutex, if and only if it was the only one inside. */
  lemma OnlyLastThreadCallsEnd(run: seq<Action>, t: nat, j: nat)
    requires Legal(INITIAL, run) && Enabled(After(INITIAL, run), Leave(t, j))
    ensures var s := After(INITIAL, run);
            var s' := Next(s, Leave(t, j));
            (if s.threads == {t} then InCall(s', j, Entered) && s'.holder == Some(j)
             else s'.calls == s.calls && s'.holder == s.holder)
  {
    RunsKeepInv(INITIAL, run);
    var s := After(INITIAL, run);
    assert s.threads == {t} + (s.threads - {t});
    if s.threads != {t} {
      assert s.threads - {t} != {};
    }
  }

  lemma StaysInside(s: State, a: Action, t: nat)
    requires Inv(s) && Enabled(s, a) && t in s.threads && s.calls == map[]
    requires !a.Stop? && (a.Leave? ==> a.t != t)
    ensures Next(s, a).calls == map[] && Next(s, a).active == s.active && t in Next(s, a).threads
  {
    if a.Leave? {
      SubsetIsSmaller({t}, s.threads - {a.t});
      assert s.threads == (s.threads - {a.t}) + {a.t};
    }
  }

  /** Without Stop, as long as some thread stays inside, no call of End is made and the session stays
      as active as it was. */
  lemma {:induction false} NoEndWhileInside(s: State, run: seq<Action>, t: nat)
    requires Inv(s) && Legal(s, run) && t in s.threads && s.calls == map[]
    requires forall i :: 0 <= i < |run| ==> !run[i].Stop? && (run[i].Leave? ==> run[i].t != t)
    ensures After(s, run).calls == map[] && After(s, run).active == s.active
    decreases |run|
  {
    if run != [] {
      StaysInside(s, run[0], t);
      KeepsInv(s, run[0]);
      NoEndWhileInside(Next(s, run[0]), run[1..], t);
    }
  }

  /** Every call under way runs under the mutex. */
  ghost predicate OnlyUnderMutex(s: State) {
    forall j :: j in s.calls && s.calls[j] != Over ==> s.holder == Some(j)
  }

  lemma KeepsUnderMutex(s: State, a: Action)
    requires Inv(s) && OnlyUnderMutex(s) && Enabled(s, a) && !a.Stop?
    ensures OnlyUnderMutex(Next(s, a)) && Next(s, a).overlapped == s.overlapped
  {
  }

  lemma {:induction false} RunsUnderMutex(s: State, run: seq<Action>)
    requires Inv(s) && OnlyUnderMutex(s) && Legal(s, run) && forall i :: 0 <= i < |run| ==> !run[i].Stop?
    ensures After(s, run).overlapped == s.overlapped
    decreases |run|
  {
    if run != [] {
      KeepsInv(s, run[0]);
      KeepsUnderMutex(s, run[0]);
      RunsUnderMutex(Next(s, run[0]), run[1..]);
    }
  }

  /** Without Stop the mutex is enough: no two calls overlap, so at most one session-stop is appended. */
  lemma MutexMeansOneStop(run: seq<Action>)
    requires Legal(INITIAL, run) && forall i :: 0 <= i < |run| ==> !run[i].Stop?
    ensures !After(INITIAL, run).overlapped && |After(INITIAL, run).appended| <= 1
  {
    RunsUnderMutex(INITIAL, run);
    AtMostOneStop(run);
  }

  lemma {:induction false} LegalSnoc(s: State, run: seq<Action>, a: Action)
    requires Legal(s, run) && Enabled(After(s, run), a)
    ensures Legal(s, run + [a]) && After(s, run + [a]) == Next(After(s, run), a)
    decreases |run|
  {
    if run == [] {
      assert [a][1..] == [];
    } else {
      assert (run + [a])[1..] == run[1..] + [a];
      LegalSnoc(Next(s, run[0]), run[1..], a);
    }
  }

  lemma Extend(run: seq<Action>, a: Action) returns (longer: seq<Action>)
    requires Legal(INITIAL, run) && Enabled(After(INITIAL, run), a)
    ensures Legal(INITIAL, longer) && After(INITIAL, longer) == Next(After(INITIAL, run), a)
    ensures longer == run + [a]
  {
    LegalSnoc(INITIAL, run, a);
    longer := run + [a];
  }

  /** The last thread and Stop can both append one. */
  lemma StopRacesLastThread() returns (run: seq<Action>)
    ensures Legal(INITIAL, run) && Leave(0, 1) in run && Stop(0) in run
    ensures After(INITIAL, run).appended == {0, 1} && After(INITIAL, run).threads == {}
  {
    var entered := BothTested();
    run := Extend(entered, Clear(0));
    run := Extend(run, Clear(1));
    run := Extend(run, AppendStop(0));
    run := Extend(run, AppendStop(1));
  }

  /** Stop has tested `active`, and so has the last thread. */
  lemma BothTested() returns (run: seq<Action>)
    ensures Legal(INITIAL, run) && Leave(0, 1) in run && Stop(0) in run
    ensures var s := After(INITIAL, run);
            s.active && s.threads == {} && s.calls == map[0 := Tested, 1 := Tested]
            && s.holder == Some(1) && s.appended == {} && s.passed == {0, 1}
  {
    run := Extend([], Start(0));
    run := Extend(run, Stop(0));
    run := Extend(run, Test(0));
    run := Extend(run, Leave(0, 1));
    run := Extend(run, Test(1));
    assert After(INITIAL, run).threads == {};
  }

  /** So can two calls of Stop. */
  lemma StopsCanDouble() returns (run: seq<Action>)
    ensures Legal(INITIAL, run) && After(INITIAL, run).appended == {0, 1}
  {
    run := Extend([], Stop(0));
    run := Extend(run, Test(0));
    run := Extend(run, Stop(1));
    run := Extend(run, Test(1));
    run := Extend(run, Clear(0));
    run := Extend(run, Clear(1));
    run := Extend(run, AppendStop(0));
    run := Extend(run, AppendStop(1));
  }
}
