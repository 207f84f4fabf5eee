/** The log file under every interleaving: writers may still log between the closing bracket and the
    closing of the file. */
module SessionFile {
  import opened Events
  import opened Prelude
  import opened SessionProtocol
  import I = SessionInvariants
  import L = SessionLog
  import T = SessionTheorems

  /** How the events of a log are encoded. */
  function Encoded(entry: SessionEvent -> L.Entry, log: seq<Posted>): (r: seq<L.Entry>)
    ensures |r| == |log|
  {
    seq(|log|, i requires 0 <= i < |log| => entry(log[i].event))
  }

  predicate HasBracket(s: State) {
    (s.ending.Sealed? || s.ending.Closed?) && s.ending.size <= |s.log|
  }

  /** What the file of a session holds, if the session started it. */
  function FileText(entry: SessionEvent -> L.Entry, s: State): string {
    if HasBracket(s) then
      var late := L.Records(Encoded(entry, s.log[s.ending.size..]), "");
      "[\n" + L.Records(Encoded(entry, s.log[..s.ending.size]), L.BRACKET + late)
    else "[\n" + L.Records(Encoded(entry, s.log), "")
  }

  /** In whatever state a session is left, its text is what SessionLog calls an earlier session. */
  lemma LeavesAnEarlier(entry: SessionEvent -> L.Entry, s: State) returns (e: L.Earlier)
    ensures FileText(entry, s) == L.OnDisk([e], "")
  {
    if HasBracket(s) {
      var early, late := Encoded(entry, s.log[..s.ending.size]), Encoded(entry, s.log[s.ending.size..]);
      e := L.Earlier(early, true, late);
    } else {
      e := L.Earlier(Encoded(entry, s.log), false, []);
    }
    assert [e][1..] == [];
    assert L.Ending(e) + "" == L.Ending(e);
  }

  /** What a step appends to the file. */
  function Wrote(entry: SessionEvent -> L.Entry, s: State, a: Action): string
    requires Enabled(s, a)
  {
    match a
    case Log(w) => if s.logOpen then L.Record(entry(s.events[At(s, w).k].event)) else ""
    case Seal => L.BRACKET
    case _ => ""
  }

  ghost predicate SizeOk(s: State) {
    s.ending.Sealed? || s.ending.Closed? ==> s.ending.size <= |s.log|
  }

  /** A step leaves log and bracket alone, or logs one event, or seals the log. */
  lemma StepLogs(s: State, a: Action)
    requires Enabled(s, a)
    ensures var s' := Next(s, a);
            match a
            case Log(w) =>
              && s'.ending == s.ending
              && s'.log == (if s.logOpen then s.log + [s.events[At(s, w).k]] else s.log)
            case Seal => s.ending.Closing? && s'.log == s.log && s'.ending.Sealed? && s'.ending.size == |s.log|
            case _ => s'.log == s.log && SameSeal(s.ending, s'.ending)
  {
  }

  predicate SameSeal(e: Ending, e': Ending) {
    if e.Sealed? || e.Closed? then (e'.Sealed? || e'.Closed?) && e'.size == e.size else !e'.Sealed? && !e'.Closed?
  }

  lemma {:induction false} RecordsSnoc(entries: seq<L.Entry>, last: L.Entry)
    ensures L.Records(entries + [last], "") == L.Records(entries, "") + L.Record(last)
  {
    if entries == [] {
      assert [last][1..] == [] && entries + [last] == [last];
      assert L.Record(last) + "" == L.Record(last) && "" + L.Record(last) == L.Record(last);
    } else {
      assert (entries + [last])[1..] == entries[1..] + [last];
      RecordsSnoc(entries[1..], last);
      Assoc(L.Record(entries[0]), L.Records(entries[1..], ""), L.Record(last));
    }
  }

  lemma EncodedSnoc(entry: SessionEvent -> L.Entry, log: seq<Posted>, p: Posted)
    ensures Encoded(entry, log + [p]) == Encoded(entry, log) + [entry(p.event)]
  {
  }

  /** The text is what the steps append, one after the other. */
  lemma StepAppends(entry: SessionEvent -> L.Entry, s: State, a: Action)
    requires SizeOk(s) && Enabled(s, a)
    ensures SizeOk(Next(s, a)) && FileText(entry, Next(s, a)) == FileText(entry, s) + Wrote(entry, s, a)
  {
    StepLogs(s, a);
    var s' := Next(s, a);
    match a
    case Log(w) =>
      if s.logOpen {
        LogAppends(entry, s, s', s.events[At(s, w).k]);
      }
    case Seal => SealAppends(entry, s, s');
    case _ =>
  }

  lemma SealAppends(entry: SessionEvent -> L.Entry, s: State, s': State)
    requires s.ending.Closing? && s'.ending.Sealed? && s'.log == s.log && s'.ending.size == |s.log|
    ensures FileText(entry, s') == FileText(entry, s) + L.BRACKET
  {
    var es := Encoded(entry, s.log);
    assert s.log[..|s.log|] == s.log && s.log[|s.log|..] == [];
    L.RecordsJoin(es, "", L.BRACKET);
    assert "" + L.BRACKET == L.BRACKET && L.BRACKET + "" == L.BRACKET;
    Assoc("[\n", L.Records(es, ""), L.BRACKET);
  }

  lemma LogAppends(entry: SessionEvent -> L.Entry, s: State, s': State, p: Posted)
    requires SizeOk(s) && s'.log == s.log + [p] && s'.ending == s.ending
    ensures FileText(entry, s') == FileText(entry, s) + L.Record(entry(p.event))
  {
    var log := s.log;
    if HasBracket(s) {
      var n := s.ending.size;
      assert (log + [p])[..n] == log[..n] && (log + [p])[n..] == log[n..] + [p];
      AppendsLate(entry, Encoded(entry, log[..n]), log[n..], p);
    } else {
      EncodedSnoc(entry, log, p);
      RecordsSnoc(Encoded(entry, log), entry(p.event));
      Assoc("[\n", L.Records(Encoded(entry, log), ""), L.Record(entry(p.event)));
    }
  }

  lemma AppendsLate(entry: SessionEvent -> L.Entry, early: seq<L.Entry>, late: seq<Posted>, p: Posted)
    ensures "[\n" + L.Records(early, L.BRACKET + L.Records(Encoded(entry, late + [p]), ""))
         == "[\n" + L.Records(early, L.BRACKET + L.Records(Encoded(entry, late), "")) + L.Record(entry(p.event))
  {
    var tail, record := L.Records(Encoded(entry, late), ""), L.Record(entry(p.event));
    EncodedSnoc(entry, late, p);
    RecordsSnoc(Encoded(entry, late), entry(p.event));
    Assoc(L.BRACKET, tail, record);
    L.RecordsJoin(early, L.BRACKET + tail, record);
    Assoc("[\n", L.Records(early, L.BRACKET + tail), record);
  }

  lemma {:induction false} RunsKeepSize(s: State, run: seq<Action>)
    requires SizeOk(s) && Legal(s, run)
    ensures SizeOk(After(s, run))
    decreases |run|
  {
    if run != [] {
      StepLogs(s, run[0]);
      RunsKeepSize(Next(s, run[0]), run[1..]);
    }
  }

  lemma ReachableSize(s: State)
    requires Reachable(s)
    ensures SizeOk(s)
  {
    var run :| Legal(INITIAL, run) && After(INITIAL, run) == s;
    RunsKeepSize(INITIAL, run);
  }

  lemma RecordsAreNotSpace(entries: seq<L.Entry>)
    ensures L.SkipSpace(L.Records(entries, "")) == "" <==> entries == []
  {
    if entries != [] {
      L.RecordsOpen(entries, "");
    }
  }

  /** The file of a sealed or closed session reads back as exactly the logged events if and only if the
      first of them is the only session-start and nobody logged after the bracket. */
  lemma SealedFileReadsBack(entry: SessionEvent -> L.Entry, s: State)
    requires Reachable(s) && (s.ending.Sealed? || s.ending.Closed?)
    ensures s.ending.size <= |s.log|
    ensures L.ReadLog(FileText(entry, s))
         == if L.WellFormed(Encoded(entry, s.log)) && s.ending.size == |s.log|
            then Some(L.Logged(Encoded(entry, s.log))) else None
  {
    ReachableSize(s);
    var early, late := s.log[..s.ending.size], s.log[s.ending.size..];
    L.SealedRoundTrip(Encoded(entry, early), L.Records(Encoded(entry, late), ""));
    RecordsAreNotSpace(Encoded(entry, late));
    if s.ending.size == |s.log| {
      assert early == s.log;
    }
  }

  /** If nobody is between append and log when the bracket has been written, and nobody has logged since,
      the file holds exactly the events in memory, and closing it keeps it so. */
  lemma QuietSealIsComplete(entry: SessionEvent -> L.Entry, s: State)
    requires Reachable(s) && s.ending.Sealed? && s.ending.size == |s.log|
    requires forall w: nat :: !At(s, w).Appended?
    requires L.WellFormed(Encoded(entry, s.log))
    ensures multiset(s.log) == multiset(s.events)
    ensures L.ReadLog(FileText(entry, Next(s, CloseLog))) == Some(L.Logged(Encoded(entry, s.log)))
  {
    I.ReachableInv(s);
    T.QuietLogIsComplete(s);
    SealedFileReadsBack(entry, s);
    StepAppends(entry, s, CloseLog);
    assert FileText(entry, s) + "" == FileText(entry, s);
  }

  /** A writer that appended in time can log behind the bracket, and the closed file is not JSON. */
  lemma LateRecordSpoilsTheFile(entry: SessionEvent -> L.Entry) returns (s: State)
    ensures Reachable(s) && s.ending.Closed? && s.ending.size < |s.log|
    ensures L.ReadLog(FileText(entry, s)) == None
  {
    s := T.StopUnheard();
    s := SealedBeforeLogged(s);
    s := T.Step(s, Log(1));
    s := T.Step(s, CloseLog);
    SealedFileReadsBack(entry, s);
  }

  lemma SealedBeforeLogged(s: State) returns (s': State)
    requires Reachable(s) && s.ending == Stopping(false) && s.stopAt.Some? && s.logOpen && s.signals == Slice(0, 0)
    requires forall w: nat :: At(s, w).Idle?
    ensures Reachable(s') && s'.events != [] && At(s', 1) == Appended(|s'.events| - 1)
    ensures s'.logOpen && s'.ending.Sealed? && s'.ending.size == |s'.log|
  {
    assert At(s, 1).Idle? && At(s, ENDER).Idle?;
    s' := T.Step(s, Append(1, NewChannel("session")));
    s' := T.Step(s', CaptureEnd);
    s' := T.Step(s', Seal);
  }
}
