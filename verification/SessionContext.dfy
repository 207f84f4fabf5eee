/** One session as its methods see it when nothing interferes, and the one walk where something does:
    the END broadcast while the receivers take themselves off the list. */
module SessionContext {
  import opened Events
  import opened Prelude
  import opened SessionLog
  import opened Slices

  datatype Signal = SIGNAL_SESSION_END | SIGNAL_NEW_MESSAGE

  /** What others can do between two hand-offs of a broadcast. */
  datatype Happening = Joins | Leaves(c: nat)

  /** A value handed over on a channel. */
  datatype HandOff = HandOff(channel: nat, signal: Signal)

  lemma HasElement(list: seq<nat>)
    ensures list == [] || exists c :: c in list
  {
    if list != [] {
      assert list[0] in list;
    }
  }

  /** The same value on every channel of a list, in order. */
  function ToAll(list: seq<nat>, signal: Signal): seq<HandOff> {
    if list == [] then [] else ToAll(list[..|list| - 1], signal) + [HandOff(list[|list| - 1], signal)]
  }

  /** Each channel of the list once, in order. */
  lemma {:induction false} ToAllIsEach(list: seq<nat>, signal: Signal)
    ensures |ToAll(list, signal)| == |list|
    ensures forall i :: 0 <= i < |list| ==> ToAll(list, signal)[i] == HandOff(list[i], signal)
    decreases |list|
  {
    if list != [] {
      ToAllIsEach(list[..|list| - 1], signal);
    }
  }

  /** What a channel has been handed, in order. */
  function Received(handOffs: seq<HandOff>, c: nat): seq<Signal> {
    if handOffs == [] then []
    else
      var init, last := handOffs[..|handOffs| - 1], handOffs[|handOffs| - 1];
      Received(init, c) + (if last.channel == c then [last.signal] else [])
  }

  /** A broadcast over a list without repeats hands each of its channels the signal once. */
  lemma {:induction false} ReceivedFromAll(before: seq<HandOff>, list: seq<nat>, signal: Signal, c: nat)
    requires Distinct(list)
    ensures Received(before + ToAll(list, signal), c)
         == Received(before, c) + (if c in list then [signal] else [])
    decreases |list|
  {
    if list == [] {
      assert before + ToAll(list, signal) == before;
    } else {
      var init, last := list[..|list| - 1], list[|list| - 1];
      var all := before + ToAll(list, signal);
      assert all[..|all| - 1] == before + ToAll(init, signal);
      ReceivedFromAll(before, init, signal, c);
      assert list == init + [last];
    }
  }

  /** Each channel is told of the session-stop and then of the end. */
  lemma EndIsReceived(before: seq<HandOff>, list: seq<nat>, c: nat)
    requires Distinct(list)
    ensures Received(before + ToAll(list, SIGNAL_NEW_MESSAGE) + ToAll(list, SIGNAL_SESSION_END), c)
         == Received(before, c) + (if c in list then [SIGNAL_NEW_MESSAGE, SIGNAL_SESSION_END] else [])
  {
    ReceivedFromAll(before, list, SIGNAL_NEW_MESSAGE, c);
    ReceivedFromAll(before + ToAll(list, SIGNAL_NEW_MESSAGE), list, SIGNAL_SESSION_END, c);
  }

  lemma EveryoneIsTold(before: seq<HandOff>, list: seq<nat>)
    requires Distinct(list)
    ensures var after := before + ToAll(list, SIGNAL_NEW_MESSAGE) + ToAll(list, SIGNAL_SESSION_END);
            forall c :: Received(after, c) == Received(before, c)
              + (if c in list then [SIGNAL_NEW_MESSAGE, SIGNAL_SESSION_END] else [])
  {
    forall c
      ensures Received(before + ToAll(list, SIGNAL_NEW_MESSAGE) + ToAll(list, SIGNAL_SESSION_END), c)
           == Received(before, c) + (if c in list then [SIGNAL_NEW_MESSAGE, SIGNAL_SESSION_END] else [])
    {
      EndIsReceived(before, list, c);
    }
  }

  lemma ToAllNext(before: seq<nat>, list: seq<nat>, i: nat, signal: Signal)
    requires i < |before| == |list| && list[..i + 1] == before[..i + 1]
    ensures ToAll(list[..i + 1], signal) == ToAll(before[..i], signal) + [HandOff(before[i], signal)]
  {
    assert list[..i + 1][..i] == before[..i] && list[..i + 1][i] == before[..i + 1][i];
  }

  /** What the log holds for the first events of a list, before it is finalised. */
  function Written(entry: SessionEvent -> Entry, events: seq<SessionEvent>): string {
    if events == [] then "[\n"
    else Written(entry, events[..|events| - 1]) + Record(entry(events[|events| - 1]))
  }

  function Entries(entry: SessionEvent -> Entry, events: seq<SessionEvent>): (r: seq<Entry>)
    ensures |r| == |events| && forall i :: 0 <= i < |r| ==> r[i] == entry(events[i])
  {
    seq(|events|, i requires 0 <= i < |events| => entry(events[i]))
  }

  lemma RecordsOfFirst(entry: SessionEvent -> Entry, e: SessionEvent, after: seq<SessionEvent>)
    ensures Records(Entries(entry, [e] + after), BRACKET) == Record(entry(e)) + Records(Entries(entry, after), BRACKET)
  {
    var es := Entries(entry, [e] + after);
    assert es[1..] == Entries(entry, after);
  }

  /** Writing the events one after the other and finalising gives the text that LogRoundTrip reads back. */
  lemma {:induction false} WrittenIsLogText(entry: SessionEvent -> Entry,
        events: seq<SessionEvent>, after: seq<SessionEvent>)
    ensures Written(entry, events) + Records(Entries(entry, after), BRACKET)
         == LogText(Entries(entry, events + after))
    decreases |events|
  {
    if events == [] {
      assert events + after == after;
    } else {
      var init, last := events[..|events| - 1], events[|events| - 1];
      assert init + ([last] + after) == events + after;
      WrittenIsLogText(entry, init, [last] + after);
      RecordsOfFirst(entry, last, after);
      Assoc(Written(entry, init), Record(entry(last)), Records(Entries(entry, after), BRACKET));
    }
  }

  lemma PrefixSnoc(before: seq<SessionEvent>, body: seq<SessionEvent>, i: nat)
    requires i < |body|
    ensures before + body[..i] + [body[i]] == before + body[..i + 1]
  {
  }

  function WholeSession(connected: bool, body: seq<SessionEvent>): seq<SessionEvent> {
    (if connected then [SessionStart] + body else []) + [SessionStop]
  }

  /** The file after a whole session. */
  lemma SessionReadsBack(entry: SessionEvent -> Entry, earlier: seq<Earlier>, connected: bool, body: seq<SessionEvent>)
    requires (forall e :: entry(e).start <==> e.SessionStart?) && SessionStart !in body
    ensures var entries := Entries(entry, WholeSession(connected, body));
            (ReadLog(OnDisk(earlier, "") + LogText(entries))
             == if connected && earlier == [] then Some(Logged(entries)) else None)
  {
    var events := WholeSession(connected, body);
    var entries := Entries(entry, events);
    OnDiskJoin(earlier, LogText(entries));
    if earlier == [] {
      LogRoundTrip(entries);
      assert forall i :: 1 <= i < |events| ==> !events[i].SessionStart?;
      assert forall i :: 0 <= i < |entries| - 1 ==> entries[1..][i] == entry(events[i + 1]);
    } else {
      ReopenedIsUnreadable(earlier, entries);
    }
  }

  /** A slot may go to a channel newer than all others. */
  lemma TakesSlot(was: seq<nat>, base: nat, held: seq<nat>, c: nat, p: nat)
    requires |was| == |held| && Distinct(held) && base <= c && p <= |held|
    requires forall k :: 0 <= k < |was| ==> was[k] < base && (held[k] == was[k] || base <= held[k] < c)
    ensures var newHeld := if p < |held| then held[p := c] else held;
            && Distinct(newHeld)
            && (forall k :: 0 <= k < |was| ==> newHeld[k] == was[k] || base <= newHeld[k] < c + 1)
  {
  }

  lemma OldHolders(was: seq<nat>, base: nat, held: seq<nat>, i: nat, c: nat)
    requires i <= |was| == |held| && base <= c
    requires forall k :: 0 <= k < |was| ==> was[k] < base && (held[k] == was[k] || base <= held[k] < c)
    ensures forall x :: x in held[..i] ==> x < c
  {
  }

  class Session {
    /** How an event is encoded for the log. */
    const entry: SessionEvent -> Entry
    var threadCount: int
    var active: bool
    var events: seq<SessionEvent>
    /** The contents of the log file, and what was in it when it was opened. */
    var log: string
    ghost var found: string
    var logOpen: bool
    /** The msg_signal slice: its backing array and its length. */
    var msgSignal: array<nat>
    var signalCount: nat
    var channels: nat
    var handOffs: seq<HandOff>

    ghost predicate Valid()
      reads this, msgSignal
    {
      && signalCount <= msgSignal.Length
      && Distinct(Signals())
      && forall c :: c in Signals() ==> c < channels
    }

    ghost function Signals(): seq<nat>
      reads this, msgSignal
    {
      if signalCount <= msgSignal.Length then msgSignal[..signalCount] else []
    }

    /** The open log holds what was found in the file and then exactly the events, in order. */
    ghost predicate LogInStep()
      reads this
    {
      logOpen && log == found + Written(entry, events)
    }

    /** `file` is what the file of that name holds already. */
    constructor (entry: SessionEvent -> Entry, file: string)
      ensures Valid() && Signals() == [] && events == [] && handOffs == []
      ensures active && threadCount == 0 && log == file && !logOpen
      ensures this.entry == entry && fresh(msgSignal)
    {
      this.entry := entry;
      threadCount, active := 0, true;
      events, log, found, logOpen := [], file, file, false;
      msgSignal, signalCount, channels, handOffs := new nat[0], 0, 0, [];
    }

    /** Opens the file for appending, whatever is in it. */
    method InitializeLog()
      requires Valid()
      modifies this`log, this`logOpen, this`found
      ensures Valid() && logOpen && found == old(log) && log == found + "[\n"
      ensures events == [] ==> LogInStep()
    {
      logOpen, found := true, log;
      AppendToLog("[\n");
    }

    /** A write to a closed file fails and changes nothing. */
    method AppendToLog(data: string)
      modifies this`log
      ensures log == if logOpen then old(log) + data else old(log)
    {
      if logOpen {
        log := log + data;
      }
    }

    method AddEvent(e: SessionEvent)
      modifies this`events
      ensures events == old(events) + [e]
    {
      events := events + [e];
    }

    method LogEvent(e: SessionEvent)
      modifies this`log
      ensures log == if logOpen then old(log) + Record(entry(e)) else old(log)
    {
      AppendToLog(Record(entry(e)));
    }

    method SendSignalToClients(signal: Signal)
      requires Valid()
      modifies this`handOffs
      ensures Valid() && handOffs == old(handOffs) + ToAll(Signals(), signal)
    {
      var backing, n := msgSignal, signalCount;
      for i := 0 to n
        invariant handOffs == old(handOffs) + ToAll(Signals()[..i], signal)
      {
        assert Signals()[..i + 1][..i] == Signals()[..i];
        handOffs := handOffs + [HandOff(backing[i], signal)];
      }
      assert Signals()[..n] == Signals();
    }

    method AppendAndLog(e: SessionEvent)
      modifies this`events, this`log
      ensures events == old(events) + [e]
      ensures old(LogInStep()) ==> LogInStep()
      ensures !logOpen ==> log == old(log)
    {
      AddEvent(e);
      LogEvent(e);
      assert events[..|events| - 1] == old(events);
      Assoc(found, Written(entry, old(events)), Record(entry(e)));
    }

    /** Append, log, broadcast. */
    method HandleEvent(e: SessionEvent)
      requires Valid()
      modifies this`events, this`log, this`handOffs
      ensures Valid() && events == old(events) + [e]
      ensures handOffs == old(handOffs) + ToAll(Signals(), SIGNAL_NEW_MESSAGE)
      ensures old(LogInStep()) ==> LogInStep()
      ensures !logOpen ==> log == old(log)
    {
      AppendAndLog(e);
      SendSignalToClients(SIGNAL_NEW_MESSAGE);
    }

    method MarkThreadStarted()
      modifies this`threadCount
      ensures threadCount == old(threadCount) + 1
    {
      threadCount := threadCount + 1;
    }

    /** The last thread out ends the session. */
    method MarkThreadStopped()
      requires Valid()
      modifies this`threadCount, this`active, this`events, this`log, this`logOpen, this`handOffs
      ensures Valid() && threadCount == old(threadCount) - 1
      ensures Ends(old(active) && threadCount < 1, old(active), old(events), old(handOffs))
      ensures old(LogInStep()) ==> LogAfter(old(active) && threadCount < 1)
    {
      threadCount := threadCount - 1;
      if threadCount < 1 {
        End();
      }
    }

    /** What a call that does or does not end the session leaves behind. */
    ghost predicate Ends(now: bool, wasActive: bool, before: seq<SessionEvent>, given: seq<HandOff>)
      reads this, msgSignal
    {
      if now then
        && !active && events == before + [SessionStop]
        && handOffs == given + ToAll(Signals(), SIGNAL_NEW_MESSAGE) + ToAll(Signals(), SIGNAL_SESSION_END)
      else active == wasActive && events == before && handOffs == given
    }

    /** A log in step stays in step, or is closed with the complete text. */
    ghost predicate LogAfter(ended: bool)
      reads this
    {
      if ended then !logOpen && log == found + LogText(Entries(entry, events)) else LogInStep()
    }

    /** Appends a session-stop, broadcasts it, broadcasts END, closes the log; once. */
    method End()
      requires Valid()
      modifies this`active, this`events, this`log, this`logOpen, this`handOffs
      ensures Valid() && Ends(old(active), old(active), old(events), old(handOffs))
      ensures old(LogInStep()) ==> LogAfter(old(active))
      ensures forall c :: Received(handOffs, c) == Received(old(handOffs), c)
                + (if old(active) && c in Signals() then [SIGNAL_NEW_MESSAGE, SIGNAL_SESSION_END] else [])
    {
      if active {
        Announce();
        FinalizeLog();
      } else {
        assert forall c :: Received(handOffs, c) + [] == Received(handOffs, c);
      }
    }

    /** Everything in End but the log's last bytes. */
    method Announce()
      requires Valid() && active
      modifies this`active, this`events, this`log, this`handOffs
      ensures Valid() && !active && events == old(events) + [SessionStop]
      ensures handOffs == old(handOffs) + ToAll(Signals(), SIGNAL_NEW_MESSAGE) + ToAll(Signals(), SIGNAL_SESSION_END)
      ensures old(LogInStep()) ==> LogInStep()
      ensures forall c :: Received(handOffs, c) == Received(old(handOffs), c)
                + (if c in Signals() then [SIGNAL_NEW_MESSAGE, SIGNAL_SESSION_END] else [])
    {
      active := false;
      HandleEvent(SessionStop);
      SendSignalToClients(SIGNAL_SESSION_END);
      EveryoneIsTold(old(handOffs), Signals());
    }

    method FinalizeLog()
      modifies this`log, this`logOpen
      ensures !logOpen
      ensures old(LogInStep()) ==> log == found + LogText(Entries(entry, events))
    {
      WrittenIsLogText(entry, events, []);
      assert events + [] == events;
      Assoc(found, Written(entry, events), BRACKET);
      AppendToLog(BRACKET);
      logOpen := false;
    }

    /** Moves the list to a larger array. */
    method Grow()
      requires Valid()
      modifies this`msgSignal
      ensures Valid() && Signals() == old(Signals())
      ensures fresh(msgSignal) && signalCount < msgSignal.Length
    {
      var larger := new nat[2 * signalCount + 1];
      for i := 0 to signalCount
        invariant msgSignal == old(msgSignal) && larger[..i] == msgSignal[..i]
      {
        larger[i] := msgSignal[i];
      }
      msgSignal := larger;
      assert Signals() == old(Signals());
    }

    /** A connection of one thread, from its log's first byte to its last. The file reads back as exactly
        the session's events if and only if the remote host was reached and no earlier session wrote to
        it; otherwise it is not JSON. */
    method HandleClientConn(connected: bool, body: seq<SessionEvent>, ghost earlier: seq<Earlier>)
      requires Valid() && active && threadCount == 0 && events == []
      requires log == OnDisk(earlier, "")
      requires forall e :: entry(e).start <==> e.SessionStart?
      requires SessionStart !in body
      modifies this`threadCount, this`active, this`events, this`log, this`logOpen, this`found, this`handOffs
      ensures events == WholeSession(connected, body) && !active && !logOpen
      ensures connected ==> events == [SessionStart] + body + [SessionStop]
      ensures !connected ==> events == [SessionStop]
      ensures ReadLog(log) == if connected && earlier == [] then Some(Logged(Entries(entry, events))) else None
    {
      MarkThreadStarted();
      Converse(connected, body);
      LastThreadLeaves();
      SessionReadsBack(entry, earlier, connected, body);
    }

    /** Everything between the first and the last step of a connection. */
    method Converse(connected: bool, body: seq<SessionEvent>)
      requires Valid() && events == []
      modifies this`events, this`log, this`logOpen, this`found, this`handOffs
      ensures Valid() && LogInStep() && found == old(log)
      ensures events + [SessionStop] == WholeSession(connected, body)
    {
      InitializeLog();
      if connected {
        HandleEvent(SessionStart);
        HandleEvents(body);
      }
    }

    /** The common case of MarkThreadStopped, in terms of the events and the log only. */
    method LastThreadLeaves()
      requires Valid() && active && threadCount == 1 && LogInStep()
      modifies this`threadCount, this`active, this`events, this`log, this`logOpen, this`handOffs
      ensures !active && !logOpen && events == old(events) + [SessionStop]
      ensures log == found + LogText(Entries(entry, events))
    {
      MarkThreadStopped();
    }

    method HandleEvents(body: seq<SessionEvent>)
      requires Valid() && LogInStep()
      modifies this`events, this`log, this`handOffs
      ensures Valid() && LogInStep() && events == old(events) + body
    {
      for i := 0 to |body|
        invariant Valid() && LogInStep() && events == old(events) + body[..i]
      {
        PrefixSnoc(old(events), body, i);
        HandleEvent(body[i]);
      }
      assert body[..|body|] == body;
    }

    /** Go's append: in place while there is room, otherwise into a larger array. */
    method MakeNewSignal() returns (c: nat)
      requires Valid()
      modifies this`msgSignal, this`signalCount, this`channels, msgSignal
      ensures Valid() && c == old(channels) && channels == old(channels) + 1
      ensures Signals() == old(Signals()) + [c] && signalCount == old(signalCount) + 1
      ensures msgSignal == old(msgSignal) || (fresh(msgSignal) && old(signalCount) == old(msgSignal).Length)
      ensures forall k :: 0 <= k < old(msgSignal).Length && k != old(signalCount) ==>
                old(msgSignal)[k] == old(msgSignal[k])
    {
      c := channels;
      if signalCount == msgSignal.Length {
        Grow();
      }
      assert forall k :: 0 <= k < |Signals()| ==> Signals()[k] in Signals();
      channels := channels + 1;
      msgSignal[signalCount] := c;
      signalCount := signalCount + 1;
      assert Signals() == old(Signals()) + [c];
    }

    method RemoveSignal(c: nat)
      requires Valid()
      modifies this`signalCount, msgSignal
      ensures Valid() && Signals() == SwapRemove(old(Signals()), c)
      ensures forall k :: 0 <= k < msgSignal.Length && k != Find(old(Signals()), c) ==>
                msgSignal[k] == old(msgSignal[k])
    {
      SwapRemoveOfDistinct(Signals(), c);
      var n := signalCount;
      for i := 0 to n
        invariant signalCount == n && msgSignal[..] == old(msgSignal[..])
        invariant forall k :: 0 <= k < i ==> msgSignal[k] != c
      {
        if msgSignal[i] == c {
          msgSignal[i] := msgSignal[n - 1];
          signalCount := n - 1;
          break;
        }
      }
      assert Signals() == SwapRemove(old(Signals()), c);
    }

    /** The END broadcast of a call that does not hold the mutex: `range` walks the captured header over
        the captured array, and after each hand-off others do what `meanwhile` says. `held` names the
        channel in each slot when the walk came to it: the one captured there, or a later one that
        overwrote it. Those and no others are signalled, each once and in order; afterwards, when all of
        them have left, the list holds exactly the rest. If nobody registers during the walk, these are
        the captured channels, and the list ends empty. */
    method SignalSessionEnd(meanwhile: seq<seq<Happening>>) returns (ghost held: seq<nat>)
      requires Valid()
      modifies this`handOffs, this`signalCount, this`msgSignal, this`channels, msgSignal
      ensures Valid() && handOffs == old(handOffs) + ToAll(held, SIGNAL_SESSION_END)
      ensures |held| == |old(Signals())| && Distinct(held)
      ensures forall k :: 0 <= k < |held| ==> held[k] == old(Signals())[k] || old(channels) <= held[k] < channels
      ensures forall c :: c in Signals() <==> (c in old(Signals()) || old(channels) <= c < channels) && c !in held
      ensures channels == old(channels) ==> held == old(Signals()) && Signals() == []
    {
      ghost var backing, was, base := msgSignal, Signals(), channels;
      var leaving;
      held, leaving := WalkAll(meanwhile);
      AllLeave(backing, was, base, held, |was|, leaving);
      WalkIsOver(backing, was, base, held);
    }

    method WalkAll(meanwhile: seq<seq<Happening>>) returns (ghost held: seq<nat>, leaving: set<nat>)
      requires Valid()
      modifies this`handOffs, this`signalCount, this`msgSignal, this`channels, msgSignal
      ensures Walking(old(msgSignal), old(Signals()), old(channels), held, |held|, leaving)
      ensures handOffs == old(handOffs) + ToAll(held, SIGNAL_SESSION_END)
      ensures msgSignal == old(msgSignal) || fresh(msgSignal)
    {
      var backing, n := msgSignal, signalCount;
      ghost var was, base := Signals(), channels;
      held, leaving := was, {};
      WalkStarts();
      for i := 0 to n
        invariant |was| == n && (msgSignal == backing || fresh(msgSignal))
        invariant Walking(backing, was, base, held, i, leaving)
        invariant handOffs == old(handOffs) + ToAll(held[..i], SIGNAL_SESSION_END)
      {
        ghost var before := held;
        held, leaving := EndOne(backing, was, base, held, i, leaving, if i < |meanwhile| then meanwhile[i] else []);
        ToAllNext(before, held, i, SIGNAL_SESSION_END);
      }
      assert held[..n] == held;
    }

    lemma WalkIsOver(backing: array<nat>, was: seq<nat>, base: nat, held: seq<nat>)
      requires Walking(backing, was, base, held, |was|, {})
      ensures forall c :: c in Signals() <==> (c in was || base <= c < channels) && c !in held
      ensures channels == base ==> held == was && Signals() == []
    {
      assert held[..|was|] == held;
      if channels == base {
        assert held == was;
        HasElement(Signals());
      }
    }

    /** `i` slots have been read, `leaving` of their channels are still on the list. The slots still to
        be read hold what `held` says, which is on the list and has not been signalled. */
    ghost predicate Walking(backing: array<nat>, was: seq<nat>, base: nat, held: seq<nat>, i: nat, leaving: set<nat>)
      reads this, msgSignal, backing
    {
      && Valid() && i <= |was| == |held| <= backing.Length && base <= channels
      && Distinct(held)
      && (forall k :: 0 <= k < |was| ==> was[k] < base && (held[k] == was[k] || base <= held[k] < channels))
      && (forall k :: i <= k < |was| ==> backing[k] == held[k])
      && (forall c :: c in leaving ==> c in held[..i])
      && (forall c :: c in Signals() <==> (c in was || base <= c < channels) && (c !in held[..i] || c in leaving))
      && (msgSignal == backing ==> forall p :: i <= p < signalCount ==> msgSignal[p] !in leaving)
    }

    lemma WalkStarts()
      requires Valid()
      ensures Walking(msgSignal, Signals(), channels, Signals(), 0, {})
    {
      forall k | 0 <= k < |Signals()|
        ensures Signals()[k] < channels
      {
        assert Signals()[k] in Signals();
      }
    }

    /** One step of the walk, and then whatever happens before the next. */
    method EndOne(backing: array<nat>, ghost was: seq<nat>, ghost base: nat,
            ghost held: seq<nat>, i: nat, leaving: set<nat>, happenings: seq<Happening>)
      returns (ghost newHeld: seq<nat>, left: set<nat>)
      requires Walking(backing, was, base, held, i, leaving) && i < |was|
      modifies this`handOffs, this`signalCount, this`msgSignal, this`channels, msgSignal
      ensures Walking(backing, was, base, newHeld, i + 1, left)
      ensures handOffs == old(handOffs) + [HandOff(held[i], SIGNAL_SESSION_END)]
      ensures newHeld[..i + 1] == held[..i + 1] && (msgSignal == old(msgSignal) || fresh(msgSignal))
    {
      handOffs := handOffs + [HandOff(backing[i], SIGNAL_SESSION_END)];
      HandedOver(backing, was, base, held, i, leaving);
      newHeld, left := Meanwhile(backing, was, base, held, i + 1, leaving + {backing[i]}, happenings);
    }

    /** The receiver of the hand-off is now one of those that leave. */
    lemma HandedOver(backing: array<nat>, was: seq<nat>, base: nat, held: seq<nat>, i: nat, leaving: set<nat>)
      requires Walking(backing, was, base, held, i, leaving) && i < |was|
      ensures Walking(backing, was, base, held, i + 1, leaving + {backing[i]})
    {
      var x := backing[i];
      assert held[..i + 1] == held[..i] + [x];
      forall k | 0 <= k < i
        ensures held[..i][k] != x
      {
      }
      if msgSignal == backing {
        forall p | i + 1 <= p < signalCount
          ensures msgSignal[p] !in leaving + {x}
        {
          assert Signals()[p] == msgSignal[p] && Signals()[i] == x;
        }
      }
    }

    method Meanwhile(ghost backing: array<nat>, ghost was: seq<nat>, ghost base: nat,
            ghost held: seq<nat>, ghost i: nat, leaving: set<nat>, happenings: seq<Happening>)
      returns (ghost newHeld: seq<nat>, left: set<nat>)
      requires Walking(backing, was, base, held, i, leaving)
      modifies this`signalCount, this`msgSignal, this`channels, msgSignal
      ensures Walking(backing, was, base, newHeld, i, left) && newHeld[..i] == held[..i]
      ensures msgSignal == old(msgSignal) || fresh(msgSignal)
    {
      newHeld, left := held, leaving;
      for k := 0 to |happenings|
        invariant Walking(backing, was, base, newHeld, i, left) && newHeld[..i] == held[..i]
        invariant msgSignal == old(msgSignal) || fresh(msgSignal)
      {
        match happenings[k] {
          case Joins =>
            newHeld := Join(backing, was, base, newHeld, i, left);
          case Leaves(c) =>
            if c in left {
              Depart(backing, was, base, newHeld, i, left, c);
              left := left - {c};
            }
        }
      }
    }

    /** A registration during the walk; it may take a slot that is still to be read. */
    method Join(ghost backing: array<nat>, ghost was: seq<nat>, ghost base: nat,
            ghost held: seq<nat>, ghost i: nat, ghost leaving: set<nat>)
      returns (ghost newHeld: seq<nat>)
      requires Walking(backing, was, base, held, i, leaving)
      modifies this`signalCount, this`msgSignal, this`channels, msgSignal
      ensures Walking(backing, was, base, newHeld, i, leaving) && newHeld[..i] == held[..i]
      ensures msgSignal == old(msgSignal) || fresh(msgSignal)
    {
      ghost var p, takes := signalCount, msgSignal == backing && i <= signalCount < |was|;
      var c := MakeNewSignal();
      newHeld := if takes then held[p := c] else held;
      TakesSlot(was, base, held, c, if takes then p else |held|);
      OldHolders(was, base, held, i, c);
      assert newHeld[..i] == held[..i];
      assert forall k :: i <= k < |was| ==> backing[k] == newHeld[k];
      assert forall x :: x in Signals() <==> x in old(Signals()) || x == c by {
        assert Signals() == old(Signals()) + [c];
      }
      assert c !in leaving;
    }

    method Depart(ghost backing: array<nat>, ghost was: seq<nat>, ghost base: nat,
            ghost held: seq<nat>, ghost i: nat, ghost leaving: set<nat>, c: nat)
      requires Walking(backing, was, base, held, i, leaving) && c in leaving
      modifies this`signalCount, msgSignal
      ensures Walking(backing, was, base, held, i, leaving - {c})
    {
      SwapRemoveOfDistinct(Signals(), c);
      ghost var p := Find(Signals(), c);
      assert c in Signals() && p < |Signals()|;
      assert msgSignal == backing ==> p < i;
      RemoveSignal(c);
    }

    /** In the end everybody that was signalled leaves. */
    method AllLeave(ghost backing: array<nat>, ghost was: seq<nat>, ghost base: nat,
            ghost held: seq<nat>, ghost i: nat, leaving: set<nat>)
      requires Walking(backing, was, base, held, i, leaving)
      modifies this`signalCount, msgSignal
      ensures Walking(backing, was, base, held, i, {})
    {
      var left := leaving;
      while left != {}
        invariant Walking(backing, was, base, held, i, left)
        decreases left
      {
        var c :| c in left;
        Depart(backing, was, base, held, i, left, c);
        left := left - {c};
      }
    }
  }
}
