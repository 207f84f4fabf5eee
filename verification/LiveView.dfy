/** A live viewer end to end: the session protocol on one side, a terminal reader on the other, and a
    socket with at most one message or ack on it. It starts when the user picks the session: the reader
    is reset, with the timers of whatever it played before still outstanding, and the socket is opening.
    The protocol keeps taking any steps it likes; the user keeps pressing buttons and timers keep firing. */
module LiveView {
  import opened Events
  import opened Playback
  import P = SessionProtocol
  import I = SessionInvariants
  import T = SessionTheorems

  datatype Wire = Quiet | Carrying(e: SessionEvent) | Acked

  /** The page opens a socket, asks for the session, is served as a viewer, and closes the socket at
      session-stop; whatever the server still has to send then fails. */
  datatype Stage = Opening | Asked | Served | Finished

  /** `v` is the page's viewer once it is served. */
  datatype Live = Live(
    s: P.State, v: nat, stage: Stage, wire: Wire,
    reader: Player, timers: nat, messages: nat, acks: nat)

  datatype Action =
    | Protocol(a: P.Action)
    | Open
    | Serve(n: nat, spare: nat)
    | SendMessage
    | ReceiveMessage
    | ReceiveAck
    | SocketFails
    | User(i: Input)

  ghost predicate Start(l: Live) {
    && P.Reachable(l.s) && l.stage == Opening && l.wire == Quiet && l.messages == l.acks == 0
    && l.reader == Player([], 0, false, false)
  }

  predicate Viewing(l: Live) {
    l.stage == Served || l.stage == Finished
  }

  predicate Enabled(l: Live, a: Action) {
    match a
    case Protocol(p) => P.Enabled(l.s, p) && !(Viewing(l) && (p.Transmit? || p.Fail?) && p.v == l.v)
    case Open => l.stage == Opening
    case Serve(n, spare) => l.stage == Asked && P.Enabled(l.s, P.Register(n, spare))
    case SendMessage => l.stage == Served && l.wire.Quiet? && P.Enabled(l.s, P.Transmit(l.v, true))
    case ReceiveMessage => l.stage == Served && l.wire.Carrying?
    case ReceiveAck => Viewing(l) && l.wire.Acked? && P.Enabled(l.s, P.Transmit(l.v, true))
    case SocketFails => l.stage == Finished && l.wire.Quiet? && P.Enabled(l.s, P.Fail(l.v))
    case User(i) =>
      !i.Load? && !i.Reset? && !i.SetLive? && !i.SetDisconnected? && (i.Timer? ==> l.timers > 0)
  }

  /** A message is loaded and processed; it is answered as often as the callback runs. */
  function Receive(l: Live): Live
    requires l.wire.Carrying?
  {
    var received := React(l.reader, Load([l.wire.e]));
    var stop := l.wire.e.SessionStop?;
    l.(reader := if stop then Process(received).(live := false) else Process(received),
       timers := l.timers + Process(received).index - received.index,
       wire := if Callbacks(received) == 1 then Acked else Quiet,
       stage := if stop then Finished else l.stage,
       messages := l.messages + 1,
       acks := l.acks + Callbacks(received))
  }

  function Next(l: Live, a: Action): Live
    requires Enabled(l, a)
  {
    match a
    case Protocol(p) => l.(s := P.Next(l.s, p))
    case Open => l.(stage := Asked, reader := React(l.reader, SetLive))
    case Serve(n, spare) => l.(stage := Served, s := P.Next(l.s, P.Register(n, spare)), v := |l.s.viewers|)
    case SendMessage => l.(wire := Carrying(l.s.events[l.s.viewers[l.v].cursor].event))
    case ReceiveMessage => Receive(l)
    case ReceiveAck => l.(s := P.Next(l.s, P.Transmit(l.v, true)), wire := Quiet)
    case SocketFails => l.(s := P.Next(l.s, P.Fail(l.v)))
    case User(i) =>
      l.(reader := React(l.reader, i), timers := l.timers + Armed(l.reader, i) - (if i.Timer? then 1 else 0))
  }

  function Payloads(posted: seq<P.Posted>): (r: seq<SessionEvent>)
    ensures |r| == |posted|
  {
    seq(|posted|, i requires 0 <= i < |posted| => posted[i].event)
  }

  /** How many events the page has been given. */
  function Given(l: Live): nat {
    if Viewing(l) && l.v < |l.s.viewers| then
      |l.s.viewers[l.v].acked| + (if l.wire.Acked? then 1 else 0)
    else 0
  }

  ghost predicate Inv(l: Live) {
    && P.Reachable(l.s) && Given(l) <= |l.s.events|
    && (Viewing(l) ==> l.v < |l.s.viewers|)
    && (Viewing(l) && l.s.viewers[l.v].broken ==> l.stage == Finished)
    && l.reader.events == Payloads(l.s.events[..Given(l)])
    && InRange(l.reader)
    && (!l.wire.Quiet? ==> Viewing(l) && P.Enabled(l.s, P.Transmit(l.v, true)))
    && (l.wire.Carrying? ==> l.s.viewers[l.v].cursor < |l.s.events|
                             && l.wire.e == l.s.events[l.s.viewers[l.v].cursor].event)
    && (l.reader.live <==> l.stage == Asked || l.stage == Served)
    && l.messages == l.acks
  }

  lemma EventsGrow(s: P.State, a: P.Action)
    requires P.Enabled(s, a)
    ensures s.events <= P.Next(s, a).events
  {
  }

  /** Other steps of the protocol leave a viewer alone while it delivers. */
  lemma ViewerFrame(s: P.State, a: P.Action, v: nat)
    requires P.Enabled(s, a) && v < |s.viewers| && !((a.Transmit? || a.Fail?) && a.v == v)
    ensures v < |P.Next(s, a).viewers| && P.Next(s, a).viewers[v].acked == s.viewers[v].acked
    ensures P.Next(s, a).viewers[v].broken == s.viewers[v].broken
    ensures P.Enabled(s, P.Transmit(v, true)) ==> P.Next(s, a).viewers[v] == s.viewers[v]
  {
    I.StepMoves(s, a, v);
  }

  lemma InvAtStart(l: Live)
    requires Start(l)
    ensures Inv(l)
  {
  }

  lemma KeepsInv(l: Live, a: Action)
    requires Inv(l) && Enabled(l, a)
    ensures Inv(Next(l, a))
  {
    match a
    case Protocol(p) => AfterProtocol(l, p);
    case Open =>
    case Serve(n, spare) => AfterServe(l, n, spare);
    case ReceiveMessage => AfterReceive(l);
    case ReceiveAck => AfterAck(l);
    case SendMessage => assert l.s.viewers[l.v].cursor < |l.s.events|;
    case SocketFails => AfterFailure(l);
    case User(i) => assert Next(l, a).reader.events == l.reader.events;
  }

  lemma AfterProtocol(l: Live, p: P.Action)
    requires Inv(l) && Enabled(l, Protocol(p))
    ensures Inv(Next(l, Protocol(p)))
  {
    EventsGrow(l.s, p);
    if Viewing(l) {
      ViewerFrame(l.s, p, l.v);
    }
    var s' := T.Step(l.s, p);
    assert s'.events[..Given(l)] == l.s.events[..Given(l)];
  }

  lemma AfterServe(l: Live, n: nat, spare: nat)
    requires Inv(l) && Enabled(l, Serve(n, spare))
    ensures Inv(Next(l, Serve(n, spare)))
  {
    var s' := T.Step(l.s, P.Register(n, spare));
    assert s'.viewers[|l.s.viewers|].acked == [] && !s'.viewers[|l.s.viewers|].broken;
  }

  lemma AfterReceive(l: Live)
    requires Inv(l) && Enabled(l, ReceiveMessage)
    ensures Inv(Next(l, ReceiveMessage))
  {
    var c := l.s.viewers[l.v].cursor;
    I.ReachableInv(l.s);
    assert I.ViewerOk(l.s.viewers[l.v], l.s.events);
    assert l.s.events[..c + 1] == l.s.events[..c] + [l.s.events[c]];
    assert Payloads(l.s.events[..c + 1]) == Payloads(l.s.events[..c]) + [l.wire.e];
  }

  lemma AfterAck(l: Live)
    requires Inv(l) && Enabled(l, ReceiveAck)
    ensures Inv(Next(l, ReceiveAck))
  {
    var s' := T.Step(l.s, P.Transmit(l.v, true));
    assert s'.events == l.s.events && |s'.viewers[l.v].acked| == |l.s.viewers[l.v].acked| + 1;
  }

  lemma AfterFailure(l: Live)
    requires Inv(l) && Enabled(l, SocketFails)
    ensures Inv(Next(l, SocketFails))
  {
    var s' := T.Step(l.s, P.Fail(l.v));
    assert s'.events == l.s.events && s'.viewers[l.v].acked == l.s.viewers[l.v].acked;
  }

  predicate Legal(l: Live, run: seq<Action>)
    decreases |run|
  {
    run == [] || (Enabled(l, run[0]) && Legal(Next(l, run[0]), run[1..]))
  }

  function After(l: Live, run: seq<Action>): Live
    requires Legal(l, run)
    decreases |run|
  {
    if run == [] then l else After(Next(l, run[0]), run[1..])
  }

  lemma {:induction false} RunsKeepInv(l: Live, run: seq<Action>)
    requires Inv(l) && Legal(l, run)
    ensures Inv(After(l, run))
    decreases |run|
  {
    if run != [] {
      KeepsInv(l, run[0]);
      RunsKeepInv(Next(l, run[0]), run[1..]);
    }
  }

  /** In every run, paused or not and whatever the user does: each message has been answered by exactly
      one ack, the page's events are a prefix of the server's list, and the terminal shows the
      rendering of a prefix of that list. */
  lemma LiveViewShowsAPrefix(nl: string -> string, start: Live, run: seq<Action>)
    requires Start(start) && Legal(start, run)
    ensures var l := After(start, run);
            && l.messages == l.acks
            && l.reader.events <= Payloads(l.s.events)
            && l.reader.index <= |l.reader.events|
            && Text(nl, l.reader) == Render(nl, Payloads(l.s.events), l.reader.index)
  {
    InvAtStart(start);
    RunsKeepInv(start, run);
    var l := After(start, run);
    assert Payloads(l.s.events[..Given(l)]) == Payloads(l.s.events)[..Given(l)];
    RenderPrefix(nl, l.reader.events, Payloads(l.s.events), l.reader.index);
  }

  // ---------- The user leaves the page alone ----------

  predicate HandsOff(run: seq<Action>) {
    forall i :: 0 <= i < |run| && run[i].User? ==> run[i].i.Timer?
  }

  /** A timer left over from before the reset fires while the socket is still opening. */
  predicate StaleTimer(run: seq<Action>) {
    run != [] && !run[0].Open? && (run[0].User? || StaleTimer(run[1..]))
  }

  /** What an untouched page shows: everything it was given, or nothing at all if it is stalled. */
  predicate Shows(l: Live, stalled: bool) {
    && l.reader.index == (if stalled then 0 else Given(l))
    && (stalled ==> l.reader.paused)
    && (!stalled && l.stage != Finished ==> !l.reader.paused)
  }

  lemma StepShows(l: Live, a: Action, stalled: bool)
    requires Inv(l) && Enabled(l, a) && Shows(l, stalled) && (a.User? ==> a.i.Timer?)
    ensures Shows(Next(l, a), stalled || (l.stage == Opening && a.User?))
  {
    KeepsInv(l, a);
    assert |l.reader.events| == Given(l);
    match a
    case Protocol(p) =>
      if Viewing(l) {
        ViewerFrame(l.s, p, l.v);
      }
    case _ =>
  }

  lemma {:induction false} RunShows(l: Live, run: seq<Action>, stalled: bool)
    requires Inv(l) && Legal(l, run) && HandsOff(run) && Shows(l, stalled)
    ensures Shows(After(l, run), stalled || (l.stage == Opening && StaleTimer(run)))
    decreases |run|
  {
    if run != [] {
      assert run[0].User? ==> run[0].i.Timer?;
      KeepsInv(l, run[0]);
      StepShows(l, run[0], stalled);
      StageMoves(l, run[0]);
      var stalls := stalled || (l.stage == Opening && run[0].User?);
      RunShows(Next(l, run[0]), run[1..], stalls);
    }
  }

  /** Only Open ends the opening. */
  lemma StageMoves(l: Live, a: Action)
    requires Enabled(l, a)
    ensures Next(l, a).stage == Opening <==> l.stage == Opening && !a.Open?
  {
  }

  /** A page nobody touches shows everything it was given, which is what the server got an ack for plus
      at most the event whose ack is under way, if and only if no stale timer fired while the socket was
      opening or it was given nothing. After a stale timer it stays blank for good. */
  lemma UntouchedViewIsCurrent(start: Live, run: seq<Action>)
    requires Start(start) && Legal(start, run) && HandsOff(run)
    ensures var l := After(start, run);
            && |l.reader.events| == Given(l)
            && (l.reader.index == Given(l) <==> !StaleTimer(run) || Given(l) == 0)
            && (StaleTimer(run) ==> l.reader.index == 0)
  {
    InvAtStart(start);
    RunsKeepInv(start, run);
    RunShows(start, run, false);
  }

  /** One event that everybody should see. */
  const HELLO := NewMessage("incoming", "hello")

  lemma Prepend(l: Live, a: Action, run: seq<Action>)
    requires Enabled(l, a) && Legal(Next(l, a), run)
    ensures Legal(l, [a] + run) && After(l, [a] + run) == After(Next(l, a), run)
  {
    assert ([a] + run)[1..] == run;
  }

  /** The page has received HELLO, acked it, and shows none of it. */
  predicate Blank(l: Live) {
    && l.messages == l.acks == 1 && l.reader == Player([HELLO], 0, true, true)
  }

  lemma SentIsBlank(l: Live) returns (run: seq<Action>)
    requires l.stage == Served && l.wire == Carrying(HELLO) && l.messages == l.acks == 0
    requires l.reader == Player([], 0, true, true)
    ensures run == [ReceiveMessage] && Legal(l, run) && Blank(After(l, run))
  {
    run := [ReceiveMessage];
    assert Legal(Next(l, ReceiveMessage), []);
    Prepend(l, ReceiveMessage, []);
    assert [ReceiveMessage] + [] == run;
  }

  lemma AskedIsBlank(l: Live) returns (run: seq<Action>)
    requires l.stage == Asked && l.wire == Quiet && l.messages == l.acks == 0
    requires l.reader == Player([], 0, true, true)
    requires l.s == T.Unheard(P.INITIAL, 1, HELLO)
    ensures run == [Serve(1, 0), SendMessage, ReceiveMessage] && Legal(l, run) && Blank(After(l, run))
  {
    var served := Next(l, Serve(1, 0));
    var sent := Next(served, SendMessage);
    run := SentIsBlank(sent);
    Prepend(served, SendMessage, run);
    run := [SendMessage] + run;
    Prepend(l, Serve(1, 0), run);
    run := [Serve(1, 0)] + run;
  }

  lemma OpeningIsBlank(l: Live) returns (run: seq<Action>)
    requires l.stage == Opening && l.wire == Quiet && l.messages == l.acks == 0 && l.timers > 0
    requires l.reader == Player([], 0, false, false)
    requires l.s == T.Unheard(P.INITIAL, 1, HELLO)
    ensures run == [User(Timer), Open, Serve(1, 0), SendMessage, ReceiveMessage]
    ensures Legal(l, run) && Blank(After(l, run))
  {
    var paused := Next(l, User(Timer));
    var asked := Next(paused, Open);
    run := AskedIsBlank(asked);
    Prepend(paused, Open, run);
    run := [Open] + run;
    Prepend(l, User(Timer), run);
    run := [User(Timer)] + run;
  }

  /** It happens: the page acks the message and shows none of it, and nothing will un-pause it. */
  lemma StaleTimerBlanksThePage(nl: string -> string) returns (start: Live, run: seq<Action>)
    ensures Start(start) && Legal(start, run) && HandsOff(run) && StaleTimer(run)
    ensures var l := After(start, run);
            Blank(l) && Text(nl, l.reader) == "" && Rendering(nl, HELLO) == nl("hello")
  {
    T.HandledUnheard(P.INITIAL, 1, HELLO);
    start := Live(T.Unheard(P.INITIAL, 1, HELLO), 0, Opening, Quiet, Player([], 0, false, false), 1, 0, 0);
    run := OpeningIsBlank(start);
  }
}
