# A verified model of the recording SSH proxy

The proxy sits between an SSH client and a server, records every session as a list of events, writes
the same events to a log file, and lets any number of web viewers watch a session live or replay it.
This project models the parts of it in which a mistake would be hardest to see, and proves what each of
them keeps:

* **the session pipeline**: writers appending, logging and broadcasting events, viewers being
  signalled and sending events one acknowledged message at a time, and the end of the session;
* **the playback machine** in the browser: incremental play, seeking, resetting, stale timers, live
  mode, the newline and keystroke rewriting, the rescaling of delays;
* **the registries**: callbacks and filters removed inside a running `range`, unique keys, and the
  relinking of viewers to users.

`dafny verify dfyconfig.toml` checks everything.

## How it is laid out

| file | contents |
|---|---|
| `Prelude.dfy` | shared small definitions |
| `Events.dfy` | the event type shared by server and browser |
| `SessionProtocol.dfy` | the session as atomic steps: one lock-protected block, unsynchronised read or channel hand-off each |
| `SessionInvariants.dfy` | seven invariants, each kept by every step |
| `SessionList.dfy` | the list of channels over whole runs, and whom END reaches |
| `SessionTheorems.dfy` | what the invariants mean for viewers and for the log |
| `SessionRuns.dfy` | facts about the steps of a run: who waits for the mutex, which acks count |
| `SessionContext.dfy` | the session's methods run without interference, and the END broadcast during which receivers remove themselves |
| `Lifecycle.dfy` | threads, `active` and every call of `End`, with test and clearing as separate steps |
| `JsonText.dfy` | JSON objects as they are written, and a decoder for them |
| `SessionLog.dfy` | the log text and a reader of JSON arrays |
| `SessionFile.dfy` | the log file under every interleaving of writers and End |
| `PlaySession.dfy` | the server side of one viewer's socket against any stream of replies |
| `Playback.dfy`, `TerminalReader.dfy` | the simple player, and the reader class that refines it |
| `LiveView.dfy` | the protocol and the player composed over a socket |
| `Newlines.dfy`, `Keystrokes.dfy`, `KeyNames.dfy`, `DelayClock.dfy` | text rewriting and delay arithmetic of the reader |
| `Slices.dfy`, `HookList.dfy`, `ControllerKeys.dfy`, `ProxyRegistry.dfy` | the registries |
| `TerminalSize.dfy` | pty-req and window-change payloads (sections 6.2 and 6.7 of RFC 4254) |

Goroutines interleave, so the pipeline is a state machine over values: no sequential method body could
stand for it. The step functions follow the bodies of the Go functions, and the classes
`SessionContext.Session` and `PlaySession.Connection` give the same functions in sequential form. Code
that runs on one thread is a class with the source's fields, proved against a specification function.

## What turned out not to hold

Each of these is stated with its exact condition, and the lemma named here either is the
if-and-only-if or exhibits a run.

* A viewer reads the list length before it registers. An event broadcast in between is never announced
  to it (`SessionTheorems.NoLostWakeup`, `SessionTheorems.GapLosesAnEvent`).
* `Stop` ends sessions without the mutex, so a viewer registering between the two broadcasts can be
  ended without having been sent the session-stop (`SessionTheorems.FinalDelivery`,
  `SessionTheorems.UnlockedEndSkipsALateViewer`).
* The END broadcast of `Stop` walks an array in which departures and registrations move channels. A
  registration into a slot the walk has not read yet, which takes an earlier departure, strands the
  viewer that was captured there (`SessionList.EndReachesAllButTheOverwritten`,
  `SessionTheorems.EndStrandsAViewer`).
* A writer in mid-broadcast waits in vain exactly when END has already reached the viewer its next slot
  names, which before the first departure is exactly when the END walk has overtaken it; as long as
  nobody registers or leaves, it then waits for good (`SessionTheorems.StuckIffOvertaken`,
  `SessionTheorems.StuckForGood`, `SessionTheorems.WriterGetsStuck`). End itself never waits in vain
  (`SessionList.EndCanGoOn`).
* `Stop` and the last thread, or two calls of `Stop`, can each append a session-stop
  (`Lifecycle.AtMostOneStop`, `Lifecycle.StopRacesLastThread`, `Lifecycle.StopsCanDouble`). Without
  `Stop` there is at most one (`Lifecycle.MutexMeansOneStop`).
* A session whose remote host could not be reached has no session-start, and its log is not JSON. Log
  files are opened for appending under a name made of the address pair, so when the pair is reused and
  the file is still there, neither session's log can be read
  (`SessionLog.LogRoundTrip`, `SessionLog.ReopenedIsUnreadable`, `SessionContext.Session.HandleClientConn`).
* A writer can log between the closing bracket and the closing of the file, and the file is not JSON
  (`SessionFile.SealedFileReadsBack`, `SessionFile.LateRecordSpoilsTheFile`).
* A playback timer left over from an earlier recording that fires while a live session's socket is
  opening pauses the reader. The page then acks everything and shows nothing until somebody presses
  play (`LiveView.UntouchedViewIsCurrent`, `LiveView.StaleTimerBlanksThePage`).
* Seeking to the current index is ignored, so the event there stays unshown (`Playback.SeekEqualsPlay`).
* `next` then `prev` is not the identity at either end of a recording (`Playback.NextThenPrev`).
* A rescaled delay goes through `parseInt`, which reads the leading digit of a number below 10^-6 or
  from 10^21 up (`DelayClock.RescaleBounds`, `DelayClock.SmallDelayGrows`, `DelayClock.LargeDelayIsLost`).
* A callback added twice can make its own removal index out of range (`HookList.Hooks.Remove`,
  `HookList.TwiceIsNotRemovable`).
* A TERM of 256 bytes or more is taken for the terminal size (`TerminalSize.PtyReqRoundTrip`).

## Model

| member | source | states |
|---|---|---|
| Slices.Find | session.go:425-431 | the position `RemoveSignal` finds is the first one holding the channel, or the length if there is none |
| SessionInvariants.KeepsViewers | web.go:185-213 | no step of anybody breaks: cursor within target within list; acked events are the first of the list, up to the cursor unless the viewer's socket has failed; a viewer that is not delivering has caught up with its target |
| SessionInvariants.KeepsWriters | events.go:88-105 | an event's broadcast has started exactly when its own writer is in it; every event not yet broadcast still has a writer |
| SessionInvariants.KeepsList | session.go:415-434 | until the first removal the live list and every header captured by a `range` hold the channels in order of registration, through in-place and reallocating appends |
| SessionInvariants.KeepsWakeups | session.go:293-301 | for each event and viewer: the viewer's registration came too late, or the signal is still due, or it was received, or the viewer has read a length beyond the event |
| SessionInvariants.KeepsEnding | session.go:317-344 | the session-stop is the one event written by End, and no viewer is ended before it was broadcast |
| SessionInvariants.KeepsDelivery | session.go:317-344 | once END is being sent, viewers registered before the stop have it within their target; under the mutex nobody else is sent END |
| SessionInvariants.KeepsLog | events.go:63-86 | per writer the log lags memory by exactly the event between append and log |
| SessionInvariants.ReachableInv | session.go:293-344 | all seven invariants hold in every state of every run |
| SessionTheorems.NoLostWakeup | web.go:185-213 | before the first departure, an event a blocked viewer has not seen is still owed to it if and only if its broadcast did not capture the list before the viewer registered; registering before the append is enough |
| SessionTheorems.NobodyLeavesBeforeEnd | web.go:197-202 | until END goes out every registered viewer is still on the list |
| SessionTheorems.QuietViewerIsUpToDate | web.go:185-213 | with all writers done, a blocked viewer has dealt with the whole list if anything was appended since it registered, and acked it in order if its socket works; it lacks only events broadcast before it registered |
| SessionTheorems.GapLosesAnEvent | web.go:187-189 | a run in which the only event is never delivered, although no writer is left |
| SessionTheorems.AckedIsPrefix | web.go:112-136 | under every interleaving, socket failures included, the acked events are the first events of the list; exactly `cursor` of them as long as the socket works |
| SessionTheorems.FinalDelivery | session.go:317-344 | a viewer that got END had dealt with everything through session-stop if and only if it registered before the stop, first read a length counting it, or was signalled at least once, and has acked it then if its socket works; under the mutex the first always holds |
| SessionList.RegisterJoins | session.go:415-421 | in place or in a new array, a registration appends the new channel to the list and nothing else |
| SessionList.RemoveSwaps | session.go:423-434 | a departure turns the list into its swap-removal |
| SessionList.KeepsListExact | session.go:415-434 | every step keeps: the list has no repeats and holds exactly the viewers that registered and have not left |
| SessionList.KeepsHeaders | session.go:293-297 | every step keeps: each header captured by a `range` lies within its array and each slot names a viewer, before and after departures |
| SessionList.KeepsEndWalk | session.go:293-305 | every step keeps: END has got to exactly the holders of the slots it has passed, and the slots still to be read hold different viewers, none of them ended |
| SessionList.ListHoldsWhoStays | session.go:415-434 | in every state of every run, after any arrivals and departures, each registered viewer that has not left is on the list exactly once and nothing else is |
| SessionList.EndReachesTheHolders | session.go:293-305 | in every reachable state a viewer has got END if and only if the broadcast has passed a slot that it held, as the one captured there or as the last to overwrite it unread |
| SessionList.EndReachesAllButTheOverwritten | session.go:293-305 | once the END broadcast is over, a captured viewer has got END if and only if no registration overwrote its slot before the walk read it; never under the mutex |
| SessionList.EndCanGoOn | session.go:293-305 | the slot END reads next always names a viewer that is still there, and that viewer can always receive or take a step towards receiving |
| SessionList.OverwritingNeedsARemoval | session.go:415-434 | such an overwriting happens only during an END broadcast without the mutex, after a departure |
| SessionList.LastThreadEndsEveryone | session.go:317-344 | once the last thread's End is over, the viewers that got END are exactly those that registered before the session-stop, and each whose socket works has acked everything through it |
| SessionTheorems.UnlockedEndSkipsALateViewer | proxy.go:172-178 | a run of `Stop` in which a viewer is ended with nothing acked |
| SessionTheorems.EndStrandsAViewer | proxy.go:172-178 | a run in which a viewer registered before END began never gets it |
| SessionTheorems.StuckIffOvertaken | session.go:293-297 | in every reachable state, a writer in mid-broadcast waits for a viewer that will never receive again if and only if END has passed a slot that viewer held; before the first departure, if and only if the END walk is past the writer's next slot |
| SessionTheorems.StuckForGood | session.go:293-297 | while nobody registers or leaves, such a writer never moves again |
| SessionTheorems.WriterGetsStuck | session.go:293-297 | a run that reaches such a writer |
| SessionRuns.MutexIsHeldThroughEnd | session.go:337-344 | from the moment End begins and over any run: when the last thread called it, nobody registers or leaves before the log has been closed; when Stop called it, or afterwards, anybody can |
| SessionRuns.AcksAreCounted | web.go:112-136 | over every run a viewer's acked events are as many as the acks its client sent, and its cursor moves once per ack and per failure and never on another reply |
| SessionRuns.LastThreadServesAViewer | session.go:317-344 | a run under the mutex in which a viewer acks the session-stop, gets END, and the log is closed |
| SessionTheorems.LogConserves | events.go:63-105 | in every state, per event: the log's count is at most memory's, each writer's order agrees, and while the file is open they differ exactly by the events between append and log |
| SessionTheorems.QuietLogIsComplete | events.go:63-105 | with no writer between append and log, file and memory hold the same multiset, in the same order per writer |
| SessionTheorems.GuardsHoldNothingBack | session.go:293-301 | in every reachable state, departures included, the bounds in the step guards hold: a broadcast's next slot is in bounds and names a viewer, and it waits only for that viewer to receive; the others wait only for the mutex or for work |
| Slices.SwapRemoveOfDistinct | session.go:423-434 | removing a channel from a list without repeats takes away exactly that channel |
| SessionContext.Session.constructor | proxy.go:113-128 | a new session is active with no thread, no event and no channel, and its log file holds whatever was there before |
| SessionContext.Session.InitializeLog | session.go:378-387 | the file is opened for appending behind its earlier content, and the log is in step with an empty list |
| SessionContext.Session.LogEvent | events.go:71-86 | the event's record is appended to an open log |
| SessionContext.Session.SendSignalToClients | session.go:293-301 | the signal goes to every channel on the list once, in order |
| SessionContext.ToAllIsEach | session.go:293-297 | a broadcast is one hand-off for each listed channel, in order |
| SessionContext.EndIsReceived | session.go:317-335 | End hands each channel on the list NEW_MESSAGE and then SESSION_END, and others nothing |
| SessionContext.Session.HandleEvent | events.go:88-105 | event appended, log still in step, every channel sent NEW_MESSAGE |
| SessionContext.Session.MarkThreadStopped | session.go:337-344 | one thread less, and the session is ended exactly when that was the last and it was active |
| SessionContext.Session.End | session.go:317-335 | on an active session: session-stop appended, each listed channel handed NEW_MESSAGE and then SESSION_END, log closed with the complete text; otherwise nothing |
| SessionContext.Session.FinalizeLog | session.go:398-402 | a log in step is closed holding, behind what was found in the file, exactly the text that the round trip reads back |
| SessionContext.Session.MakeNewSignal | session.go:415-421 | a channel not seen before joins the end of the list, in place or in a larger array, and no other slot is written |
| SessionContext.Session.RemoveSignal | session.go:423-434 | the list becomes its swap-removal, and no other slot of the array is written |
| SessionContext.Session.SignalSessionEnd | session.go:293-305 | while others remove and add themselves in the array being walked: exactly the channels that each slot holds when the walk comes to it are signalled, once each and in order, and when they have left the list holds exactly the rest; if nobody registers, every captured channel is signalled and the list ends empty |
| SessionContext.Session.HandleClientConn | proxy.go:354-433 | the events are session-start, body and session-stop, or only session-stop if the remote host was not reached; however earlier sessions left the file, it reads back, member by member, as exactly these events if and only if the host was reached and the file was new; otherwise it is no JSON array |
| SessionContext.WrittenIsLogText | session.go:378-402 | appending records one by one and finalising gives the text of the round trip |
| SessionContext.SessionReadsBack | proxy.go:354-433 | the same for every event sequence and every earlier content |
| Lifecycle.CountTracksThreads | session.go:309-344 | in every run thread_count is the number of threads inside, an active session that has started one has at least one unless an End call holds the mutex, and active never returns |
| Lifecycle.OnlyLastThreadCallsEnd | session.go:337-344 | in every reachable state a leaving thread calls End, under the mutex, if and only if it was the only one inside |
| Lifecycle.NoEndWhileInside | session.go:337-344 | without Stop, while some thread stays inside, no End is called and the session stays active |
| Lifecycle.AtMostOneStop | session.go:317-344 | with every call over, at most one session-stop was appended if and only if no call tested `active` while another was between its test and its clearing; a session all threads have left then has at least one |
| Lifecycle.MutexMeansOneStop | session.go:337-344 | in a run without Stop no two calls of End overlap, so at most one session-stop is appended |
| Lifecycle.StopRacesLastThread | proxy.go:172-178 | a run in which Stop and the last thread both append a session-stop |
| Lifecycle.StopsCanDouble | proxy.go:172-178 | a run of two calls of Stop that append two session-stops |
| SessionLog.JsonDelimitsItself | events.go:71-86 | whatever strings an event carries, its encoding is read as one object, no more and no less |
| JsonText.JsonRoundTrip | events.go:71-86 | decoding an encoded object gives back exactly its members, whatever characters its strings hold |
| JsonText.EscapeIsClean | events.go:71-86 | an encoded string holds no raw line break or other control character and none of the HTML characters |
| JsonText.PlainObject | events.go:71-86 | the exact text of an object with one plain member |
| SessionLog.SealedRoundTrip | session.go:378-402 | a sealed file reads back, member by member, as exactly what was logged before the bracket if and only if the first record is the only session-start and nothing but white space follows the bracket; otherwise it is no JSON array of objects |
| SessionLog.LogRoundTrip | session.go:378-401 | the file of one session reads back as exactly the logged members if and only if nothing was logged or the first record is a session-start and the only one |
| SessionLog.ReopenedIsUnreadable | session.go:379-386 | with any earlier session in the file, unfinished, sealed, or with records behind its bracket, the file is no JSON array |
| SessionFile.StepAppends | events.go:71-86 | the file's text is what logging and sealing append, step by step, in every interleaving |
| SessionFile.LeavesAnEarlier | session.go:378-402 | in whatever state a session is left, its text is one of those that reopening is proved for |
| SessionFile.SealedFileReadsBack | session.go:398-402 | in every reachable state, a sealed or closed file reads back as exactly the logged events if and only if the first is the only session-start and nobody logged after the bracket |
| SessionFile.QuietSealIsComplete | session.go:398-402 | with nobody between append and log at the bracket, the closed file holds exactly the events in memory |
| SessionFile.LateRecordSpoilsTheFile | session.go:398-402 | a run that closes an unreadable file |
| PlaySession.CollapseSnoc | web.go:112-136 | retransmitting an event leaves the collapsed transmissions alone, sending the next one extends them by it |
| PlaySession.Connection.SendOne | web.go:121-134 | event `i` is transmitted until a reply settles it: an ack, or a failed read, and no other text |
| PlaySession.Connection.SendLatestEvents | web.go:112-136 | the events from `prev` to `new`, in order, no gap; it stops short only if a reply never comes |
| PlaySession.Connection.Play | web.go:185-213 | for any replies and any growing list: transmission `k` is of the event that the first `k` replies leave open, counting acks and failed reads only; the acked events are those whose transmission was answered by an ack; with repeats collapsed the transmissions are events 0 to the cursor, the cursor is the last length read, and the call ends exactly on SESSION_END |
| PlaySession.RepliesCount | web.go:121-134 | as many events are settled as there are acks and failed reads among the replies, and as many are acked as there are acks |
| PlaySession.LastLengthIsLast | web.go:197-211 | every length read counts until SESSION_END, and the last one is where the cursor ends up |
| Playback.StaysInRange | html/js/terminal_reader.js:641-689 | no interleaving of handlers takes the index out of range |
| Playback.RenderPrefix | html/js/terminal_reader.js:354-358 | loading more events does not change what the prefix shows |
| Playback.IncomingIsShown | html/js/terminal_reader.js:569-573 | a message from the server adds its normalised data to the screen and nothing else |
| Playback.NothingElseIsShown | html/js/terminal_reader.js:558-592 | any other event, typed text above all, changes nothing on the screen wherever it stands in the recording |
| Playback.RenderIsIncomingData | html/js/terminal_reader.js:558-592 | the screen is the normalised data of the incoming messages, one after the other |
| Playback.TicksAdvance | html/js/terminal_reader.js:641-689 | each timer firing of a playing reader shows one more event |
| Playback.SeekEqualsPlay | html/js/terminal_reader.js:814-854 | seeking to `id` shows what playing through `id` shows if and only if `id` is not the current index or its event renders to nothing |
| Playback.SeekLands | html/js/terminal_reader.js:814-854 | a seek ends just behind its target and paused; an impossible target or the current index changes nothing |
| Playback.ButtonsStepByOne | html/js/terminal_reader.js:784-859 | next shows one more event, paused or not, and keeps playing; prev takes one back, never the first, and pauses |
| Playback.PlaysToTheEnd | html/js/terminal_reader.js:427-456 | with one outstanding timer a playing recording shows every event that is left, each by a timer the one before armed, and then pauses |
| Playback.NextThenPrev | html/js/terminal_reader.js:784-859 | on a paused reader, next then prev restores everything if and only if 1 <= index < length, or the index is at the end of at most one event |
| Playback.SameIndexSameText | html/js/terminal_reader.js:784-859 | any two handler sequences without loads and resets that reach the same index show the same text |
| Playback.DropStartsKeepsText | html/js/lib.js:755-781 | leaving session-start out does not change the rendered text |
| Playback.DropStartsDropsStarts | html/js/lib.js:755-781 | exactly the session-starts go and the rest keeps its order |
| TerminalReader.Reader.ActionEvent | html/js/terminal_reader.js:558-592 | incoming data goes to the terminal buffer only, outgoing data other than a single NUL and the command of an exec request to the keystroke buffer only, everything else to neither; session-start and resize lose their type |
| TerminalReader.Reader.WriteBuffers | html/js/terminal_reader.js:593-618 | everything buffered is on the screen, both buffers are empty, and the callback ran once when asked to always |
| TerminalReader.Reader.ProcessNextEvent | html/js/terminal_reader.js:641-689 | refines the player's step, answers as often as the player says, arms one timer per index step |
| TerminalReader.Reader.TimerFires | html/js/terminal_reader.js:427-456 | a timer, stale or not, is one player step and arms at most one more |
| TerminalReader.Reader.DoNext | html/js/terminal_reader.js:784-803 | one event further, paused or not |
| TerminalReader.Reader.ActionThrough | html/js/terminal_reader.js:835-840 | screen plus buffer is the rendering through the last event acted on |
| TerminalReader.Reader.MoveToEvent | html/js/terminal_reader.js:814-854 | batch seek, forwards or by reset and replay, is the player's seek |
| TerminalReader.Reader.DoPrev | html/js/terminal_reader.js:855-859 | is the player's reaction to the prev button |
| TerminalReader.Reader.ChangeSpeed | html/js/terminal_reader.js:722-732 | nothing shown changes; while playing one more timer is armed |
| TerminalReader.Reader.DoReset | html/js/terminal_reader.js:394-426 | an empty screen and list, playing, not live; outstanding timers survive |
| TerminalReader.Reader.Handle | html/js/terminal_reader.js:641-889 | every handler in any valid state does what the player does, and arms exactly the timers the player says |
| TerminalReader.Reader.HandleAll | html/js/terminal_reader.js:641-889 | after any interleaving both buffers are empty and the screen is the fold over the events before the index, which is their normalised incoming data |
| TerminalReader.Reader.OnMessage | html/js/lib.js:137-170 | a message joins the list and is answered by exactly one ack, paused or not, except that a paused reader that is not live sends none for an active session |
| TerminalReader.Reader.ReplaySessionEventList | html/js/lib.js:755-781 | file replay starts a fresh reader on every event but the session-starts |
| LiveView.KeepsInv | html/js/lib.js:113-170 | from the reset on, every step of protocol, socket, timers and user keeps: the page's events are the server's events up to its cursor plus the one whose ack is under way, and messages equal acks |
| LiveView.LiveViewShowsAPrefix | html/js/lib.js:113-170 | in every run from the reset each message got exactly one ack, the page's events are a prefix of the server's list, and the terminal shows the rendering of a prefix of it |
| LiveView.UntouchedViewIsCurrent | html/js/lib.js:113-170 | a page nobody touches shows everything it was given, which is everything acked plus at most the event whose ack is under way, if and only if no timer fired between the reset and the opening of the socket or it was given nothing; after such a timer it shows nothing for good |
| LiveView.StaleTimerBlanksThePage | html/js/lib.js:225-237 | a run in which the page acks a message and shows none of it |
| Newlines.DropBreaks | html/js/terminal_reader.js:572 | exactly the leading line breaks are dropped |
| Newlines.NormaliseIsWellBroken | html/js/terminal_reader.js:572 | CR only before LF, LF only after CR, no two breaks in a row, and all other characters kept in order |
| Newlines.FixedIffWellBroken | html/js/terminal_reader.js:572 | a text is unchanged if and only if it has that form |
| Newlines.NormaliseIsIdempotent | html/js/terminal_reader.js:572 | rewriting twice is rewriting once |
| Newlines.NormaliseSplits | html/js/terminal_reader.js:572 | it distributes over concatenation if and only if the cut is not between two line-break characters |
| Keystrokes.EscapeLoop | html/js/terminal_reader.js:478-483 | the loop ends although the string grows under it, computes the fold over the original characters, and leaves no control character but tab and line feed |
| Keystrokes.ReplaceLoop | html/js/terminal_reader.js:469-472 | each rule in order on the result of the one before |
| Keystrokes.CtrlLoop | html/js/terminal_reader.js:473-477 | the same for control characters 1 to 25 |
| Keystrokes.ProcessKeystrokes | html/js/terminal_reader.js:464-485 | the three passes in order; the result has no character below 0x20 but tab and line feed |
| Keystrokes.ReplaceFirstConsumes | html/js/terminal_reader.js:4-32 | a rule removes at least one special character or changes nothing because it occurs nowhere |
| Keystrokes.ReplacesLeftmost | html/js/terminal_reader.js:469-472 | a rule replaces its leftmost match and leaves the rest of the text alone |
| Keystrokes.UnchangedIffPlain | html/js/terminal_reader.js:464-485 | text passes unchanged if and only if it has no character below 0x20 and no 0x7f |
| KeyNames.ArrowKeys | html/js/terminal_reader.js:5-8 | the arrow keys' texts become their names, whatever character is in the middle |
| KeyNames.EndKey | html/js/terminal_reader.js:9 | the end key's text becomes its name |
| KeyNames.HomeKey | html/js/terminal_reader.js:10 | the home key's text becomes its name |
| KeyNames.EditingKeys | html/js/terminal_reader.js:11-14 | so do delete, page down, page up and insert |
| KeyNames.FunctionKeys | html/js/terminal_reader.js:15-26 | so do F1 to F12 |
| KeyNames.NamedCharacters | html/js/terminal_reader.js:27-31 | so do tab, escape, carriage return, line feed and backspace |
| KeyNames.CtrlLetters | html/js/terminal_reader.js:473-477 | the other control characters from 1 to 25 become CTRL plus their letter |
| KeyNames.NumberedControls | html/js/terminal_reader.js:478-483 | the remaining control characters become their number in brackets |
| DelayClock.ParseIntBounds | html/js/terminal_reader.js:710 | parseInt of a delay is at most the delay, and within one of it, exactly outside the exponent forms |
| DelayClock.RescaleBounds | html/js/terminal_reader.js:708-714 | speed times delay never grows at a change, and loses less than one millisecond times the new speed, each exactly when the number is not written with an exponent that spoils it |
| DelayClock.SmallDelayGrows | html/js/terminal_reader.js:710 | one millisecond rescaled to speed 2,000,000 becomes five |
| DelayClock.LargeDelayIsLost | html/js/terminal_reader.js:710 | a delay of 10^21 milliseconds becomes less than ten |
| DelayClock.Left | html/js/terminal_reader.js:458-462 | what has run and what is left of a delay add up to the delay |
| DelayClock.DelayTimer.TimeToNextEvent | html/js/terminal_reader.js:458-462 | while the delay lasts, what is left and the time since it was armed add up to it; then nothing is left |
| DelayClock.OneChange | html/js/terminal_reader.js:708-732 | the two bounds for the time played before a change and left after it, each exactly when the number is not written with the exponent that spoils it |
| DelayClock.DriftIsBounded | html/js/terminal_reader.js:708-732 | over any series of changes, time played plus time left never exceeds what was armed unless some delay is written in negative-exponent form, and falls short by less than the sum of the new speeds unless some is written in positive-exponent form |
| DelayClock.DelayTimer.ResetTimeout | html/js/terminal_reader.js:767-782 | the saved delay is the armed delay minus the time since it was armed, or zero |
| DelayClock.DelayTimer.ResumeWithNewDelay | html/js/terminal_reader.js:708-714 | the saved delay is rescaled to the current speed, armed now, and saved again |
| DelayClock.DelayTimer.ChangeSpeedToNewVal | html/js/terminal_reader.js:625-634 | while playing the time left is rescaled, while paused only the speed changes, and an unparsable speed is ignored |
| DelayClock.DelayTimer.ChangeAll | html/js/terminal_reader.js:722-732 | a series of changes, each after its time, leaves the timer where the drift bound speaks about |
| Slices.SwapOutTakesOne | proxy.go:630-631 | overwriting with the last element and shortening removes exactly one occurrence |
| HookList.AtMostOnceIsRemovable | proxy.go:626-635 | a target that occurs at most once never makes the loop fail |
| HookList.TwiceIsNotRemovable | proxy.go:626-635 | a list holding just the same callback twice makes the loop fail |
| HookList.Hooks.Add | proxy.go:618-624 | appended, and the index returned is its position |
| HookList.Hooks.Remove | proxy.go:626-635 | the loop over the array it overwrites gets through if and only if every occurrence leaves room for all of them behind it; then all occurrences go and nothing else, the other elements of the shorter list keep their places, and the gaps are filled from the back |
| ControllerKeys.FreshKeyIsFirst | controller.go:414-418 | the loop of dots ends (fewer and fewer registered keys are as long as the candidate), with a free key, and every candidate with fewer dots is taken |
| ControllerKeys.Controller.AddToUser | controller.go:405-423 | the callback joins the user's list and the registry under a key that was free, nothing else changes; without a proxy or user nothing does |
| ControllerKeys.Controller.RemoveByKey | controller.go:425-434 | the key goes unless the removal loop fails, the user's list loses exactly the registered callback, an unknown key changes nothing |
| ControllerKeys.EntriesAreStable | controller.go:412-434 | over any run of adds and removals an entry changes only by a removal under its own key |
| ProxyRegistry.Proxy.Relink | proxy.go:341-351 | the viewer points to this proxy and to the entry under its user's own key, failing that to the entry without a password, and only failing both is its own user stored; earlier entries stay |
| ProxyRegistry.GetProxyUser | proxy.go:218-241 | an entry under the exact key wins; the entry without a password is found only if there is none and it really has no password |
| ProxyRegistry.Proxy.Initialize | proxy.go:341-351 | for every iteration order: all viewers linked to this proxy and to stored users, earlier entries unchanged, new entries only from the viewers' own users, no viewer unlinked by another's insertion |
| TerminalSize.WindowChangeRoundTrip | session.go:256-268 | every window-change of section 6.7 of RFC 4254 decodes to the columns and rows encoded |
| TerminalSize.Example | session.go:238-268 | concrete payloads and their sizes, whatever follows |
| TerminalSize.ShortPayloads | session.go:238-268 | exactly the payloads too short for a size are ignored |
| TerminalSize.LongTerm | session.go:238-255 | a TERM of 256 bytes or more is read in place of the size |
| TerminalSize.PtyReqRoundTrip | session.go:238-255 | every size in a pty-req of section 6.2 of RFC 4254 decodes exactly if and only if the TERM is shorter than 256 bytes |

## Left out

- SSH handshakes, channel forwarding, sockets, TLS, HTTP and the websocket upgrade: they are library
  plumbing; only "send one message" and "receive one reply" are kept.
- The file system: the log is text with an open flag; failing opens and writes, the rename to `.scan`
  and the session list file are not modelled.
- Stop times: the code returns the start time for them, so nothing is claimed.
- HMAC signing of controller messages: the cryptography is foreign.
- Channel filters: they rewrite only the recorded copy of the bytes, and what a filter does is up to its
  author.
- The keystroke panel's text across seeks and the terminal's size: neither is a function of the events
  before the index, because seeking clears the panel and acting on a resize deletes its type.
- Session lists, viewer look-up, expiry, status bars, DOM and hash routing: simple maps and display.
- `channel_count` and `request_count` are incremented without a lock, and cloned users share their
  callback slices: the code guarantees nothing there.
- A viewer whose socket fails keeps its channel registered until SESSION_END, and nothing is claimed
  about when a waiting goroutine goes on, apart from the writers that never do.
- A user or viewer that is null in a loaded proxy file makes the code dereference nil; such files are
  outside the model.
- Throwing handlers (a payload that is not base64, a message that is not JSON), and offsets that are
  missing or negative: the browser reports an error instead of going on.
- SessionContext.Session.HandleClientConn: one thread and no other writer; what interleaved writers do
  to memory and file is in `SessionTheorems.LogConserves` and `SessionFile.SealedFileReadsBack`.
- SessionLog.LogRoundTrip: JSON members are abstract names with strings or numbers, so which members an
  event has is not modelled; the escaping of U+2028, U+2029 and invalid UTF-8 is not modelled, and the
  decoder reads objects as they are written, without white space inside them.
- SessionFile.SealedFileReadsBack: for a session that started its file; files that several sessions
  wrote are in `SessionLog.ReopenedIsUnreadable`.
- PlaySession.Connection.Play: marshalling errors, after which the rest of a batch is skipped, do not occur.
- LiveView.LiveViewShowsAPrefix: the socket works until the page closes it, and the page is neither
  reset nor switched to another session during the run.
- DelayClock.DriftIsBounded: delays and speeds are reals without rounding, and speeds are positive.
- DelayClock.DelayTimer.ChangeSpeedToNewVal: a parsed speed is positive; zero and negative speeds lead
  to delays that are not numbers or are negative, for which the timer functions do something else.
- TerminalReader.Reader.WriteBuffers: the panel's contents are dropped; whether the callback runs before
  or after the terminal's own write makes no difference to the fields modelled.
- Keystrokes.ProcessKeystrokes: characters are UTF-16 units below the surrogates, as `atob` yields.
