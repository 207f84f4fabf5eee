/** The list of channels over whole runs: it holds exactly the viewers that have registered and not
    left, every header a `range` captured stays within its store, and the END broadcast reaches
    exactly the captured viewers whose slots were not overwritten before it read them. */
module SessionList {
  import opened Slices
  import opened SessionProtocol
  import opened SessionInvariants

  /** What `msg_signal` holds. */
  function Listed(s: State): seq<nat>
    requires InBounds(s, s.signals)
  {
    s.stores[s.signals.store][..s.signals.len]
  }

  lemma RegisterJoins(s: State, n: nat, spare: nat)
    requires InBounds(s, s.signals)
    ensures var s' := AppendSignal(s, n, spare);
            InBounds(s', s'.signals) && Listed(s') == Listed(s) + [|s.viewers|]
  {
  }

  lemma RemoveSwaps(s: State, v: nat)
    requires InBounds(s, s.signals) && v < |s.viewers|
    ensures var s' := RemoveSignal(s, v);
            InBounds(s', s'.signals) && Listed(s') == SwapRemove(Listed(s), v)
  {
    var i, list := Find(Listed(s), v), Listed(s);
    if i < |list| {
      assert Listed(RemoveSignal(s, v)) == SwapOut(list, i);
    }
  }

  predicate Stays(s: State, v: nat) {
    v < |s.viewers| && s.viewers[v].phase != Departed
  }

  ghost predicate ListExact(s: State) {
    && InBounds(s, s.signals) && Distinct(Listed(s))
    && forall v: nat :: v in Listed(s) <==> Stays(s, v)
  }

  lemma KeepsListExact(s: State, a: Action)
    requires ListExact(s) && Enabled(s, a)
    ensures ListExact(Next(s, a))
  {
    match a
    case Register(n, spare) => ExactAfterRegister(s, n, spare);
    case Remove(v) => ExactAfterRemove(s, v);
    case _ => ExactAfterOther(s, a);
  }

  lemma ExactAfterRegister(s: State, n: nat, spare: nat)
    requires ListExact(s)
    ensures ListExact(AppendSignal(s, n, spare))
  {
    var s' := AppendSignal(s, n, spare);
    RegisterJoins(s, n, spare);
    assert !Stays(s, |s.viewers|);
    JoinsDistinct(Listed(s), |s.viewers|);
    assert forall v: nat :: Stays(s', v) <==> Stays(s, v) || v == |s.viewers|;
  }

  lemma ExactAfterRemove(s: State, v: nat)
    requires ListExact(s) && v < |s.viewers|
    ensures ListExact(RemoveSignal(s, v))
  {
    var s' := RemoveSignal(s, v);
    RemoveSwaps(s, v);
    SwapRemoveOfDistinct(Listed(s), v);
    assert forall u: nat :: Stays(s', u) <==> Stays(s, u) && u != v;
  }

  lemma ExactAfterOther(s: State, a: Action)
    requires ListExact(s) && Enabled(s, a) && !a.Register? && !a.Remove?
    ensures ListExact(Next(s, a))
  {
    OtherKeepsStores(s, a);
    forall v: nat
      ensures Stays(Next(s, a), v) <==> Stays(s, v)
    {
      OtherStays(s, a, v);
    }
  }

  lemma JoinsDistinct(list: seq<nat>, v: nat)
    requires Distinct(list) && v !in list
    ensures Distinct(list + [v]) && forall u: nat :: u in list + [v] <==> u in list || u == v
  {
  }

  lemma OtherStays(s: State, a: Action, v: nat)
    requires Enabled(s, a) && !a.Register? && !a.Remove?
    ensures Stays(Next(s, a), v) <==> Stays(s, v)
  {
  }

  // ---------- Headers stay in bounds ----------

  predicate WalkInBounds(s: State, w: nat) {
    At(s, w).Sending? ==> InBounds(s, At(s, w).slice) && At(s, w).next <= At(s, w).slice.len
  }

  predicate EndInBounds(s: State) {
    s.ending.Closing? ==> InBounds(s, s.ending.slice) && s.ending.next <= s.ending.slice.len
  }

  /** Every captured header lies within its store and every slot names a viewer. */
  ghost predicate HeadersOk(s: State) {
    && InBounds(s, s.signals) && EndInBounds(s)
    && (forall w: nat :: WalkInBounds(s, w))
    && (forall t: nat, j: nat :: SlotOk(s, t, j))
  }

  predicate SlotOk(s: State, t: nat, j: nat) {
    t < |s.stores| && j < |s.stores[t]| ==> s.stores[t][j] < |s.viewers|
  }

  /** Stores are only ever added, and keep their lengths. */
  predicate StoresGrow(s: State, s': State) {
    && |s.stores| <= |s'.stores|
    && (forall t :: 0 <= t < |s.stores| ==> |s'.stores[t]| == |s.stores[t]|)
    && InBounds(s', s'.signals)
  }

  lemma RegisterGrowsStores(s: State, n: nat, spare: nat)
    requires InBounds(s, s.signals)
    ensures StoresGrow(s, AppendSignal(s, n, spare))
  {
  }

  lemma RemoveGrowsStores(s: State, v: nat)
    requires InBounds(s, s.signals) && v < |s.viewers|
    ensures StoresGrow(s, RemoveSignal(s, v))
  {
  }

  lemma RegisterKeepsSlot(s: State, n: nat, spare: nat, t: nat, j: nat)
    requires InBounds(s, s.signals) && forall u: nat, i: nat :: SlotOk(s, u, i)
    ensures SlotOk(AppendSignal(s, n, spare), t, j)
  {
    assert SlotOk(s, t, j) && SlotOk(s, s.signals.store, j);
  }

  lemma RemoveKeepsSlot(s: State, v: nat, t: nat, j: nat)
    requires InBounds(s, s.signals) && v < |s.viewers| && forall u: nat, i: nat :: SlotOk(s, u, i)
    ensures SlotOk(RemoveSignal(s, v), t, j)
  {
    assert SlotOk(s, t, j);
    if s.signals.len > 0 {
      assert SlotOk(s, s.signals.store, s.signals.len - 1);
    }
  }

  lemma KeepsHeaders(s: State, a: Action)
    requires HeadersOk(s) && Enabled(s, a)
    ensures HeadersOk(Next(s, a))
  {
    var s' := Next(s, a);
    match a
    case Register(n, spare) =>
      RegisterGrowsStores(s, n, spare);
      forall t: nat, j: nat
        ensures SlotOk(s', t, j)
      {
        RegisterKeepsSlot(s, n, spare, t, j);
      }
      WalksStayInBounds(s, s');
    case Remove(v) =>
      RemoveGrowsStores(s, v);
      forall t: nat, j: nat
        ensures SlotOk(s', t, j)
      {
        RemoveKeepsSlot(s, v, t, j);
      }
      WalksStayInBounds(s, s');
    case _ => HeadersAfterOther(s, a);
  }

  lemma WalksStayInBounds(s: State, s': State)
    requires HeadersOk(s) && StoresGrow(s, s') && s'.writers == s.writers && s'.ending == s.ending
    ensures EndInBounds(s') && forall w: nat :: WalkInBounds(s', w)
  {
    forall w: nat
      ensures WalkInBounds(s', w)
    {
      assert WalkInBounds(s, w);
    }
  }

  lemma HeadersAfterOther(s: State, a: Action)
    requires HeadersOk(s) && Enabled(s, a) && !a.Register? && !a.Remove?
    ensures HeadersOk(Next(s, a))
  {
    var s' := Next(s, a);
    OtherKeepsStores(s, a);
    if s'.ending.Closing? {
      OtherWalksEnd(s, a);
    }
    forall w: nat
      ensures WalkInBounds(s', w)
    {
      assert WalkInBounds(s, w);
      OtherWalks(s, a, w);
    }
    forall t: nat, j: nat
      ensures SlotOk(s', t, j)
    {
      assert SlotOk(s, t, j);
    }
  }

  // ---------- Whom END reaches ----------

  /** Slot `j` of the END broadcast is still to be read. */
  predicate Unread(s: State, j: nat) {
    s.ending.Closing? && InBounds(s, s.ending.slice) && s.ending.next <= j < s.ending.slice.len
  }

  function Slot(s: State, j: nat): nat
    requires Unread(s, j)
  {
    s.stores[s.ending.slice.store][j]
  }

  /** Whose channel is in slot `j` when END comes to it. */
  function HolderOf(s: State, j: nat): nat {
    Holder(s.lost, j)
  }

  /** How many channels the END broadcast captured. */
  function Walked(e: Ending): nat
    requires e.Closing? || e.Sealed? || e.Closed?
  {
    if e.Closing? then e.slice.len else e.walked
  }

  /** How many slots END has passed. */
  function Passed(s: State): nat {
    if s.ending.Closing? then s.ending.next
    else if EndSent(s) then s.ending.walked
    else 0
  }

  /** END has passed a slot that viewer `v` held: the viewer captured there, or the last one whose
      registration overwrote the slot before END came to it. */
  ghost predicate Reached(s: State, v: nat) {
    exists j: nat :: j < Passed(s) && HolderOf(s, j) == v
  }

  /** The slots still to be read hold their holders, and nobody in two of them. */
  predicate UnreadOk(s: State, j: nat) {
    Unread(s, j) ==>
      && Slot(s, j) == HolderOf(s, j) < |s.viewers| && !Gone(s.viewers[Slot(s, j)])
  }

  predicate UnreadOnce(s: State, j: nat, k: nat) {
    j < k && Unread(s, j) && Unread(s, k) ==> Slot(s, j) != Slot(s, k)
  }

  /** Positions of the live list that the walk has still to reach name nobody it has reached. */
  predicate LiveUnreadOk(s: State, p: nat) {
    s.ending.Closing? && s.signals.store == s.ending.slice.store && InBounds(s, s.signals)
    && s.ending.next <= p < s.signals.len ==>
      var c := s.stores[s.signals.store][p];
      c < |s.viewers| && !Gone(s.viewers[c])
  }

  /** Lost slots are among those captured, and went to viewers that were not. */
  predicate LostOk(s: State, j: nat) {
    IsLost(s.lost, j) ==> EndSent(s) && j < Walked(s.ending) <= HolderOf(s, j) < |s.viewers|
  }

  /** END has got to exactly the holders of the slots it has passed. */
  ghost predicate ReachedOk(s: State, v: nat) {
    v < |s.viewers| ==> (Gone(s.viewers[v]) <==> Reached(s, v))
  }

  /** Under the mutex the walk covers everybody who registers before the file is closed. */
  predicate LateOk(s: State, v: nat) {
    EndSent(s) && s.ending.locked && s.stopAt.Some? && Walked(s.ending) <= v < |s.viewers| ==>
      s.ending.Closed? && s.viewers[v].registeredAt > s.stopAt.value
  }

  ghost predicate EndWalkOk(s: State) {
    && (forall j: nat :: UnreadOk(s, j) && LostOk(s, j))
    && (forall j: nat, k: nat :: UnreadOnce(s, j, k))
    && (forall p: nat :: LiveUnreadOk(s, p))
    && (forall v: nat :: ReachedOk(s, v) && LateOk(s, v))
    && (EndSent(s) ==> Walked(s.ending) <= |s.viewers|)
    && (!s.shrunk || (EndSent(s) && s.ending.locked) ==> s.lost == NoLoss)
  }

  /** What a step that neither registers nor removes does to the walk of the END broadcast. */
  predicate EndWalked(s: State, s': State, a: Action) {
    && |s'.viewers| == |s.viewers| && s'.stores == s.stores && s'.signals == s.signals
    && s'.lost == s.lost && s'.shrunk == s.shrunk
    && match a
       case CaptureEnd => s.ending.Stopping? && s'.ending == Closing(s.ending.locked, s.signals, 0)
       case SendEnd =>
         && s.ending.Closing? && s.ending.next < s.ending.slice.len
         && s'.ending == Closing(s.ending.locked, s.ending.slice, s.ending.next + 1)
       case Seal =>
         && s.ending.Closing? && s.ending.next >= s.ending.slice.len
         && s'.ending == Sealed(s.ending.locked, s.ending.slice.len, |s.log|)
       case CloseLog =>
         s.ending.Sealed? && s'.ending == Closed(s.ending.locked, s.ending.walked, s.ending.size)
       case BeginEnd(_) => s'.ending.Stopping? && s.ending.Running?
       case _ => s'.ending == s.ending
  }

  lemma StepWalksEnd(s: State, a: Action)
    requires Enabled(s, a) && !a.Register? && !a.Remove?
    ensures EndWalked(s, Next(s, a), a)
  {
  }

  lemma KeepsEndWalk(s: State, a: Action)
    requires Inv(s) && HeadersOk(s) && ListExact(s) && EndWalkOk(s) && Enabled(s, a)
    ensures EndWalkOk(Next(s, a))
  {
    match a
    case Register(n, spare) => EndWalkAfterRegister(s, n, spare);
    case Remove(v) => EndWalkAfterRemove(s, v);
    case _ => EndWalkAfterStep(s, a);
  }

  lemma EndWalkAfterStep(s: State, a: Action)
    requires Inv(s) && HeadersOk(s) && ListExact(s) && EndWalkOk(s)
    requires Enabled(s, a) && !a.Register? && !a.Remove?
    ensures EndWalkOk(Next(s, a))
  {
    StepMovesEnd(s, a);
    StepWalksEnd(s, a);
    forall v: nat
      ensures EndedBySend(s, Next(s, a), a, v) && ViewerMoved(s, Next(s, a), v)
    {
      StepMovesViewer(s, a, v);
      StepEndsViewer(s, a, v);
    }
    EndWalkAfterOther(s, Next(s, a), a);
  }

  // A registration.

  lemma EndWalkAfterRegister(s: State, n: nat, spare: nat)
    requires Inv(s) && HeadersOk(s) && EndWalkOk(s) && Enabled(s, Register(n, spare))
    ensures EndWalkOk(AppendSignal(s, n, spare))
  {
    var s' := AppendSignal(s, n, spare);
    forall j: nat
      ensures UnreadOk(s', j) && LostOk(s', j)
    {
      assert UnreadOk(s, j) && LostOk(s, j);
      UnreadAfterRegister(s, n, spare, j);
    }
    forall j: nat, k: nat
      ensures UnreadOnce(s', j, k)
    {
      assert UnreadOnce(s, j, k) && UnreadOk(s, j) && UnreadOk(s, k);
      OnceAfterRegister(s, n, spare, j, k);
    }
    forall p: nat
      ensures LiveUnreadOk(s', p)
    {
      assert LiveUnreadOk(s, p) && SlotOk(s, s.signals.store, p);
      LiveAfterRegister(s, n, spare, p);
    }
    forall v: nat
      ensures ReachedOk(s', v) && LateOk(s', v)
    {
      assert ReachedOk(s, v) && LateOk(s, v);
      ReachedAfterRegister(s, n, spare, v);
      LateAfterRegister(s, n, spare, v);
    }
  }

  lemma UnreadAfterRegister(s: State, n: nat, spare: nat, j: nat)
    requires InBounds(s, s.signals) && EndInBounds(s) && UnreadOk(s, j) && LostOk(s, j)
    requires EndSent(s) ==> Walked(s.ending) <= |s.viewers|
    ensures UnreadOk(AppendSignal(s, n, spare), j) && LostOk(AppendSignal(s, n, spare), j)
  {
  }

  lemma OnceAfterRegister(s: State, n: nat, spare: nat, j: nat, k: nat)
    requires InBounds(s, s.signals) && EndInBounds(s)
    requires UnreadOnce(s, j, k) && UnreadOk(s, j) && UnreadOk(s, k)
    ensures UnreadOnce(AppendSignal(s, n, spare), j, k)
  {
  }

  lemma LiveAfterRegister(s: State, n: nat, spare: nat, p: nat)
    requires InBounds(s, s.signals) && LiveUnreadOk(s, p) && SlotOk(s, s.signals.store, p)
    requires s.ending.Closing? ==> InBounds(s, s.ending.slice)
    ensures LiveUnreadOk(AppendSignal(s, n, spare), p)
  {
  }

  lemma ReachedAfterRegister(s: State, n: nat, spare: nat, v: nat)
    requires InBounds(s, s.signals) && ReachedOk(s, v) && EndInBounds(s) && forall j: nat :: LostOk(s, j)
    requires EndSent(s) ==> Walked(s.ending) <= |s.viewers|
    ensures ReachedOk(AppendSignal(s, n, spare), v)
  {
    var s' := AppendSignal(s, n, spare);
    assert Passed(s') == Passed(s);
    forall j: nat | j < Passed(s)
      ensures HolderOf(s', j) == HolderOf(s, j) < |s.viewers|
    {
      assert LostOk(s, j);
      if !IsLost(s.lost, j) {
        KeptHolder(s.lost, j);
      }
    }
    assert Reached(s', v) <==> Reached(s, v);
  }

  lemma LateAfterRegister(s: State, n: nat, spare: nat, v: nat)
    requires PhaseOk(s) && InBounds(s, s.signals) && Enabled(s, Register(n, spare)) && LateOk(s, v)
    ensures LateOk(AppendSignal(s, n, spare), v)
  {
  }

  // A departure.

  lemma EndWalkAfterRemove(s: State, v: nat)
    requires Inv(s) && HeadersOk(s) && ListExact(s) && EndWalkOk(s) && Enabled(s, Remove(v))
    ensures EndWalkOk(RemoveSignal(s, v))
  {
    var s' := RemoveSignal(s, v);
    RemovedIsRead(s, v);
    forall j: nat
      ensures UnreadOk(s', j) && LiveUnreadOk(s', j) && LostOk(s', j)
    {
      assert UnreadOk(s, j) && LiveUnreadOk(s, j) && LostOk(s, j);
    }
    forall j: nat, k: nat
      ensures UnreadOnce(s', j, k)
    {
      assert UnreadOnce(s, j, k);
    }
    forall u: nat
      ensures ReachedOk(s', u) && LateOk(s', u)
    {
      assert ReachedOk(s, u) && LateOk(s, u);
      SameReached(s, s', u);
    }
  }

  lemma SameReached(s: State, s': State, v: nat)
    requires Passed(s') == Passed(s) && s'.lost == s.lost
    ensures Reached(s', v) <==> Reached(s, v)
  {
    assert forall j: nat :: HolderOf(s', j) == HolderOf(s, j);
  }

  /** A viewer that got END sits in a slot the walk has read, so its removal writes only there. */
  lemma RemovedIsRead(s: State, v: nat)
    requires ListExact(s) && EndWalkOk(s) && v < |s.viewers| && s.viewers[v].phase == Ended
    ensures Find(Listed(s), v) < s.signals.len
    ensures s.ending.Closing? && s.signals.store == s.ending.slice.store ==> Find(Listed(s), v) < s.ending.next
  {
    assert Stays(s, v);
    assert v in Listed(s);
    var p := Find(Listed(s), v);
    assert LiveUnreadOk(s, p);
  }

  // Any other step.

  lemma EndWalkAfterOther(s: State, s': State, a: Action)
    requires Inv(s) && HeadersOk(s) && ListExact(s) && EndWalkOk(s)
    requires !a.Register? && !a.Remove? && EndMoved(s, s') && EndWalked(s, s', a)
    requires forall v: nat :: EndedBySend(s, s', a, v) && ViewerMoved(s, s', v)
    ensures EndWalkOk(s')
  {
    forall j: nat
      ensures UnreadOk(s', j) && LostOk(s', j)
    {
      assert LostOk(s, j);
      UnreadAfterOther(s, s', a, j);
    }
    forall j: nat, k: nat
      ensures UnreadOnce(s', j, k)
    {
      assert UnreadOnce(s, j, k);
    }
    forall p: nat
      ensures LiveUnreadOk(s', p)
    {
      LiveAfterOther(s, s', a, p);
    }
    forall v: nat
      ensures ReachedOk(s', v) && LateOk(s', v)
    {
      assert EndedBySend(s, s', a, v) && ViewerMoved(s, s', v);
      assert ReachedOk(s, v) && LateOk(s, v);
      ReachedAfterOther(s, s', a, v);
    }
  }

  lemma UnreadAfterOther(s: State, s': State, a: Action, j: nat)
    requires Inv(s) && HeadersOk(s) && EndWalkOk(s)
    requires !a.Register? && !a.Remove? && EndWalked(s, s', a)
    requires forall v: nat :: EndedBySend(s, s', a, v)
    ensures UnreadOk(s', j)
  {
    assert UnreadOk(s, j) && LostOk(s, j);
    if Unread(s, j) {
      assert EndedBySend(s, s', a, Slot(s, j));
      if a.SendEnd? && s.ending.next < j {
        assert UnreadOnce(s, s.ending.next, j);
      }
    } else if a.CaptureEnd? && j < s.signals.len {
      assert EndedBySend(s, s', a, j);
    }
  }

  lemma ReachedAfterOther(s: State, s': State, a: Action, v: nat)
    requires Inv(s) && HeadersOk(s) && EndWalkOk(s) && EndedBySend(s, s', a, v)
    requires !a.Register? && !a.Remove? && EndWalked(s, s', a)
    ensures ReachedOk(s', v)
  {
    assert ReachedOk(s, v);
    if a.SendEnd? {
      assert UnreadOk(s, s.ending.next);
      ReachesOne(s, s', v);
    } else if !a.CaptureEnd? {
      SameReached(s, s', v);
    }
  }

  lemma ReachesOne(s: State, s': State, v: nat)
    requires Passed(s') == Passed(s) + 1 && s'.lost == s.lost
    ensures Reached(s', v) <==> Reached(s, v) || HolderOf(s, Passed(s)) == v
  {
    assert forall j: nat :: HolderOf(s', j) == HolderOf(s, j);
    if HolderOf(s, Passed(s)) == v {
      assert HolderOf(s', Passed(s)) == v;
    }
  }

  lemma LiveAfterOther(s: State, s': State, a: Action, p: nat)
    requires Inv(s) && HeadersOk(s) && ListExact(s) && EndWalkOk(s)
    requires !a.Register? && !a.Remove? && EndWalked(s, s', a)
    requires forall v: nat :: EndedBySend(s, s', a, v)
    ensures LiveUnreadOk(s', p)
  {
    if InBounds(s, s.signals) && p < s.signals.len {
      var c := s.stores[s.signals.store][p];
      assert SlotOk(s, s.signals.store, p) && LiveUnreadOk(s, p) && EndedBySend(s, s', a, c);
      assert Listed(s)[p] == c;
      if a.SendEnd? && s.ending.next < s.signals.len && s.signals.store == s.ending.slice.store {
        assert Listed(s)[s.ending.next] == s.stores[s.ending.slice.store][s.ending.next];
      }
    }
  }

  // ---------- Runs ----------

  ghost predicate ListInv(s: State) {
    Inv(s) && HeadersOk(s) && ListExact(s) && EndWalkOk(s)
  }

  lemma {:induction false} RunsKeepList(s: State, run: seq<Action>)
    requires ListInv(s) && Legal(s, run)
    ensures ListInv(After(s, run))
    decreases |run|
  {
    if run != [] {
      KeepsInv(s, run[0]);
      KeepsHeaders(s, run[0]);
      KeepsListExact(s, run[0]);
      KeepsEndWalk(s, run[0]);
      RunsKeepList(Next(s, run[0]), run[1..]);
    }
  }

  lemma ReachableList(s: State)
    requires Reachable(s)
    ensures ListInv(s)
  {
    var run :| Legal(INITIAL, run) && After(INITIAL, run) == s;
    RunsKeepList(INITIAL, run);
  }

  /** In every state, whoever has come and gone: the list holds each registered viewer that has not
      left exactly once, and nothing else. */
  lemma ListHoldsWhoStays(s: State)
    requires Reachable(s)
    ensures InBounds(s, s.signals) && Distinct(Listed(s))
    ensures forall v: nat :: v in Listed(s) <==> v < |s.viewers| && s.viewers[v].phase != Departed
  {
    ReachableList(s);
    assert forall v: nat :: v in Listed(s) <==> Stays(s, v);
  }

  /** Who has got END, in every state, whatever End it was and whoever came and went meanwhile: the
      holders of the slots the broadcast has passed, and nobody else. */
  lemma EndReachesTheHolders(s: State, v: nat)
    requires Reachable(s) && v < |s.viewers|
    ensures Gone(s.viewers[v]) <==> exists j: nat :: j < Passed(s) && HolderOf(s, j) == v
  {
    ReachableList(s);
    assert ReachedOk(s, v);
  }

  /** So once the broadcast is over, a viewer it captured has got END if and only if no registration
      overwrote its slot before the walk read it. Under the mutex none ever does. */
  lemma EndReachesAllButTheOverwritten(s: State, v: nat)
    requires Reachable(s) && (s.ending.Sealed? || s.ending.Closed?) && v < s.ending.walked
    ensures v < |s.viewers| && (Gone(s.viewers[v]) <==> !IsLost(s.lost, v))
    ensures s.ending.locked ==> s.lost == NoLoss
  {
    ReachableList(s);
    assert ReachedOk(s, v);
    forall j: nat
      ensures HolderOf(s, j) == v ==> j == v && !IsLost(s.lost, v)
    {
      assert LostOk(s, j);
      if !IsLost(s.lost, j) {
        KeptHolder(s.lost, j);
      }
    }
    if !IsLost(s.lost, v) {
      KeptHolder(s.lost, v);
      assert v < Passed(s) && HolderOf(s, v) == v;
      assert Reached(s, v);
    }
  }

  lemma {:induction false} KeptHolder(lost: Losses, j: nat)
    requires !IsLost(lost, j)
    ensures Holder(lost, j) == j
  {
    if lost.Loss? {
      KeptHolder(lost.earlier, j);
    }
  }

  /** A registration overwrites such a slot only during an END broadcast without the mutex, after some
      viewer has left. */
  lemma OverwritingNeedsARemoval(s: State)
    requires Reachable(s) && Overwrites(s) && MutexFree(s)
    ensures s.shrunk && s.ending.Closing? && !s.ending.locked
  {
    ReachableList(s);
  }

  /** End never waits for a viewer that has left: the slot it reads next names one that is still there,
      lost or not, and that viewer can always take a step towards receiving, or receive. */
  lemma EndCanGoOn(s: State) returns (a: Action)
    requires Reachable(s) && s.ending.Closing? && s.ending.next < s.ending.slice.len
    ensures Unread(s, s.ending.next) && Slot(s, s.ending.next) < |s.viewers|
    ensures !Gone(s.viewers[Slot(s, s.ending.next)])
    ensures Enabled(s, a)
    ensures var v := Slot(s, s.ending.next);
            a == SendEnd || a == Rest(v) || a == Read(v) || a == Transmit(v, true) || a == Fail(v)
  {
    ReachableList(s);
    assert UnreadOk(s, s.ending.next);
    var v := Slot(s, s.ending.next);
    var x := s.viewers[v];
    assert ViewerOk(x, s.events);
    a := match x.phase
         case Waiting => SendEnd
         case Signalled => Read(v)
         case _ => if x.cursor == x.target then Rest(v) else if x.broken then Fail(v) else Transmit(v, true);
  }

  /** When the last thread's End is over, the viewers that got END are exactly those that registered
      before the session-stop, and each of them whose socket never failed has acked everything
      through it. */
  lemma LastThreadEndsEveryone(s: State, v: nat)
    requires Reachable(s) && s.ending.Closed? && s.ending.locked && v < |s.viewers|
    ensures s.stopAt.Some? && s.stopAt.value < |s.events|
    ensures Gone(s.viewers[v]) <==> s.viewers[v].registeredAt <= s.stopAt.value
    ensures Gone(s.viewers[v]) && !s.viewers[v].broken ==> s.events[..s.stopAt.value + 1] <= s.viewers[v].acked
  {
    ReachableList(s);
    if v < s.ending.walked {
      EndReachesAllButTheOverwritten(s, v);
    }
    assert LateOk(s, v);
    assert ViewerOk(s.viewers[v], s.events) && HearsStop(s, v) && InTime(s, v);
  }
}
