/** The server side of one viewer's socket: playSession and send_latest_events against an arbitrary
    stream of client replies. */
module PlaySession {
  /** What ReadMessage returns: the text "ack", any other text, or an error. */
  datatype Reply = Ack | Other | Error

  /** What arrives on the viewer's channel; NEW_MESSAGE with the list length read on waking up. */
  datatype Signal = NewMessages(length: nat) | SessionEnd

  /** 0, 1, ..., n - 1. */
  function UpTo(n: nat): (r: seq<nat>)
    ensures |r| == n
  {
    seq(n, i => i)
  }

  /** Transmissions with each run of repeats of one event collapsed to one. */
  function Collapse(sent: seq<nat>): seq<nat> {
    if sent == [] then []
    else
      var init, last := sent[..|sent| - 1], sent[|sent| - 1];
      if init != [] && init[|init| - 1] == last then Collapse(init) else Collapse(init) + [last]
  }

  lemma {:induction false} CollapseEndsAlike(sent: seq<nat>)
    requires sent != []
    ensures Collapse(sent) != [] && Collapse(sent)[|Collapse(sent)| - 1] == sent[|sent| - 1]
  {
    var init := sent[..|sent| - 1];
    if init != [] && init[|init| - 1] == sent[|sent| - 1] {
      CollapseEndsAlike(init);
    }
  }

  /** One more transmission: of the same event it changes nothing, of the next it adds one. */
  lemma CollapseSnoc(sent: seq<nat>, i: nat, again: bool)
    requires Collapse(sent) == UpTo(if again then i + 1 else i)
    ensures Collapse(sent + [i]) == UpTo(i + 1)
  {
    assert (sent + [i])[..|sent|] == sent;
    if sent != [] {
      CollapseEndsAlike(sent);
    }
  }

  /** How many events are over after some replies: an ack or a failed read settles the event under way,
      any other text does not. */
  function Settled(replies: seq<Reply>): nat {
    if replies == [] then 0
    else Settled(replies[..|replies| - 1]) + (if replies[|replies| - 1] == Other then 0 else 1)
  }

  /** The transmissions that were answered by an ack. */
  function AckedOf(sent: seq<nat>, replies: seq<Reply>): seq<nat>
    requires |replies| <= |sent|
  {
    if replies == [] then []
    else
      var k := |replies| - 1;
      AckedOf(sent, replies[..k]) + (if replies[k] == Ack then [sent[k]] else [])
  }

  /** Every ack and every failed read settles one event, and nothing else does; every ack acks one. */
  lemma {:induction false} RepliesCount(sent: seq<nat>, replies: seq<Reply>)
    requires |replies| <= |sent|
    ensures Settled(replies) == multiset(replies)[Ack] + multiset(replies)[Error]
    ensures |AckedOf(sent, replies)| == multiset(replies)[Ack]
  {
    if replies != [] {
      var init, last := replies[..|replies| - 1], replies[|replies| - 1];
      RepliesCount(sent, init);
      assert replies == init + [last];
    }
  }

  /** Transmission `k` is of the event that the replies before it leave open. */
  predicate Open(sent: seq<nat>, replies: seq<Reply>, k: nat) {
    k < |sent| && k <= |replies| ==> sent[k] == Settled(replies[..k])
  }

  lemma Prefixes(replies: seq<Reply>, k: nat)
    requires k < |replies|
    ensures replies[..k + 1] == replies[..k] + [replies[k]] && replies[..k + 1][..k] == replies[..k]
  {
  }

  lemma {:induction false} AckedOfMore(sent: seq<nat>, i: nat, replies: seq<Reply>)
    requires |replies| <= |sent|
    ensures AckedOf(sent + [i], replies) == AckedOf(sent, replies)
  {
    if replies != [] {
      AckedOfMore(sent, i, replies[..|replies| - 1]);
    }
  }

  /** One more reply. */
  lemma OneReply(sent: seq<nat>, from: seq<Reply>, k: nat)
    requires k < |from| && k < |sent|
    ensures Settled(from[..k + 1]) == Settled(from[..k]) + (if from[k] == Other then 0 else 1)
    ensures AckedOf(sent, from[..k + 1]) == AckedOf(sent, from[..k]) + (if from[k] == Ack then [sent[k]] else [])
  {
    Prefixes(from, k);
  }

  predicate NoErrors(replies: seq<Reply>) {
    Error !in replies
  }

  class Connection {
    /** The replies still to come. */
    var replies: seq<Reply>
    /** The index of the event in every transmission so far. */
    var sent: seq<nat>
    /** The indices the client acked. */
    var acked: seq<nat>
    /** The server waits for a reply that never comes. */
    var blocked: bool

    constructor (replies: seq<Reply>)
      ensures this.replies == replies && sent == [] && acked == [] && !blocked
    {
      this.replies, sent, acked, blocked := replies, [], [], false;
    }

    /** The replies of `from` read so far. */
    ghost function Read(from: seq<Reply>): seq<Reply>
      reads this
    {
      if |replies| <= |from| then from[..|from| - |replies|] else []
    }

    /** What `sent` and `acked` have to do with the replies read. */
    ghost predicate Answered(from: seq<Reply>)
      reads this
    {
      && |replies| <= |from| && replies == from[|from| - |replies|..]
      && |sent| == |Read(from)| + (if blocked then 1 else 0)
      && (blocked ==> replies == [])
      && (forall k: nat :: Open(sent, from, k))
      && acked == AckedOf(sent, Read(from))
    }

    /** Everything before `n` has been transmitted, in order, without gap, and settled by the replies; a
        blocked server is still transmitting event `n`. */
    ghost predicate At(n: nat, from: seq<Reply>)
      reads this
    {
      && Answered(from)
      && Collapse(sent) == UpTo(if blocked then n + 1 else n)
      && n == Settled(Read(from))
      && (NoErrors(from) ==> acked == UpTo(n))
    }

    /** Transmits event `i` once and waits for the reply. */
    method Exchange(i: nat, tried: bool, ghost from: seq<Reply>) returns (reply: Reply)
      requires Answered(from) && !blocked && Settled(Read(from)) == i
      requires Collapse(sent) == UpTo(if tried then i + 1 else i)
      requires NoErrors(from) ==> acked == UpTo(i)
      modifies this
      ensures Answered(from) && Collapse(sent) == UpTo(i + 1)
      ensures blocked <==> old(replies) == []
      ensures blocked ==> Settled(Read(from)) == i && acked == old(acked)
      ensures !blocked ==>
                && |replies| == |old(replies)| - 1 && reply == old(replies)[0] && reply in from
                && Settled(Read(from)) == (if reply == Other then i else i + 1)
                && acked == old(acked) + (if reply == Ack then [i] else [])
    {
      ghost var k, before := |sent|, sent;
      CollapseSnoc(sent, i, tried);
      AckedOfMore(sent, i, Read(from));
      assert Read(from) == from[..k];
      sent := sent + [i];
      forall j: nat
        ensures Open(sent, from, j)
      {
        assert Open(before, from, j);
      }
      if replies == [] {
        blocked := true;
        return Error;
      }
      reply := replies[0];
      assert reply == from[k] && replies[1..] == from[k + 1..];
      OneReply(sent, from, k);
      replies := replies[1..];
      if reply == Ack {
        acked := acked + [i];
      }
    }

    /** Sends event `i` until it is acked, or the socket fails. */
    method SendOne(i: nat, ghost from: seq<Reply>)
      requires At(i, from) && !blocked
      modifies this
      ensures if blocked then At(i, from) else At(i + 1, from)
    {
      var ack := false;
      var tried := false;
      while !ack
        invariant Answered(from) && !blocked
        invariant Collapse(sent) == UpTo(if tried then i + 1 else i)
        invariant Settled(Read(from)) == if ack then i + 1 else i
        invariant NoErrors(from) ==> acked == UpTo(if ack then i + 1 else i)
        invariant ack ==> tried
        decreases !ack, |replies|
      {
        var reply := Exchange(i, tried, from);
        if blocked {
          return;
        }
        tried := true;
        match reply {
          case Error =>
            return;
          case Ack =>
            ack := true;
          case Other =>
        }
      }
    }

    /** send_latest_events for events[prev:new]; `reached` is short of `new_` only if the server is blocked. */
    method SendLatestEvents(prev: nat, new_: nat, ghost from: seq<Reply>) returns (reached: nat)
      requires prev <= new_ && At(prev, from) && !blocked
      modifies this
      ensures prev <= reached <= new_ && At(reached, from) && (blocked <==> reached < new_)
    {
      reached := prev;
      for i := prev to new_
        invariant reached == i && At(i, from) && !blocked
      {
        SendOne(i, from);
        if blocked {
          return;
        }
        reached := i + 1;
      }
    }

    /** The whole of playSession, for a list that only grows. `first` is the length read before
        registering. Exactly the events before the last length read are transmitted, in order; each
        transmission is of the event that the replies before it leave open, so an event is repeated
        until an ack or a failed read settles it and not after; the acked events are those whose
        transmission was answered by an ack. The call ends only on SESSION_END. */
    method Play(first: nat, signals: seq<Signal>) returns (cursor: nat, ended: bool)
      requires sent == [] && acked == [] && !blocked
      requires Growing(first, signals)
      modifies this
      ensures !blocked ==> cursor == LastLength(first, signals)
      ensures Collapse(sent) == UpTo(if blocked then cursor + 1 else cursor)
      ensures NoErrors(old(replies)) ==> acked == UpTo(cursor)
      ensures |sent| == |old(replies)| - |replies| + (if blocked then 1 else 0)
      ensures forall k: nat :: Open(sent, old(replies), k)
      ensures cursor == Settled(Read(old(replies))) && acked == AckedOf(sent, Read(old(replies)))
      ensures ended <==> !blocked && SessionEnd in signals
    {
      ended := false;
      ghost var from := replies;
      cursor := SendLatestEvents(0, first, from);
      if blocked {
        return;
      }
      for k := 0 to |signals|
        invariant At(cursor, from) && !blocked
        invariant SessionEnd !in signals[..k]
        invariant Growing(cursor, signals[k..])
        invariant LastLength(cursor, signals[k..]) == LastLength(first, signals)
      {
        match signals[k] {
          case SessionEnd =>
            ended := true;
            return;
          case NewMessages(length) =>
            assert signals[k..][1..] == signals[k + 1..];
            cursor := SendLatestEvents(cursor, length, from);
            if blocked {
              return;
            }
        }
      }
    }
  }

  /** The lengths read never shrink. */
  predicate Growing(length: nat, signals: seq<Signal>)
    decreases |signals|
  {
    signals != [] && signals[0].NewMessages? ==>
      length <= signals[0].length && Growing(signals[0].length, signals[1..])
  }

  /** Every length read counts, until SESSION_END: the last one is where the cursor ends up. */
  lemma {:induction false} LastLengthIsLast(length: nat, signals: seq<Signal>, n: nat, rest: seq<Signal>)
    ensures SessionEnd !in signals ==>
              && LastLength(length, signals + [NewMessages(n)]) == n
              && LastLength(length, signals + [NewMessages(n), SessionEnd] + rest) == n
    decreases |signals|
  {
    if signals == [] {
      var two := [NewMessages(n), SessionEnd];
      assert [] + [NewMessages(n)] == [NewMessages(n)] && [NewMessages(n)][1..] == [];
      assert ([] + two + rest)[1..] == [SessionEnd] + rest;
    } else {
      var later := signals[1..];
      assert (signals + [NewMessages(n)])[1..] == later + [NewMessages(n)];
      assert (signals + [NewMessages(n), SessionEnd] + rest)[1..] == later + [NewMessages(n), SessionEnd] + rest;
      if SessionEnd !in signals {
        LastLengthIsLast(signals[0].length, later, n, rest);
      }
    }
  }

  /** The last length read before SESSION_END. */
  function LastLength(length: nat, signals: seq<Signal>): nat
    decreases |signals|
  {
    if signals == [] || signals[0].SessionEnd? then length
    else LastLength(signals[0].length, signals[1..])
  }
}
