/** The delay of the next playback event across changes of speed. Speeds are positive reals, delays
    whole milliseconds, and the clock is an argument. */
module DelayClock {
  import opened Prelude

  /** First digit of a number from 1 up, in decimal. */
  function LeadingDigitDown(x: real): (d: int)
    requires x >= 1.0
    ensures 1 <= d <= 9 && d as real <= x
    decreases x.Floor
  {
    if x < 10.0 then x.Floor else LeadingDigitDown(x / 10.0)
  }

  /** First non-zero digit of a number below 10. */
  function LeadingDigitUp(x: real): (d: int)
    requires 0.0 < x < 10.0
    ensures 1 <= d <= 9
    decreases (1.0 / x).Floor
  {
    if x >= 1.0 then x.Floor
    else
      assert 1.0 / (10.0 * x) == (1.0 / x) / 10.0 && 1.0 / x > 1.0;
      LeadingDigitUp(10.0 * x)
  }

  const SMALLEST_PLAIN := 0.000001
  const FIRST_LARGE := 1000000000000000000000.0

  /** parseInt applied to a number: the digits before the point of its text. From 10^21 up, and below
      10^-6, the text is in exponent form and starts with a single digit. */
  function ParseInt(x: real): int
    requires x >= 0.0
  {
    if x == 0.0 then 0
    else if x < SMALLEST_PLAIN then LeadingDigitUp(x)
    else if x < FIRST_LARGE then x.Floor
    else LeadingDigitDown(x)
  }

  function Ratio(armed: real, remaining: nat, speed: real): real
    requires armed > 0.0 && speed > 0.0
  {
    armed * (remaining as real) / speed
  }

  /** The delay armed when `remaining` milliseconds at speed `armed` are rescaled to `speed`. */
  function Rescaled(armed: real, remaining: nat, speed: real): (delay: nat)
    requires armed > 0.0 && speed > 0.0
  {
    ParseInt(Ratio(armed, remaining, speed))
  }

  lemma Scale(a: real, b: real, x: real)
    requires x > 0.0
    ensures (a <= b <==> a * x <= b * x) && (a < b <==> a * x < b * x)
  {
  }

  lemma ParseIntBounds(x: real)
    requires x >= 0.0
    ensures ParseInt(x) as real <= x <==> x == 0.0 || x >= SMALLEST_PLAIN
    ensures x < ParseInt(x) as real + 1.0 <==> x < FIRST_LARGE
  {
  }

  /** Speed times delay never grows at a change unless the new delay is written in negative-exponent
      form, and less than one millisecond at the new speed is lost unless it is written in
      positive-exponent form; in both cases exactly then. */
  lemma RescaleBounds(armed: real, remaining: nat, speed: real)
    requires armed > 0.0 && speed > 0.0
    ensures speed * (Rescaled(armed, remaining, speed) as real) <= armed * (remaining as real)
       <==> Ratio(armed, remaining, speed) == 0.0 || Ratio(armed, remaining, speed) >= SMALLEST_PLAIN
    ensures armed * (remaining as real) - speed * (Rescaled(armed, remaining, speed) as real) < speed
       <==> Ratio(armed, remaining, speed) < FIRST_LARGE
  {
    var x, work := Ratio(armed, remaining, speed), armed * (remaining as real);
    var delay := Rescaled(armed, remaining, speed) as real;
    ParseIntBounds(x);
    Quotient(work, speed);
    Scaled(work, x, delay, speed);
    assert speed * delay <= work <==> delay <= x;
    assert work - speed * delay < speed <==> x < delay + 1.0;
  }

  lemma Quotient(work: real, speed: real)
    requires speed > 0.0
    ensures work == (work / speed) * speed
  {
  }

  lemma Difference(a: real, b: real, x: real)
    ensures (a - b) * x == a * x - b * x
  {
  }

  lemma Scaled(work: real, x: real, r: real, speed: real)
    requires speed > 0.0 && work == x * speed
    ensures speed * r <= work <==> r <= x
    ensures work - speed * r < speed <==> x < r + 1.0
  {
    var d := x - r;
    Difference(x, r, speed);
    assert work - speed * r == d * speed;
    Scale(0.0, d, speed);
    Scale(d, 1.0, speed);
  }

  /** `elapsed` milliseconds pass, then the speed becomes `speed`. */
  datatype Change = Change(elapsed: nat, speed: real)

  datatype Timer = Timer(armed: real, remaining: nat)

  function Sum(changes: seq<Change>): real {
    if changes == [] then 0.0 else changes[0].speed + Sum(changes[1..])
  }

  function Elapsed(changes: seq<Change>): nat {
    if changes == [] then 0 else changes[0].elapsed + Elapsed(changes[1..])
  }

  /** The time of `elapsed` milliseconds in which the timer was running. */
  function Run(t: Timer, elapsed: nat): nat {
    if elapsed < t.remaining then elapsed else t.remaining
  }

  /** What is left of the delay: what has run is gone, no more and no less. */
  function Left(t: Timer, elapsed: nat): (left: nat)
    ensures left + Run(t, elapsed) == t.remaining
    ensures elapsed <= t.remaining ==> left + elapsed == t.remaining
  {
    if elapsed >= t.remaining then 0 else t.remaining - elapsed
  }

  /** Each speed is positive. */
  predicate Positive(t: Timer, changes: seq<Change>) {
    t.armed > 0.0 && forall i :: 0 <= i < |changes| ==> changes[i].speed > 0.0
  }

  predicate NotSmall(x: real) {
    x == 0.0 || x >= SMALLEST_PLAIN
  }

  predicate NotLarge(x: real) {
    x < FIRST_LARGE
  }

  /** Every rescaled delay of a series satisfies `p`. */
  predicate Throughout(p: real -> bool, t: Timer, changes: seq<Change>)
    requires Positive(t, changes)
    decreases |changes|
  {
    changes != [] ==>
      && p(Ratio(t.armed, Left(t, changes[0].elapsed), changes[0].speed))
      && Throughout(p, ChangeTo(t, changes[0]), changes[1..])
  }

  function ChangeTo(t: Timer, c: Change): Timer
    requires t.armed > 0.0 && c.speed > 0.0
  {
    Timer(c.speed, Rescaled(t.armed, Left(t, c.elapsed), c.speed))
  }

  function After(t: Timer, changes: seq<Change>): (r: Timer)
    requires Positive(t, changes)
    ensures r.armed > 0.0
    decreases |changes|
  {
    if changes == [] then t else After(ChangeTo(t, changes[0]), changes[1..])
  }

  /** Recording time played in `elapsed` milliseconds. */
  function PlayedIn(t: Timer, elapsed: nat): real {
    t.armed * (Run(t, elapsed) as real)
  }

  /** Recording time played between the changes. */
  function Played(t: Timer, changes: seq<Change>): real
    requires Positive(t, changes)
    decreases |changes|
  {
    if changes == [] then 0.0
    else PlayedIn(t, changes[0].elapsed) + Played(ChangeTo(t, changes[0]), changes[1..])
  }

  function Work(t: Timer): real {
    t.armed * (t.remaining as real)
  }

  lemma Distribute(a: real, b: real, c: real)
    ensures a * (b + c) == a * b + a * c
  {
  }

  /** What one change loses, exactly. */
  lemma OneChange(t: Timer, c: Change)
    requires t.armed > 0.0 && c.speed > 0.0
    ensures var lost := Work(t) - PlayedIn(t, c.elapsed) - Work(ChangeTo(t, c));
            var x := Ratio(t.armed, Left(t, c.elapsed), c.speed);
            (lost >= 0.0 <==> NotSmall(x)) && (lost < c.speed <==> NotLarge(x))
  {
    var left := Left(t, c.elapsed);
    RescaleBounds(t.armed, left, c.speed);
    var run := Run(t, c.elapsed);
    Distribute(t.armed, run as real, left as real);
    assert (run as real) + (left as real) == t.remaining as real;
  }

  /** Over any number of changes: unless some rescaled delay is written in negative-exponent form, the
      recording time still to wait plus what was played never exceeds what was armed at first; and
      unless some is written in positive-exponent form, it falls short of it by less than the sum of
      the new speeds, in milliseconds. */
  lemma {:induction false} DriftIsBounded(t: Timer, changes: seq<Change>)
    requires Positive(t, changes)
    ensures var drift := Work(t) - Played(t, changes) - Work(After(t, changes));
            && (Throughout(NotSmall, t, changes) ==> drift >= 0.0)
            && (Throughout(NotLarge, t, changes) ==> drift <= Sum(changes) && (changes != [] ==> drift < Sum(changes)))
    decreases |changes|
  {
    if changes != [] {
      OneChange(t, changes[0]);
      DriftIsBounded(ChangeTo(t, changes[0]), changes[1..]);
    }
  }

  lemma ReadsLeadingDigit(x: real)
    requires 0.0000005 == x
    ensures ParseInt(x) == 5
  {
    assert LeadingDigitUp(5.0) == 5;
    assert LeadingDigitUp(0.05) == LeadingDigitUp(0.5) == LeadingDigitUp(5.0);
    assert LeadingDigitUp(0.0005) == LeadingDigitUp(0.005) == LeadingDigitUp(0.05);
    assert LeadingDigitUp(0.000005) == LeadingDigitUp(0.00005) == LeadingDigitUp(0.0005);
    assert LeadingDigitUp(0.0000005) == LeadingDigitUp(0.000005);
  }

  /** Both forms occur. One millisecond left at speed 1, rescaled to speed 2,000,000, becomes five
      milliseconds: ten million times the recording time that was left. */
  lemma SmallDelayGrows()
    ensures Rescaled(1.0, 1, 2000000.0) == 5
    ensures 2000000.0 * (Rescaled(1.0, 1, 2000000.0) as real) > 1.0 * (1 as real)
  {
    ReadsLeadingDigit(Ratio(1.0, 1, 2000000.0));
  }

  /** A delay of 10^21 milliseconds, paused and resumed at the same speed, becomes one. */
  lemma LargeDelayIsLost()
    ensures Rescaled(1.0, 1000000000000000000000, 1.0) <= 9
    ensures 1.0 * (1000000000000000000000 as real) - 1.0 * (Rescaled(1.0, 1000000000000000000000, 1.0) as real) >= 1.0
  {
    assert Ratio(1.0, 1000000000000000000000, 1.0) == FIRST_LARGE;
  }

  /** The timing fields of the reader. */
  class DelayTimer {
    var speed: real
    var paused: bool
    var timeoutDelay: nat
    var timeoutDelaySpeed: real
    var timeoutTimestamp: int
    var timeoutDelaySaved: nat

    ghost predicate Valid()
      reads this
    {
      speed > 0.0 && timeoutDelaySpeed > 0.0
    }

    constructor ()
      ensures Valid() && paused && speed == timeoutDelaySpeed == 1.0
    {
      speed, paused := 1.0, true;
      timeoutDelay, timeoutDelaySpeed, timeoutTimestamp, timeoutDelaySaved := 0, 1.0, 0, 0;
    }

    /** As long as the delay lasts, it and the time since it was armed add up; then nothing is left. */
    function TimeToNextEvent(now: int): (left: nat)
      reads this
      ensures now - timeoutTimestamp <= timeoutDelay ==> left + (now - timeoutTimestamp) == timeoutDelay
      ensures now - timeoutTimestamp >= timeoutDelay ==> left == 0
    {
      var left := timeoutDelay - (now - timeoutTimestamp);
      if left > 0 then left else 0
    }

    method ResetTimeout(now: int, clearDelaySpeed: bool)
      requires Valid()
      modifies this`timeoutDelaySaved, this`timeoutDelay, this`timeoutTimestamp, this`timeoutDelaySpeed
      ensures Valid() && timeoutDelaySaved == old(TimeToNextEvent(now))
      ensures timeoutDelaySaved == (if now - old(timeoutTimestamp) < old(timeoutDelay)
                                    then old(timeoutDelay) - (now - old(timeoutTimestamp)) else 0)
      ensures timeoutDelay == timeoutTimestamp == 0
      ensures timeoutDelaySpeed == if clearDelaySpeed then 1.0 else old(timeoutDelaySpeed)
    {
      timeoutDelaySaved := TimeToNextEvent(now);
      timeoutDelay, timeoutTimestamp := 0, 0;
      if clearDelaySpeed {
        timeoutDelaySpeed := 1.0;
      }
    }

    method ResumeWithNewDelay(now: int)
      requires Valid()
      modifies this`timeoutDelaySaved, this`timeoutDelay, this`timeoutTimestamp, this`timeoutDelaySpeed
      ensures Valid() && timeoutDelaySpeed == speed && timeoutTimestamp == now
      ensures timeoutDelay == timeoutDelaySaved == Rescaled(old(timeoutDelaySpeed), old(timeoutDelaySaved), speed)
    {
      var newDelay := Rescaled(timeoutDelaySpeed, timeoutDelaySaved, speed);
      timeoutDelay, timeoutTimestamp := newDelay, now;
      timeoutDelaySaved := newDelay;
      timeoutDelaySpeed := speed;
    }

    method Pause(now: int)
      requires Valid()
      modifies this
      ensures Valid() && paused && timeoutDelaySaved == old(TimeToNextEvent(now))
      ensures timeoutDelaySaved == (if now - old(timeoutTimestamp) < old(timeoutDelay)
                                    then old(timeoutDelay) - (now - old(timeoutTimestamp)) else 0)
      ensures timeoutDelaySpeed == old(timeoutDelaySpeed) && speed == old(speed)
    {
      paused := true;
      ResetTimeout(now, false);
    }

    method Play(now: int)
      requires Valid()
      modifies this
      ensures Valid() && !paused && timeoutDelaySpeed == speed == old(speed) && timeoutTimestamp == now
      ensures timeoutDelay == Rescaled(old(timeoutDelaySpeed), old(timeoutDelaySaved), speed)
    {
      paused := false;
      ResumeWithNewDelay(now);
    }

    method UpdateSpeed(newVal: Option<real>)
      modifies this`speed
      ensures speed == if newVal.Some? then newVal.value else old(speed)
    {
      if newVal.Some? {
        speed := newVal.value;
      }
    }

    /** `newVal` is what parseFloat makes of the input, None for NaN, which leaves the speed alone.
        While playing: the remaining delay, rescaled. While paused only the speed changes. */
    method ChangeSpeedToNewVal(newVal: Option<real>, now: int)
      requires Valid() && (newVal.Some? ==> newVal.value > 0.0)
      modifies this
      ensures Valid() && paused == old(paused) && speed == if newVal.Some? then newVal.value else old(speed)
      ensures !old(paused) ==>
                && timeoutDelaySpeed == speed
                && TimeToNextEvent(now) == Rescaled(old(timeoutDelaySpeed), old(TimeToNextEvent(now)), speed)
      ensures old(paused) ==>
                timeoutDelaySpeed == old(timeoutDelaySpeed) && timeoutDelaySaved == old(timeoutDelaySaved)
    {
      if paused {
        UpdateSpeed(newVal);
      } else {
        Pause(now);
        UpdateSpeed(newVal);
        Play(now);
      }
    }

    /** A series of changes while playing, each after its time, does what `After` says. */
    method ChangeAll(changes: seq<Change>, start: int) returns (now: int)
      requires Valid() && !paused
      requires forall i :: 0 <= i < |changes| ==> changes[i].speed > 0.0
      modifies this
      ensures Valid() && !paused
      ensures Timer(timeoutDelaySpeed, TimeToNextEvent(now))
           == After(Timer(old(timeoutDelaySpeed), old(TimeToNextEvent(start))), changes)
      ensures now == start + Elapsed(changes)
    {
      now := start;
      for i := 0 to |changes|
        invariant Valid() && !paused
        invariant now + Elapsed(changes[i..]) == start + Elapsed(changes)
        invariant After(Timer(timeoutDelaySpeed, TimeToNextEvent(now)), changes[i..])
               == After(Timer(old(timeoutDelaySpeed), old(TimeToNextEvent(start))), changes)
      {
        assert changes[i..][1..] == changes[i + 1..];
        now := now + changes[i].elapsed;
        ChangeSpeedToNewVal(Some(changes[i].speed), now);
      }
    }
  }
}
