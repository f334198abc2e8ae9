/** The Notice of Absence check: was a frame sent while the group owner had announced to be absent? */
module NoaCheck {
  import opened CText
  import opened Division

  /** Extra time on both sides of an absence, against an inaccurate sniffer. */
  const SLACK := 200

  datatype Frame = Frame(number: nat, mactime: int)

  /** What the beacon says, in microseconds. */
  datatype Beacon = Beacon(mactime: int, timestamp: nat, duration: nat, interval: nat, start: nat)

  /** What the script prints; a zero interval makes the remainder raise an exception. */
  datatype Outcome = StartBehindBeacon | FrameBeforeStart | NoRemainder | Failure(number: nat) | Success

  /** The start of the first absence on the clock of the frames. */
  function StartTime(b: Beacon): int {
    b.mactime - (b.timestamp - b.start)
  }

  // -------------------------------------------------------------- the specification

  /** The frame is well inside an absence, the k-th of those that follow each other every interval. */
  ghost predicate InAbsence(t: int, start: int, interval: nat, duration: nat, k: nat) {
    start + k * interval + 200 < t < start + k * interval + duration - 200
  }

  ghost predicate Absent(t: int, start: int, interval: nat, duration: nat) {
    exists k: nat :: InAbsence(t, start, interval, duration, k)
  }

  // ---------------------------------------------------------------------- the test

  /** The test of one frame; the divisor is positive, so that the remainder is that of Python. */
  predicate Flagged(t: int, start: int, interval: nat, duration: nat)
    requires interval > 0
  {
    var offset := (t - start) % interval;
    offset > SLACK && offset + SLACK < duration
  }

  /** A flagged frame is in an absence. */
  lemma FlaggedIsAbsent(t: int, start: int, interval: nat, duration: nat)
    requires interval > 0 && t >= start && Flagged(t, start, interval, duration)
    ensures Absent(t, start, interval, duration)
  {
    Divide(t - start, interval);
    assert InAbsence(t, start, interval, duration, (t - start) / interval);
  }

  /** The other way round, if no absence reaches as far as the slack into the next one, or if there is none at all. */
  predicate Decides(interval: nat, duration: nat) {
    duration <= interval + 200 || duration <= 401
  }

  lemma AbsentIsFlagged(t: int, start: int, interval: nat, duration: nat)
    requires interval > 0 && t >= start && Decides(interval, duration) && Absent(t, start, interval, duration)
    ensures Flagged(t, start, interval, duration)
  {
    var k: nat :| InAbsence(t, start, interval, duration, k);
    DivisionIsUnique(t - start, interval, k, t - start - interval * k);
  }

  /** A frame that is in the first absence and passes the test, when the test does not decide. */
  lemma Missed(start: int, interval: nat, duration: nat) returns (t: int)
    requires interval > 0 && !Decides(interval, duration)
    ensures t >= start && Absent(t, start, interval, duration) && !Flagged(t, start, interval, duration)
  {
    var x := if interval > SLACK then interval else SLACK + 1;
    t := start + x;
    assert InAbsence(t, start, interval, duration, 0);
    if interval > SLACK {
      DivisionIsUnique(x, interval, 1, 0);
    } else {
      Divide(x, interval);
    }
  }

  /** The test decides the specification for every frame exactly under that condition on the two numbers. */
  lemma TestDecidesAbsence(start: int, interval: nat, duration: nat)
    requires interval > 0
    ensures (forall t ::
               t >= start ==> (Flagged(t, start, interval, duration) <==> Absent(t, start, interval, duration)))
       <==> Decides(interval, duration)
  {
    if Decides(interval, duration) {
      forall t | t >= start ensures Flagged(t, start, interval, duration) <==> Absent(t, start, interval, duration) {
        if Flagged(t, start, interval, duration) { FlaggedIsAbsent(t, start, interval, duration); }
        if Absent(t, start, interval, duration) { AbsentIsFlagged(t, start, interval, duration); }
      }
    } else {
      var t := Missed(start, interval, duration);
      assert Flagged(t, start, interval, duration) != Absent(t, start, interval, duration);
    }
  }

  // ---------------------------------------------------------------------- the loop

  predicate AllFrom(frames: seq<Frame>, start: int) {
    forall i :: 0 <= i < |frames| ==> frames[i].mactime >= start
  }

  /** The place of the last flagged frame. */
  function LastFlagged(frames: seq<Frame>, start: int, interval: nat, duration: nat): (at: Option<nat>)
    requires interval > 0
    ensures at.Some? ==> at.value < |frames| && Flagged(frames[at.value].mactime, start, interval, duration)
    ensures forall i :: (if at.Some? then at.value + 1 else 0) <= i < |frames| ==>
              !Flagged(frames[i].mactime, start, interval, duration)
  {
    if frames == [] then None
    else
      var n := |frames| - 1;
      if Flagged(frames[n].mactime, start, interval, duration) then Some(n)
      else LastFlagged(frames[..n], start, interval, duration)
  }

  function Verdict(b: Beacon, frames: seq<Frame>): Outcome {
    if b.start > b.timestamp then StartBehindBeacon
    else if b.interval == 0 then
      if frames == [] then Success else if frames[0].mactime < StartTime(b) then FrameBeforeStart else NoRemainder
    else if !AllFrom(frames, StartTime(b)) then FrameBeforeStart
    else match LastFlagged(frames, StartTime(b), b.interval, b.duration)
      case None => Success
      case Some(i) => if frames[i].number == 0 then Success else Failure(frames[i].number)
  }

  function NumberAt(frames: seq<Frame>, at: Option<nat>): Option<nat> {
    match at case None => None case Some(i) => if i < |frames| then Some(frames[i].number) else None
  }

  /** The script, from the fields of the beacon and of the frames on. */
  method Check(b: Beacon, frames: seq<Frame>) returns (r: Outcome)
    ensures r == Verdict(b, frames)
  {
    if b.start > b.timestamp { return StartBehindBeacon; }
    var start := b.mactime - (b.timestamp - b.start);
    var errorFrame: Option<nat> := None;
    for i := 0 to |frames|
      invariant AllFrom(frames[..i], start)
      invariant i > 0 ==> b.interval > 0
      invariant b.interval > 0 ==>
                  errorFrame == NumberAt(frames, LastFlagged(frames[..i], start, b.interval, b.duration))
      invariant i == 0 ==> errorFrame == None
    {
      var t := frames[i].mactime;
      if t < start { return FrameBeforeStart; }
      if b.interval == 0 { return NoRemainder; }
      assert frames[..i + 1][..i] == frames[..i];
      var offset := (t - start) % b.interval;
      if offset > SLACK && offset + SLACK < b.duration {
        errorFrame := Some(frames[i].number);
      }
    }
    assert frames[..|frames|] == frames;
    if errorFrame.Some? && errorFrame.value != 0 { return Failure(errorFrame.value); }
    return Success;
  }

  // ------------------------------------------------------------------- the verdict

  /** When a frame was sent, on the clock of the beacon. */
  function BeaconTime(f: Frame, b: Beacon): int {
    b.timestamp + (f.mactime - b.mactime)
  }

  ghost predicate IsAbsent(f: Frame, b: Beacon) {
    Absent(BeaconTime(f, b), b.start, b.interval, b.duration)
  }

  predicate IsEarly(f: Frame, b: Beacon) {
    BeaconTime(f, b) < b.start
  }

  /** The translation to the clock of the frames does not matter. */
  lemma SameOnBothClocks(f: Frame, b: Beacon)
    ensures f.mactime < StartTime(b) <==> IsEarly(f, b)
    ensures Absent(f.mactime, StartTime(b), b.interval, b.duration) <==> IsAbsent(f, b)
  {
    var t := BeaconTime(f, b);
    if k: nat :| InAbsence(t, b.start, b.interval, b.duration, k) {
      assert InAbsence(f.mactime, StartTime(b), b.interval, b.duration, k);
    }
    if k: nat :| InAbsence(f.mactime, StartTime(b), b.interval, b.duration, k) {
      assert InAbsence(t, b.start, b.interval, b.duration, k);
    }
  }

  /** This frame is the last one of all that are in an absence. */
  ghost predicate IsLastAbsent(frames: seq<Frame>, b: Beacon, i: nat) {
    i < |frames| && IsAbsent(frames[i], b) && forall j :: i < j < |frames| ==> !IsAbsent(frames[j], b)
  }

  ghost predicate NoneIsEarly(frames: seq<Frame>, b: Beacon) {
    forall i :: 0 <= i < |frames| ==> !IsEarly(frames[i], b)
  }

  /**
   FAILURE is printed exactly if a frame is in an absence, for the last such one, unless that is
   numbered zero, which the script takes for none.
   */
  lemma VerdictIsAbsence(b: Beacon, frames: seq<Frame>)
    requires b.start <= b.timestamp && b.interval > 0 && Decides(b.interval, b.duration) && NoneIsEarly(frames, b)
    ensures (forall i :: 0 <= i < |frames| ==> !IsAbsent(frames[i], b)) ==> Verdict(b, frames).Success?
    ensures forall i: nat :: IsLastAbsent(frames, b, i) ==>
              Verdict(b, frames) == if frames[i].number == 0 then Success else Failure(frames[i].number)
    ensures Verdict(b, frames).Failure? ==> exists i: nat :: IsLastAbsent(frames, b, i)
  {
    var start := StartTime(b);
    TestDecidesAbsence(start, b.interval, b.duration);
    forall i | 0 <= i < |frames|
      ensures frames[i].mactime >= start
      ensures Flagged(frames[i].mactime, start, b.interval, b.duration) <==> IsAbsent(frames[i], b)
    {
      SameOnBothClocks(frames[i], b);
      assert !IsEarly(frames[i], b);
    }
    var last := LastFlagged(frames, start, b.interval, b.duration);
    if last.Some? {
      assert IsLastAbsent(frames, b, last.value);
      assert forall i: nat :: IsLastAbsent(frames, b, i) ==> i == last.value;
    }
  }

  /** An early frame hides all others, also those that were flagged in front of it. */
  lemma EarlyFrameHidesAll(b: Beacon, frames: seq<Frame>)
    requires b.interval > 0
    ensures Verdict(b, frames) == FrameBeforeStart <==>
            b.start <= b.timestamp && exists i :: 0 <= i < |frames| && IsEarly(frames[i], b)
  {
    forall i | 0 <= i < |frames| ensures frames[i].mactime < StartTime(b) <==> IsEarly(frames[i], b) {
      SameOnBothClocks(frames[i], b);
    }
  }
}
