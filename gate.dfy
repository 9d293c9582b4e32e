/**
 * The ready gate: the "Ready go....." message stays up until the ready
 * clock reaches its duration. Polling the keyboard meanwhile, `return`
 * skips the wait and `escape` closes the window and quits before any
 * marker is sent. Here `return` is checked before `escape`, the reverse of
 * the order inside a phase.
 */
module Gate {
  import opened Wrappers
  import opened Task
  import opened Devices

  // The first-ending search below mirrors the one in `Task` over `Tick`:
  // the gate polls a different reading and checks the keys in the other
  // order, so its verdict and its search are kept as separate definitions.

  /** One pass of the gate loop: the ready-clock reading and the keys polled. */
  datatype Poll = Poll(time: real, keys: seq<string>)

  /** How the gate ended. */
  datatype GateEnding = Elapsed | Skipped | Quit

  /** The gate's ending and the index of the poll on which it happened. */
  datatype GateStop = GateStop(ending: GateEnding, at: nat)

  /** What the gate loop does on one poll; `None` means it keeps waiting. */
  function GateVerdict(poll: Poll, duration: real): Option<GateEnding>
  {
    if poll.time >= duration then Some(Elapsed)
    else if Return in poll.keys then Some(Skipped)
    else if Escape in poll.keys then Some(Quit)
    else None
  }

  /** Some poll from index `i` on ends the gate. */
  predicate GateEndsFrom(polls: seq<Poll>, duration: real, i: nat)
    decreases |polls| - i
  {
    i < |polls| && (GateVerdict(polls[i], duration) != None || GateEndsFrom(polls, duration, i + 1))
  }

  /** A poll at or after `i` that ends the gate is a witness for `GateEndsFrom`. */
  lemma {:induction false} GateEndsFromWitness(polls: seq<Poll>, duration: real, i: nat, j: nat)
    requires i <= j < |polls| && GateVerdict(polls[j], duration) != None
    ensures GateEndsFrom(polls, duration, i)
    decreases j - i
  {
    if i < j {
      GateEndsFromWitness(polls, duration, i + 1, j);
    }
  }

  /** The first poll from index `i` on that ends the gate, and how. */
  function GateStopFrom(polls: seq<Poll>, duration: real, i: nat): (s: GateStop)
    requires GateEndsFrom(polls, duration, i)
    ensures i <= s.at < |polls|
    ensures GateVerdict(polls[s.at], duration) == Some(s.ending)
    ensures forall j :: i <= j < s.at ==> GateVerdict(polls[j], duration) == None
    decreases |polls| - i
  {
    match GateVerdict(polls[i], duration)
    case Some(e) => GateStop(e, i)
    case None => GateStopFrom(polls, duration, i + 1)
  }

  /** The gate quits the experiment on the readings `polls`. */
  predicate GateQuits(polls: seq<Poll>, duration: real)
    requires GateEndsFrom(polls, duration, 0)
  {
    GateStopFrom(polls, duration, 0).ending == Quit
  }

  /**
   * The ready-gate loop. It sends no marker (it has no outlet to send on)
   * and draws nothing; on `escape` it closes the window and `quit` is set.
   */
  method ReadyGate(display: Display, duration: real, polls: seq<Poll>) returns (quit: bool)
    requires GateEndsFrom(polls, duration, 0)
    modifies display
    ensures quit <==> GateQuits(polls, duration)
    ensures display.open == (old(display.open) && !quit)
    ensures display.frames == old(display.frames)
    ensures display.fill == old(display.fill) && display.text == old(display.text)
  {
    var i := 0;
    while polls[i].time < duration
      invariant GateEndsFrom(polls, duration, i) && i < |polls|
      invariant GateStopFrom(polls, duration, i) == GateStopFrom(polls, duration, 0)
      invariant display.open == old(display.open)
      invariant display.frames == old(display.frames)
      invariant display.fill == old(display.fill) && display.text == old(display.text)
      decreases |polls| - i
    {
      var keys := polls[i].keys;
      if Return in keys {
        assert GateStopFrom(polls, duration, i) == GateStop(Skipped, i);
        break;
      } else if Escape in keys {
        assert GateStopFrom(polls, duration, i) == GateStop(Quit, i);
        display.Close();
        return true;
      }
      assert GateStopFrom(polls, duration, i + 1) == GateStopFrom(polls, duration, i);
      i := i + 1;
    }
    quit := false;
  }

  /**
   * The gate ends on the first poll that ends it; later polls are never
   * looked at.
   */
  lemma {:induction false} FirstEndingPollDecides(polls: seq<Poll>, duration: real, i: nat)
    requires i < |polls| && GateVerdict(polls[i], duration) != None
    requires forall j :: 0 <= j < i ==> GateVerdict(polls[j], duration) == None
    ensures GateEndsFrom(polls, duration, 0)
    ensures GateStopFrom(polls, duration, 0) == GateStop(GateVerdict(polls[i], duration).value, i)
  {
    GateEndsFromWitness(polls, duration, 0, i);
  }

  /**
   * Keys other than `escape` and `return` are ignored: polls that differ
   * only in such keys end the gate the same way, on the same poll.
   */
  lemma {:induction false} GateOtherKeysIgnored(polls: seq<Poll>, polls': seq<Poll>, duration: real)
    requires GateEndsFrom(polls, duration, 0)
    requires |polls'| == |polls|
    requires forall j :: 0 <= j < |polls| ==>
      polls'[j].time == polls[j].time && SameCommands(polls'[j].keys, polls[j].keys)
    ensures GateEndsFrom(polls', duration, 0)
    ensures GateStopFrom(polls', duration, 0) == GateStopFrom(polls, duration, 0)
  {
    var s := GateStopFrom(polls, duration, 0);
    assert forall j :: 0 <= j < |polls| ==> GateVerdict(polls'[j], duration) == GateVerdict(polls[j], duration);
    FirstEndingPollDecides(polls', duration, s.at);
  }

  /**
   * `return` before the ready duration has elapsed skips the rest of the
   * wait, even when `escape` is in the same batch.
   */
  lemma {:induction false} ReturnSkipsGate(polls: seq<Poll>, duration: real, i: nat)
    requires i < |polls| && polls[i].time < duration && Return in polls[i].keys
    requires forall j :: 0 <= j < i ==> GateVerdict(polls[j], duration) == None
    ensures GateEndsFrom(polls, duration, 0)
    ensures GateStopFrom(polls, duration, 0) == GateStop(Skipped, i)
    ensures !GateQuits(polls, duration)
  {
    FirstEndingPollDecides(polls, duration, i);
  }

  /** `escape` without `return` before the ready duration has elapsed quits. */
  lemma {:induction false} EscapeQuitsGate(polls: seq<Poll>, duration: real, i: nat)
    requires i < |polls| && polls[i].time < duration
    requires Escape in polls[i].keys && Return !in polls[i].keys
    requires forall j :: 0 <= j < i ==> GateVerdict(polls[j], duration) == None
    ensures GateEndsFrom(polls, duration, 0)
    ensures GateQuits(polls, duration)
  {
    FirstEndingPollDecides(polls, duration, i);
  }

  /**
   * The same batch holding both `escape` and `return` quits a phase but
   * only skips the gate.
   */
  lemma {:induction false} PrecedenceDiffers(t: real, drawTime: real, duration: real, keys: seq<string>)
    requires t < duration && Escape in keys && Return in keys
    ensures Verdict(Tick(t, drawTime, keys), duration) == Some(Aborted)
    ensures GateVerdict(Poll(t, keys), duration) == Some(Skipped)
  {
  }
}
