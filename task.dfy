/**
 * `run_task`: one phase of the experiment. It sends the start code, then
 * renders and polls the keyboard once per tick until the phase clock
 * reaches the duration, `return` is pressed (go to the next phase) or
 * `escape` is pressed (send the end code and quit the whole run). Every
 * way out sends the end code exactly once.
 */
module Task {
  import opened Wrappers
  import opened Flicker
  import opened Protocol
  import opened Devices

  const Escape: string := "escape"
  const Return: string := "return"

  /**
   * One pass of the loop: the clock reading at the loop head, the reading
   * used for the flicker colour, and the batch of keys polled after the flip.
   */
  datatype Tick = Tick(time: real, drawTime: real, keys: seq<string>)

  /** How a phase ended. */
  datatype Ending = TimedOut | Advanced | Aborted

  /** A phase's ending and the index of the tick on which it happened. */
  datatype Stop = Stop(ending: Ending, at: nat)

  /**
   * What the loop does on one tick: leave because the duration elapsed
   * (checked first, before anything is drawn), quit on `escape` (checked
   * before `return`), leave early on `return`, or go on (`None`).
   */
  function Verdict(tick: Tick, duration: real): Option<Ending>
  {
    if tick.time >= duration then Some(TimedOut)
    else if Escape in tick.keys then Some(Aborted)
    else if Return in tick.keys then Some(Advanced)
    else None
  }

  /** Some tick from index `i` on ends the phase. */
  predicate EndsFrom(ticks: seq<Tick>, duration: real, i: nat)
    decreases |ticks| - i
  {
    i < |ticks| && (Verdict(ticks[i], duration) != None || EndsFrom(ticks, duration, i + 1))
  }

  /** A tick at or after `i` that ends the phase is a witness for `EndsFrom`. */
  lemma {:induction false} EndsFromWitness(ticks: seq<Tick>, duration: real, i: nat, j: nat)
    requires i <= j < |ticks| && Verdict(ticks[j], duration) != None
    ensures EndsFrom(ticks, duration, i)
    decreases j - i
  {
    if i < j {
      EndsFromWitness(ticks, duration, i + 1, j);
    }
  }

  /**
   * The first tick from index `i` on that ends the phase, and how it ends
   * it: every earlier tick lets the loop go on.
   */
  function StopFrom(ticks: seq<Tick>, duration: real, i: nat): (s: Stop)
    requires EndsFrom(ticks, duration, i)
    ensures i <= s.at < |ticks|
    ensures Verdict(ticks[s.at], duration) == Some(s.ending)
    ensures forall j :: i <= j < s.at ==> Verdict(ticks[j], duration) == None
    decreases |ticks| - i
  {
    match Verdict(ticks[i], duration)
    case Some(e) => Stop(e, i)
    case None => StopFrom(ticks, duration, i + 1)
  }

  /** A tick that lets the loop go on does not change where the phase stops. */
  lemma {:induction false} StopFromNext(ticks: seq<Tick>, duration: real, i: nat)
    requires EndsFrom(ticks, duration, i) && i < |ticks|
    requires Verdict(ticks[i], duration) == None
    ensures EndsFrom(ticks, duration, i + 1)
    ensures StopFrom(ticks, duration, i + 1) == StopFrom(ticks, duration, i)
  {
  }

  /** How phase `p` ends on the clock and key readings `ticks`. */
  function PhaseStop(p: Phase, ticks: seq<Tick>): Stop
    requires EndsFrom(ticks, p.duration, 0)
  {
    StopFrom(ticks, p.duration, 0)
  }

  /**
   * The number of frames rendered: a tick that ends the phase by time draws
   * nothing, one that ends it by a key was drawn before the keys were read.
   */
  function FrameCount(s: Stop): nat
  {
    if s.ending == TimedOut then s.at else s.at + 1
  }

  /** The frames drawn on the first `n` ticks of phase `p`. */
  function RenderedFrames(p: Phase, ticks: seq<Tick>, n: nat): (frames: seq<Frame>)
    requires n <= |ticks|
    ensures |frames| == n
  {
    seq(n, k requires 0 <= k < n => Frame(FillColour(ticks[k].drawTime, p.flicker), p.taskText))
  }

  /** One more tick rendered adds that tick's frame at the end. */
  lemma {:induction false} RenderedFramesNext(p: Phase, ticks: seq<Tick>, n: nat)
    requires n < |ticks|
    ensures RenderedFrames(p, ticks, n + 1) ==
      RenderedFrames(p, ticks, n) + [Frame(FillColour(ticks[n].drawTime, p.flicker), p.taskText)]
  {
  }

  lemma {:induction false} AppendAssoc<T>(a: seq<T>, b: seq<T>, c: seq<T>)
    ensures (a + b) + c == a + (b + c)
  {
  }

  /** Two key batches that agree on `escape` and `return`. */
  predicate SameCommands(a: seq<string>, b: seq<string>)
  {
    (Escape in a <==> Escape in b) && (Return in a <==> Return in b)
  }

  /** The frames phase `p` shows before it ends. */
  function PhaseFrames(p: Phase, ticks: seq<Tick>): seq<Frame>
    requires EndsFrom(ticks, p.duration, 0)
  {
    RenderedFrames(p, ticks, FrameCount(PhaseStop(p, ticks)))
  }

  /**
   * The body of the loop up to the flip: set the square's fill by the
   * flicker rule at clock reading `t`, set the task text, and flip.
   */
  method DrawFrame(display: Display, p: Phase, t: real)
    modifies display
    ensures display.frames == old(display.frames) + [Frame(FillColour(t, p.flicker), p.taskText)]
    ensures display.fill == FillColour(t, p.flicker) && display.text == p.taskText
    ensures display.open == old(display.open)
    ensures display.Coherent()
  {
    display.fill := FillColour(t, p.flicker);
    display.text := p.taskText;
    display.Flip();
  }

  /**
   * `run_task(p.startCode, p.endCode, p.taskText, p.duration, p.flicker)`,
   * driven by the readings `ticks`. Whatever ends the phase, the stream
   * receives exactly its start code and then its end code; `quit` is the
   * `core.quit()` of the escape path, which closes the window first.
   */
  method RunTask(outlet: Outlet, display: Display, p: Phase, ticks: seq<Tick>) returns (quit: bool)
    requires EndsFrom(ticks, p.duration, 0)
    requires display.Coherent()
    modifies outlet, display
    ensures outlet.samples == old(outlet.samples) + [p.startCode, p.endCode]
    ensures quit <==> PhaseStop(p, ticks).ending == Aborted
    ensures display.frames == old(display.frames) + PhaseFrames(p, ticks)
    ensures display.open == (old(display.open) && !quit)
    ensures display.Coherent()
    ensures display.frames == old(display.frames) ==>
      display.fill == old(display.fill) && display.text == old(display.text)
  {
    SendTrigger(outlet, p.startCode);
    var i := 0;
    while ticks[i].time < p.duration
      invariant EndsFrom(ticks, p.duration, i) && i < |ticks|
      invariant StopFrom(ticks, p.duration, i) == PhaseStop(p, ticks)
      invariant outlet.samples == old(outlet.samples) + [p.startCode]
      invariant display.frames == old(display.frames) + RenderedFrames(p, ticks, i)
      invariant display.open == old(display.open)
      invariant display.Coherent()
      invariant display.frames == old(display.frames) ==>
        display.fill == old(display.fill) && display.text == old(display.text)
      decreases |ticks| - i
    {
      DrawFrame(display, p, ticks[i].drawTime);
      RenderedFramesNext(p, ticks, i);
      AppendAssoc(old(display.frames), RenderedFrames(p, ticks, i), [display.frames[|display.frames| - 1]]);
      var keys := ticks[i].keys;
      if Escape in keys {
        assert StopFrom(ticks, p.duration, i) == Stop(Aborted, i);
        assert PhaseFrames(p, ticks) == RenderedFrames(p, ticks, i + 1);
        SendTrigger(outlet, p.endCode);
        display.Close();
        return true;
      } else if Return in keys {
        assert StopFrom(ticks, p.duration, i) == Stop(Advanced, i);
        assert PhaseFrames(p, ticks) == RenderedFrames(p, ticks, i + 1);
        break;
      }
      StopFromNext(ticks, p.duration, i);
      i := i + 1;
    }
    assert PhaseStop(p, ticks).ending != Aborted;
    assert display.frames == old(display.frames) + PhaseFrames(p, ticks);
    SendTrigger(outlet, p.endCode);
    quit := false;
  }
}

/** What the per-phase loop promises, stated over the readings. */
module TaskProperties {
  import opened Wrappers
  import opened Flicker
  import opened Protocol
  import opened Task

  /**
   * The phase ends on the first tick that ends it: whatever that tick holds
   * decides the ending, and the ticks after it are never looked at.
   */
  lemma {:induction false} FirstEndingTickDecides(p: Phase, ticks: seq<Tick>, i: nat)
    requires i < |ticks| && Verdict(ticks[i], p.duration) != None
    requires forall j :: 0 <= j < i ==> Verdict(ticks[j], p.duration) == None
    ensures EndsFrom(ticks, p.duration, 0)
    ensures PhaseStop(p, ticks) == Stop(Verdict(ticks[i], p.duration).value, i)
  {
    EndsFromWitness(ticks, p.duration, 0, i);
  }

  /**
   * `escape` on a tick before the duration has elapsed aborts the phase on
   * that tick, even when `return` is in the same batch; the frame of that
   * tick was drawn.
   */
  lemma {:induction false} EscapeAbortsPhase(p: Phase, ticks: seq<Tick>, i: nat)
    requires i < |ticks| && ticks[i].time < p.duration && Escape in ticks[i].keys
    requires forall j :: 0 <= j < i ==> Verdict(ticks[j], p.duration) == None
    ensures EndsFrom(ticks, p.duration, 0)
    ensures PhaseStop(p, ticks) == Stop(Aborted, i)
    ensures |PhaseFrames(p, ticks)| == i + 1
  {
    FirstEndingTickDecides(p, ticks, i);
  }

  /**
   * `return` without `escape` on a tick before the duration has elapsed
   * leaves the phase on that tick, not as an abort.
   */
  lemma {:induction false} ReturnAdvancesPhase(p: Phase, ticks: seq<Tick>, i: nat)
    requires i < |ticks| && ticks[i].time < p.duration
    requires Return in ticks[i].keys && Escape !in ticks[i].keys
    requires forall j :: 0 <= j < i ==> Verdict(ticks[j], p.duration) == None
    ensures EndsFrom(ticks, p.duration, 0)
    ensures PhaseStop(p, ticks) == Stop(Advanced, i)
    ensures |PhaseFrames(p, ticks)| == i + 1
  {
    FirstEndingTickDecides(p, ticks, i);
  }

  /**
   * With no `escape` or `return` pressed, the phase ends exactly at the
   * first loop-head reading that reaches the duration, having drawn one
   * frame per earlier reading.
   */
  lemma {:induction false} QuietPhaseTimesOut(p: Phase, ticks: seq<Tick>, i: nat)
    requires forall j :: 0 <= j < |ticks| ==> Escape !in ticks[j].keys && Return !in ticks[j].keys
    requires i < |ticks| && ticks[i].time >= p.duration
    requires forall j :: 0 <= j < i ==> ticks[j].time < p.duration
    ensures EndsFrom(ticks, p.duration, 0)
    ensures PhaseStop(p, ticks) == Stop(TimedOut, i)
    ensures PhaseFrames(p, ticks) == RenderedFrames(p, ticks, i)
  {
    FirstEndingTickDecides(p, ticks, i);
  }

  /**
   * The duration is checked before anything is drawn: a phase whose
   * duration is not positive ends on its first reading with no frame.
   */
  lemma {:induction false} NonPositiveDurationDrawsNothing(p: Phase, ticks: seq<Tick>)
    requires p.duration <= 0.0
    requires |ticks| > 0 && ticks[0].time >= 0.0
    ensures EndsFrom(ticks, p.duration, 0)
    ensures PhaseStop(p, ticks) == Stop(TimedOut, 0)
    ensures PhaseFrames(p, ticks) == []
  {
    FirstEndingTickDecides(p, ticks, 0);
  }

  /**
   * Keys other than `escape` and `return` are ignored: readings that differ
   * only in such keys end the phase the same way, on the same tick, with
   * the same frames.
   */
  lemma {:induction false} OtherKeysIgnored(p: Phase, ticks: seq<Tick>, ticks': seq<Tick>)
    requires EndsFrom(ticks, p.duration, 0)
    requires |ticks'| == |ticks|
    requires forall j :: 0 <= j < |ticks| ==>
      ticks'[j].time == ticks[j].time && ticks'[j].drawTime == ticks[j].drawTime &&
      SameCommands(ticks'[j].keys, ticks[j].keys)
    ensures EndsFrom(ticks', p.duration, 0)
    ensures PhaseStop(p, ticks') == PhaseStop(p, ticks)
    ensures PhaseFrames(p, ticks') == PhaseFrames(p, ticks)
  {
    var s := PhaseStop(p, ticks);
    assert forall j :: 0 <= j < |ticks| ==> Verdict(ticks'[j], p.duration) == Verdict(ticks[j], p.duration);
    FirstEndingTickDecides(p, ticks', s.at);
  }
}
