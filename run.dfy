/**
 * The top level of the script: the ready gate, then `run_task` for each
 * phase of the list in order, then closing the window. An abort in a phase
 * (`core.quit()`) ends the run there: no later phase starts.
 */
module Run {
  import opened Protocol
  import opened Devices
  import opened Task
  import opened Gate

  /** One tick sequence per phase (each phase resets its own clock), each ending its phase. */
  predicate RunEnds(phases: seq<Phase>, runTicks: seq<seq<Tick>>)
  {
    |runTicks| == |phases| &&
    forall k :: 0 <= k < |phases| ==> EndsFrom(runTicks[k], phases[k].duration, 0)
  }

  /** Phase `k` is ended by `escape`. */
  predicate Aborts(phases: seq<Phase>, runTicks: seq<seq<Tick>>, k: nat)
    requires RunEnds(phases, runTicks) && k < |phases|
  {
    PhaseStop(phases[k], runTicks[k]).ending == Aborted
  }

  /**
   * Counting from phase `k`, the number of phases that start: up to and
   * including the first aborted phase, or to the end of the list.
   */
  function StartedFrom(phases: seq<Phase>, runTicks: seq<seq<Tick>>, k: nat): (n: nat)
    requires RunEnds(phases, runTicks) && k <= |phases|
    ensures k <= n <= |phases|
    ensures k < |phases| ==> k < n
    ensures forall m :: k <= m < n - 1 ==> !Aborts(phases, runTicks, m)
    ensures n < |phases| ==> Aborts(phases, runTicks, n - 1)
    decreases |phases| - k
  {
    if k == |phases| then k
    else if Aborts(phases, runTicks, k) then k + 1
    else StartedFrom(phases, runTicks, k + 1)
  }

  /** The number of phases that start. */
  function Started(phases: seq<Phase>, runTicks: seq<seq<Tick>>): nat
    requires RunEnds(phases, runTicks)
  {
    StartedFrom(phases, runTicks, 0)
  }

  /** The run was cut short by `escape` in its last started phase. */
  predicate Halted(phases: seq<Phase>, runTicks: seq<seq<Tick>>)
    requires RunEnds(phases, runTicks)
  {
    var n := Started(phases, runTicks);
    n > 0 && Aborts(phases, runTicks, n - 1)
  }

  /** The codes the phase list sends. */
  function RunTrace(phases: seq<Phase>, runTicks: seq<seq<Tick>>): seq<int>
    requires RunEnds(phases, runTicks)
  {
    Markers(phases[..Started(phases, runTicks)])
  }

  /** The frames the first `n` phases show, in order. */
  function RunFrames(phases: seq<Phase>, runTicks: seq<seq<Tick>>, n: nat): seq<Frame>
    requires RunEnds(phases, runTicks) && n <= |phases|
  {
    if n == 0 then []
    else RunFrames(phases, runTicks, n - 1) + PhaseFrames(phases[n - 1], runTicks[n - 1])
  }

  /**
   * The successive `run_task` calls: each phase of the list in order,
   * stopping after the phase in which `escape` is pressed.
   */
  method RunPhases(outlet: Outlet, display: Display, phases: seq<Phase>, runTicks: seq<seq<Tick>>)
    returns (quit: bool)
    requires RunEnds(phases, runTicks)
    requires display.Coherent()
    modifies outlet, display
    ensures outlet.samples == old(outlet.samples) + RunTrace(phases, runTicks)
    ensures display.frames == old(display.frames) + RunFrames(phases, runTicks, Started(phases, runTicks))
    ensures quit <==> Halted(phases, runTicks)
    ensures display.open == (old(display.open) && !quit)
    ensures display.Coherent()
  {
    var k := 0;
    while k < |phases|
      invariant 0 <= k <= |phases|
      invariant RunSoFar(outlet, display, phases, runTicks, k, old(outlet.samples), old(display.frames))
      invariant display.open == old(display.open)
    {
      var q := RunPhase(outlet, display, phases, runTicks, k, old(outlet.samples), old(display.frames));
      k := k + 1;
      if q {
        return true;
      }
    }
    assert phases[..k] == phases;
    quit := false;
  }

  /**
   * After the first `k` phases ran and none aborted: the trace and frames
   * they produced were appended to `samples0` and `frames0`.
   */
  ghost predicate RunSoFar(outlet: Outlet, display: Display, phases: seq<Phase>, runTicks: seq<seq<Tick>>,
                           k: nat, samples0: seq<int>, frames0: seq<Frame>)
    reads outlet, display
    requires RunEnds(phases, runTicks) && k <= |phases|
  {
    && (forall m :: 0 <= m < k ==> !Aborts(phases, runTicks, m))
    && StartedFrom(phases, runTicks, k) == Started(phases, runTicks)
    && outlet.samples == samples0 + Markers(phases[..k])
    && display.frames == frames0 + RunFrames(phases, runTicks, k)
    && display.Coherent()
  }

  /**
   * One `run_task` call of the sequence, for phase `k`: it extends what the
   * run has produced so far, and on an abort the run is over.
   */
  method RunPhase(outlet: Outlet, display: Display, phases: seq<Phase>, runTicks: seq<seq<Tick>>, k: nat,
                  ghost samples0: seq<int>, ghost frames0: seq<Frame>)
    returns (quit: bool)
    requires RunEnds(phases, runTicks) && k < |phases|
    requires RunSoFar(outlet, display, phases, runTicks, k, samples0, frames0)
    modifies outlet, display
    ensures quit <==> Aborts(phases, runTicks, k)
    ensures !quit ==> RunSoFar(outlet, display, phases, runTicks, k + 1, samples0, frames0)
    ensures quit ==> Started(phases, runTicks) == k + 1 && Halted(phases, runTicks)
    ensures quit ==> outlet.samples == samples0 + RunTrace(phases, runTicks)
    ensures quit ==> display.frames == frames0 + RunFrames(phases, runTicks, k + 1)
    ensures quit ==> display.Coherent()
    ensures display.open == (old(display.open) && !quit)
  {
    quit := RunTask(outlet, display, phases[k], runTicks[k]);
    NextPhase(phases, runTicks, k);
    AppendAssoc(samples0, Markers(phases[..k]), [phases[k].startCode, phases[k].endCode]);
    AppendAssoc(frames0, RunFrames(phases, runTicks, k), PhaseFrames(phases[k], runTicks[k]));
  }

  /** What running phase `k` adds to the trace, the frames and the count. */
  lemma {:induction false} NextPhase(phases: seq<Phase>, runTicks: seq<seq<Tick>>, k: nat)
    requires RunEnds(phases, runTicks) && k < |phases|
    ensures Markers(phases[..k + 1]) == Markers(phases[..k]) + [phases[k].startCode, phases[k].endCode]
    ensures RunFrames(phases, runTicks, k + 1) == RunFrames(phases, runTicks, k) + PhaseFrames(phases[k], runTicks[k])
    ensures Aborts(phases, runTicks, k) ==> StartedFrom(phases, runTicks, k) == k + 1
    ensures !Aborts(phases, runTicks, k) ==> StartedFrom(phases, runTicks, k) == StartedFrom(phases, runTicks, k + 1)
  {
    assert phases[..k + 1][..k] == phases[..k];
  }

  /** The codes the whole experiment sends: none if the gate quits. */
  function ExperimentTrace(polls: seq<Poll>, runTicks: seq<seq<Tick>>): seq<int>
    requires GateEndsFrom(polls, ReadyDuration, 0) && RunEnds(DefaultRun(), runTicks)
  {
    if GateQuits(polls, ReadyDuration) then [] else RunTrace(DefaultRun(), runTicks)
  }

  /** The frames the whole experiment shows: none if the gate quits. */
  function ExperimentFrames(polls: seq<Poll>, runTicks: seq<seq<Tick>>): seq<Frame>
    requires GateEndsFrom(polls, ReadyDuration, 0) && RunEnds(DefaultRun(), runTicks)
  {
    if GateQuits(polls, ReadyDuration) then []
    else RunFrames(DefaultRun(), runTicks, Started(DefaultRun(), runTicks))
  }

  /**
   * The script from the ready gate on: the gate, the six phases, then
   * closing the window. Every way it ends leaves the window closed.
   */
  method RunExperiment(outlet: Outlet, display: Display, polls: seq<Poll>, runTicks: seq<seq<Tick>>)
    requires GateEndsFrom(polls, ReadyDuration, 0) && RunEnds(DefaultRun(), runTicks)
    requires display.Coherent()
    modifies outlet, display
    ensures outlet.samples == old(outlet.samples) + ExperimentTrace(polls, runTicks)
    ensures display.frames == old(display.frames) + ExperimentFrames(polls, runTicks)
    ensures !display.open
    ensures display.Coherent()
  {
    var quit := ReadyGate(display, ReadyDuration, polls);
    if quit {
      return;
    }
    quit := RunPhases(outlet, display, DefaultRun(), runTicks);
    if !quit {
      display.Close();
    }
  }
}

/** What the run promises, for every input. */
module RunProperties {
  import opened Wrappers
  import opened Protocol
  import opened Task
  import opened Gate
  import opened Run

  /**
   * The trace is one non-interleaved `[start, end]` pair per started phase,
   * in list order, whatever keys are pressed and whenever.
   */
  lemma {:induction false} RunTracePaired(phases: seq<Phase>, runTicks: seq<seq<Tick>>)
    requires RunEnds(phases, runTicks)
    ensures |RunTrace(phases, runTicks)| == 2 * Started(phases, runTicks)
    ensures forall j :: 0 <= j < Started(phases, runTicks) ==>
      RunTrace(phases, runTicks)[2 * j] == phases[j].startCode &&
      RunTrace(phases, runTicks)[2 * j + 1] == phases[j].endCode
  {
    MarkersPaired(phases[..Started(phases, runTicks)]);
  }

  /**
   * An abort in phase `j`, with no earlier abort, sends that phase's end
   * code as the last marker: no later phase's start code is ever sent.
   */
  lemma {:induction false} AbortEndsRun(phases: seq<Phase>, runTicks: seq<seq<Tick>>, j: nat)
    requires RunEnds(phases, runTicks) && j < |phases|
    requires Aborts(phases, runTicks, j)
    requires forall m :: 0 <= m < j ==> !Aborts(phases, runTicks, m)
    ensures Started(phases, runTicks) == j + 1
    ensures Halted(phases, runTicks)
    ensures RunTrace(phases, runTicks) == Markers(phases[..j]) + [phases[j].startCode, phases[j].endCode]
  {
    assert phases[..j + 1][..j] == phases[..j];
  }

  /**
   * A started phase that ends by `return` or by time is followed by the
   * next phase of the list: its end code is followed by the next start code.
   */
  lemma {:induction false} NonAbortStartsNext(phases: seq<Phase>, runTicks: seq<seq<Tick>>, j: nat)
    requires RunEnds(phases, runTicks)
    requires j < Started(phases, runTicks) && j + 1 < |phases|
    requires PhaseStop(phases[j], runTicks[j]).ending != Aborted
    ensures j + 1 < Started(phases, runTicks)
    ensures RunTrace(phases, runTicks)[2 * j + 1] == phases[j].endCode
    ensures RunTrace(phases, runTicks)[2 * j + 2] == phases[j + 1].startCode
  {
    RunTracePaired(phases, runTicks);
  }

  /** A phase in which `escape` is never pressed is not aborted. */
  lemma {:induction false} EscapeFreePhaseNotAborted(p: Phase, ticks: seq<Tick>)
    requires EndsFrom(ticks, p.duration, 0)
    requires forall i :: 0 <= i < |ticks| ==> Escape !in ticks[i].keys
    ensures PhaseStop(p, ticks).ending != Aborted
  {
    var s := PhaseStop(p, ticks);
    assert Escape !in ticks[s.at].keys;
  }

  lemma {:induction false} NoAbortRunsAll(phases: seq<Phase>, runTicks: seq<seq<Tick>>)
    requires RunEnds(phases, runTicks)
    requires forall m :: 0 <= m < |phases| ==> !Aborts(phases, runTicks, m)
    ensures Started(phases, runTicks) == |phases|
  {
  }

  /** Without `escape` in any phase, every phase starts and the run is not halted. */
  lemma {:induction false} EscapeFreeRunCompletes(phases: seq<Phase>, runTicks: seq<seq<Tick>>)
    requires RunEnds(phases, runTicks)
    requires forall k, i :: 0 <= k < |runTicks| && 0 <= i < |runTicks[k]| ==> Escape !in runTicks[k][i].keys
    ensures Started(phases, runTicks) == |phases|
    ensures !Halted(phases, runTicks)
    ensures RunTrace(phases, runTicks) == Markers(phases)
  {
    forall m | 0 <= m < |phases|
      ensures !Aborts(phases, runTicks, m)
    {
      EscapeFreePhaseNotAborted(phases[m], runTicks[m]);
    }
    NoAbortRunsAll(phases, runTicks);
    assert phases[..|phases|] == phases;
  }

  /**
   * When the gate is passed and `escape` is never pressed, the experiment
   * sends exactly 3,13,2,12,3,13,4,14,3,13,1,11 (`return` may still cut
   * phases short).
   */
  lemma {:induction false} UninterruptedExperimentTrace(polls: seq<Poll>, runTicks: seq<seq<Tick>>)
    requires GateEndsFrom(polls, ReadyDuration, 0) && RunEnds(DefaultRun(), runTicks)
    requires !GateQuits(polls, ReadyDuration)
    requires forall k, i :: 0 <= k < |runTicks| && 0 <= i < |runTicks[k]| ==> Escape !in runTicks[k][i].keys
    ensures ExperimentTrace(polls, runTicks) == [3, 13, 2, 12, 3, 13, 4, 14, 3, 13, 1, 11]
  {
    EscapeFreeRunCompletes(DefaultRun(), runTicks);
    DefaultRunMarkers();
  }

  /** `escape` at the gate means no marker at all is sent. */
  lemma {:induction false} GateEscapeSendsNothing(polls: seq<Poll>, runTicks: seq<seq<Tick>>, i: nat)
    requires GateEndsFrom(polls, ReadyDuration, 0) && RunEnds(DefaultRun(), runTicks)
    requires i < |polls| && polls[i].time < ReadyDuration
    requires Escape in polls[i].keys && Return !in polls[i].keys
    requires forall j :: 0 <= j < i ==> GateVerdict(polls[j], ReadyDuration) == None
    ensures ExperimentTrace(polls, runTicks) == []
  {
    EscapeQuitsGate(polls, ReadyDuration, i);
  }

  /** The reserved code 99 is never sent, whatever happens. */
  lemma {:induction false} ReservedCodeNeverSent(polls: seq<Poll>, runTicks: seq<seq<Tick>>)
    requires GateEndsFrom(polls, ReadyDuration, 0) && RunEnds(DefaultRun(), runTicks)
    ensures EndTrigger !in ExperimentTrace(polls, runTicks)
  {
    ReservedCodeNotInDefaultRun(Started(DefaultRun(), runTicks));
  }
}
