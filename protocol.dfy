/**
 * The experiment protocol: the trigger-code table, the phase durations and
 * the fixed, ordered list of phases the script runs, together with the
 * marker trace a list of phases produces when every phase emits its start
 * and end code.
 */
module Protocol {
  import opened Wrappers
  import opened Flicker

  // Trigger codes pushed on the marker stream.
  const StaticImageStart: int := 1
  const StaticImageEnd: int := 11
  const Ssvep5HzStart: int := 2
  const Ssvep5HzEnd: int := 12
  const RestStart: int := 3
  const RestEnd: int := 13
  const Ssvep7HzStart: int := 4
  const Ssvep7HzEnd: int := 14
  /** Declared as the end-of-experiment trigger, but never sent. */
  const EndTrigger: int := 99

  /** Seconds each phase lasts. */
  const DurationPerPhase: real := 30.0
  /** Seconds the "Ready go....." message stays up. */
  const ReadyDuration: real := 7.0

  /** The arguments of one `run_task` call. */
  datatype Phase = Phase(startCode: int, endCode: int, taskText: string, duration: real, flicker: Option<real>)

  function RestPhase(): Phase
  {
    Phase(RestStart, RestEnd, "Rest Phase", DurationPerPhase, None)
  }

  /**
   * The phases the script runs, in order: Rest, 5 Hz, Rest, 7 Hz, Rest,
   * Ending. The static-image phase is commented out in the script and is
   * not in the list. Only the two SSVEP phases flicker, and every end code
   * is its start code plus ten.
   */
  function DefaultRun(): (run: seq<Phase>)
    ensures |run| == 6
    ensures forall p <- run :: p.duration == DurationPerPhase && p.endCode == p.startCode + 10
    ensures forall p <- run :: IsTruthy(p.flicker) <==> p.startCode == Ssvep5HzStart || p.startCode == Ssvep7HzStart
    ensures forall p <- run :: p.startCode != EndTrigger && p.endCode != EndTrigger
  {
    [ RestPhase(),
      Phase(Ssvep5HzStart, Ssvep5HzEnd, "5 Hz Stimulation", DurationPerPhase, Some(5.0)),
      RestPhase(),
      Phase(Ssvep7HzStart, Ssvep7HzEnd, "7 Hz Stimulation", DurationPerPhase, Some(7.0)),
      RestPhase(),
      Phase(StaticImageStart, StaticImageEnd, "Ending", DurationPerPhase, None) ]
  }

  /** The start code and then the end code of each phase, in list order. */
  function Markers(phases: seq<Phase>): (trace: seq<int>)
    ensures |trace| == 2 * |phases|
  {
    if phases == [] then []
    else
      var last := phases[|phases| - 1];
      Markers(phases[..|phases| - 1]) + [last.startCode, last.endCode]
  }

  /**
   * The trace is made of non-interleaved `[start, end]` pairs, one per phase,
   * in list order.
   */
  lemma {:induction false} MarkersPaired(phases: seq<Phase>)
    ensures |Markers(phases)| == 2 * |phases|
    ensures forall j :: 0 <= j < |phases| ==>
      Markers(phases)[2 * j] == phases[j].startCode && Markers(phases)[2 * j + 1] == phases[j].endCode
  {
    if phases != [] {
      var init := phases[..|phases| - 1];
      MarkersPaired(init);
      forall j | 0 <= j < |phases|
        ensures Markers(phases)[2 * j] == phases[j].startCode && Markers(phases)[2 * j + 1] == phases[j].endCode
      {
        if j < |init| {
          assert phases[j] == init[j];
        }
      }
    }
  }

  /** A code that no phase of the list carries never appears in its trace. */
  lemma {:induction false} MarkersAvoid(phases: seq<Phase>, code: int)
    requires forall p <- phases :: p.startCode != code && p.endCode != code
    ensures code !in Markers(phases)
  {
    if phases != [] {
      var init := phases[..|phases| - 1];
      assert forall p <- init :: p in phases;
      MarkersAvoid(init, code);
    }
  }

  /** The trace of the full default run, as the downstream analysis expects it. */
  lemma {:induction false} DefaultRunMarkers()
    ensures Markers(DefaultRun()) == [3, 13, 2, 12, 3, 13, 4, 14, 3, 13, 1, 11]
  {
    var run := DefaultRun();
    assert run[..6][..5] == run[..5];
    assert run[..5][..4] == run[..4];
    assert run[..4][..3] == run[..3];
    assert run[..3][..2] == run[..2];
    assert run[..2][..1] == run[..1];
    assert run[..1][..0] == [];
    assert Markers(run[..1]) == [3, 13];
    assert Markers(run[..2]) == [3, 13, 2, 12];
    assert Markers(run[..3]) == [3, 13, 2, 12, 3, 13];
    assert Markers(run[..4]) == [3, 13, 2, 12, 3, 13, 4, 14];
    assert Markers(run[..5]) == [3, 13, 2, 12, 3, 13, 4, 14, 3, 13];
    assert run[..6] == run;
  }

  /** No prefix of the default run ever emits the reserved code 99. */
  lemma {:induction false} ReservedCodeNotInDefaultRun(n: nat)
    requires n <= 6
    ensures EndTrigger !in Markers(DefaultRun()[..n])
  {
    var run := DefaultRun();
    assert forall p <- run[..n] :: p in run;
    MarkersAvoid(run[..n], EndTrigger);
  }
}
