/**
 * The two pieces of state the script changes: the marker stream outlet,
 * which keeps every code pushed on it, and the display (window, stimulus
 * square and task text), which keeps every frame it has flipped.
 */
module Devices {
  import opened Flicker

  /** The marker stream outlet: the codes pushed so far, in order. */
  class Outlet {
    var samples: seq<int>

    constructor ()
      ensures samples == []
    {
      samples := [];
    }
  }

  /** `send_trigger`: push one code on the stream. Delivery is not modelled. */
  method SendTrigger(outlet: Outlet, code: int)
    modifies outlet
    ensures outlet.samples == old(outlet.samples) + [code]
  {
    outlet.samples := outlet.samples + [code];
  }

  /** What one flip of the window shows: the square's fill and the task text. */
  datatype Frame = Frame(fill: Colour, text: string)

  /** The window with its stimulus square and its task text. */
  class Display {
    var fill: Colour
    var text: string
    var frames: seq<Frame>
    var open: bool

    /** The last frame flipped, if any, shows the current fill and text. */
    predicate Coherent()
      reads this
    {
      frames != [] ==> frames[|frames| - 1] == Frame(fill, text)
    }

    /** The square starts black and the text empty; nothing is shown yet. */
    constructor ()
      ensures fill == Black && text == "" && frames == [] && open
      ensures Coherent()
    {
      fill, text, frames, open := Black, "", [], true;
    }

    /** `win.flip`: show the current fill and text as a new frame. */
    method Flip()
      modifies this
      ensures frames == old(frames) + [Frame(fill, text)]
      ensures fill == old(fill) && text == old(text) && open == old(open)
      ensures Coherent()
    {
      frames := frames + [Frame(fill, text)];
    }

    /** `win.close`. */
    method Close()
      modifies this
      ensures !open
      ensures fill == old(fill) && text == old(text) && frames == old(frames)
    {
      open := false;
    }
  }
}
