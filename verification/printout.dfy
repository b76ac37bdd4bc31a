/** `SA.String`: the line printed for a snapshot. */
module Printout {
  import opened Wrappers
  import opened Sixaxis
  import opened Display
  import opened ReadBack

  /**
   * `SA.String`: both sticks, then the held d-pad buttons, then the other held
   * buttons. The line loses nothing: reading it back gives the snapshot.
   */
  function Render(s: State): (r: string)
    ensures ParseRender(r) == Some(s)
  {
    LineRoundTrip(s);
    Line(StickString(s.leftStick), StickString(s.rightStick),
         Join(Names(DpadHeld(s))), Join(Names(OtherHeld(s))))
  }

  /** Different snapshots print differently. */
  lemma RenderInjective(s: State, t: State)
    requires Render(s) == Render(t)
    ensures s == t
  {
  }
}
