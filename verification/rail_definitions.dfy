/**
 * Travel directions and signal aspects shared by every rail component
 * (src/include/RailDefinitions.h).
 */
module RailDefinitions {

  /**
   * Components are addressed by arena handles. A handle stands for the
   * component pointer the original code passes around and compares.
   */
  type CompId = nat

  /** The two travel orientations of the network, plus the enum's zero value. */
  datatype Direction = Unknown | Up | Down

  /** Signal aspects; Disabled stands for "no signal installed". */
  datatype SignalState = UnknownState | Red | Green | Disabled

  /**
   * The opposite travel direction. Every value other than Up, Unknown
   * included, maps to Up.
   */
  function ReverseDirection(d: Direction): (r: Direction)
    ensures r != Unknown
    ensures d == Up <==> r == Down
  {
    if d == Up then Down else Up
  }

  /** Reversal is an involution on the two real directions. */
  lemma ReverseInvolution(d: Direction)
    requires d != Unknown
    ensures ReverseDirection(ReverseDirection(d)) == d
  {
  }

  /** Unknown is not a fixed point of reversal: it is sent to Up, then to Down. */
  lemma ReverseUnknown()
    ensures ReverseDirection(Unknown) == Up
    ensures ReverseDirection(ReverseDirection(Unknown)) == Down
  {
  }
}
