/** The two signal states of a traffic light and the flip between them. */
module Phases {

  /** The traffic light phase: the enumeration has exactly these two members. */
  datatype Phase = Red | Green

  /** The phase a transition moves to: red becomes green, anything else becomes red. */
  function Toggle(p: Phase): (q: Phase)
    ensures q != p
  {
    if p == Red then Green else Red
  }
}
