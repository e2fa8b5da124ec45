/** The states of a robot action. */
module ActionStates {
  datatype ActionState = Running | Succeed | Failed | Started | Undefined | Rejected

  predicate IsDone(s: ActionState) {
    s == Failed || s == Succeed
  }
}
