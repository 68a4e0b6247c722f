/** The order in which a lane's priority queue serves its entries (inference/queue.py). */
module LaneOrder {

  /** Tuples are compared by priority, then by the number drawn from the lane's sequence. */
  predicate ServedBefore(priority1: int, number1: nat, priority2: int, number2: nat) {
    priority1 < priority2 || (priority1 == priority2 && number1 < number2)
  }
}
