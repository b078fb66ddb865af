/** The `safepoint_and_reduce!` step shared by the interpreters
    (`src/runtime/machine.rs` and `vm/src/interpreter/mod.rs`): a process
    runs until a collection is requested or its budget of reductions is
    spent, and is then rescheduled. */
module Safepoint {
  /** What the interpreter does after a safepoint: carry on, stop so that
      the process can be collected, or stop and reschedule the process. */
  datatype Outcome = Continue | Collect | Reschedule

  /** One safepoint with `left` reductions left: a requested collection
      stops the run first; otherwise a positive budget is decreased by one
      and an exhausted one reschedules the process. */
  function Reduce(left: nat, gcRequested: bool): (r: (Outcome, nat))
    ensures r.0 == Continue <==> !gcRequested && left > 0
    ensures r.0 == Reschedule <==> !gcRequested && left == 0
    ensures r.1 == if r.0 == Continue then left - 1 else left
  {
    if gcRequested then (Collect, left)
    else if left > 0 then (Continue, left - 1)
    else (Reschedule, left)
  }

  /** The number of safepoints passed before the process is rescheduled,
      when no collection is requested. */
  function SafepointsBeforeReschedule(left: nat): nat
    decreases left
  {
    var r := Reduce(left, false);
    if r.0 == Reschedule then 0 else 1 + SafepointsBeforeReschedule(r.1)
  }

  /** A budget of `left` reductions lets a process pass exactly `left`
      safepoints; the next one reschedules it. */
  lemma {:induction false} BudgetLasts(left: nat)
    ensures SafepointsBeforeReschedule(left) == left
    decreases left
  {
    if left > 0 {
      BudgetLasts(left - 1);
    }
  }
}
