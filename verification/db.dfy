/** Failures of the relational database, supplied from outside the model.

    Each repository call issues a fixed sequence of SQL statements. A
    `Fault(step, message)` says that the statement with index `step` in that
    sequence is rejected by the database (connectivity loss, a constraint
    violation, a type conversion error) with the given error message. */
module Db {
  import opened Wrappers

  datatype Fault = Fault(step: nat, message: string)

  /** Whether the statement with index `step` is the one the database rejects. */
  predicate FailsAt(fault: Option<Fault>, step: nat)
  {
    fault.Some? && fault.value.step == step
  }

  /** Whether some statement with index in [from, from + count) is rejected. */
  predicate FailsWithin(fault: Option<Fault>, from: nat, count: nat)
  {
    fault.Some? && from <= fault.value.step < from + count
  }
}
