/** Values shared by the operator-rule modules. */
module Receipts {
  import opened Common

  datatype Persistence = Prepared | Committed | Aborted | DurabilityUncertain

  datatype Activation = NotRequired | Pending | Applied | Superseded | Failed | Unknown

  /** The public receipt, cut to the fields the job supervisor reads. */
  datatype Receipt = Receipt(
    operationId: string,
    requestId: string,
    persistence: Persistence,
    changed: bool,
    activation: Activation,
    policyHash: Option<string>,
    auditRecorded: bool,
    diagnostics: seq<string>)

  predicate IsDurableTerminal(r: Receipt) {
    r.persistence == Committed || r.persistence == Aborted
  }

  predicate NeedsActivation(r: Receipt) {
    r.persistence == Committed && r.changed && r.activation == Pending
  }

  predicate NeedsAudit(r: Receipt) {
    IsDurableTerminal(r) && !r.auditRecorded
  }

  /** A receipt whose commit still owes an activation or an audit record. */
  predicate RequiresPostCommitCompletion(r: Receipt) {
    NeedsActivation(r) || NeedsAudit(r)
  }
}
