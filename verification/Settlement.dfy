/** What the command endpoint and the webhook of ai-orchestrator-svc share: the statuses of an AI
    interaction, and the calls to billing-svc that settle its credit reservation. */
module Settlement {
  import opened Basics

  datatype Status = Queued | Processing | Completed | Failed | ModerationBlocked | RejectedInsufficientCredits

  datatype Kind = Commit | Release

  /** What comes back from billing-svc: an HTTP status, or nothing at all. */
  datatype Response = Status(code: nat) | NoAnswer

  /** A settlement call and what came back. */
  datatype Call = Call(kind: Kind, response: Response)

  /** Billing-svc answered that it did what it was asked to. */
  predicate Confirmed(c: Call) {
    c.response.Status? && 200 <= c.response.code < 300
  }

  /** A commit raises unless it is confirmed; a release raises only when there is no answer. */
  predicate Returns(c: Call) {
    match c.kind
    case Commit => Confirmed(c)
    case Release => c.response != NoAnswer
  }

  /** The settlement that belongs to a stored status. */
  function Due(status: Status): Option<Kind> {
    match status
    case Completed => Some(Commit)
    case Failed => Some(Release)
    case ModerationBlocked => Some(Release)
    case _ => None
  }
}
