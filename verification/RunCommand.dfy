/** The in-chat AI command handler of ai-orchestrator-svc: one request, from the rate limit to the
    call that settles its credit reservation. Every foreign call may fail. */
module RunCommand {
  import opened Basics
  import opened Settlement

  datatype Command = SummarizeChat | Brainstorm | Palette | MockupImage | MockupAudio

  datatype Entitlement = Eligible | NotEligible | LookupFailed

  datatype Reservation = Reserved | Insufficient | ReservationError

  /** One palette completion: text that parses as a list of some length, text that does not, a
      ValueError from the client, or any other exception. */
  datatype Attempt = ColorList(size: nat) | Unparsable(empty: bool) | ValueError | OtherError

  /** How the foreign calls of one request turn out. `topic` is the prompt with the surrounding blanks
      stripped; `rowOk` and `assetOk` tell whether the interaction and the asset row can be flushed,
      `firstCommitOk` and `lastCommitOk` whether the two database commits of the request succeed, and
      `settlement` what billing-svc answers to a settlement call. */
  datatype Env = Env(
    underRateLimit: bool,
    entitlement: Entitlement,
    rowOk: bool,
    reservation: Reservation,
    firstCommitOk: bool,
    hasPrompt: bool,
    topic: string,
    promptUnsafe: bool,
    completionOk: bool,
    outputUnsafe: bool,
    attempts: (Attempt, Attempt),
    colorsWellFormed: bool,
    assetOk: bool,
    lastCommitOk: bool,
    settlement: Response,
    brokerOk: bool)

  datatype Reply = HttpError(code: nat) | Answered | Accepted | Crashed

  predicate Synchronous(c: Command) {
    c in {SummarizeChat, Brainstorm, Palette}
  }

  // ---------- What decides a reserved request ----------

  /** Moderation stops the prompt, or the summary made of the chat. */
  predicate Unsafe(c: Command, e: Env) {
    (e.hasPrompt && e.promptUnsafe) || (c == SummarizeChat && e.completionOk && e.outputUnsafe)
  }

  predicate BadInput(c: Command, e: Env) {
    match c
    case SummarizeChat => false
    case Brainstorm => |e.topic| < 3
    case _ => e.topic == ""
  }

  /** A palette completes on its first attempt or not at all. */
  predicate Generates(c: Command, e: Env) {
    if c == Palette then e.attempts.0 == ColorList(5) else e.completionOk
  }

  /** A palette attempt raises what the retry loop does not catch. */
  predicate PaletteRaises(e: Env) {
    e.attempts.0 == OtherError || (e.attempts.0 != ColorList(5) && e.attempts.1 == OtherError)
  }

  /** The request breaks off before its outcome is stored. */
  predicate BreaksOff(c: Command, e: Env) {
    || !e.firstCommitOk || !e.lastCommitOk
    || (!Unsafe(c, e) && !BadInput(c, e) &&
        ((c == Palette && PaletteRaises(e)) || (!Synchronous(c) && !e.assetOk)))
  }

  /** The one settlement call that belongs to what is stored, if any does. */
  function CallsFor(stored: Option<Status>, response: Response): seq<Call> {
    if stored.Some? && Due(stored.value).Some? then [Call(Due(stored.value).value, response)] else []
  }

  /** What a command is entitled to once its row is committed as queued: the settlement calls are those
      of the stored status, none exactly if the request breaks off (or is a mock-up left to its worker);
      a charge is what a generated and safe result gets, and only that; an answer is given exactly for a
      charge that returned; and an error exactly for a release that returned. */
  ghost predicate Settled(c: Command, e: Env, stored: Status, calls: seq<Call>, reply: Reply) {
    && calls == CallsFor(Some(stored), e.settlement)
    && (stored == Queued <==> BreaksOff(c, e) || (!Synchronous(c) && !Unsafe(c, e) && !BadInput(c, e)))
    && (stored == Completed <==>
        !BreaksOff(c, e) && Synchronous(c) && Generates(c, e) && !Unsafe(c, e) && !BadInput(c, e))
    && (stored == ModerationBlocked <==> !BreaksOff(c, e) && Unsafe(c, e))
    && stored in {Queued, Completed, Failed, ModerationBlocked}
    && (reply == Answered <==>
        stored == Completed && Returns(calls[0]) && (c == Palette ==> e.colorsWellFormed))
    && (reply == Accepted <==> stored == Queued && !BreaksOff(c, e) && e.brokerOk)
    && (reply.HttpError? <==> stored in {Failed, ModerationBlocked} && Returns(calls[0]))
    && (reply.HttpError? ==>
          reply.code == if stored == ModerationBlocked then 422 else if BadInput(c, e) then 400 else 500)
  }

  // ---------- The handler ----------

  /** The retry loop: the exception of a failed attempt is remembered even if a later one succeeds. */
  method GeneratePalette(e: Env) returns (raised: bool, failed: bool)
    ensures raised <==> PaletteRaises(e)
    ensures !raised ==> (failed <==> e.attempts.0 != ColorList(5))
  {
    var content, lastExc := false, false;  // whether text was received, whether an error was caught
    for attempt := 0 to 2
      invariant attempt == 0 ==> !content && !lastExc
      invariant attempt >= 1 ==> e.attempts.0 !in {OtherError, ColorList(5)} && lastExc
      invariant attempt == 2 ==> e.attempts.1 !in {OtherError, ColorList(5)}
    {
      match if attempt == 0 then e.attempts.0 else e.attempts.1
      case ColorList(size) =>
        content := true;
        if size == 5 {
          break;
        }
        lastExc := true;
      case Unparsable(empty) => content, lastExc := !empty, true;
      case ValueError => lastExc := true;
      case OtherError => return true, true;
    }
    return false, !content || lastExc;
  }

  // Each command starts from a committed queued row and a safe prompt. `status` is the row as the
  // session has edited it, `stored` the row as committed; leaving early stands for a raise.

  method Summarize(e: Env) returns (stored: Status, calls: seq<Call>, reply: Reply)
    requires e.firstCommitOk && !(e.hasPrompt && e.promptUnsafe)
    ensures Settled(SummarizeChat, e, stored, calls, reply)
  {
    stored, calls, reply := Queued, [], Crashed;
    var status := stored;
    if !e.completionOk {
      status := Failed;
      if !e.lastCommitOk { return; }
      stored := status;
      calls := calls + [Call(Release, e.settlement)];
      if e.settlement == NoAnswer { return; }
      return stored, calls, HttpError(500);
    }
    if e.outputUnsafe {
      status := ModerationBlocked;
      if !e.lastCommitOk { return; }
      stored := status;
      calls := calls + [Call(Release, e.settlement)];
      if e.settlement == NoAnswer { return; }
      return stored, calls, HttpError(422);
    }
    status := Completed;
    if !e.lastCommitOk { return; }
    stored := status;
    calls := calls + [Call(Commit, e.settlement)];
    if !Returns(Call(Commit, e.settlement)) { return; }
    reply := Answered;
  }

  method BrainstormTopic(e: Env) returns (stored: Status, calls: seq<Call>, reply: Reply)
    requires e.firstCommitOk && !(e.hasPrompt && e.promptUnsafe)
    ensures Settled(Brainstorm, e, stored, calls, reply)
  {
    stored, calls, reply := Queued, [], Crashed;
    var status := stored;
    if |e.topic| < 3 {
      status := Failed;
      if !e.lastCommitOk { return; }
      stored := status;
      calls := calls + [Call(Release, e.settlement)];
      if e.settlement == NoAnswer { return; }
      return stored, calls, HttpError(400);
    }
    if !e.completionOk {
      status := Failed;
      if !e.lastCommitOk { return; }
      stored := status;
      calls := calls + [Call(Release, e.settlement)];
      if e.settlement == NoAnswer { return; }
      return stored, calls, HttpError(500);
    }
    status := Completed;
    if !e.lastCommitOk { return; }
    stored := status;
    calls := calls + [Call(Commit, e.settlement)];
    if !Returns(Call(Commit, e.settlement)) { return; }
    reply := Answered;
  }

  method MakePalette(e: Env) returns (stored: Status, calls: seq<Call>, reply: Reply)
    requires e.firstCommitOk && !(e.hasPrompt && e.promptUnsafe)
    ensures Settled(Palette, e, stored, calls, reply)
  {
    stored, calls, reply := Queued, [], Crashed;
    var status := stored;
    if e.topic == "" {
      status := Failed;
      if !e.lastCommitOk { return; }
      stored := status;
      calls := calls + [Call(Release, e.settlement)];
      if e.settlement == NoAnswer { return; }
      return stored, calls, HttpError(400);
    }
    var raised, failed := GeneratePalette(e);
    if raised { return; }
    if failed {
      status := Failed;
      if !e.lastCommitOk { return; }
      stored := status;
      calls := calls + [Call(Release, e.settlement)];
      if e.settlement == NoAnswer { return; }
      return stored, calls, HttpError(500);
    }
    status := Completed;
    if !e.lastCommitOk { return; }
    stored := status;
    calls := calls + [Call(Commit, e.settlement)];
    if !Returns(Call(Commit, e.settlement)) { return; }
    if !e.colorsWellFormed { return; }
    reply := Answered;
  }

  method QueueMockup(c: Command, e: Env) returns (stored: Status, calls: seq<Call>, reply: Reply)
    requires !Synchronous(c) && e.firstCommitOk && !(e.hasPrompt && e.promptUnsafe)
    ensures Settled(c, e, stored, calls, reply)
  {
    stored, calls, reply := Queued, [], Crashed;
    var status := stored;
    if e.topic == "" {
      status := Failed;
      if !e.lastCommitOk { return; }
      stored := status;
      calls := calls + [Call(Release, e.settlement)];
      if e.settlement == NoAnswer { return; }
      return stored, calls, HttpError(400);
    }
    if !e.assetOk || !e.lastCommitOk || !e.brokerOk { return; }
    reply := Accepted;
  }

  predicate Reserves(e: Env) {
    e.underRateLimit && e.entitlement == Eligible && e.rowOk && e.reservation == Reserved
  }

  /** Whatever fails along the way, the settlement calls made are the ones the stored status asks for:
      one commit exactly when `completed` is stored, one release exactly when `failed` or
      `moderation_blocked` is, never both. A reservation is left unsettled exactly if the request
      breaks off, or if a mock-up goes on to its worker. */
  method HandleCommand(c: Command, e: Env) returns (stored: Option<Status>, calls: seq<Call>, reply: Reply)
    ensures calls == CallsFor(stored, e.settlement)
    ensures Reserves(e) && Synchronous(c) ==> (calls == [] <==> BreaksOff(c, e))
    ensures Reserves(e) && e.firstCommitOk ==> stored.Some? && Settled(c, e, stored.value, calls, reply)
    ensures Reserves(e) && !e.firstCommitOk ==> stored == None && reply == Crashed
    // Which calls go with which stored status.
    ensures stored == Some(Completed) ==> calls == [Call(Commit, e.settlement)]
    ensures stored in {Some(Failed), Some(ModerationBlocked)} ==> calls == [Call(Release, e.settlement)]
    ensures stored in {None, Some(Queued), Some(RejectedInsufficientCredits)} ==> calls == []
    // Who is refused before anything is reserved.
    ensures reply == HttpError(429) <==> !e.underRateLimit
    ensures reply == HttpError(402) <==>
            && e.underRateLimit && e.firstCommitOk
            && (e.entitlement == NotEligible
                || (e.entitlement == Eligible && e.rowOk && e.reservation == Insufficient))
    ensures stored == Some(RejectedInsufficientCredits) <==> reply == HttpError(402)
    ensures stored in {None, Some(RejectedInsufficientCredits)} <==>
            !(e.underRateLimit && e.entitlement == Eligible && e.rowOk && e.reservation == Reserved && e.firstCommitOk)
    // What a reserved request ends as.
    ensures stored == Some(ModerationBlocked) <==>
            && e.underRateLimit && e.entitlement == Eligible && e.rowOk && e.reservation == Reserved
            && e.firstCommitOk && e.lastCommitOk
            && ((e.hasPrompt && e.promptUnsafe) || (c == SummarizeChat && e.completionOk && e.outputUnsafe))
    ensures stored == Some(Completed) <==>
            && e.underRateLimit && e.entitlement == Eligible && e.rowOk && e.reservation == Reserved
            && e.firstCommitOk && e.lastCommitOk && !(e.hasPrompt && e.promptUnsafe)
            && ((c == SummarizeChat && e.completionOk && !e.outputUnsafe)
                || (c == Brainstorm && |e.topic| >= 3 && e.completionOk)
                || (c == Palette && e.topic != "" && e.attempts.0 == ColorList(5)))
    ensures stored == Some(Failed) <==>
            && e.underRateLimit && e.entitlement == Eligible && e.rowOk && e.reservation == Reserved
            && e.firstCommitOk && e.lastCommitOk && !(e.hasPrompt && e.promptUnsafe)
            && ((c == SummarizeChat && !e.completionOk)
                || (c == Brainstorm && (|e.topic| < 3 || !e.completionOk))
                || (c == Palette && (e.topic == "" || (e.attempts.0 !in {ColorList(5), OtherError}
                                                      && e.attempts.1 != OtherError)))
                || (c in {MockupImage, MockupAudio} && e.topic == ""))
    // What the user is told.
    ensures reply == Answered <==>
            && stored == Some(Completed) && e.settlement.Status? && 200 <= e.settlement.code < 300
            && (c == Palette ==> e.colorsWellFormed)
    ensures reply == Accepted <==>
            stored == Some(Queued) && c in {MockupImage, MockupAudio} && e.assetOk && e.lastCommitOk && e.brokerOk
            && e.topic != "" && !(e.hasPrompt && e.promptUnsafe)
    ensures reply == HttpError(422) <==> stored == Some(ModerationBlocked) && e.settlement != NoAnswer
    ensures reply in {HttpError(400), HttpError(500)} <==> stored == Some(Failed) && e.settlement != NoAnswer
    ensures reply == HttpError(400) ==> c != SummarizeChat && |e.topic| < 3 && (c == Brainstorm || e.topic == "")
    ensures reply == HttpError(500) ==> c == SummarizeChat || |e.topic| >= 3 || (c != Brainstorm && e.topic != "")
  {
    stored, calls, reply := None, [], Crashed;
    if !e.underRateLimit {
      return stored, calls, HttpError(429);
    }
    if e.entitlement == LookupFailed { return; }
    if e.entitlement == NotEligible {
      if !e.firstCommitOk { return; }
      return Some(RejectedInsufficientCredits), calls, HttpError(402);
    }
    if !e.rowOk { return; }
    var status := Queued;  // the interaction row, flushed but not committed
    match e.reservation
    case ReservationError => return;
    case Insufficient =>
      status := RejectedInsufficientCredits;
      if !e.firstCommitOk { return; }
      return Some(status), calls, HttpError(402);
    case Reserved =>
      if !e.firstCommitOk { return; }
      if e.hasPrompt && e.promptUnsafe {
        stored := Some(status);
        status := ModerationBlocked;
        if !e.lastCommitOk { return; }
        stored := Some(status);
        calls := calls + [Call(Release, e.settlement)];
        if e.settlement == NoAnswer { return; }
        return stored, calls, HttpError(422);
      }
      var result;
      match c {
        case SummarizeChat => result, calls, reply := Summarize(e);
        case Brainstorm => result, calls, reply := BrainstormTopic(e);
        case Palette => result, calls, reply := MakePalette(e);
        case _ => result, calls, reply := QueueMockup(c, e);
      }
      stored := Some(result);
  }
}
