/** The Replicate webhook of ai-orchestrator-svc, for one prediction: the rows it updates, the Redis
    key that makes redeliveries harmless, and the calls that settle the credit reservation.
    Deliveries are served one at a time and Redis writes succeed; every other foreign call may fail. */
module WebhookSettlement {
  import opened Basics
  import opened Settlement

  // ---------- Data ----------

  datatype Moderation = Unscanned | Passed | Blocked

  datatype Asset = Asset(isImage: bool, active: bool, moderation: Moderation, expiresAt: Option<real>)

  /** `linked`: the worker has stored the prediction id on the interaction and asset rows. */
  datatype World = World(
    linked: bool,
    status: Status,
    reserved: bool,
    asset: Option<Asset>,
    keyExpiry: Option<real>,
    calls: seq<Call>)

  datatype Event = PredictionFailed | PredictionSucceeded | OtherStatus

  /** One delivery: its payload, and how each foreign call made on its behalf turns out. */
  datatype Delivery = Delivery(
    at: real,
    event: Event,
    hasOutput: bool,
    imageUrl: bool,
    downloadOk: bool,
    blocked: bool,
    renderOk: bool,
    lifespan: real,
    successCommitOk: bool,
    successResponse: Response,
    failureCommitOk: bool,
    failureResponse: Response)

  datatype Reply = AlreadyProcessed | UnknownPrediction | FailureHandled | Ok | Raised

  datatype Op = Deliver(delivery: Delivery) | AssignPrediction

  const KEY_TTL := 86400.0

  // ---------- Specification ----------

  predicate KeyLive(w: World, at: real) {
    w.keyExpiry.Some? && at < w.keyExpiry.value
  }

  function WithKey(w: World, at: real): World {
    w.(keyExpiry := Some(at + KEY_TTL))
  }

  predicate IsImage(w: World, d: Delivery) {
    if w.asset.Some? then w.asset.value.isImage else d.imageUrl
  }

  /** The verdict the success handler commits to the rows, unless it raises before that. */
  function Verdict(w: World, d: Delivery): Option<Status> {
    if !d.downloadOk || !d.successCommitOk then None
    else if IsImage(w, d) && d.blocked then Some(ModerationBlocked)
    else if d.renderOk then Some(Completed)
    else None
  }

  function Judged(asset: Option<Asset>, status: Status, d: Delivery): Option<Asset> {
    match (asset, status)
    case (Some(a), Completed) =>
      Some(a.(active := true, moderation := Passed, expiresAt := Some(d.at + d.lifespan)))
    case (Some(a), ModerationBlocked) => Some(a.(active := false, moderation := Blocked))
    case (Some(a), _) => Some(a.(active := false))
    case (None, _) => None
  }

  /** The rows take the verdict; then, if there is a reservation, its settlement is called. The flag
      says whether that call raised. */
  function Conclude(w: World, status: Status, d: Delivery, response: Response): (World, bool)
    requires Due(status).Some?
  {
    var w' := w.(status := status, asset := Judged(w.asset, status, d));
    var call := Call(Due(status).value, response);
    if w.reserved then (w'.(calls := w.calls + [call]), !Returns(call)) else (w', false)
  }

  /** The failure handler; the flag says whether it raised. */
  function Failure(w: World, d: Delivery): (World, bool) {
    if d.failureCommitOk then Conclude(w, Failed, d, d.failureResponse) else (w, true)
  }

  /** The success handler; the flag says whether it raised. */
  function Success(w: World, d: Delivery): (World, bool) {
    match Verdict(w, d)
    case None => (w, true)
    case Some(status) => Conclude(w, status, d, d.successResponse)
  }

  predicate ReportsFailure(d: Delivery) {
    d.event == PredictionFailed || !d.hasOutput
  }

  /** The handlers run for a failed or succeeded prediction: a raise in the success handler is
      answered with the failure handler. The flag says whether the last of them raised. */
  function Resolve(w: World, d: Delivery): (World, bool) {
    if ReportsFailure(d) then Failure(w, d)
    else
      var (w1, raised) := Success(w, d);
      if raised then Failure(w1, d) else (w1, false)
  }

  function Handle(w: World, d: Delivery): (World, Reply) {
    if KeyLive(w, d.at) then (w, AlreadyProcessed)
    else if !w.linked then (WithKey(w, d.at), UnknownPrediction)
    else if d.event == OtherStatus then (WithKey(w, d.at), Ok)
    else
      var (w', raised) := Resolve(w, d);
      if raised then (w', Raised) else (WithKey(w', d.at), if ReportsFailure(d) then FailureHandled else Ok)
  }

  function Step(w: World, op: Op): World {
    match op
    case Deliver(d) => Handle(w, d).0
    case AssignPrediction => if w.linked then w else w.(linked := true, status := Processing)
  }

  function Run(w: World, ops: seq<Op>): World
    decreases |ops|
  {
    if ops == [] then w else Run(Step(w, ops[0]), ops[1..])
  }

  // ---------- One delivery ----------

  function Returned(calls: seq<Call>): nat {
    if calls == [] then 0 else Returned(calls[..|calls| - 1]) + (if Returns(calls[|calls| - 1]) then 1 else 0)
  }

  lemma {:induction false} ReturnedAppend(calls: seq<Call>, c: Call)
    ensures Returned(calls + [c]) == Returned(calls) + (if Returns(c) then 1 else 0)
  {
    assert (calls + [c])[..|calls|] == calls;
  }

  /** The last call returned, it is the one the stored status asks for, and an asset is active
      exactly when its generation was charged. */
  ghost predicate LastSettles(w: World) {
    && w.calls != [] && Returns(w.calls[|w.calls| - 1])
    && Due(w.status) == Some(w.calls[|w.calls| - 1].kind)
    && (w.asset.Some? ==> (w.asset.value.active <==> w.calls[|w.calls| - 1].kind == Commit))
  }

  /** A handler makes at most one call, and on a reserved interaction settles unless it raises. */
  ghost predicate HandlerOk(w: World, w': World, raised: bool) {
    && w'.linked == w.linked && w'.reserved == w.reserved && w'.keyExpiry == w.keyExpiry
    && (w'.calls == w.calls || (|w'.calls| == |w.calls| + 1 && w.calls < w'.calls))
    && (w'.calls != w.calls && raised ==> !Returns(w'.calls[|w.calls|]))
    && Returned(w'.calls) == Returned(w.calls) + (if w.reserved && !raised then 1 else 0)
    && (w.reserved && !raised ==> LastSettles(w'))
  }

  lemma {:induction false} SuccessOk(w: World, d: Delivery)
    ensures HandlerOk(w, Success(w, d).0, Success(w, d).1)
  {
    var (w', _) := Success(w, d);
    if w'.calls != w.calls { ReturnedAppend(w.calls, w'.calls[|w.calls|]); }
  }

  lemma {:induction false} FailureOk(w: World, d: Delivery)
    ensures HandlerOk(w, Failure(w, d).0, Failure(w, d).1)
    ensures Failure(w, d).0.calls != w.calls ==> Failure(w, d).0.calls[|w.calls|].kind == Release
  {
    var (w', _) := Failure(w, d);
    if w'.calls != w.calls { ReturnedAppend(w.calls, w'.calls[|w.calls|]); }
  }

  /** Resolving makes at most two calls, the second one a release and only because the first
      raised, and on a reserved interaction settles unless it raises. */
  ghost predicate ResolveOk(w: World, w': World, raised: bool) {
    && w'.linked == w.linked && w'.reserved == w.reserved && w'.keyExpiry == w.keyExpiry
    && w.calls <= w'.calls && |w'.calls| <= |w.calls| + 2
    && (|w'.calls| == |w.calls| + 2 ==>
          !Returns(w'.calls[|w.calls|]) && w'.calls[|w.calls| + 1].kind == Release)
    && Returned(w'.calls) == Returned(w.calls) + (if w.reserved && !raised then 1 else 0)
    && (w.reserved && !raised ==> LastSettles(w'))
  }

  lemma {:induction false} ResolveIsOk(w: World, d: Delivery)
    ensures ResolveOk(w, Resolve(w, d).0, Resolve(w, d).1)
  {
    if ReportsFailure(d) {
      FailureOk(w, d);
    } else {
      SuccessOk(w, d);
      var w1 := Success(w, d).0;
      if Success(w, d).1 { FailureOk(w1, d); }
    }
  }

  /** One delivery makes at most two settlement calls, the second one a release and only because the
      first raised. */
  lemma {:induction false} DeliveryCallsAtMostTwice(w: World, d: Delivery)
    ensures var w' := Handle(w, d).0;
            && w.calls <= w'.calls && |w'.calls| <= |w.calls| + 2
            && (|w'.calls| == |w.calls| + 2 ==>
                  !Returns(w'.calls[|w.calls|]) && w'.calls[|w.calls| + 1].kind == Release)
  {
    ResolveIsOk(w, d);
  }

  /** A delivery settles exactly when it carries a verdict on a linked, reserved interaction, finds no
      live key and does not raise; then its last call returned and is what the stored status asks
      for. Unless it raised, a processed delivery sets the key. */
  lemma {:induction false} DeliverySettles(w: World, d: Delivery)
    ensures var (w', reply) := Handle(w, d);
            var settles := w.linked && w.reserved && d.event != OtherStatus && !KeyLive(w, d.at) && reply != Raised;
            && w'.linked == w.linked
            && Returned(w'.calls) == Returned(w.calls) + (if settles then 1 else 0)
            && (settles ==> LastSettles(w'))
            && w'.keyExpiry == (if reply in {Raised, AlreadyProcessed} then w.keyExpiry else Some(d.at + KEY_TTL))
            && (reply == AlreadyProcessed <==> KeyLive(w, d.at))
            && (reply == AlreadyProcessed ==> w' == w)
  {
    ResolveIsOk(w, d);
  }

  ghost predicate Settles(w: World, d: Delivery) {
    Returned(Handle(w, d).0.calls) > Returned(w.calls)
  }

  // ---------- Which deliveries charge, release or do nothing ----------

  /** No live key: the delivery is looked into. */
  ghost predicate Open(w: World, d: Delivery) {
    w.keyExpiry.None? || w.keyExpiry.value <= d.at
  }

  /** A prediction that succeeded, whose artifact downloads and whose rows can be committed: a blocked
      image is released and stays inactive, anything else that renders is charged and goes live. */
  lemma {:induction false} GoodPredictionIsCharged(w: World, d: Delivery)
    requires w.linked && Open(w, d)
    requires d.event == PredictionSucceeded && d.hasOutput && d.downloadOk && d.successCommitOk
    requires w.reserved ==> d.successResponse.Status? && 200 <= d.successResponse.code < 300
    ensures var (w', reply) := Handle(w, d);
            var image := if w.asset.Some? then w.asset.value.isImage else d.imageUrl;
            && (image && d.blocked ==>
                  && w'.status == ModerationBlocked
                  && w'.calls == w.calls + (if w.reserved then [Call(Release, d.successResponse)] else [])
                  && (w.asset.Some? ==>
                        w'.asset == Some(Asset(w.asset.value.isImage, false, Blocked, w.asset.value.expiresAt))))
            && (!(image && d.blocked) && d.renderOk ==>
                  && w'.status == Completed
                  && w'.calls == w.calls + (if w.reserved then [Call(Commit, d.successResponse)] else [])
                  && (w.asset.Some? ==>
                        w'.asset == Some(Asset(w.asset.value.isImage, true, Passed, Some(d.at + d.lifespan)))))
            && ((image && d.blocked) || d.renderOk ==>
                  reply == Ok && w'.keyExpiry == Some(d.at + 86400.0) && (w.asset.None? ==> w'.asset.None?))
  {
  }

  /** A failed prediction, one without output, and one that cannot be downloaded, rendered or committed
      all end as failed, with one release and an inactive asset. */
  lemma {:induction false} BadPredictionIsReleased(w: World, d: Delivery)
    requires w.linked && Open(w, d) && d.failureCommitOk && (w.reserved ==> d.failureResponse.Status?)
    requires d.event == PredictionFailed || (d.event == PredictionSucceeded &&
               (!d.hasOutput || !d.downloadOk || !d.successCommitOk
                || (!d.renderOk && !((if w.asset.Some? then w.asset.value.isImage else d.imageUrl) && d.blocked))))
    ensures var (w', reply) := Handle(w, d);
            && w'.status == Failed
            && w'.calls == w.calls + (if w.reserved then [Call(Release, d.failureResponse)] else [])
            && w'.asset == (if w.asset.Some? then Some(w.asset.value.(active := false)) else None)
            && w'.keyExpiry == Some(d.at + 86400.0)
            && reply == (if d.event == PredictionFailed || !d.hasOutput then FailureHandled else Ok)
  {
  }

  /** A charge that is not answered with a 2xx, and a release of blocked content that is not answered at
      all, are followed by a release and end as failed. */
  lemma {:induction false} RaisedSettlementIsReleased(w: World, d: Delivery)
    requires w.linked && w.reserved && Open(w, d) && d.failureCommitOk && d.failureResponse.Status?
    requires d.event == PredictionSucceeded && d.hasOutput && d.downloadOk && d.successCommitOk
    ensures var (w', reply) := Handle(w, d);
            var image := if w.asset.Some? then w.asset.value.isImage else d.imageUrl;
            && (!(image && d.blocked) && d.renderOk
                && (d.successResponse == NoAnswer || d.successResponse.code < 200 || 300 <= d.successResponse.code) ==>
                  w'.status == Failed && reply == Ok && (w'.asset.Some? ==> !w'.asset.value.active)
                  && w'.calls == w.calls + [Call(Commit, d.successResponse), Call(Release, d.failureResponse)])
            && (image && d.blocked && d.successResponse == NoAnswer ==>
                  w'.status == Failed && reply == Ok && (w'.asset.Some? ==> !w'.asset.value.active)
                  && w'.calls == w.calls + [Call(Release, d.successResponse), Call(Release, d.failureResponse)])
            && (image && d.blocked && d.successResponse.Status? ==>
                  w'.status == ModerationBlocked && w'.calls == w.calls + [Call(Release, d.successResponse)])
  {
    var c1, c2 := Call(Commit, d.successResponse), Call(Release, d.failureResponse);
    var c3 := Call(Release, d.successResponse);
    assert w.calls + [c1] + [c2] == w.calls + [c1, c2] && w.calls + [c3] + [c2] == w.calls + [c3, c2];
  }

  /** What is delivered under a live key changes nothing; what is delivered before the worker is done, or
      reports neither success nor failure, only sets the key; without a reservation billing is not
      called; and a failure that cannot be committed, or whose release is not answered, sets no key. */
  lemma {:induction false} OtherDeliveries(w: World, d: Delivery)
    ensures var (w', reply) := Handle(w, d);
            && (!Open(w, d) ==> w' == w && reply == AlreadyProcessed)
            && (Open(w, d) && !w.linked ==> w' == w.(keyExpiry := Some(d.at + 86400.0)) && reply == UnknownPrediction)
            && (Open(w, d) && w.linked && d.event == OtherStatus ==>
                  w' == w.(keyExpiry := Some(d.at + 86400.0)) && reply == Ok)
            && (!w.reserved ==> w'.calls == w.calls)
            && (Open(w, d) && w.linked && d.event == PredictionFailed && !d.failureCommitOk ==>
                  w' == w && reply == Raised)
            && (Open(w, d) && w.linked && d.event == PredictionFailed && w.reserved && d.failureResponse == NoAnswer ==>
                  w'.keyExpiry == w.keyExpiry && reply == Raised)
  {
  }

  /** The worker links the rows once and marks the interaction as processing. */
  lemma {:induction false} WorkerLinksOnce(w: World)
    ensures Step(w, AssignPrediction) == if w.linked then w else w.(linked := true, status := Processing)
  {
  }

  // ---------- Whole runs ----------

  /** Once a delivery settles, later ones come less than a day after it. */
  ghost predicate RedeliveredWithinDay(w: World, ops: seq<Op>)
    decreases |ops|
  {
    ops != [] ==>
      && (ops[0].Deliver? && Settles(w, ops[0].delivery) ==>
            forall i :: 0 < i < |ops| && ops[i].Deliver? ==> ops[i].delivery.at < ops[0].delivery.at + 86400.0)
      && RedeliveredWithinDay(Step(w, ops[0]), ops[1..])
  }

  /** While the key lives no delivery changes anything, and no step calls billing. */
  lemma {:induction false} KeyedRunStands(w: World, ops: seq<Op>)
    requires w.keyExpiry.Some?
    requires forall i :: 0 <= i < |ops| && ops[i].Deliver? ==> ops[i].delivery.at < w.keyExpiry.value
    ensures Run(w, ops).calls == w.calls && Run(w, ops).keyExpiry == w.keyExpiry
    ensures w.linked ==> Run(w, ops) == w
    decreases |ops|
  {
    if ops != [] { KeyedRunStands(Step(w, ops[0]), ops[1..]); }
  }

  lemma {:induction false} AtMostOneFrom(w: World, ops: seq<Op>)
    requires Returned(w.calls) == 0 && RedeliveredWithinDay(w, ops)
    ensures var w' := Run(w, ops);
            Returned(w'.calls) <= 1 && (Returned(w'.calls) == 1 ==> LastSettles(w'))
    decreases |ops|
  {
    if ops != [] {
      var w1 := Step(w, ops[0]);
      if ops[0].Deliver? { DeliverySettles(w, ops[0].delivery); }
      if Returned(w1.calls) == 0 {
        AtMostOneFrom(w1, ops[1..]);
      } else {
        assert forall i :: 0 <= i < |ops[1..]| ==> ops[1..][i] == ops[i + 1];
        KeyedRunStands(w1, ops[1..]);
      }
    }
  }

  function Enqueued(reserved: bool, asset: Option<Asset>): World {
    World(false, Queued, reserved, asset, None, [])
  }

  /** However often and whichever calls fail, if no delivery comes a day or more after one that
      settled, at most one settlement call returns normally, and then it is the last, the one the
      stored status asks for, and confirmed if it charges the credits. */
  lemma {:induction false} AtMostOneSettlementReturns(reserved: bool, asset: Option<Asset>, ops: seq<Op>)
    requires RedeliveredWithinDay(Enqueued(reserved, asset), ops)
    ensures var w := Run(Enqueued(reserved, asset), ops);
            && Returned(w.calls) <= 1
            && (Returned(w.calls) == 1 ==>
                  LastSettles(w) && (w.status == Completed ==> Confirmed(w.calls[|w.calls| - 1])))
  {
    AtMostOneFrom(Enqueued(reserved, asset), ops);
  }

  function ConfirmedCount(calls: seq<Call>): nat {
    if calls == [] then 0
    else ConfirmedCount(calls[..|calls| - 1]) + (if Confirmed(calls[|calls| - 1]) then 1 else 0)
  }

  /** A confirmed call returns, whichever kind it is, so the same bound holds of the confirmed ones. */
  lemma {:induction false} ConfirmedAreReturned(calls: seq<Call>)
    ensures ConfirmedCount(calls) <= Returned(calls)
  {
    if calls != [] { ConfirmedAreReturned(calls[..|calls| - 1]); }
  }

  /** Over runs of any length two deliveries that settle are at least a day apart. */
  lemma {:induction false} SettlementsAreADayApart(w: World, d1: Delivery, mid: seq<Op>, d2: Delivery)
    requires Settles(w, d1) && Settles(Run(Handle(w, d1).0, mid), d2)
    requires forall i :: 0 <= i < |mid| && mid[i].Deliver? ==> mid[i].delivery.at <= d2.at
    ensures d2.at >= d1.at + 86400.0
  {
    var w1 := Handle(w, d1).0;
    DeliverySettles(w, d1);
    DeliverySettles(Run(w1, mid), d2);
    if d2.at < d1.at + 86400.0 { KeyedRunStands(w1, mid); }
  }

  /** The last call of the delivery is a release, and billing-svc has not confirmed it: after a failed
      prediction or one without output, a moderation block, or a success handler that raised. */
  ghost predicate EndsInFailedRelease(w: World, d: Delivery) {
    var calls := Handle(w, d).0.calls;
    |w.calls| < |calls| && calls[|calls| - 1].kind == Release && !Confirmed(calls[|calls| - 1])
  }

  lemma {:induction false} ResolveIgnoresKey(w: World, d: Delivery)
    ensures Resolve(w.(keyExpiry := None), d) == (Resolve(w, d).0.(keyExpiry := None), Resolve(w, d).1)
  {
  }

  /** An expired key and no key are the same to a delivery. */
  lemma {:induction false} KeyOnlyGates(w: World, d: Delivery)
    requires !KeyLive(w, d.at)
    ensures Handle(w, d).1 == Handle(w.(keyExpiry := None), d).1
    ensures Handle(w, d).0.calls == Handle(w.(keyExpiry := None), d).0.calls
  {
    ResolveIgnoresKey(w, d);
  }

  /** A delivery that calls billing raises exactly if its last call does. */
  lemma {:induction false} LastCallRaised(w: World, d: Delivery)
    requires |w.calls| < |Handle(w, d).0.calls|
    ensures var (w1, reply) := Handle(w, d);
            && w.linked && w.reserved && d.event != OtherStatus && !KeyLive(w, d.at)
            && (reply == Raised <==> !Returns(w1.calls[|w1.calls| - 1]))
  {
  }

  /** A redelivery of the next day that would call billing if there were no key calls it if and only if
      the failed release got no answer at all. */
  lemma {:induction false} CallsAgainIffUnanswered(w: World, d: Delivery, d2: Delivery)
    requires EndsInFailedRelease(w, d)
    requires d2.at < d.at + 86400.0 && !KeyLive(w, d2.at)
    requires Handle(Handle(w, d).0.(keyExpiry := None), d2).0.calls != Handle(w, d).0.calls
    ensures var w1 := Handle(w, d).0;
            Handle(w1, d2).0.calls != w1.calls <==> w1.calls[|w1.calls| - 1].response == NoAnswer
  {
    ResolveIsOk(w, d);
    DeliverySettles(w, d);
    LastCallRaised(w, d);
    var w1 := Handle(w, d).0;
    if w1.keyExpiry == w.keyExpiry { KeyOnlyGates(w1, d2); }
  }

  lemma {:induction false} RedeliveredFailureReleases(w: World, d2: Delivery)
    requires w.linked && w.reserved && !KeyLive(w, d2.at)
    requires d2.event != OtherStatus && ReportsFailure(d2) && d2.failureCommitOk
    ensures Handle(w, d2).0.calls == w.calls + [Call(Release, d2.failureResponse)]
  {
  }

  /** The failure redelivered within the day makes up for a failed release of whatever kind if and only
      if that release got no answer at all; after an error answer nothing is called again. */
  lemma {:induction false} RetriedIffUnanswered(w: World, d: Delivery, d2: Delivery)
    requires EndsInFailedRelease(w, d)
    requires d2.at < d.at + 86400.0 && !KeyLive(w, d2.at)
    requires d2.event != OtherStatus && ReportsFailure(d2) && d2.failureCommitOk
    ensures var w1 := Handle(w, d).0;
            Handle(w1, d2).0.calls ==
              if w1.calls[|w1.calls| - 1].response == NoAnswer
              then w1.calls + [Call(Release, d2.failureResponse)] else w1.calls
  {
    var w1 := Handle(w, d).0;
    ResolveIsOk(w, d);
    LastCallRaised(w, d);
    RedeliveredFailureReleases(w1.(keyExpiry := None), d2);
    CallsAgainIffUnanswered(w, d, d2);
    if w1.calls[|w1.calls| - 1].response == NoAnswer { KeyOnlyGates(w1, d2); }
  }

  /** Over a whole day: after a release answered with an error, of whatever kind, no delivery calls
      billing and the stored status stays what it is. */
  lemma {:induction false} AnsweredReleaseIsNotRepeated(w: World, d: Delivery, ops: seq<Op>)
    requires EndsInFailedRelease(w, d)
    requires var calls := Handle(w, d).0.calls; calls[|calls| - 1].response != NoAnswer
    requires forall i :: 0 <= i < |ops| && ops[i].Deliver? ==> ops[i].delivery.at < d.at + 86400.0
    ensures Run(Handle(w, d).0, ops) == Handle(w, d).0
    ensures Handle(w, d).0.status in {Failed, ModerationBlocked}
  {
    DeliverySettles(w, d);
    LastCallRaised(w, d);
    KeyedRunStands(Handle(w, d).0, ops);
  }

  /** A delivery that arrives before the worker has stored the prediction id sets the key, so that for a
      day the reservation is not settled, whatever is delivered. */
  lemma {:induction false} EarlyDeliverySwallowsTheDay(asset: Option<Asset>, d: Delivery, ops: seq<Op>)
    requires forall i :: 0 <= i < |ops| && ops[i].Deliver? ==> ops[i].delivery.at < d.at + 86400.0
    ensures Run(Handle(Enqueued(true, asset), d).0, ops).calls == []
  {
    KeyedRunStands(Handle(Enqueued(true, asset), d).0, ops);
  }

  /** A day is exact: once a delivery has settled, a later one that would settle without the key
      does so if and only if a day has passed. */
  lemma {:induction false} SettlesAgainIffDayHasPassed(w: World, d1: Delivery, d2: Delivery)
    requires Settles(w, d1)
    requires Settles(Handle(w, d1).0.(keyExpiry := None), d2)
    ensures Settles(Handle(w, d1).0, d2) <==> d2.at >= d1.at + 86400.0
  {
    var w1 := Handle(w, d1).0;
    DeliverySettles(w, d1);
    DeliverySettles(w1, d2);
    DeliverySettles(w1.(keyExpiry := None), d2);
    if !KeyLive(w1, d2.at) { KeyOnlyGates(w1, d2); }
  }

  // ---------- The handler ----------

  class WebhookHandler {
    var linked: bool
    var status: Status
    var reserved: bool
    var asset: Option<Asset>
    var keyExpiry: Option<real>
    var calls: seq<Call>

    function View(): World
      reads this
    {
      World(linked, status, reserved, asset, keyExpiry, calls)
    }

    constructor (reserved: bool, asset: Option<Asset>)
      ensures View() == Enqueued(reserved, asset)
    {
      this.linked, this.status, this.reserved := false, Queued, reserved;
      this.asset, this.keyExpiry, this.calls := asset, None, [];
    }

    /** The Celery worker stores the prediction id on both rows. */
    method AssignPrediction()
      modifies this
      ensures View() == Step(old(View()), Op.AssignPrediction)
    {
      if !linked {
        linked := true;
        status := Processing;
      }
    }

    /** Commit checks the answer's status; release logs an error answer and leaves it at that. */
    method CallBilling(kind: Kind, response: Response) returns (raised: bool)
      modifies this`calls
      ensures calls == old(calls) + [Call(kind, response)]
      ensures raised <==> !Returns(Call(kind, response))
    {
      calls := calls + [Call(kind, response)];
      match response
      case NoAnswer => raised := true;
      case Status(code) =>
        if kind == Commit {
          raised := code < 200 || code >= 300;
        } else {
          raised := false;
        }
    }

    method HandleSuccess(d: Delivery) returns (raised: bool)
      modifies this
      ensures (View(), raised) == Success(old(View()), d)
    {
      if !d.downloadOk {
        return true;
      }
      var kindIsImage := if asset.Some? then asset.value.isImage else d.imageUrl;
      var a := asset;  // the row as this session has edited it
      if kindIsImage {
        if d.blocked {
          if a.Some? {
            a := Some(a.value.(moderation := Blocked, active := false));
          }
          if !d.successCommitOk {
            return true;
          }
          status, asset := ModerationBlocked, a;
          if reserved {
            raised := CallBilling(Release, d.successResponse);
            return;
          }
          return false;
        }
      }
      if !d.renderOk {
        return true;
      }
      if a.Some? {
        a := Some(a.value.(moderation := Passed));
        a := Some(a.value.(expiresAt := Some(d.at + d.lifespan)));
        a := Some(a.value.(active := true));
      }
      if !d.successCommitOk {
        return true;
      }
      status, asset := Completed, a;
      raised := false;
      if reserved {
        raised := CallBilling(Commit, d.successResponse);
      }
    }

    method HandleFailure(d: Delivery) returns (raised: bool)
      modifies this
      ensures (View(), raised) == Failure(old(View()), d)
    {
      var a := asset;
      if a.Some? {
        a := Some(a.value.(active := false));
      }
      if !d.failureCommitOk {
        return true;
      }
      status, asset := Failed, a;
      raised := false;
      if reserved {
        raised := CallBilling(Release, d.failureResponse);
      }
    }

    method Deliver(d: Delivery) returns (reply: Reply)
      modifies this
      ensures (View(), reply) == Handle(old(View()), d)
    {
      if keyExpiry.Some? && d.at < keyExpiry.value {
        return AlreadyProcessed;
      }
      if !linked {
        keyExpiry := Some(d.at + KEY_TTL);
        return UnknownPrediction;
      }
      reply := Ok;
      if d.event == PredictionFailed || (d.event == PredictionSucceeded && !d.hasOutput) {
        var raised := HandleFailure(d);
        if raised {
          return Raised;
        }
        reply := FailureHandled;
      } else if d.event == PredictionSucceeded {
        var raised := HandleSuccess(d);
        if raised {
          raised := HandleFailure(d);
          if raised {
            return Raised;
          }
        }
      }
      keyExpiry := Some(d.at + KEY_TTL);
    }
  }
}
