/** Bilateral mock-up consent in ai-orchestrator-svc: consent, asset and interaction rows, the
    endpoint both parties call, the generation worker and the two expiry tasks. A step is one
    serialised request or task; a request that raises before its commit leaves no row behind. */
module MockupConsent {
  import opened Basics

  // ---------- Data ----------

  datatype Status = PendingB | Approved | Expired

  datatype Consent = Consent(collab: nat, requestedBy: nat, status: Status, createdAt: real)

  /** `prediction` is None while the column holds the placeholder "pending". */
  datatype Asset = Asset(consent: Option<nat>, prediction: Option<nat>, active: bool, expiresAt: Option<real>)

  /** Written when a second party accepts: who accepted which consent. */
  datatype Interaction = Interaction(user: nat, consent: nat, rejected: bool)

  datatype World = World(
    now: real,
    serial: nat,
    consents: map<nat, Consent>,
    assets: map<nat, Asset>,
    interactions: map<nat, Interaction>)

  const EMPTY := World(0.0, 0, map[], map[], map[])
  const CONSENT_TTL := 172800.0  // 48 hours

  datatype Credit = Reserved | Insufficient | CreditError

  /** What the foreign calls answer: the participants of the collab (empty when the lookup fails),
      the premium check, the credit reservation, and the final commit. */
  datatype Env = Env(participants: set<nat>, premium: bool, credit: Credit, commitOk: bool)

  datatype Op =
    | Wait(dt: Duration)
    | Request(collab: nat, user: nat, env: Env)
    | SlashCommand
    | AssignPrediction(asset: nat, prediction: nat)
    | FinishAsset(asset: nat, lifespan: Duration)
    | FailAsset(asset: nat)
    | ExpireConsents
    | ExpireAssets

  datatype Answer = Done | Created(consent: nat) | Accepted(consent: nat, asset: nat)
                  | NotParticipant | PremiumRequired | NoCredits | Conflict | ServerError

  // ---------- Specification ----------

  /** Rows under the partial unique index: pending or approved. */
  predicate Current(k: Consent) {
    k.status in {PendingB, Approved}
  }

  predicate CurrentOf(consents: map<nat, Consent>, id: nat, collab: nat) {
    id in consents && consents[id].collab == collab && Current(consents[id])
  }

  predicate PlaceholderTaken(assets: map<nat, Asset>) {
    exists a :: a in assets && assets[a].prediction.None?
  }

  function Expiring(k: Consent, now: real): Consent {
    if k.status == PendingB && k.createdAt <= now - CONSENT_TTL then k.(status := Expired) else k
  }

  function Deactivated(a: Asset, now: real): Asset {
    if a.active && a.expiresAt.Some? && a.expiresAt.value <= now then a.(active := false) else a
  }

  function Accept(w: World, id: nat, user: nat, env: Env): (World, Answer)
    requires id in w.consents
  {
    var consents := w.consents[id := w.consents[id].(status := Approved)];
    if !env.premium then (w, PremiumRequired)
    else if env.credit == Insufficient then
      if !env.commitOk then (w, ServerError)
      else (w.(serial := w.serial + 1, consents := consents,
               interactions := w.interactions[w.serial := Interaction(user, id, true)]), NoCredits)
    else if env.credit == CreditError || PlaceholderTaken(w.assets) || !env.commitOk then (w, ServerError)
    else (w.(serial := w.serial + 2, consents := consents,
             interactions := w.interactions[w.serial := Interaction(user, id, false)],
             assets := w.assets[w.serial + 1 := Asset(Some(id), None, true, None)]),
          Accepted(id, w.serial + 1))
  }

  ghost function Ask(w: World, collab: nat, user: nat, env: Env): (World, Answer) {
    if env.participants != {} && user !in env.participants then (w, NotParticipant)
    else if exists id :: CurrentOf(w.consents, id, collab) then
      var id :| CurrentOf(w.consents, id, collab);
      if w.consents[id].requestedBy == user then (w, Conflict)
      else if w.consents[id].status == PendingB then Accept(w, id, user, env)
      else (w, ServerError)  // the insert breaks the partial unique index
    else if !env.commitOk then (w, ServerError)
    else (w.(serial := w.serial + 1,
             consents := w.consents[w.serial := Consent(collab, user, PendingB, w.now)]), Created(w.serial))
  }

  ghost function Step(w: World, op: Op): (World, Answer) {
    match op
    case Wait(dt) => (w.(now := w.now + dt), Done)
    case Request(collab, user, env) => Ask(w, collab, user, env)
    case SlashCommand =>
      if PlaceholderTaken(w.assets) then (w, ServerError)
      else (w.(serial := w.serial + 1, assets := w.assets[w.serial := Asset(None, None, true, None)]), Done)
    case AssignPrediction(a, p) =>
      if a !in w.assets then (w, Done)
      else if exists b :: b in w.assets && b != a && w.assets[b].prediction == Some(p) then (w, ServerError)
      else (w.(assets := w.assets[a := w.assets[a].(prediction := Some(p))]), Done)
    case FinishAsset(a, lifespan) =>
      if a !in w.assets then (w, Done)
      else (w.(assets := w.assets[a := w.assets[a].(active := true, expiresAt := Some(w.now + lifespan))]), Done)
    case FailAsset(a) =>
      if a !in w.assets then (w, Done)
      else (w.(assets := w.assets[a := w.assets[a].(active := false)]), Done)
    case ExpireConsents => (w.(consents := map id | id in w.consents :: Expiring(w.consents[id], w.now)), Done)
    case ExpireAssets => (w.(assets := map a | a in w.assets :: Deactivated(w.assets[a], w.now)), Done)
  }

  ghost function Run(w: World, ops: seq<Op>): World
    decreases |ops|
  {
    if ops == [] then w else Run(Step(w, ops[0]).0, ops[1..])
  }

  ghost function Answers(w: World, ops: seq<Op>): (r: seq<Answer>)
    ensures |r| == |ops|
    decreases |ops|
  {
    if ops == [] then [] else [Step(w, ops[0]).1] + Answers(Step(w, ops[0]).0, ops[1..])
  }

  // ---------- Invariant ----------

  /** At most one current consent per collab, and at most one asset holding the placeholder. */
  ghost predicate OneCurrent(consents: map<nat, Consent>) {
    forall a, b :: (a in consents && b in consents && Current(consents[a]) && Current(consents[b])
                    && consents[a].collab == consents[b].collab) ==> a == b
  }

  ghost predicate OnePlaceholder(assets: map<nat, Asset>) {
    forall a, b :: a in assets && b in assets && assets[a].prediction.None? && assets[b].prediction.None? ==>
      a == b
  }

  /** An approved consent has an acceptance on record, by someone other than its requester. */
  ghost predicate HasAcceptance(w: World, id: nat)
    requires id in w.consents
  {
    exists i :: i in w.interactions && w.interactions[i].consent == id
                && w.interactions[i].user != w.consents[id].requestedBy
  }

  /** At most one asset per consent. */
  ghost predicate OneAssetEach(assets: map<nat, Asset>) {
    forall a, b :: (a in assets && b in assets && assets[a].consent.Some?
                    && assets[a].consent == assets[b].consent) ==> a == b
  }

  /** An asset made for a consent was made for an approved one. */
  ghost predicate AssetOk(w: World, a: Asset) {
    a.consent.Some? ==> a.consent.value in w.consents && w.consents[a.consent.value].status == Approved
  }

  ghost predicate Inv(w: World) {
    && OneCurrent(w.consents) && OnePlaceholder(w.assets) && OneAssetEach(w.assets)
    && (forall id :: id in w.consents ==> id < w.serial)
    && (forall i :: i in w.interactions ==> i < w.serial)
    && (forall a :: a in w.assets ==> a < w.serial && AssetOk(w, w.assets[a]))
    && (forall id :: id in w.consents && w.consents[id].status == Approved ==> HasAcceptance(w, id))
  }

  /** Approvals and acceptances only accumulate, so what rests on them is kept. */
  lemma {:induction false} AcceptanceKept(w: World, w': World, id: nat)
    requires id in w.consents && id in w'.consents && HasAcceptance(w, id)
    requires w'.consents[id].requestedBy == w.consents[id].requestedBy
    requires forall i :: i in w.interactions ==> i in w'.interactions && w'.interactions[i] == w.interactions[i]
    ensures HasAcceptance(w', id)
  {
    var i :| i in w.interactions && w.interactions[i].consent == id
             && w.interactions[i].user != w.consents[id].requestedBy;
    assert i in w'.interactions;
  }

  lemma {:induction false} AcceptKeepsInv(w: World, id: nat, user: nat, env: Env)
    requires Inv(w) && id in w.consents && w.consents[id].status == PendingB && w.consents[id].requestedBy != user
    ensures Inv(Accept(w, id, user, env).0)
  {
    var (w', answer) := Accept(w, id, user, env);
    if answer.NoCredits? || answer.Accepted? {
      forall k | k in w'.consents && w'.consents[k].status == Approved ensures HasAcceptance(w', k) {
        if k == id { assert w'.interactions[w.serial].consent == id; } else { AcceptanceKept(w, w', k); }
      }
      forall a | a in w.assets ensures w.assets[a].consent != Some(id) && AssetOk(w', w.assets[a]) {
        assert AssetOk(w, w.assets[a]);
      }
    }
  }

  /** Editing assets in place, without touching whose they are, keeps the invariant. */
  lemma {:induction false} EditedAssetsKeepInv(w: World, assets: map<nat, Asset>)
    requires Inv(w) && assets.Keys == w.assets.Keys && OnePlaceholder(assets)
    requires forall a :: a in assets ==> assets[a].consent == w.assets[a].consent
    ensures Inv(w.(assets := assets))
  {
    var w' := w.(assets := assets);
    forall k | k in w'.consents && w'.consents[k].status == Approved ensures HasAcceptance(w', k) {
      AcceptanceKept(w, w', k);
    }
    forall a | a in assets ensures a < w'.serial && AssetOk(w', assets[a]) {
      assert AssetOk(w, w.assets[a]);
    }
  }

  lemma {:induction false} SlashCommandKeepsInv(w: World)
    requires Inv(w)
    ensures Inv(Step(w, SlashCommand).0)
  {
    var w' := Step(w, SlashCommand).0;
    forall k | k in w'.consents && w'.consents[k].status == Approved ensures HasAcceptance(w', k) {
      AcceptanceKept(w, w', k);
    }
    forall a | a in w'.assets ensures a < w'.serial && AssetOk(w', w'.assets[a]) {
      assert a in w.assets ==> AssetOk(w, w.assets[a]);
    }
  }

  lemma {:induction false} AssetStepEdits(w: World, op: Op)
    requires OnePlaceholder(w.assets)
    requires op.AssignPrediction? || op.FinishAsset? || op.FailAsset? || op.ExpireAssets?
    ensures var w' := Step(w, op).0;
            && w' == w.(assets := w'.assets) && w'.assets.Keys == w.assets.Keys && OnePlaceholder(w'.assets)
            && forall a :: a in w'.assets ==> w'.assets[a].consent == w.assets[a].consent
  {
  }

  lemma {:induction false} ConsentsKeepInv(w: World, w': World)
    requires Inv(w) && OneCurrent(w'.consents) && w'.assets == w.assets && w'.interactions == w.interactions
    requires w.serial <= w'.serial && forall id :: id in w'.consents ==> id < w'.serial
    requires forall id :: id in w.consents ==>
      && id in w'.consents && w'.consents[id].requestedBy == w.consents[id].requestedBy
      && (w.consents[id].status == Approved <==> w'.consents[id].status == Approved)
    requires forall id :: id in w'.consents && w'.consents[id].status == Approved ==> id in w.consents
    ensures Inv(w')
  {
    forall k | k in w'.consents && w'.consents[k].status == Approved ensures HasAcceptance(w', k) {
      AcceptanceKept(w, w', k);
    }
    forall a | a in w'.assets ensures AssetOk(w', w'.assets[a]) {
      assert AssetOk(w, w.assets[a]);
    }
  }

  lemma {:induction false} CreationKeepsInv(w: World, collab: nat, user: nat, env: Env)
    requires Inv(w) && !exists id :: CurrentOf(w.consents, id, collab)
    ensures Inv(Ask(w, collab, user, env).0)
  {
    var w' := Ask(w, collab, user, env).0;
    assert forall id :: id in w.consents && w.consents[id].collab == collab ==> !CurrentOf(w.consents, id, collab);
    ConsentsKeepInv(w, w');
  }

  /** In a consistent store the current consent of a collab is found whichever way it is looked up. */
  lemma {:induction false} AskFindsCurrent(w: World, id: nat, user: nat, env: Env)
    requires Inv(w) && id in w.consents && Current(w.consents[id])
    ensures Ask(w, w.consents[id].collab, user, env) ==
            if env.participants != {} && user !in env.participants then (w, NotParticipant)
            else if w.consents[id].requestedBy == user then (w, Conflict)
            else if w.consents[id].status == PendingB then Accept(w, id, user, env)
            else (w, ServerError)
  {
    assert CurrentOf(w.consents, id, w.consents[id].collab);
  }

  lemma {:induction false} StepKeepsInv(w: World, op: Op)
    requires Inv(w)
    ensures Inv(Step(w, op).0)
  {
    if op.Request? && exists id :: CurrentOf(w.consents, id, op.collab) {
      var id :| CurrentOf(w.consents, id, op.collab);
      AskFindsCurrent(w, id, op.user, op.env);
      if w.consents[id].status == PendingB && w.consents[id].requestedBy != op.user {
        AcceptKeepsInv(w, id, op.user, op.env);
      }
    } else if op.Request? {
      CreationKeepsInv(w, op.collab, op.user, op.env);
    } else if op.Wait? || op.ExpireConsents? {
      ConsentsKeepInv(w, Step(w, op).0);
    } else if op.SlashCommand? {
      SlashCommandKeepsInv(w);
    } else {
      AssetStepEdits(w, op);
      EditedAssetsKeepInv(w, Step(w, op).0.assets);
    }
  }

  lemma {:induction false} RunKeepsInv(w: World, ops: seq<Op>)
    requires Inv(w)
    ensures Inv(Run(w, ops))
    decreases |ops|
  {
    if ops != [] {
      StepKeepsInv(w, ops[0]);
      RunKeepsInv(Step(w, ops[0]).0, ops[1..]);
    }
  }

  // ---------- What holds of every run ----------

  /** A collab never has two consents pending or approved. */
  lemma {:induction false} OneCurrentConsent(ops: seq<Op>, a: nat, b: nat, collab: nat)
    ensures var w := Run(EMPTY, ops);
            CurrentOf(w.consents, a, collab) && CurrentOf(w.consents, b, collab) ==> a == b
  {
    RunKeepsInv(EMPTY, ops);
  }

  /** An approved consent was accepted by a user other than its requester, and at most one asset was
      ever made for it; for any other consent none was. */
  lemma {:induction false} ApprovedBySomeoneElse(ops: seq<Op>, id: nat, a: nat, b: nat)
    ensures var w := Run(EMPTY, ops);
            id in w.consents ==>
              && (w.consents[id].status == Approved ==> HasAcceptance(w, id))
              && (a in w.assets && w.assets[a].consent == Some(id) ==> w.consents[id].status == Approved)
              && (a in w.assets && b in w.assets && w.assets[a].consent == w.assets[b].consent == Some(id) ==> a == b)
  {
    RunKeepsInv(EMPTY, ops);
    if a in Run(EMPTY, ops).assets { assert AssetOk(Run(EMPTY, ops), Run(EMPTY, ops).assets[a]); }
  }

  predicate AssetOf(w: World, a: nat, consent: nat) {
    a in w.assets && w.assets[a].consent == Some(consent)
  }

  /** No step changes an approved consent or its assets, or gives its collab another consent. */
  lemma {:induction false} ApprovedAfterStep(w: World, op: Op, id: nat)
    requires Inv(w) && id in w.consents && w.consents[id].status == Approved
    ensures var (w', answer) := Step(w, op);
            && id in w'.consents && w'.consents[id] == w.consents[id]
            && (forall a :: AssetOf(w', a, id) <==> AssetOf(w, a, id))
            && !(op.Request? && op.collab == w.consents[id].collab && (answer.Created? || answer.Accepted?))
  {
    if op.Request? {
      if op.collab == w.consents[id].collab {
        AskFindsCurrent(w, id, op.user, op.env);
      } else if j :| CurrentOf(w.consents, j, op.collab) {
        AskFindsCurrent(w, j, op.user, op.env);
      }
    }
  }

  lemma {:induction false} ApprovedFrom(w: World, ops: seq<Op>, id: nat)
    requires Inv(w) && id in w.consents && w.consents[id].status == Approved
    ensures id in Run(w, ops).consents && Run(w, ops).consents[id] == w.consents[id]
    ensures forall a :: AssetOf(Run(w, ops), a, id) <==> AssetOf(w, a, id)
    ensures forall k :: 0 <= k < |ops| && ops[k].Request? && ops[k].collab == w.consents[id].collab ==>
              !Answers(w, ops)[k].Created? && !Answers(w, ops)[k].Accepted?
    decreases |ops|
  {
    if ops != [] {
      ApprovedAfterStep(w, ops[0], id);
      StepKeepsInv(w, ops[0]);
      ApprovedFrom(Step(w, ops[0]).0, ops[1..], id);
    }
  }

  /** Approval is final: the row never changes again, no asset is added to those it has, and its collab
      never sees another consent created or accepted. */
  lemma {:induction false} ApprovalIsFinal(ops: seq<Op>, more: seq<Op>, id: nat)
    ensures var w := Run(EMPTY, ops);
            id in w.consents && w.consents[id].status == Approved ==>
              && id in Run(w, more).consents && Run(w, more).consents[id] == w.consents[id]
              && (forall a :: AssetOf(Run(w, more), a, id) <==> AssetOf(w, a, id))
              && forall k :: 0 <= k < |more| && more[k].Request? && more[k].collab == w.consents[id].collab ==>
                   !Answers(w, more)[k].Created? && !Answers(w, more)[k].Accepted?
  {
    RunKeepsInv(EMPTY, ops);
    var w := Run(EMPTY, ops);
    if id in w.consents && w.consents[id].status == Approved { ApprovedFrom(w, more, id); }
  }

  /** When a request creates a consent, when it has one accepted with an asset, and when it spends
      the approval although credits are short: the consent is then approved with no asset. */
  lemma {:induction false} AnswersOfRequest(ops: seq<Op>, collab: nat, user: nat, env: Env, id: nat)
    ensures var w := Run(EMPTY, ops);
            var (w', answer) := Step(w, Request(collab, user, env));
            var allowed := env.participants == {} || user in env.participants;
            && (answer.Created? <==> allowed && env.commitOk && !exists i :: CurrentOf(w.consents, i, collab))
            && (CurrentOf(w.consents, id, collab) && w.consents[id].status == PendingB ==>
                  var asked := allowed && w.consents[id].requestedBy != user && env.premium && env.commitOk;
                  && (answer.Accepted? <==> asked && env.credit == Reserved && !PlaceholderTaken(w.assets))
                  && (answer.Accepted? ==> answer.asset !in w.assets && answer.asset in w'.assets
                                           && w'.assets[answer.asset].consent == Some(id))
                  && (w'.consents[id].status == Approved <==> answer.Accepted? || (asked && env.credit == Insufficient))
                  && (!answer.Accepted? ==> w'.assets == w.assets))
  {
    var w := Run(EMPTY, ops);
    RunKeepsInv(EMPTY, ops);
    if i :| CurrentOf(w.consents, i, collab) { AskFindsCurrent(w, i, user, env); }
    if CurrentOf(w.consents, id, collab) { AskFindsCurrent(w, id, user, env); }
  }

  // ---------- Requests and their parties ----------

  /** Whoever asks for a collab without a current consent is recorded as the requester, with the instant
      of the request. */
  lemma {:induction false} CreationRecordsAsker(w: World, collab: nat, user: nat, env: Env)
    requires Inv(w)
    ensures var (w', answer) := Step(w, Request(collab, user, env));
            answer.Created? ==>
              && answer.consent !in w.consents
              && w' == w.(serial := w.serial + 1,
                          consents := w.consents[answer.consent := Consent(collab, user, PendingB, w.now)])
  {
    if id :| CurrentOf(w.consents, id, collab) { AskFindsCurrent(w, id, user, env); }
  }

  /** Who a consent belongs to and when it was asked for never changes. */
  ghost predicate Identified(w: World, id: nat, collab: nat, user: nat, at: real) {
    && id in w.consents && w.consents[id].collab == collab
    && w.consents[id].requestedBy == user && w.consents[id].createdAt == at
  }

  lemma {:induction false} IdentityStays(w: World, op: Op, id: nat, collab: nat, user: nat, at: real)
    requires Inv(w) && Identified(w, id, collab, user, at)
    ensures Identified(Step(w, op).0, id, collab, user, at)
  {
    if op.Request? {
      if k :| CurrentOf(w.consents, k, op.collab) {
        AskFindsCurrent(w, k, op.user, op.env);
      }
    }
  }

  lemma {:induction false} AcceptedFromPending(w: World, collab: nat, user: nat, env: Env)
    requires Inv(w)
    ensures var answer := Step(w, Request(collab, user, env)).1;
            answer.Accepted? ==>
              && answer.consent in w.consents && w.consents[answer.consent].collab == collab
              && w.consents[answer.consent].requestedBy != user && w.consents[answer.consent].status == PendingB
  {
    if id :| CurrentOf(w.consents, id, collab) { AskFindsCurrent(w, id, user, env); }
  }

  lemma {:induction false} AcceptedLaterFrom(w: World, ops: seq<Op>, j: nat, id: nat, collab: nat, user: nat, at: real)
    requires Inv(w) && Identified(w, id, collab, user, at) && j < |ops| && ops[j].Request?
    ensures Answers(w, ops)[j].Accepted? && Answers(w, ops)[j].consent == id ==>
              ops[j].user != user && ops[j].collab == collab
    decreases |ops|
  {
    StepKeepsInv(w, ops[0]);
    IdentityStays(w, ops[0], id, collab, user, at);
    if j > 0 {
      AcceptedLaterFrom(Step(w, ops[0]).0, ops[1..], j - 1, id, collab, user, at);
    } else {
      AcceptedFromPending(w, ops[0].collab, ops[0].user, ops[0].env);
    }
  }

  lemma {:induction false} PartiesDifferFrom(w: World, ops: seq<Op>, i: nat, j: nat)
    requires Inv(w) && i < j < |ops| && ops[i].Request? && ops[j].Request?
    ensures var a := Answers(w, ops);
            a[i].Created? && a[j].Accepted? && a[j].consent == a[i].consent ==>
              ops[i].user != ops[j].user && ops[i].collab == ops[j].collab
    decreases |ops|
  {
    var (w', answer) := Step(w, ops[0]);
    StepKeepsInv(w, ops[0]);
    if i > 0 {
      PartiesDifferFrom(w', ops[1..], i - 1, j - 1);
    } else if answer.Created? {
      CreationRecordsAsker(w, ops[0].collab, ops[0].user, ops[0].env);
      AcceptedLaterFrom(w', ops[1..], j - 1, answer.consent, ops[0].collab, ops[0].user, w.now);
    }
  }

  /** Consent is bilateral: of the request that created a consent and the one that had it accepted, both
      are for one collab and they are made by different users. */
  lemma {:induction false} PartiesDiffer(ops: seq<Op>, i: nat, j: nat)
    requires i < j < |ops| && ops[i].Request? && ops[j].Request?
    ensures var a := Answers(EMPTY, ops);
            a[i].Created? && a[j].Accepted? && a[j].consent == a[i].consent ==>
              ops[i].user != ops[j].user && ops[i].collab == ops[j].collab
  {
    PartiesDifferFrom(EMPTY, ops, i, j);
  }

  /** What the request after a creation is answered: a conflict to the same user, acceptance to another
      one who passes every check. */
  lemma {:induction false} SecondRequest(ops: seq<Op>, collab: nat, a: nat, b: nat, first: Env, env: Env)
    ensures var (w, answer) := Step(Run(EMPTY, ops), Request(collab, a, first));
            var second := Step(w, Request(collab, b, env)).1;
            answer.Created? ==>
              if env.participants != {} && b !in env.participants then second == NotParticipant
              else if a == b then second == Conflict
              else if !env.premium then second == PremiumRequired
              else if env.credit == Insufficient && env.commitOk then second == NoCredits
              else if && env.credit == Reserved && env.commitOk
                      && forall x :: x in w.assets ==> w.assets[x].prediction.Some?
              then second.Accepted? && second.consent == answer.consent
              else second == ServerError
  {
    var w0 := Run(EMPTY, ops);
    RunKeepsInv(EMPTY, ops);
    CreationRecordsAsker(w0, collab, a, first);
    var (w, answer) := Step(w0, Request(collab, a, first));
    StepKeepsInv(w0, Request(collab, a, first));
    if answer.Created? { AskFindsCurrent(w, answer.consent, b, env); }
  }

  /** What an answer of that kind leaves behind: an acceptance the approval, its record and one active
      asset; too few credits the approval and its record; anything else nothing. */
  lemma {:induction false} AcceptanceLeaves(w: World, id: nat, user: nat, env: Env)
    requires Inv(w) && id in w.consents && w.consents[id].status == PendingB && w.consents[id].requestedBy != user
    ensures var (w', answer) := Step(w, Request(w.consents[id].collab, user, env));
            var approved := w.consents[id := w.consents[id].(status := Approved)];
            && (answer.NoCredits? ==>
                  w' == w.(serial := w.serial + 1, consents := approved,
                           interactions := w.interactions[w.serial := Interaction(user, id, true)]))
            && (answer.Accepted? ==>
                  w' == w.(serial := w.serial + 2, consents := approved,
                           interactions := w.interactions[w.serial := Interaction(user, id, false)],
                           assets := w.assets[answer.asset := Asset(Some(id), None, true, None)]))
            && (!answer.NoCredits? && !answer.Accepted? ==> w' == w)
  {
    AskFindsCurrent(w, id, user, env);
  }

  /** A mock-up asked for by command adds one active asset without a consent, unless another asset still
      waits for its prediction id. */
  lemma {:induction false} SlashCommandAddsAsset(w: World)
    requires Inv(w)
    ensures var (w', answer) := Step(w, SlashCommand);
            if forall a :: a in w.assets ==> w.assets[a].prediction.Some?
            then answer == Done && w.serial !in w.assets
                 && w' == w.(serial := w.serial + 1, assets := w.assets[w.serial := Asset(None, None, true, None)])
            else answer == ServerError && w' == w
  {
  }

  // ---------- Expiry ----------

  lemma {:induction false} RunTwo(w: World, a: Op, b: Op)
    ensures Run(w, [a, b]) == Step(Step(w, a).0, b).0
  {
    assert [a, b][1..] == [b] && [b][1..] == [];
    assert Run(Step(w, a).0, [b]) == Step(Step(w, a).0, b).0;
  }

  /** A consent left pending expires exactly when the task finds it 48 hours old. */
  lemma {:induction false} PendingLastsTwoDays(w: World, collab: nat, user: nat, env: Env, dt: Duration)
    requires Inv(w)
    ensures var (w1, answer) := Step(w, Request(collab, user, env));
            answer.Created? ==>
              var w2 := Run(w1, [Wait(dt), ExpireConsents]);
              answer.consent in w2.consents
              && w2.consents[answer.consent].status == if dt >= 172800.0 then Expired else PendingB
  {
    var (w1, answer) := Step(w, Request(collab, user, env));
    CreationRecordsAsker(w, collab, user, env);
    RunTwo(w1, Wait(dt), ExpireConsents);
  }

  /** Only pending consents expire, and the task changes nothing else of them. */
  lemma {:induction false} ExpiryTouchesPendingOnly(w: World, id: nat)
    requires id in w.consents
    ensures var w' := Step(w, ExpireConsents).0;
            && w' == w.(consents := w'.consents) && w'.consents.Keys == w.consents.Keys
            && (w.consents[id].status != PendingB ==> w'.consents[id] == w.consents[id])
            && w'.consents[id].collab == w.consents[id].collab
            && w'.consents[id].requestedBy == w.consents[id].requestedBy
  {
  }

  /** An asset is live for its lifespan: the hourly task leaves it active before that has passed and not
      from then on. */
  lemma {:induction false} AssetLivesItsLifespan(w: World, a: nat, lifespan: Duration, dt: Duration)
    requires a in w.assets
    ensures var w1 := Step(w, FinishAsset(a, lifespan)).0;
            var w2 := Run(w1, [Wait(dt), ExpireAssets]);
            && w1.assets[a].active
            && a in w2.assets && (w2.assets[a].active <==> dt < lifespan)
            && w2.assets[a].consent == w.assets[a].consent && w2.assets[a].prediction == w.assets[a].prediction
  {
    RunTwo(Step(w, FinishAsset(a, lifespan)).0, Wait(dt), ExpireAssets);
  }

  /** The worker's prediction id is stored exactly unless another asset has it, and only on its asset. */
  lemma {:induction false} PredictionIsStored(w: World, a: nat, p: nat)
    requires a in w.assets
    ensures var (w', answer) := Step(w, AssignPrediction(a, p));
            if exists b :: b in w.assets && b != a && w.assets[b].prediction == Some(p)
            then w' == w && answer == ServerError
            else w' == w.(assets := w.assets[a := w.assets[a].(prediction := Some(p))]) && answer == Done
  {
  }

  // ---------- The service ----------

  class ConsentService {
    var now: real
    var serial: nat
    var consents: map<nat, Consent>
    var assets: map<nat, Asset>
    var interactions: map<nat, Interaction>

    function View(): World
      reads this
    {
      World(now, serial, consents, assets, interactions)
    }

    constructor ()
      ensures View() == EMPTY && Inv(View())
    {
      now, serial, consents, assets, interactions := 0.0, 0, map[], map[], map[];
    }

    method FirstCurrent(collab: nat) returns (found: Option<nat>)
      ensures found.Some? ==> CurrentOf(consents, found.value, collab)
      ensures found.None? ==> forall id :: !CurrentOf(consents, id, collab)
    {
      if id :| id in consents && consents[id].collab == collab && consents[id].status in {PendingB, Approved} {
        return Some(id);
      }
      return None;
    }

    /** Flushed rows are local until the commit; a raise before it drops them. */
    method AcceptPending(id: nat, user: nat, env: Env) returns (answer: Answer)
      requires id in consents
      modifies this
      ensures (View(), answer) == Accept(old(View()), id, user, env)
    {
      var txConsents := consents[id := consents[id].(status := Approved)];
      if !env.premium {
        return PremiumRequired;
      }
      var interaction := Interaction(user, id, false);
      match env.credit
      case CreditError => return ServerError;
      case Insufficient =>
        interaction := interaction.(rejected := true);
        if !env.commitOk {
          return ServerError;
        }
        consents, interactions := txConsents, interactions[serial := interaction];
        serial := serial + 1;
        return NoCredits;
      case Reserved =>
        var asset := Asset(Some(id), None, true, None);
        if a :| a in assets && assets[a].prediction.None? {
          return ServerError;  // the placeholder breaks the unique column
        }
        if !env.commitOk {
          return ServerError;
        }
        consents, interactions := txConsents, interactions[serial := interaction];
        assets := assets[serial + 1 := asset];
        answer := Accepted(id, serial + 1);
        serial := serial + 2;
    }

    method MockupConsent(collab: nat, user: nat, env: Env) returns (answer: Answer)
      requires Inv(View())
      modifies this
      ensures (View(), answer) == Step(old(View()), Request(collab, user, env))
      ensures Inv(View())
    {
      StepKeepsInv(View(), Request(collab, user, env));
      if env.participants != {} && user !in env.participants {
        return NotParticipant;
      }
      var existing := FirstCurrent(collab);
      if existing.Some? {
        AskFindsCurrent(View(), existing.value, user, env);
      }
      if existing.Some? && consents[existing.value].status == PendingB && consents[existing.value].requestedBy != user {
        answer := AcceptPending(existing.value, user, env);
        return;
      }
      if existing.Some? && consents[existing.value].requestedBy == user {
        return Conflict;
      }
      if existing.Some? || !env.commitOk {
        return ServerError;  // an approved row is in the way of the insert, or the commit fails
      }
      consents := consents[serial := Consent(collab, user, PendingB, now)];
      answer := Created(serial);
      serial := serial + 1;
    }

    method ExpirePendingConsents()
      modifies this`consents
      ensures View() == Step(old(View()), ExpireConsents).0
      ensures old(Inv(View())) ==> Inv(View())
    {
      if Inv(View()) { StepKeepsInv(View(), ExpireConsents); }
      var cutoff := now - CONSENT_TTL;
      consents := map id | id in consents ::
        if consents[id].status == PendingB && consents[id].createdAt <= cutoff
        then consents[id].(status := Expired) else consents[id];
    }

    /** Hourly task: the assets past their lifespan go inactive, and their ids are reported. */
    method ExpireMockupAssets() returns (expired: set<nat>)
      modifies this`assets
      ensures View() == Step(old(View()), ExpireAssets).0
      ensures expired == set a | a in old(assets) && old(assets)[a].active && !assets[a].active
      ensures old(Inv(View())) ==> Inv(View())
    {
      ghost var was := assets;
      expired := {};
      var due := set a | a in assets && assets[a].active
                         && assets[a].expiresAt.Some? && assets[a].expiresAt.value <= now;
      ghost var all := due;
      while due != {}
        invariant due + expired == all && due !! expired && all <= was.Keys
        invariant assets == map a | a in was :: if a in expired then was[a].(active := false) else was[a]
        decreases due
      {
        var a :| a in due;
        assets := assets[a := assets[a].(active := false)];
        expired := expired + {a};
        due := due - {a};
      }
      assert expired == all;
      assert View() == Step(old(View()), ExpireAssets).0;
      if old(Inv(View())) { StepKeepsInv(old(View()), ExpireAssets); }
    }

    /** The worker stores the prediction id, unless another asset already carries it. */
    method AssignPrediction(a: nat, prediction: nat) returns (answer: Answer)
      modifies this`assets
      ensures (View(), answer) == Step(old(View()), Op.AssignPrediction(a, prediction))
      ensures old(Inv(View())) ==> Inv(View())
    {
      if Inv(View()) { StepKeepsInv(View(), Op.AssignPrediction(a, prediction)); }
      if a !in assets {
        return Done;
      }
      if b :| b in assets && b != a && assets[b].prediction == Some(prediction) {
        return ServerError;
      }
      assets := assets[a := assets[a].(prediction := Some(prediction))];
      answer := Done;
    }
  }
}
