/** Magic links of auth-svc: the rows behind e-mail verification, password reset and e-mail change,
    each redeemable by an opaque token or a six-digit code. A request that raises leaves no row
    changed. Token hashes are taken as injective and tokens as never repeating. */
module MagicLinks {
  import opened Basics

  // ---------- Data ----------

  datatype Purpose = EmailVerify | PasswordReset | EmailChange

  datatype Link = Link(
    user: nat,
    purpose: Purpose,
    token: nat,
    code: nat,
    newValue: nat,
    expiresAt: real,
    consumedAt: Option<real>)

  datatype Account = Account(email: nat, verifiedAt: Option<real>, password: nat)

  /** Links are kept in the order of insertion and never deleted. */
  datatype World = World(now: real, links: seq<Link>, accounts: map<nat, Account>, nextUser: nat)

  const EMPTY := World(0.0, [], map[], 0)
  const LINK_TTL := 900.0  // 15 minutes

  datatype Selector = ByToken(token: nat) | ByCode(code: nat) | Neither

  /** `row` is the link the database returns where a query matches several, of which any may come first.
      `code` is the random code drawn, `passwordOk` whether the password rules accept the password,
      `mailOk` whether the mail service accepts the message. */
  datatype Op =
    | Wait(dt: Duration)
    | Signup(email: nat, password: nat, passwordOk: bool, code: nat)
    | VerifyStart(email: nat, code: nat, mailOk: bool)
    | VerifyFinish(key: Selector, row: nat)
    | ResetStart(email: nat, code: nat, mailOk: bool)
    | ResetFinish(token: nat, password: nat, passwordOk: bool, row: nat)
    | ChangeStart(user: nat, newEmail: nat, code: nat, mailOk: bool)
    | ChangeFinish(user: nat, key: Selector, row: nat)

  /** `SignedUp` hands out the token pair of the new user's first session. */
  datatype Answer = Done | SignedUp(user: nat) | Redeemed(link: nat) | Rejected

  // ---------- Specification ----------

  function Owner(accounts: map<nat, Account>, email: nat): set<nat> {
    set u | u in accounts && accounts[u].email == email
  }

  predicate Open(l: Link, user: nat, purpose: Purpose) {
    l.user == user && l.purpose == purpose && l.consumedAt.None?
  }

  function Consume(l: Link, at: real): Link {
    l.(consumedAt := Some(at))
  }

  /** Every open link of the user and purpose is consumed. */
  function CloseAll(links: seq<Link>, user: nat, purpose: Purpose, at: real): (r: seq<Link>)
    ensures |r| == |links|
  {
    seq(|links|, i requires 0 <= i < |links| =>
      if Open(links[i], user, purpose) then Consume(links[i], at) else links[i])
  }

  function Issue(links: seq<Link>, user: nat, purpose: Purpose, code: nat, newValue: nat, at: real): seq<Link> {
    CloseAll(links, user, purpose, at) + [Link(user, purpose, |links|, code, newValue, at + LINK_TTL, None)]
  }

  predicate Matches(l: Link, key: Selector, purpose: Purpose, user: Option<nat>) {
    && l.purpose == purpose && l.consumedAt.None? && (user.Some? ==> l.user == user.value)
    && match key case ByToken(t) => l.token == t case ByCode(c) => l.code == c case Neither => false
  }

  function FirstMatch(links: seq<Link>, i: nat, key: Selector, purpose: Purpose, user: Option<nat>): (r: Option<nat>)
    requires i <= |links|
    ensures r.Some? ==> i <= r.value < |links| && Matches(links[r.value], key, purpose, user)
    ensures r.None? ==> forall k :: i <= k < |links| ==> !Matches(links[k], key, purpose, user)
    decreases |links| - i
  {
    if i == |links| then None
    else if Matches(links[i], key, purpose, user) then Some(i)
    else FirstMatch(links, i + 1, key, purpose, user)
  }

  /** The link the select returns: `row` if that matches, and otherwise some link that does. */
  function Selected(links: seq<Link>, row: nat, key: Selector, purpose: Purpose, user: Option<nat>): (r: Option<nat>)
    ensures r.Some? ==> r.value < |links| && Matches(links[r.value], key, purpose, user)
    ensures r.None? ==> forall k :: 0 <= k < |links| ==> !Matches(links[k], key, purpose, user)
  {
    if row < |links| && Matches(links[row], key, purpose, user) then Some(row)
    else FirstMatch(links, 0, key, purpose, user)
  }

  /** The link a finish request finds unexpired. */
  function Usable(w: World, row: nat, key: Selector, purpose: Purpose, user: Option<nat>): (r: Option<nat>)
    ensures r.Some? ==> r.value < |w.links| && Matches(w.links[r.value], key, purpose, user)
  {
    var found := Selected(w.links, row, key, purpose, user);
    if found.Some? && w.now <= w.links[found.value].expiresAt then found else None
  }

  function Redeem(w: World, link: nat, user: nat, account: Account): (World, Answer)
    requires link < |w.links|
  {
    var links := w.links[link := Consume(w.links[link], w.now)];
    (w.(links := links, accounts := w.accounts[user := account]), Redeemed(link))
  }

  function Start(w: World, user: nat, purpose: Purpose, code: nat, newValue: nat, mailOk: bool): (World, Answer) {
    if mailOk then (w.(links := Issue(w.links, user, purpose, code, newValue, w.now)), Done) else (w, Rejected)
  }

  lemma {:induction false} LeastExists(s: set<nat>, y: nat)
    requires y in s
    ensures exists m :: m in s && forall x :: x in s ==> m <= x
    decreases y
  {
    if x :| x in s && x < y { LeastExists(s, x); }
  }

  function Least(s: set<nat>): (m: nat)
    requires s != {}
    ensures m in s && forall x :: x in s ==> m <= x
  {
    assert exists m :: m in s && forall x :: x in s ==> m <= x by { var y :| y in s; LeastExists(s, y); }
    var m :| m in s && forall x :: x in s ==> m <= x;
    m
  }

  /** The account with an e-mail address; the column is unique. */
  function Find(accounts: map<nat, Account>, email: nat): (r: Option<nat>)
    ensures r.Some? ==> r.value in accounts && accounts[r.value].email == email
    ensures r.None? ==> Owner(accounts, email) == {}
  {
    var owner := Owner(accounts, email);
    if owner == {} then None else Some(Least(owner))
  }

  function Step(w: World, op: Op): (World, Answer) {
    match op
    case Wait(dt) => (w.(now := w.now + dt), Done)
    case Signup(email, password, passwordOk, code) =>
      if Owner(w.accounts, email) != {} || !passwordOk then (w, Rejected)
      else (w.(accounts := w.accounts[w.nextUser := Account(email, None, password)],
               links := Issue(w.links, w.nextUser, EmailVerify, code, 0, w.now),
               nextUser := w.nextUser + 1), SignedUp(w.nextUser))
    case VerifyStart(email, code, mailOk) =>
      (match Find(w.accounts, email)
       case Some(u) =>
         if w.accounts[u].verifiedAt.Some? then (w, Done) else Start(w, u, EmailVerify, code, 0, mailOk)
       case None => (w, Done))
    case VerifyFinish(key, row) =>
      (match Usable(w, row, key, EmailVerify, None)
       case Some(k) =>
         var u := w.links[k].user;
         if u in w.accounts then Redeem(w, k, u, w.accounts[u].(verifiedAt := Some(w.now))) else (w, Rejected)
       case None => (w, Rejected))
    case ResetStart(email, code, mailOk) =>
      (match Find(w.accounts, email)
       case Some(u) => Start(w, u, PasswordReset, code, 0, mailOk)
       case None => (w, Done))
    case ResetFinish(token, password, passwordOk, row) =>
      (match Usable(w, row, ByToken(token), PasswordReset, None)
       case Some(k) =>
         var u := w.links[k].user;
         if u in w.accounts && passwordOk then Redeem(w, k, u, w.accounts[u].(password := password)) else (w, Rejected)
       case None => (w, Rejected))
    case ChangeStart(user, newEmail, code, mailOk) =>
      if Owner(w.accounts, newEmail) != {} || user !in w.accounts then (w, Rejected)
      else Start(w, user, EmailChange, code, newEmail, mailOk)
    case ChangeFinish(user, key, row) =>
      (match Usable(w, row, key, EmailChange, Some(user))
       case Some(k) =>
         var email := w.links[k].newValue;
         if user in w.accounts && Owner(w.accounts, email) == {}
         then Redeem(w, k, user, w.accounts[user].(email := email, verifiedAt := Some(w.now)))
         else (w, Rejected)  // the consumption written before the raise is rolled back
       case None => (w, Rejected))
  }

  function Run(w: World, ops: seq<Op>): World
    decreases |ops|
  {
    if ops == [] then w else Run(Step(w, ops[0]).0, ops[1..])
  }

  function Answers(w: World, ops: seq<Op>): (r: seq<Answer>)
    ensures |r| == |ops|
    decreases |ops|
  {
    if ops == [] then [] else [Step(w, ops[0]).1] + Answers(Step(w, ops[0]).0, ops[1..])
  }

  // ---------- Invariant ----------

  ghost predicate OneOpenEach(links: seq<Link>) {
    forall i, j :: 0 <= i < j < |links| && links[i].consumedAt.None? && links[j].consumedAt.None? ==>
      links[i].user != links[j].user || links[i].purpose != links[j].purpose
  }

  ghost predicate Inv(w: World) {
    && OneOpenEach(w.links)
    && (forall i :: 0 <= i < |w.links| ==> w.links[i].user in w.accounts && w.links[i].token == i)
    && (forall u :: u in w.accounts ==> u < w.nextUser)
  }

  lemma {:induction false} IssueKeepsOneOpen(links: seq<Link>, user: nat, purpose: Purpose,
                                             code: nat, newValue: nat, at: real)
    requires OneOpenEach(links)
    ensures OneOpenEach(Issue(links, user, purpose, code, newValue, at))
    ensures forall i :: 0 <= i < |links| ==> !Open(Issue(links, user, purpose, code, newValue, at)[i], user, purpose)
  {
  }

  lemma {:induction false} IssueKeepsInv(w: World, user: nat, purpose: Purpose, code: nat, newValue: nat)
    requires Inv(w) && user in w.accounts
    ensures Inv(w.(links := Issue(w.links, user, purpose, code, newValue, w.now)))
  {
    IssueKeepsOneOpen(w.links, user, purpose, code, newValue, w.now);
  }

  lemma {:induction false} RedeemKeepsInv(w: World, k: nat, user: nat, account: Account)
    requires Inv(w) && k < |w.links| && user in w.accounts
    ensures Inv(Redeem(w, k, user, account).0)
  {
  }

  lemma {:induction false} StepKeepsInv(w: World, op: Op)
    requires Inv(w)
    ensures Inv(Step(w, op).0)
  {
    var (w', answer) := Step(w, op);
    if answer.Redeemed? {
      var k := answer.link;
      var u := if op.ChangeFinish? then op.user else w.links[k].user;
      assert (w', answer) == Redeem(w, k, u, w'.accounts[u]);
      RedeemKeepsInv(w, k, u, w'.accounts[u]);
    } else if answer.SignedUp? {
      IssueKeepsInv(w'.(links := w.links), w.nextUser, EmailVerify, op.code, 0);
    } else if w'.links != w.links {
      var user := if op.ChangeStart? then op.user else Find(w.accounts, op.email).value;
      var purpose := if op.ChangeStart? then EmailChange else if op.ResetStart? then PasswordReset else EmailVerify;
      IssueKeepsInv(w, user, purpose, op.code, if op.ChangeStart? then op.newEmail else 0);
    }
  }

  lemma {:induction false} RunKeepsInv(w: World, ops: seq<Op>)
    requires Inv(w)
    ensures Inv(Run(w, ops))
    decreases |ops|
  {
    if ops != [] {
      StepKeepsInv(w, ops[0]);
      RunKeepsInv(Step(w, ops[0]).0, ops[1..]);
    }
  }

  // ---------- What holds of every run ----------

  /** Each user has at most one unconsumed link per purpose. */
  lemma {:induction false} AtMostOneOpenLink(ops: seq<Op>, user: nat, purpose: Purpose, i: nat, j: nat)
    ensures var links := Run(EMPTY, ops).links;
            i < |links| && j < |links| && Open(links[i], user, purpose) && Open(links[j], user, purpose) ==> i == j
  {
    RunKeepsInv(EMPTY, ops);
  }

  /** A request that is rejected leaves links and accounts as they were. */
  lemma {:induction false} RejectionChangesNothing(w: World, op: Op)
    ensures Step(w, op).1 == Rejected ==> Step(w, op).0 == w
  {
  }

  /** The requests of a run that are not rejected, and their answers. */
  function Effective(w: World, ops: seq<Op>): (seq<Op>, seq<Answer>)
    decreases |ops|
  {
    if ops == [] then ([], [])
    else
      var (w', answer) := Step(w, ops[0]);
      var (rest, answers) := Effective(w', ops[1..]);
      if answer == Rejected then (rest, answers) else ([ops[0]] + rest, [answer] + answers)
  }

  /** Rejected requests may be left out of a run: links and accounts end up the same, and every other
      request is answered the same. */
  lemma {:induction false} RejectedLeaveNoTrace(w: World, ops: seq<Op>)
    ensures var (kept, answers) := Effective(w, ops);
            Run(w, kept) == Run(w, ops) && Answers(w, kept) == answers && Rejected !in answers
    decreases |ops|
  {
    if ops != [] {
      var (w', answer) := Step(w, ops[0]);
      var rest := Effective(w', ops[1..]).0;
      RejectedLeaveNoTrace(w', ops[1..]);
      RejectionChangesNothing(w, ops[0]);
      assert ([ops[0]] + rest)[1..] == rest;
    }
  }

  /** A link once consumed keeps its stamp, is never redeemed again, and no link is ever lost. */
  lemma {:induction false} ConsumedAfterStep(w: World, op: Op, k: nat)
    requires k < |w.links| && w.links[k].consumedAt.Some?
    ensures var (w', answer) := Step(w, op);
            k < |w'.links| && w'.links[k] == w.links[k] && answer != Redeemed(k)
  {
  }

  lemma {:induction false} ConsumedForGood(w: World, ops: seq<Op>, k: nat)
    requires k < |w.links| && w.links[k].consumedAt.Some?
    ensures k < |Run(w, ops).links| && Run(w, ops).links[k] == w.links[k]
    ensures Redeemed(k) !in Answers(w, ops)
    decreases |ops|
  {
    if ops != [] {
      ConsumedAfterStep(w, ops[0], k);
      ConsumedForGood(Step(w, ops[0]).0, ops[1..], k);
    }
  }

  /** Issuing a link retires every older one of its user and purpose: none is ever redeemed again. */
  lemma {:induction false} IssuingRetiresOlderLinks(w: World, op: Op, more: seq<Op>, k: nat)
    requires k < |w.links| && |Step(w, op).0.links| == |w.links| + 1
    ensures var w' := Step(w, op).0;
            var issued := w'.links[|w.links|];
            && issued.consumedAt.None? && issued.expiresAt == w.now + LINK_TTL
            && (w.links[k].user == issued.user && w.links[k].purpose == issued.purpose ==>
                  Redeemed(k) !in Answers(w', more))
  {
    var w' := Step(w, op).0;
    var issued := w'.links[|w.links|];
    if w.links[k].user == issued.user && w.links[k].purpose == issued.purpose {
      assert w'.links[k].consumedAt.Some?;
      ConsumedForGood(w', more, k);
    }
  }

  lemma {:induction false} RedeemedIsConsumed(w: World, op: Op)
    ensures var (w', answer) := Step(w, op);
            answer.Redeemed? ==>
              answer.link < |w'.links| && w'.links[answer.link] == Consume(w.links[answer.link], w.now)
  {
  }

  lemma {:induction false} RedeemedOnceFrom(w: World, ops: seq<Op>, i: nat, j: nat)
    requires i < j < |ops|
    ensures var a := Answers(w, ops);
            a[i].Redeemed? && a[j].Redeemed? ==> a[i].link != a[j].link
    decreases |ops|
  {
    var (w', answer) := Step(w, ops[0]);
    if i > 0 {
      RedeemedOnceFrom(w', ops[1..], i - 1, j - 1);
    } else if answer.Redeemed? {
      RedeemedIsConsumed(w, ops[0]);
      ConsumedForGood(w', ops[1..], answer.link);
      assert Answers(w, ops)[j] == Answers(w', ops[1..])[j - 1];
    }
  }

  /** Over every run each link is redeemed at most once, whether by token or by code. */
  lemma {:induction false} RedeemedAtMostOnce(ops: seq<Op>, i: nat, j: nat)
    requires i < j < |ops|
    ensures var a := Answers(EMPTY, ops);
            a[i].Redeemed? && a[j].Redeemed? ==> a[i].link != a[j].link
  {
    RedeemedOnceFrom(EMPTY, ops, i, j);
  }

  /** The link a token belongs to, still open, unexpired and of the purpose asked for. */
  predicate Good(w: World, token: nat, purpose: Purpose) {
    && token < |w.links| && w.links[token].purpose == purpose && w.links[token].consumedAt.None?
    && w.now <= w.links[token].expiresAt
  }

  lemma {:induction false} TokenFindsItsLink(w: World, row: nat, token: nat, purpose: Purpose, user: Option<nat>)
    requires Inv(w)
    ensures Usable(w, row, ByToken(token), purpose, user) ==
            if Good(w, token, purpose) && (user.Some? ==> w.links[token].user == user.value) then Some(token) else None
  {
  }

  /** Only this user's account may differ. */
  ghost predicate Touches(w: World, w': World, user: nat) {
    && w'.accounts.Keys == w.accounts.Keys && user in w.accounts
    && forall u :: u in w.accounts && u != user ==> w'.accounts[u] == w.accounts[u]
  }

  /** After any run, a token redeems its own link if that is good, to the effect the purpose names and
      for its own user alone, and is rejected otherwise. */
  lemma {:induction false} TokenRedeemsItsLink(ops: seq<Op>, token: nat, password: nat, user: nat, row: nat)
    ensures var w := Run(EMPTY, ops);
            var (v, verified) := Step(w, VerifyFinish(ByToken(token), row));
            var (r, reset) := Step(w, ResetFinish(token, password, true, row));
            var (c, changed) := Step(w, ChangeFinish(user, ByToken(token), row));
            && (if Good(w, token, EmailVerify)
                then verified == Redeemed(token) && Touches(w, v, w.links[token].user)
                     && v.accounts[w.links[token].user] == w.accounts[w.links[token].user].(verifiedAt := Some(w.now))
                else verified == Rejected)
            && (if Good(w, token, PasswordReset)
                then reset == Redeemed(token) && Touches(w, r, w.links[token].user)
                     && r.accounts[w.links[token].user] == w.accounts[w.links[token].user].(password := password)
                else reset == Rejected)
            && (if Good(w, token, EmailChange) && w.links[token].user == user
                   && Owner(w.accounts, w.links[token].newValue) == {}
                then changed == Redeemed(token) && Touches(w, c, user)
                     && Owner(c.accounts, w.links[token].newValue) == {user}
                     && c.accounts[user].verifiedAt == Some(w.now)
                else changed == Rejected)
  {
    var w := Run(EMPTY, ops);
    RunKeepsInv(EMPTY, ops);
    TokenFindsItsLink(w, row, token, EmailVerify, None);
    TokenFindsItsLink(w, row, token, PasswordReset, None);
    TokenFindsItsLink(w, row, token, EmailChange, Some(user));
  }

  /** A free address and an accepted password, and nothing less, open an account with that address and
      password, not verified, and its first link for the code drawn, good for 900 seconds. */
  lemma {:induction false} SignupOpensAccount(w: World, email: nat, password: nat, passwordOk: bool, code: nat)
    requires Inv(w)
    ensures var (w', answer) := Step(w, Signup(email, password, passwordOk, code));
            if (exists u :: u in w.accounts && w.accounts[u].email == email) || !passwordOk
            then answer == Rejected && w' == w
            else && answer.SignedUp? && answer.user !in w.accounts && w'.now == w.now
                 && w'.accounts == w.accounts[answer.user := Account(email, None, password)]
                 && w'.links == w.links + [Link(answer.user, EmailVerify, |w.links|, code, 0, w.now + 900.0, None)]
  {
    var (w', answer) := Step(w, Signup(email, password, passwordOk, code));
    if u :| u in w.accounts && w.accounts[u].email == email { assert u in Owner(w.accounts, email); }
    if answer.SignedUp? {
      assert forall u :: u in w.accounts && w.accounts[u].email == email ==> u in Owner(w.accounts, email);
      assert forall i :: 0 <= i < |w.links| ==> w.links[i].user in w.accounts;
      assert CloseAll(w.links, w.nextUser, EmailVerify, w.now) == w.links;
    }
  }

  /** What a start request that gets its mail out leaves behind for the user it is about: one new link,
      good for 900 seconds, and no other open one of the purpose; accounts and other links stay. */
  ghost predicate Issues(w: World, w': World, user: nat, purpose: Purpose, code: nat, newValue: nat) {
    && w'.accounts == w.accounts && w'.now == w.now && |w'.links| == |w.links| + 1
    && w'.links[|w.links|] == Link(user, purpose, |w.links|, code, newValue, w.now + 900.0, None)
    && forall i :: 0 <= i < |w.links| ==>
         w'.links[i] == if w.links[i].user == user && w.links[i].purpose == purpose && w.links[i].consumedAt.None?
                        then w.links[i].(consumedAt := Some(w.now)) else w.links[i]
  }

  ghost predicate EmailsUnique(accounts: map<nat, Account>) {
    forall u, v :: u in accounts && v in accounts && accounts[u].email == accounts[v].email ==> u == v
  }

  /** Which start requests issue a link, to whom and for what; all others leave everything as it was. */
  lemma {:induction false} StartsIssue(w: World, user: nat, email: nat, code: nat, mailOk: bool)
    requires Inv(w) && EmailsUnique(w.accounts) && user in w.accounts
    ensures var (v, verify) := Step(w, VerifyStart(email, code, mailOk));
            var (r, reset) := Step(w, ResetStart(email, code, mailOk));
            var (c, change) := Step(w, ChangeStart(user, email, code, mailOk));
            var taken := exists u :: u in w.accounts && w.accounts[u].email == email;
            && (w.accounts[user].email == email ==>
                  && (if w.accounts[user].verifiedAt.Some? then v == w && verify == Done
                      else if mailOk then Issues(w, v, user, EmailVerify, code, 0) && verify == Done
                      else v == w && verify == Rejected)
                  && (if mailOk then Issues(w, r, user, PasswordReset, code, 0) && reset == Done
                      else r == w && reset == Rejected))
            && (!taken ==> v == w && verify == Done && r == w && reset == Done)
            && (if !taken && mailOk then Issues(w, c, user, EmailChange, code, email) && change == Done
                else c == w && change == Rejected)
  {
    if u :| u in w.accounts && w.accounts[u].email == email { assert u in Owner(w.accounts, email); }
    if w.accounts[user].email == email { assert user in Owner(w.accounts, email); }
  }

  lemma {:induction false} LivesAfter(w: World, op: Op, purpose: Purpose, dt: Duration)
    requires Inv(w) && (op.Signup? || op.ResetStart?) && purpose == (if op.Signup? then EmailVerify else PasswordReset)
    ensures var w1 := Step(w, op).0;
            var w2 := Step(w1, Wait(dt)).0;
            |w1.links| > |w.links| ==>
              (Usable(w2, 0, ByToken(|w.links|), purpose, None) == Some(|w.links|) <==> dt <= 900.0)
              && w2.links[|w.links|].user in w2.accounts
  {
    var w1 := Step(w, op).0;
    var w2 := Step(w1, Wait(dt)).0;
    StepKeepsInv(w, op);
    StepKeepsInv(w1, Wait(dt));
    TokenFindsItsLink(w2, 0, |w.links|, purpose, None);
  }

  /** Neither token nor code, or a new password the rules refuse: rejected, and nothing changes. */
  lemma {:induction false} UnusableFinishes(w: World, user: nat, row: nat, token: nat, password: nat)
    ensures Step(w, VerifyFinish(Neither, row)) == (w, Rejected)
    ensures Step(w, ChangeFinish(user, Neither, row)) == (w, Rejected)
    ensures Step(w, ResetFinish(token, password, false, row)) == (w, Rejected)
  {
  }

  /** A link lives for 900 seconds, to the last instant: after any wait, and nothing else, its token is
      accepted exactly if no more than that has passed. */
  lemma {:induction false} LinkLivesFifteenMinutes(ops: seq<Op>, email: nat, password: nat, code: nat,
                                                   newPassword: nat, dt: Duration)
    ensures var w := Run(EMPTY, ops);
            var (w1, signup) := Step(w, Signup(email, password, true, code));
            var w2 := Step(w1, Wait(dt)).0;
            signup.SignedUp? ==>
              (Step(w2, VerifyFinish(ByToken(|w.links|), 0)).1 == Redeemed(|w.links|) <==> dt <= 900.0)
    ensures var w := Run(EMPTY, ops);
            var (w1, start) := Step(w, ResetStart(email, code, true));
            var w2 := Step(w1, Wait(dt)).0;
            |w1.links| > |w.links| ==>
              (Step(w2, ResetFinish(|w.links|, newPassword, true, 0)).1 == Redeemed(|w.links|) <==> dt <= 900.0)
  {
    var w := Run(EMPTY, ops);
    RunKeepsInv(EMPTY, ops);
    LivesAfter(w, Signup(email, password, true, code), EmailVerify, dt);
    LivesAfter(w, ResetStart(email, code, true), PasswordReset, dt);
  }

  // ---------- Codes ----------

  /** Another open link of the purpose, whoever's and even if expired, carries the same code. */
  ghost predicate Rivalled(w: World, k: nat)
    requires k < |w.links|
  {
    exists i :: 0 <= i < |w.links| && i != k && w.links[i].purpose == w.links[k].purpose
                && w.links[i].consumedAt.None? && w.links[i].code == w.links[k].code
  }

  /** A good verification link is sure to be redeemed by its own code, whichever matching row the
      database returns, exactly if no other open link of the purpose has that code; otherwise some row
      it may return makes the request redeem another link or fail. */
  lemma {:induction false} CodeRedeemsUnlessRivalled(ops: seq<Op>, k: nat)
    ensures var w := Run(EMPTY, ops);
            Good(w, k, EmailVerify) ==>
              ((forall row :: Step(w, VerifyFinish(ByCode(w.links[k].code), row)).1 == Redeemed(k))
               <==> !Rivalled(w, k))
  {
    var w := Run(EMPTY, ops);
    RunKeepsInv(EMPTY, ops);
    if Good(w, k, EmailVerify) {
      var key := ByCode(w.links[k].code);
      if Rivalled(w, k) {
        var i :| 0 <= i < |w.links| && i != k && Matches(w.links[i], key, EmailVerify, None);
        assert Step(w, VerifyFinish(key, i)).1 != Redeemed(k);
      } else {
        forall row ensures Step(w, VerifyFinish(key, row)).1 == Redeemed(k) {
          assert forall i :: 0 <= i < |w.links| && Matches(w.links[i], key, EmailVerify, None) ==> i == k;
        }
      }
    }
  }

  /** The query for an e-mail change looks at the user's own links, of which no other is open: there the
      code always redeems a good link while the address is free. */
  lemma {:induction false} ChangeCodeRedeems(ops: seq<Op>, k: nat, row: nat)
    ensures var w := Run(EMPTY, ops);
            Good(w, k, EmailChange) && Owner(w.accounts, w.links[k].newValue) == {} ==>
              Step(w, ChangeFinish(w.links[k].user, ByCode(w.links[k].code), row)).1 == Redeemed(k)
  {
    RunKeepsInv(EMPTY, ops);
  }

  /** Two signups that draw one code suffice: both links are good, and the code redeems either one, as
      the database happens to order them. */
  lemma {:induction false} TwoSignupsRival(a: nat, b: nat, password: nat, code: nat) returns (ops: seq<Op>)
    requires a != b
    ensures var w := Run(EMPTY, ops);
            && Good(w, 0, EmailVerify) && Good(w, 1, EmailVerify) && w.links[0].user != w.links[1].user
            && forall row :: row < 2 ==> Step(w, VerifyFinish(ByCode(code), row)).1 == Redeemed(row)
  {
    ops := [Signup(a, password, true, code), Signup(b, password, true, code)];
    var w1 := Step(EMPTY, ops[0]).0;
    assert Owner(w1.accounts, b) == {};
    assert ops[1..] == [ops[1]];
    assert Run(EMPTY, ops) == Run(w1, [ops[1]]) == Step(w1, ops[1]).0;
  }

  // ---------- No two accounts share an address ----------

  lemma {:induction false} StepKeepsEmailsUnique(w: World, op: Op)
    requires EmailsUnique(w.accounts)
    ensures EmailsUnique(Step(w, op).0.accounts)
  {
    if op.Signup? {
      assert forall u :: u in w.accounts && w.accounts[u].email == op.email ==> u in Owner(w.accounts, op.email);
    }
    if op.ChangeFinish? && Step(w, op).1.Redeemed? {
      var email := w.links[Step(w, op).1.link].newValue;
      assert forall u :: u in w.accounts && w.accounts[u].email == email ==> u in Owner(w.accounts, email);
    }
  }

  /** Signups and e-mail changes never give two users one address. */
  lemma {:induction false} AddressesStayUnique(w: World, ops: seq<Op>)
    requires EmailsUnique(w.accounts)
    ensures EmailsUnique(Run(w, ops).accounts)
    decreases |ops|
  {
    if ops != [] {
      StepKeepsEmailsUnique(w, ops[0]);
      AddressesStayUnique(Step(w, ops[0]).0, ops[1..]);
    }
  }

  // ---------- The service ----------

  class MagicLinkService {
    var now: real
    var links: seq<Link>
    var accounts: map<nat, Account>
    var nextUser: nat

    function View(): World
      reads this
    {
      World(now, links, accounts, nextUser)
    }

    constructor ()
      ensures View() == EMPTY
    {
      now, links, accounts, nextUser := 0.0, [], map[], 0;
    }

    method IssueLink(user: nat, purpose: Purpose, code: nat, newValue: nat, mailOk: bool) returns (answer: Answer)
      modifies this`links
      ensures (View(), answer) == Start(old(View()), user, purpose, code, newValue, mailOk)
    {
      var tx := links;
      for i := 0 to |links|
        invariant |tx| == |links| && links == old(links)
        invariant forall k :: 0 <= k < |links| ==>
          tx[k] == if k < i && Open(links[k], user, purpose) then Consume(links[k], now) else links[k]
      {
        if links[i].user == user && links[i].purpose == purpose && links[i].consumedAt.None? {
          tx := tx[i := tx[i].(consumedAt := Some(now))];
        }
      }
      assert tx == CloseAll(links, user, purpose, now);
      tx := tx + [Link(user, purpose, |links|, code, newValue, now + LINK_TTL, None)];
      if !mailOk {
        return Rejected;
      }
      links := tx;
      answer := Done;
    }

    /** Some link that matches, if any does; the query does not order them. */
    method Select(key: Selector, purpose: Purpose, user: Option<nat>) returns (found: Option<nat>)
      ensures found.Some? ==> found.value < |links| && Matches(links[found.value], key, purpose, user)
      ensures found.None? ==> forall k :: 0 <= k < |links| ==> !Matches(links[k], key, purpose, user)
    {
      if i :| 0 <= i < |links| && Matches(links[i], key, purpose, user) {
        return Some(i);
      }
      found := None;
    }

    method SignupEmail(email: nat, password: nat, passwordOk: bool, code: nat) returns (answer: Answer)
      modifies this
      ensures (View(), answer) == Step(old(View()), Signup(email, password, passwordOk, code))
    {
      if Find(accounts, email).Some? || !passwordOk {
        return Rejected;
      }
      accounts := accounts[nextUser := Account(email, None, password)];
      answer := IssueLink(nextUser, EmailVerify, code, 0, true);
      answer := SignedUp(nextUser);
      nextUser := nextUser + 1;
    }

    method VerifyEmailStart(email: nat, code: nat, mailOk: bool) returns (answer: Answer)
      modifies this
      ensures (View(), answer) == Step(old(View()), VerifyStart(email, code, mailOk))
    {
      var user := Find(accounts, email);
      if user.None? || accounts[user.value].verifiedAt.Some? {
        return Done;
      }
      answer := IssueLink(user.value, EmailVerify, code, 0, mailOk);
    }

    method VerifyEmailFinish(key: Selector)
      returns (answer: Answer, row: nat)
      modifies this
      ensures (View(), answer) == Step(old(View()), VerifyFinish(key, row))
    {
      var found := Select(key, EmailVerify, None);
      row := if found.Some? then found.value else 0;
      if found.None? || links[found.value].expiresAt < now {
        return Rejected, row;
      }
      var ml := links[found.value];
      var tx := links[found.value := ml.(consumedAt := Some(now))];
      if ml.user !in accounts {
        return Rejected, row;
      }
      links := tx;
      accounts := accounts[ml.user := accounts[ml.user].(verifiedAt := Some(now))];
      answer := Redeemed(found.value);
    }

    method ResetPasswordStart(email: nat, code: nat, mailOk: bool) returns (answer: Answer)
      modifies this
      ensures (View(), answer) == Step(old(View()), ResetStart(email, code, mailOk))
    {
      var user := Find(accounts, email);
      if user.None? {
        return Done;
      }
      answer := IssueLink(user.value, PasswordReset, code, 0, mailOk);
    }

    method ResetPasswordFinish(token: nat, password: nat, passwordOk: bool)
      returns (answer: Answer, row: nat)
      modifies this
      ensures (View(), answer) == Step(old(View()), ResetFinish(token, password, passwordOk, row))
    {
      var found := Select(ByToken(token), PasswordReset, None);
      row := if found.Some? then found.value else 0;
      if found.None? || links[found.value].expiresAt < now {
        return Rejected, row;
      }
      var ml := links[found.value];
      if ml.user !in accounts || !passwordOk {
        return Rejected, row;
      }
      accounts := accounts[ml.user := accounts[ml.user].(password := password)];
      links := links[found.value := ml.(consumedAt := Some(now))];
      answer := Redeemed(found.value);
    }

    method ChangeEmailStart(user: nat, newEmail: nat, code: nat, mailOk: bool) returns (answer: Answer)
      modifies this
      ensures (View(), answer) == Step(old(View()), ChangeStart(user, newEmail, code, mailOk))
    {
      if Find(accounts, newEmail).Some? || user !in accounts {
        return Rejected;
      }
      answer := IssueLink(user, EmailChange, code, newEmail, mailOk);
    }

    method ChangeEmailFinish(user: nat, key: Selector)
      returns (answer: Answer, row: nat)
      modifies this
      ensures (View(), answer) == Step(old(View()), ChangeFinish(user, key, row))
    {
      var found := Select(key, EmailChange, Some(user));
      row := if found.Some? then found.value else 0;
      if found.None? || links[found.value].expiresAt < now || user !in accounts {
        return Rejected, row;
      }
      var ml := links[found.value];
      var tx := links;
      if Find(accounts, ml.newValue).Some? {
        tx := tx[found.value := ml.(consumedAt := Some(now))];
        return Rejected, row;  // raising drops tx
      }
      accounts := accounts[user := accounts[user].(email := ml.newValue)];
      accounts := accounts[user := accounts[user].(verifiedAt := Some(now))];
      assert accounts == old(accounts)[user := old(accounts)[user].(email := ml.newValue, verifiedAt := Some(now))];
      tx := tx[found.value := ml.(consumedAt := Some(now))];
      links := tx;
      answer := Redeemed(found.value);
    }
  }
}
