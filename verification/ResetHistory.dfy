/**
 What a password reset token is good for, over any sequence of requests to every
 route that touches accounts (services/auth/service.py, services/users/router.py).
 */
module ResetHistory {
  import opened Common
  import opened Sequences
  import opened Weeks
  import opened ResetTokens

  // --- Users under edits ---------------------------------------------------------------

  lemma {:induction false} FindEdited(users: seq<User>, id: string, edit: Edit, other: string)
    ensures FindUser(WithEdit(users, id, edit), other)
         == match FindUser(users, other)
            case None => None
            case Some(u) => Some(EditedIf(id, edit)(u))
  {
    if users != [] {
      FindEdited(users[1..], id, edit, other);
    }
  }

  lemma {:induction false} FindKept(users: seq<User>, gone: string, other: string)
    ensures FindUser(Filter(users, NotUser(gone)), other) == if other == gone then None else FindUser(users, other)
  {
    if users != [] {
      FindKept(users[1..], gone, other);
    }
  }

  lemma {:induction false} FindAppended(users: seq<User>, u: User, other: string)
    ensures FindUser(users + [u], other)
         == if FindUser(users, other).Some? then FindUser(users, other) else if u.id == other then Some(u) else None
  {
    if users != [] {
      FindAppended(users[1..], u, other);
      assert (users + [u])[1..] == users[1..] + [u];
    }
  }

  lemma {:induction false} FoundHasItsId(users: seq<User>, id: string)
    ensures FindUser(users, id).Some? ==> FindUser(users, id).value.id == id
  {
    if users != [] {
      FoundHasItsId(users[1..], id);
    }
  }

  lemma {:induction false} FoundByEmailIsFound(users: seq<User>, email: string)
    ensures FindByEmail(users, email).Some? ==> FindByEmail(users, email).value in users
  {
    if users != [] {
      FoundByEmailIsFound(users[1..], email);
    }
  }

  // --- What ends a link ----------------------------------------------------------------

  /** The request sets the account's password, by any route. */
  predicate SetsPassword(s: Store, request: Request, id: string) {
    match request.op
    case Reset(token, _) =>
      var checked := CheckToken(s, token, request.at);
      checked.Success? && checked.value.id == id
    case Change(caller, proven, _) => Caller(s, caller).Some? && proven && caller == id
    case EditUser(caller, target, edit) =>
      CheckEdit(s, caller, target, edit).Success? && target == id && edit.hash.Some?
    case _ => false
  }

  /** The account got a new password or address, was deactivated, or is gone. */
  predicate Disturbs(s: Store, request: Request, lifetime: nat, id: string) {
    var before := FindUser(s.users, id);
    var after := FindUser(Serve(s, request, lifetime).0.users, id);
    before.Some? &&
    (|| SetsPassword(s, request, id)
     || after.None?
     || after.value.email != before.value.email
     || (before.value.isActive && !after.value.isActive))
  }

  ghost predicate IsHistory(lifetime: nat, states: seq<Store>, requests: seq<Request>) {
    && |states| == |requests| + 1
    && states[0] == Store([], map[])
    && (forall i :: 0 <= i < |requests| ==> states[i + 1] == Serve(states[i], requests[i], lifetime).0)
    && (forall i, j :: 0 <= i < j < |requests| ==> requests[i].at <= requests[j].at)
    && (forall i, j :: 0 <= i < j < |requests| && requests[i].op.Forgot? && requests[j].op.Forgot?
          ==> requests[i].op.jti != requests[j].op.jti)
    && (forall i, j :: 0 <= i < j < |requests| && requests[i].op.Register? && requests[j].op.Register?
          ==> requests[i].op.id != requests[j].op.id)
  }

  /** The token can be redeemed as far as the store is concerned. */
  predicate IsAlive(s: Store, c: Claims) {
    && c.jti in s.resets && s.resets[c.jti] == Entry(c.sub, c.exp, None)
    && FindUser(s.users, c.sub).Some? && FindUser(s.users, c.sub).value.isActive
  }

  /** The token can never be redeemed again. */
  predicate IsDead(s: Store, c: Claims) {
    || c.jti !in s.resets
    || s.resets[c.jti].usedAt.Some?
    || s.resets[c.jti].userId != c.sub
    || FindUser(s.users, c.sub).None?
  }

  lemma UsersAfter(s: Store, request: Request, lifetime: nat, id: string)
    ensures var after := FindUser(Serve(s, request, lifetime).0.users, id);
            && (FindUser(s.users, id).None? && after.Some? ==> request.op.Register? && request.op.id == id)
            && (FindUser(s.users, id).Some? && after.None? ==> request.op.Delete?)
  {
    match request.op
    case Reset(token, hash) =>
      var checked := CheckToken(s, token, request.at);
      if checked.Success? {
        FindEdited(s.users, checked.value.id, PasswordEdit(hash), id);
      }
    case Change(caller, _, hash) => FindEdited(s.users, caller, PasswordEdit(hash), id);
    case EditUser(_, target, edit) => FindEdited(s.users, target, edit, id);
    case Promote(target, role) => FindEdited(s.users, target, Edit(None, None, Some(role), None, true), id);
    case Delete(_, target) => FindKept(s.users, target, id);
    case Register(created, email, hash) => FindAppended(s.users, User(created, email, hash, Member, true), id);
    case _ =>
  }

  lemma DeadStaysDead(s: Store, request: Request, lifetime: nat, c: Claims)
    requires IsDead(s, c)
    requires !(request.op.Forgot? && request.op.jti == c.jti)
    requires !(request.op.Register? && request.op.id == c.sub)
    ensures IsDead(Serve(s, request, lifetime).0, c)
  {
    UsersAfter(s, request, lifetime, c.sub);
  }

  lemma EditingKills(s: Store, caller: string, target: string, edit: Edit, now: Time, c: Claims)
    requires CheckEdit(s, caller, target, edit).Success? && target == c.sub && FindUser(s.users, c.sub).Some?
    requires EndsResetLinks(FindUser(s.users, c.sub).value, Edited(FindUser(s.users, c.sub).value, edit), edit)
    ensures IsDead(AfterEdit(s, caller, target, edit, now).0, c)
  {
    FoundHasItsId(s.users, c.sub);
    FindEdited(s.users, target, edit, c.sub);
  }

  /** Requests that leave an account's fields alone do not disturb it. */
  lemma OnlyThreeRoutesDisturb(s: Store, request: Request, lifetime: nat, id: string)
    requires Disturbs(s, request, lifetime, id)
    ensures request.op.Reset? || request.op.Change? || request.op.EditUser?
          || FindUser(Serve(s, request, lifetime).0.users, id).None?
  {
    match request.op
    case Promote(target, role) => FindEdited(s.users, target, Edit(None, None, Some(role), None, true), id);
    case Delete(_, target) => FindKept(s.users, target, id);
    case Register(created, email, hash) => FindAppended(s.users, User(created, email, hash, Member, true), id);
    case _ =>
  }

  /** A disturbance of the account ends every link issued for it. */
  lemma DisturbanceKills(s: Store, request: Request, lifetime: nat, c: Claims)
    requires Disturbs(s, request, lifetime, c.sub)
    requires !(request.op.Forgot? && request.op.jti == c.jti)
    ensures IsDead(Serve(s, request, lifetime).0, c)
  {
    OnlyThreeRoutesDisturb(s, request, lifetime, c.sub);
    FoundHasItsId(s.users, c.sub);
    match request.op
    case Reset(token, hash) =>
      var checked := CheckToken(s, token, request.at);
      if checked.Success? {
        FindEdited(s.users, checked.value.id, PasswordEdit(hash), c.sub);
      }
    case Change(caller, _, hash) => FindEdited(s.users, caller, PasswordEdit(hash), c.sub);
    case EditUser(caller, target, edit) =>
      FindEdited(s.users, target, edit, c.sub);
      EditingKills(s, caller, target, edit, request.at, c);
    case _ =>
  }

  /** Nothing else ends a link before it expires. */
  lemma UndisturbedStaysAlive(s: Store, request: Request, lifetime: nat, c: Claims)
    requires IsAlive(s, c) && !Disturbs(s, request, lifetime, c.sub) && request.at < c.exp
    requires !(request.op.Forgot? && request.op.jti == c.jti)
    ensures IsAlive(Serve(s, request, lifetime).0, c)
  {
    match request.op
    case Reset(token, hash) =>
      var checked := CheckToken(s, token, request.at);
    case Change(caller, _, hash) =>
    case EditUser(_, target, edit) =>
    case _ =>
  }

  // --- Over a history ------------------------------------------------------------------

  predicate WasRegistered(requests: seq<Request>, k: nat, id: string) {
    exists r :: 0 <= r < k && r < |requests| && requests[r].op.Register? && requests[r].op.id == id
  }

  predicate WasForgotten(requests: seq<Request>, k: nat, jti: string) {
    exists r :: 0 <= r < k && r < |requests| && requests[r].op.Forgot? && requests[r].op.jti == jti
  }

  /** Every account and every entry comes from a request made before. */
  lemma {:induction false} NamesComeFromRequests(lifetime: nat, states: seq<Store>, requests: seq<Request>, k: nat)
    requires IsHistory(lifetime, states, requests) && k < |states|
    ensures forall id :: FindUser(states[k].users, id).Some? ==> WasRegistered(requests, k, id)
    ensures forall j :: j in states[k].resets ==> WasForgotten(requests, k, j)
  {
    if k > 0 {
      NamesComeFromRequests(lifetime, states, requests, k - 1);
      forall id | FindUser(states[k].users, id).Some?
        ensures WasRegistered(requests, k, id)
      {
        UsersAfter(states[k - 1], requests[k - 1], lifetime, id);
      }
      forall j | j in states[k].resets
        ensures WasForgotten(requests, k, j)
      {
        if j in states[k - 1].resets {
          assert WasForgotten(requests, k - 1, j);
        }
      }
    }
  }

  /** The claims a request issued, if it issued any. */
  function IssuedBy(s: Store, request: Request, lifetime: nat): Option<Claims> {
    var answer := Serve(s, request, lifetime).1;
    if answer.Issued? then answer.claims else None
  }

  /** Right after its issue a token is alive, and neither its id nor its account's can come up again. */
  lemma IssuedIsAlive(lifetime: nat, states: seq<Store>, requests: seq<Request>, i: nat, c: Claims)
    requires IsHistory(lifetime, states, requests) && i < |requests|
    requires IssuedBy(states[i], requests[i], lifetime) == Some(c)
    ensures IsAlive(states[i + 1], c)
    ensures forall j :: i < j < |requests| ==>
              && !(requests[j].op.Forgot? && requests[j].op.jti == c.jti)
              && !(requests[j].op.Register? && requests[j].op.id == c.sub)
  {
    NamesComeFromRequests(lifetime, states, requests, i);
    EmailOwnerIsFound(lifetime, states, requests, i, requests[i].op.email);
  }

  /** Accounts have different ids, so the owner of an address is the account found by its id. */
  lemma {:induction false} EmailOwnerIsFound(
    lifetime: nat, states: seq<Store>, requests: seq<Request>, k: nat, email: string)
    requires IsHistory(lifetime, states, requests) && k < |states|
    ensures var owner := FindByEmail(states[k].users, email);
            owner.Some? ==> FindUser(states[k].users, owner.value.id) == owner
  {
    IdsDiffer(lifetime, states, requests, k);
    FoundByEmailIsFound(states[k].users, email);
    if FindByEmail(states[k].users, email).Some? {
      MemberIsFound(states[k].users, FindByEmail(states[k].users, email).value);
    }
  }

  predicate DistinctUsers(users: seq<User>) {
    forall i, j :: 0 <= i < j < |users| ==> users[i].id != users[j].id
  }

  lemma {:induction false} MemberIsFound(users: seq<User>, u: User)
    requires DistinctUsers(users) && u in users
    ensures FindUser(users, u.id) == Some(u)
  {
    if users[0] != u {
      MemberIsFound(users[1..], u);
    }
  }

  lemma {:induction false} NotFoundIsAbsent(users: seq<User>, id: string)
    ensures FindUser(users, id).None? <==> forall i :: 0 <= i < |users| ==> users[i].id != id
  {
    if users != [] {
      NotFoundIsAbsent(users[1..], id);
    }
  }

  lemma {:induction false} FilterKeepsUsersDistinct(users: seq<User>, p: User -> bool)
    requires DistinctUsers(users)
    ensures DistinctUsers(Filter(users, p))
  {
    if users != [] {
      FilterKeepsUsersDistinct(users[1..], p);
      FilterHolds(users[1..], p);
      assert forall u :: u in users[1..] ==> u.id != users[0].id;
    }
  }

  lemma EditKeepsUsersDistinct(users: seq<User>, id: string, edit: Edit)
    requires DistinctUsers(users)
    ensures DistinctUsers(WithEdit(users, id, edit))
  {
  }

  lemma StepKeepsUsersDistinct(s: Store, request: Request, lifetime: nat)
    requires DistinctUsers(s.users)
    requires request.op.Register? ==> FindUser(s.users, request.op.id).None?
    ensures DistinctUsers(Serve(s, request, lifetime).0.users)
  {
    match request.op
    case Reset(token, hash) =>
      var checked := CheckToken(s, token, request.at);
      if checked.Success? {
        EditKeepsUsersDistinct(s.users, checked.value.id, PasswordEdit(hash));
      }
    case Change(caller, _, hash) => EditKeepsUsersDistinct(s.users, caller, PasswordEdit(hash));
    case EditUser(_, target, edit) => EditKeepsUsersDistinct(s.users, target, edit);
    case Promote(id, role) => EditKeepsUsersDistinct(s.users, id, Edit(None, None, Some(role), None, true));
    case Delete(_, target) => FilterKeepsUsersDistinct(s.users, NotUser(target));
    case Register(id, _, _) => NotFoundIsAbsent(s.users, id);
    case _ =>
  }

  lemma {:induction false} IdsDiffer(lifetime: nat, states: seq<Store>, requests: seq<Request>, k: nat)
    requires IsHistory(lifetime, states, requests) && k < |states|
    ensures DistinctUsers(states[k].users)
  {
    if k > 0 {
      IdsDiffer(lifetime, states, requests, k - 1);
      NamesComeFromRequests(lifetime, states, requests, k - 1);
      StepKeepsUsersDistinct(states[k - 1], requests[k - 1], lifetime);
    }
  }

  /** From its issue until `k`, a link is alive unless its account was disturbed or it expired. */
  lemma {:induction false} AliveUntilDisturbed(
    lifetime: nat, states: seq<Store>, requests: seq<Request>, i: nat, k: nat, c: Claims)
    requires IsHistory(lifetime, states, requests) && i < k <= |requests|
    requires IssuedBy(states[i], requests[i], lifetime) == Some(c)
    requires forall j :: i < j < k ==> !Disturbs(states[j], requests[j], lifetime, c.sub) && requests[j].at < c.exp
    ensures IsAlive(states[k], c)
  {
    IssuedIsAlive(lifetime, states, requests, i, c);
    if k > i + 1 {
      AliveUntilDisturbed(lifetime, states, requests, i, k - 1, c);
      UndisturbedStaysAlive(states[k - 1], requests[k - 1], lifetime, c);
    }
  }

  /** Once its account is disturbed, a link is dead for good. */
  lemma {:induction false} DeadOnceDisturbed(
    lifetime: nat, states: seq<Store>, requests: seq<Request>, i: nat, j: nat, k: nat, c: Claims)
    requires IsHistory(lifetime, states, requests) && i < j < k <= |requests|
    requires IssuedBy(states[i], requests[i], lifetime) == Some(c)
    requires Disturbs(states[j], requests[j], lifetime, c.sub)
    ensures IsDead(states[k], c)
  {
    IssuedIsAlive(lifetime, states, requests, i, c);
    if k == j + 1 {
      DisturbanceKills(states[j], requests[j], lifetime, c);
    } else {
      DeadOnceDisturbed(lifetime, states, requests, i, j, k - 1, c);
      DeadStaysDead(states[k - 1], requests[k - 1], lifetime, c);
    }
  }

  /**
   A reset link works exactly while it has not expired and, since it was issued,
   no password was set on its account by any route, its address did not change, it
   was not deactivated and it was not deleted.
   */
  lemma LinkWorksIff(
    lifetime: nat, states: seq<Store>, requests: seq<Request>, i: nat, k: nat, c: Claims)
    requires IsHistory(lifetime, states, requests) && i < k < |requests|
    requires IssuedBy(states[i], requests[i], lifetime) == Some(c) && c.jti != "" && c.sub != ""
    requires requests[k].op.Reset? && requests[k].op.token == Signed(c)
    ensures CheckToken(states[k], Signed(c), requests[k].at).Success? <==>
            && requests[k].at < c.exp
            && forall j :: i < j < k ==> !Disturbs(states[j], requests[j], lifetime, c.sub)
  {
    if j :| i < j < k && Disturbs(states[j], requests[j], lifetime, c.sub) {
      DeadOnceDisturbed(lifetime, states, requests, i, j, k, c);
    } else if requests[k].at < c.exp {
      AliveUntilDisturbed(lifetime, states, requests, i, k, c);
    } else {
      LateIsRefused(lifetime, states, requests, i, k, c);
    }
  }

  lemma LateIsRefused(lifetime: nat, states: seq<Store>, requests: seq<Request>, i: nat, k: nat, c: Claims)
    requires IsHistory(lifetime, states, requests) && i < k < |requests|
    requires IssuedBy(states[i], requests[i], lifetime) == Some(c) && requests[k].at >= c.exp
    ensures CheckToken(states[k], Signed(c), requests[k].at).Failure?
  {
    EntryKeepsItsExpiry(lifetime, states, requests, i, k, c);
  }

  lemma {:induction false} EntryKeepsItsExpiry(
    lifetime: nat, states: seq<Store>, requests: seq<Request>, i: nat, k: nat, c: Claims)
    requires IsHistory(lifetime, states, requests) && i < k <= |requests|
    requires IssuedBy(states[i], requests[i], lifetime) == Some(c)
    ensures c.jti in states[k].resets ==>
              states[k].resets[c.jti].expiresAt == c.exp && states[k].resets[c.jti].userId == c.sub
  {
    IssuedIsAlive(lifetime, states, requests, i, c);
    if k > i + 1 {
      EntryKeepsItsExpiry(lifetime, states, requests, i, k - 1, c);
    }
  }

  /** A link succeeds at most once. */
  lemma LinkWorksOnce(
    lifetime: nat, states: seq<Store>, requests: seq<Request>, i: nat, first: nat, second: nat, c: Claims)
    requires IsHistory(lifetime, states, requests) && i < first < second < |requests|
    requires IssuedBy(states[i], requests[i], lifetime) == Some(c)
    requires requests[first].op.Reset? && requests[first].op.token == Signed(c)
    requires requests[second].op.Reset? && requests[second].op.token == Signed(c)
    requires CheckToken(states[first], Signed(c), requests[first].at).Success?
    ensures CheckToken(states[second], Signed(c), requests[second].at).Failure?
  {
    FoundHasItsId(states[first].users, c.sub);
    DeadOnceDisturbed(lifetime, states, requests, i, first, second, c);
  }

  // --- Purging -------------------------------------------------------------------------

  predicate IsGenuine(issued: set<Claims>, token: Token) {
    token.Unverified? || token.claims in issued
  }

  ghost predicate JtiIsNew(issued: set<Claims>, jti: string) {
    forall c :: c in issued ==> c.jti != jti
  }

  function NowIssued(issued: set<Claims>, answer: Answer): set<Claims> {
    if answer.Issued? && answer.claims.Some? then issued + {answer.claims.value} else issued
  }

  /** Only tokens issued here are presented with a good signature, and token ids are never repeated. */
  ghost predicate IsHonest(s: Store, requests: seq<Request>, lifetime: nat, issued: set<Claims>)
    decreases |requests|
  {
    requests != [] ==>
      && (requests[0].op.Reset? ==> IsGenuine(issued, requests[0].op.token))
      && (requests[0].op.Forgot? ==> JtiIsNew(issued, requests[0].op.jti))
      && var (after, answer) := Serve(s, requests[0], lifetime);
         IsHonest(after, requests[1..], lifetime, NowIssued(issued, answer))
  }

  predicate InOrder(now: Time, requests: seq<Request>)
    decreases |requests|
  {
    requests != [] ==> now <= requests[0].at && InOrder(requests[0].at, requests[1..])
  }

  /** What callers see: every answer but the housekeeping's. */
  function Answers(s: Store, requests: seq<Request>, lifetime: nat): seq<Answer>
    decreases |requests|
  {
    if requests == [] then []
    else
      var (after, answer) := Serve(s, requests[0], lifetime);
      (if answer.Quiet? then [] else [answer]) + Answers(after, requests[1..], lifetime)
  }

  function WithoutPurges(requests: seq<Request>): seq<Request> {
    if requests == [] then []
    else if requests[0].op.Purge? then WithoutPurges(requests[1..])
    else [requests[0]] + WithoutPurges(requests[1..])
  }

  /** `t` is `s` without some entries whose time has passed. */
  ghost predicate IsPurgedFrom(t: Store, s: Store, now: Time) {
    && t.users == s.users
    && (forall j :: j in t.resets ==> j in s.resets && t.resets[j] == s.resets[j])
    && (forall j :: j in s.resets && j !in t.resets ==> IsPurgeable(s.resets[j], now))
  }

  /** A token's own expiry is the one in the registry. */
  ghost predicate ExpiriesAgree(issued: set<Claims>, resets: Registry) {
    forall c :: c in issued && c.jti in resets ==> resets[c.jti].expiresAt == c.exp
  }

  lemma SameAfterSpending(s: Store, t: Store, users: seq<User>, userId: string, now: Time)
    requires IsPurgedFrom(t, s, now)
    ensures IsPurgedFrom(Store(users, Spent(t.resets, userId, now)), Store(users, Spent(s.resets, userId, now)), now)
  {
  }

  lemma SameAfterForgot(s: Store, t: Store, email: string, jti: string, lifetime: nat, now: Time)
    requires IsPurgedFrom(t, s, now)
    ensures AfterForgot(s, email, jti, lifetime, now).1 == AfterForgot(t, email, jti, lifetime, now).1
    ensures IsPurgedFrom(AfterForgot(t, email, jti, lifetime, now).0, AfterForgot(s, email, jti, lifetime, now).0, now)
  {
    SameAfterPurging(s, t, now);
  }

  /** A purged entry was already unusable: its token is refused before the registry is asked. */
  lemma SameCheck(s: Store, t: Store, token: Token, now: Time, issued: set<Claims>)
    requires IsPurgedFrom(t, s, now) && ExpiriesAgree(issued, s.resets) && IsGenuine(issued, token)
    ensures CheckToken(s, token, now) == CheckToken(t, token, now)
  {
  }

  lemma SameAfterReset(s: Store, t: Store, token: Token, hash: string, now: Time, issued: set<Claims>)
    requires IsPurgedFrom(t, s, now) && ExpiriesAgree(issued, s.resets) && IsGenuine(issued, token)
    ensures AfterReset(s, token, hash, now).1 == AfterReset(t, token, hash, now).1
    ensures IsPurgedFrom(AfterReset(t, token, hash, now).0, AfterReset(s, token, hash, now).0, now)
  {
    SameCheck(s, t, token, now, issued);
    var checked := CheckToken(s, token, now);
    if checked.Success? {
      SameAfterSpending(s, t, WithEdit(s.users, checked.value.id, PasswordEdit(hash)), checked.value.id, now);
    }
  }

  lemma SameAfterEdit(s: Store, t: Store, caller: string, target: string, edit: Edit, now: Time)
    requires IsPurgedFrom(t, s, now)
    ensures AfterEdit(s, caller, target, edit, now).1 == AfterEdit(t, caller, target, edit, now).1
    ensures IsPurgedFrom(AfterEdit(t, caller, target, edit, now).0, AfterEdit(s, caller, target, edit, now).0, now)
  {
    assert CheckEdit(s, caller, target, edit) == CheckEdit(t, caller, target, edit);
    var checked := CheckEdit(s, caller, target, edit);
    if checked.Success? {
      SameAfterSpending(s, t, checked.value, target, now);
    }
  }

  lemma SameAfterPurging(s: Store, t: Store, now: Time)
    requires IsPurgedFrom(t, s, now)
    ensures IsPurgedFrom(t.(resets := Purged(t.resets, now)), s.(resets := Purged(s.resets, now)), now)
  {
  }

  /** Both stores answer the same, and stay as close as they were. */
  lemma SameAnswer(s: Store, t: Store, request: Request, lifetime: nat, issued: set<Claims>)
    requires IsPurgedFrom(t, s, request.at) && ExpiriesAgree(issued, s.resets)
    requires request.op.Reset? ==> IsGenuine(issued, request.op.token)
    ensures Serve(s, request, lifetime).1 == Serve(t, request, lifetime).1
    ensures IsPurgedFrom(Serve(t, request, lifetime).0, Serve(s, request, lifetime).0, request.at)
  {
    var now := request.at;
    match request.op
    case Forgot(email, jti) => SameAfterForgot(s, t, email, jti, lifetime, now);
    case Reset(token, hash) => SameAfterReset(s, t, token, hash, now, issued);
    case Change(caller, _, hash) =>
      assert Caller(s, caller) == Caller(t, caller);
      SameAfterSpending(s, t, WithEdit(s.users, caller, PasswordEdit(hash)), caller, now);
    case EditUser(caller, target, edit) => SameAfterEdit(s, t, caller, target, edit, now);
    case Purge => SameAfterPurging(s, t, now);
    case _ =>
  }

  lemma ExpiriesStayAgreed(s: Store, request: Request, lifetime: nat, issued: set<Claims>)
    requires ExpiriesAgree(issued, s.resets)
    requires request.op.Forgot? ==> JtiIsNew(issued, request.op.jti)
    ensures var (after, answer) := Serve(s, request, lifetime);
            ExpiriesAgree(NowIssued(issued, answer), after.resets)
  {
  }

  /**
   Purging changes nothing anyone can see: taking every purge out of a sequence of
   requests, whoever makes them, leaves every answer as it was.
   */
  lemma {:induction false} PurgingIsInvisible(
    s: Store, t: Store, requests: seq<Request>, lifetime: nat, issued: set<Claims>, now: Time)
    requires IsPurgedFrom(t, s, now) && InOrder(now, requests)
    requires ExpiriesAgree(issued, s.resets) && IsHonest(t, requests, lifetime, issued)
    ensures Answers(s, WithoutPurges(requests), lifetime) == Answers(t, requests, lifetime)
    decreases |requests|
  {
    if requests != [] {
      var request, rest := requests[0], requests[1..];
      SameAnswer(s, t, request, lifetime, issued);
      var after := Serve(t, request, lifetime).0;
      var answer := Serve(t, request, lifetime).1;
      if request.op.Purge? {
        PurgingIsInvisible(s, after, rest, lifetime, issued, request.at);
      } else {
        ExpiriesStayAgreed(s, request, lifetime, issued);
        PurgingIsInvisible(Serve(s, request, lifetime).0, after, rest, lifetime, NowIssued(issued, answer), request.at);
      }
    }
  }
}
