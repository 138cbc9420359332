/**
 What each request does to the accounts and to the reset links
 (services/auth/service.py and services/users/router.py), said of the accounts and
 links themselves: when it is refused and why, what it changes, and what it leaves.
 */
module ResetLaws {
  import opened Common
  import opened Sequences
  import opened Weeks
  import opened ResetTokens

  // --- Accounts ------------------------------------------------------------------------

  predicate IsAccount(users: seq<User>, id: string, u: User) {
    u in users && u.id == id
  }

  ghost predicate HasAccount(users: seq<User>, id: string) {
    exists u :: IsAccount(users, id, u)
  }

  ghost predicate OneAccountPerId(users: seq<User>) {
    forall i, j :: 0 <= i < j < |users| ==> users[i].id != users[j].id
  }

  ghost predicate OneAccountPerAddress(users: seq<User>) {
    forall i, j :: 0 <= i < j < |users| ==> users[i].email != users[j].email
  }

  lemma {:induction false} FindUserFinds(users: seq<User>, id: string)
    ensures FindUser(users, id).Some? <==> HasAccount(users, id)
    ensures FindUser(users, id).Some? ==> IsAccount(users, id, FindUser(users, id).value)
    ensures OneAccountPerId(users) ==> forall u :: IsAccount(users, id, u) ==> FindUser(users, id) == Some(u)
  {
    if users != [] {
      FindUserFinds(users[1..], id);
      assert forall u :: IsAccount(users, id, u) <==> (u == users[0] && u.id == id) || IsAccount(users[1..], id, u);
      if OneAccountPerId(users) {
        assert forall u :: u in users[1..] ==> u.id != users[0].id;
      }
    }
  }

  lemma {:induction false} FindByEmailFinds(users: seq<User>, email: string)
    ensures FindByEmail(users, email).None? <==> forall u :: u in users ==> u.email != email
    ensures FindByEmail(users, email).Some? ==>
              FindByEmail(users, email).value in users && FindByEmail(users, email).value.email == email
    ensures OneAccountPerAddress(users) ==>
              forall u :: u in users && u.email == email ==> FindByEmail(users, email) == Some(u)
  {
    if users != [] {
      FindByEmailFinds(users[1..], email);
      if OneAccountPerAddress(users) {
        assert forall u :: u in users[1..] ==> u.email != users[0].email;
      }
    }
  }

  /** The accounts after an edit of one of them: the same, in order, with the named fields of that one set. */
  ghost predicate OnlyEdits(before: seq<User>, after: seq<User>, id: string, edit: Edit) {
    && |after| == |before|
    && forall i :: 0 <= i < |before| ==>
         if before[i].id != id then after[i] == before[i]
         else
           && after[i].id == id
           && after[i].email == (match edit.email case Some(email) => email case None => before[i].email)
           && after[i].hash == (match edit.hash case Some(hash) => hash case None => before[i].hash)
           && after[i].role == (match edit.role case Some(role) => role case None => before[i].role)
           && after[i].isActive == (match edit.isActive case Some(active) => active case None => before[i].isActive)
  }

  /** The accounts after a new password: the same, in order, with the hash of one of them set. */
  ghost predicate OnlySetsHash(before: seq<User>, after: seq<User>, id: string, hash: string) {
    && |after| == |before|
    && forall i :: 0 <= i < |before| ==>
         if before[i].id != id then after[i] == before[i] else after[i] == before[i].(hash := hash)
  }

  /** Every unused link of the account is spent now, and no other link changes. */
  ghost predicate OnlySpends(before: Registry, after: Registry, id: string, now: Time) {
    && after.Keys == before.Keys
    && forall j :: j in before ==>
         after[j] == if before[j].userId == id && before[j].usedAt == None
                     then Entry(id, before[j].expiresAt, Some(now)) else before[j]
  }

  // --- Links ---------------------------------------------------------------------------

  /** The whole second a moment falls in. */
  predicate IsInSecond(moment: Time, second: int) {
    second * 1_000_000 <= moment < (second + 1) * 1_000_000
  }

  /** Purging drops exactly the links that expired before the present second. */
  lemma PurgingDropsTheExpired(resets: Registry, now: Time, second: int, j: string)
    requires IsInSecond(now, second)
    ensures j in Purged(resets, now) <==> j in resets && second * 1_000_000 <= resets[j].expiresAt
    ensures j in Purged(resets, now) ==> Purged(resets, now)[j] == resets[j]
  {
    if j in resets {
      SecondOf(now, second);
      SecondOf(resets[j].expiresAt, FloorSecond(resets[j].expiresAt));
    }
  }

  lemma SecondOf(moment: Time, second: int)
    ensures FloorSecond(moment) == second <==> IsInSecond(moment, second)
  {
  }

  /**
   A link is issued exactly for the active account of the address, unspent, for its
   lifetime from the present second; the links that had expired are dropped.
   */
  lemma ForgetfulRequests(s: Store, email: string, jti: string, lifetime: nat, now: Time, second: int)
    requires OneAccountPerAddress(s.users) && IsInSecond(now, second)
    ensures var (after, claims) := AfterForgot(s, email, jti, lifetime, now);
            && after.users == s.users
            && (claims.Some? <==> exists u :: u in s.users && u.email == email && u.isActive)
            && (claims.None? ==> after == s)
            && (claims.Some? ==>
                  && claims.value.jti == jti && claims.value.exp == (second + lifetime) * 1_000_000
                  && (exists u :: IsAccount(s.users, claims.value.sub, u) && u.email == email && u.isActive)
                  && after.resets == Purged(s.resets, now)[jti := Entry(claims.value.sub, claims.value.exp, None)])
  {
    FindByEmailFinds(s.users, email);
    SecondOf(now, second);
  }

  /** Whether a reason to refuse a link applies. */
  ghost predicate Refuses(reason: Refusal, s: Store, token: Token, now: Time) {
    match reason
    case NotValid =>
      token.Unverified? || exists second :: IsInSecond(now, second) && token.claims.exp < second * 1_000_000
    case MissingIds => token.Signed? && (token.claims.jti == "" || token.claims.sub == "")
    case NotRecognised => token.Signed? && token.claims.jti !in s.resets
    case AlreadyUsed => token.Signed? && token.claims.jti in s.resets && s.resets[token.claims.jti].usedAt.Some?
    case WrongAccount =>
      token.Signed? && token.claims.jti in s.resets && s.resets[token.claims.jti].userId != token.claims.sub
    case HasExpired => token.Signed? && token.claims.jti in s.resets && s.resets[token.claims.jti].expiresAt <= now
    case NoAccount => token.Signed? && !HasAccount(s.users, token.claims.sub)
    case Deactivated => token.Signed? && exists u :: IsAccount(s.users, token.claims.sub, u) && !u.isActive
  }

  /** The order in which the reasons are looked at. */
  function PlaceOf(reason: Refusal): nat {
    match reason
    case NotValid => 0
    case MissingIds => 1
    case NotRecognised => 2
    case AlreadyUsed => 3
    case WrongAccount => 4
    case HasExpired => 5
    case NoAccount => 6
    case Deactivated => 7
  }

  /** A link is refused for the first reason that applies, and redeems its account when none does. */
  lemma LinkIsRefusedForTheFirstReason(s: Store, token: Token, now: Time)
    requires OneAccountPerId(s.users)
    ensures match CheckToken(s, token, now)
            case Failure(reason) =>
              Refuses(reason, s, token, now)
              && forall other :: Refuses(other, s, token, now) ==> PlaceOf(reason) <= PlaceOf(other)
            case Success(user) =>
              && (forall reason :: !Refuses(reason, s, token, now))
              && token.Signed? && IsAccount(s.users, token.claims.sub, user)
  {
    SecondOf(now, FloorSecond(now));
    assert forall second :: IsInSecond(now, second) ==> second == FloorSecond(now) by {
      forall second | IsInSecond(now, second)
        ensures second == FloorSecond(now)
      {
        SecondOf(now, second);
      }
    }
    if token.Signed? {
      FindUserFinds(s.users, token.claims.sub);
    }
  }

  lemma PasswordEditSets(users: seq<User>, id: string, hash: string)
    ensures OnlySetsHash(users, WithEdit(users, id, PasswordEdit(hash)), id, hash)
  {
  }

  /** A redeemed link sets the password asked for on its account, and spends every link of that account. */
  lemma RedeemingSetsThePassword(s: Store, token: Token, hash: string, now: Time)
    requires OneAccountPerId(s.users)
    ensures var (after, result) := AfterReset(s, token, hash, now);
            match result
            case Failure(reason) => after == s && CheckToken(s, token, now) == Failure(reason)
            case Success(user) =>
              && CheckToken(s, token, now).Success? && token.Signed?
              && user.hash == hash && IsAccount(after.users, token.claims.sub, user)
              && OnlySetsHash(s.users, after.users, token.claims.sub, hash)
              && OnlySpends(s.resets, after.resets, token.claims.sub, now)
  {
    LinkIsRefusedForTheFirstReason(s, token, now);
    if CheckToken(s, token, now).Success? {
      var user := CheckToken(s, token, now).value;
      PasswordEditSets(s.users, user.id, hash);
      var i :| 0 <= i < |s.users| && s.users[i] == user;
      assert AfterReset(s, token, hash, now).0.users[i] == user.(hash := hash);
    }
  }

  // --- Signed-in requests --------------------------------------------------------------

  /** The caller is signed in to an account that is still there and active. */
  ghost predicate IsSignedIn(users: seq<User>, caller: string) {
    exists u :: IsAccount(users, caller, u) && u.isActive
  }

  ghost predicate IsAdmin(users: seq<User>, caller: string) {
    exists u :: IsAccount(users, caller, u) && u.role.Admin?
  }

  lemma CallerIs(s: Store, caller: string)
    requires OneAccountPerId(s.users)
    ensures Caller(s, caller).Some? <==> IsSignedIn(s.users, caller)
    ensures Caller(s, caller).Some? ==>
              && Caller(s, caller).value.id == caller
              && (Caller(s, caller).value.role.Admin? <==> IsAdmin(s.users, caller))
  {
    FindUserFinds(s.users, caller);
  }

  /** A signed-in caller who proves the current password sets a new one and spends the account's links. */
  lemma ChangingSetsThePassword(s: Store, caller: string, proven: bool, hash: string, now: Time)
    requires OneAccountPerId(s.users)
    ensures var (after, error) := AfterChange(s, caller, proven, hash, now);
            if !IsSignedIn(s.users, caller) then error == Some(NotSignedIn) && after == s
            else if !proven then error == Some(PasswordRequired) && after == s
            else
              && error == None
              && OnlySetsHash(s.users, after.users, caller, hash)
              && OnlySpends(s.resets, after.resets, caller, now)
  {
    CallerIs(s, caller);
    PasswordEditSets(s.users, caller, hash);
  }

  /** Another account has the address the edit asks for. */
  ghost predicate AddressIsTaken(users: seq<User>, target: string, edit: Edit) {
    edit.email.Some? && exists u :: u in users && u.email == edit.email.value && u.id != target
  }

  /**
   Only the account itself or an administrator may edit it; only an administrator may
   set a role or an activation; changing one's own address or password takes the
   current one; and the address must be free.
   */
  lemma EditsAreRefusedInOrder(s: Store, caller: string, target: string, edit: Edit)
    requires OneAccountPerId(s.users) && OneAccountPerAddress(s.users)
    ensures var checked := CheckEdit(s, caller, target, edit);
            if !IsSignedIn(s.users, caller) then checked == Failure(NotSignedIn)
            else if caller != target && !IsAdmin(s.users, caller) then checked == Failure(NotAllowed)
            else if !HasAccount(s.users, target) then checked == Failure(NoSuchUser)
            else if !IsAdmin(s.users, caller) && (edit.role != None || edit.isActive != None)
            then checked == Failure(NotAllowed)
            else if caller == target && (edit.email != None || edit.hash != None) && !edit.proven
            then checked == Failure(PasswordRequired)
            else if AddressIsTaken(s.users, target, edit) then checked == Failure(EmailTaken)
            else checked.Success? && OnlyEdits(s.users, checked.value, target, edit)
  {
    CallerIs(s, caller);
    FindUserFinds(s.users, target);
    if edit.email.Some? {
      FindByEmailFinds(s.users, edit.email.value);
    }
  }

  /** A new password, a new address or a deactivation. */
  ghost predicate EndsLinks(users: seq<User>, target: string, edit: Edit) {
    || edit.hash != None
    || exists u :: IsAccount(users, target, u)
                   && (|| (edit.email.Some? && edit.email.value != u.email)
                       || (u.isActive && edit.isActive == Some(false)))
  }

  /** An accepted edit changes its account alone, and spends its links exactly when it ends them. */
  lemma EditingSpendsWhenItMust(s: Store, caller: string, target: string, edit: Edit, now: Time)
    requires OneAccountPerId(s.users) && OneAccountPerAddress(s.users)
    ensures var (after, error) := AfterEdit(s, caller, target, edit, now);
            match CheckEdit(s, caller, target, edit)
            case Failure(e) => error == Some(e) && after == s
            case Success(users) =>
              && error == None && OnlyEdits(s.users, after.users, target, edit)
              && if EndsLinks(s.users, target, edit) then OnlySpends(s.resets, after.resets, target, now)
                 else after.resets == s.resets
  {
    EditsAreRefusedInOrder(s, caller, target, edit);
    if CheckEdit(s, caller, target, edit).Success? {
      var users := CheckEdit(s, caller, target, edit).value;
      EditEndsLinksIff(s.users, users, target, edit);
      SpendingSpends(s.resets, target, now);
    }
  }

  lemma SpendingSpends(resets: Registry, id: string, now: Time)
    ensures OnlySpends(resets, Spent(resets, id, now), id, now)
  {
  }

  lemma EditEndsLinksIff(before: seq<User>, after: seq<User>, target: string, edit: Edit)
    requires OneAccountPerId(before) && HasAccount(before, target) && OnlyEdits(before, after, target, edit)
    ensures var u, v := FindUser(before, target), FindUser(after, target);
            u.Some? && v.Some? && (EndsResetLinks(u.value, v.value, edit) <==> EndsLinks(before, target, edit))
  {
    EditKeepsIds(before, after, target, edit);
    FindUserFinds(before, target);
    FindUserFinds(after, target);
    var u :| IsAccount(before, target, u);
    var i :| 0 <= i < |before| && before[i] == u;
    assert IsAccount(after, target, after[i]);
  }

  lemma EditKeepsIds(before: seq<User>, after: seq<User>, id: string, edit: Edit)
    requires OneAccountPerId(before) && OnlyEdits(before, after, id, edit)
    ensures OneAccountPerId(after)
  {
    assert forall i :: 0 <= i < |before| ==> after[i].id == before[i].id;
  }

  /** Deleting takes the account itself or an administrator, and removes that account alone. */
  lemma DeletingRemovesOne(s: Store, caller: string, target: string)
    requires OneAccountPerId(s.users)
    ensures var (after, error) := AfterDelete(s, caller, target);
            && after.resets == s.resets
            && if !IsSignedIn(s.users, caller) then error == Some(NotSignedIn) && after == s
               else if caller != target && !IsAdmin(s.users, caller) then error == Some(NotAllowed) && after == s
               else if !HasAccount(s.users, target) then error == Some(NoSuchUser) && after == s
               else error == None && forall u :: u in after.users <==> u in s.users && u.id != target
  {
    CallerIs(s, caller);
    FindUserFinds(s.users, target);
    FilterHolds(s.users, NotUser(target));
  }

  /** Registering takes a free address and adds an active member. */
  lemma RegisteringAddsAMember(s: Store, id: string, email: string, hash: string)
    ensures var (after, error) := AfterRegister(s, id, email, hash);
            if exists u :: u in s.users && u.email == email then error == Some(EmailTaken) && after == s
            else error == None && after == Store(s.users + [User(id, email, hash, Member, true)], s.resets)
  {
    FindByEmailFinds(s.users, email);
  }

  /** Each request is answered by its own operation. */
  lemma PromotingSetsTheRole(s: Store, id: string, role: Role, at: Time, lifetime: nat)
    requires OneAccountPerId(s.users)
    ensures var (after, answer) := Serve(s, Request(at, Promote(id, role)), lifetime);
            && after.resets == s.resets
            && if HasAccount(s.users, id)
               then
                 && answer == Done(None)
                 && OnlyEdits(s.users, after.users, id, Edit(None, None, Some(role), None, true))
               else answer == Done(Some(NoSuchUser)) && after == s
  {
    FindUserFinds(s.users, id);
  }
}
