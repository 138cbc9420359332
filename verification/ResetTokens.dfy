/**
 Password reset tokens (services/auth/service.py) and every route that changes an
 account (services/users/router.py and services/users/service.py), one request at
 a time.

 Signatures, password hashing and random ids are foreign: a presented token either
 carries claims this service signed or it does not, and fresh ids are arguments.
 Token claims follow sections 4.1.2, 4.1.4 and 4.1.7 of RFC 7519.
 */
module ResetTokens {
  import opened Common
  import opened Sequences
  import opened Weeks

  const MICROS_PER_SECOND: int := 1_000_000

  datatype Role = Admin | Manager | Member

  datatype User = User(id: string, email: string, hash: string, role: Role, isActive: bool)

  datatype Entry = Entry(userId: string, expiresAt: Time, usedAt: Option<Time>)

  type Registry = map<string, Entry>

  datatype Store = Store(users: seq<User>, resets: Registry)

  datatype Claims = Claims(jti: string, sub: string, exp: Time)

  /** What decoding a presented token gives: nothing, or the claims of a reset token signed here. */
  datatype Token = Unverified | Signed(claims: Claims)

  datatype Refusal =
    | NotValid | MissingIds | NotRecognised | AlreadyUsed | WrongAccount | HasExpired | NoAccount | Deactivated

  /** The fields of an account edit; `proven` says whether the current password was given and matched. */
  datatype Edit = Edit(
    email: Option<string>, hash: Option<string>, role: Option<Role>, isActive: Option<bool>, proven: bool)

  datatype EditError = NotSignedIn | NotAllowed | NoSuchUser | PasswordRequired | EmailTaken

  // --- Users ---------------------------------------------------------------------------

  function FindUser(users: seq<User>, id: string): Option<User> {
    if users == [] then None
    else if users[0].id == id then Some(users[0])
    else FindUser(users[1..], id)
  }

  function FindByEmail(users: seq<User>, email: string): Option<User> {
    if users == [] then None
    else if users[0].email == email then Some(users[0])
    else FindByEmail(users[1..], email)
  }

  function Edited(u: User, edit: Edit): User {
    User(u.id,
         if edit.email.Some? then edit.email.value else u.email,
         if edit.hash.Some? then edit.hash.value else u.hash,
         if edit.role.Some? then edit.role.value else u.role,
         if edit.isActive.Some? then edit.isActive.value else u.isActive)
  }

  function EditedIf(id: string, edit: Edit): User -> User {
    (u: User) => if u.id == id then Edited(u, edit) else u
  }

  function WithEdit(users: seq<User>, id: string, edit: Edit): seq<User> {
    MapSeq(users, EditedIf(id, edit))
  }

  function NotUser(id: string): User -> bool { (u: User) => u.id != id }

  function PasswordEdit(hash: string): Edit {
    Edit(None, Some(hash), None, None, true)
  }

  /** `users_service.update_user`. */
  function UpdateStored(users: seq<User>, id: string, edit: Edit): Result<seq<User>, EditError> {
    if FindUser(users, id).None? then Failure(NoSuchUser)
    else if edit.email.Some? && FindByEmail(users, edit.email.value).Some?
            && FindByEmail(users, edit.email.value).value.id != id then Failure(EmailTaken)
    else Success(WithEdit(users, id, edit))
  }

  // --- The registry --------------------------------------------------------------------

  function FloorSecond(t: Time): int { t / MICROS_PER_SECOND }

  /**
   The purge compares ISO texts, and an expiry (whole seconds, ending in Z) sorts
   after every moment of its own second, so it is removed from the next second on.
   */
  predicate IsPurgeable(e: Entry, now: Time) {
    FloorSecond(e.expiresAt) < FloorSecond(now)
  }

  function Purged(resets: Registry, now: Time): Registry {
    map j | j in resets && !IsPurgeable(resets[j], now) :: resets[j]
  }

  function SpentEntry(e: Entry, userId: string, now: Time): Entry {
    if e.userId == userId && e.usedAt.None? then e.(usedAt := Some(now)) else e
  }

  function Spent(resets: Registry, userId: string, now: Time): Registry {
    map j | j in resets :: SpentEntry(resets[j], userId, now)
  }

  /** Expiries are whole seconds, the same in the token and in the registry. */
  function ExpiryOf(now: Time, lifetime: nat): Time {
    FloorSecond(now) * MICROS_PER_SECOND + lifetime * MICROS_PER_SECOND
  }

  // --- Requests ------------------------------------------------------------------------

  function AfterForgot(s: Store, email: string, jti: string, lifetime: nat, now: Time): (Store, Option<Claims>) {
    match FindByEmail(s.users, email)
    case None => (s, None)
    case Some(user) =>
      if !user.isActive then (s, None)
      else
        var expiresAt := ExpiryOf(now, lifetime);
        (s.(resets := Purged(s.resets, now)[jti := Entry(user.id, expiresAt, None)]),
         Some(Claims(jti, user.id, expiresAt)))
  }

  /** Every way a token can fail, in the order it is checked. */
  function CheckToken(s: Store, token: Token, now: Time): Result<User, Refusal> {
    if token.Unverified? || token.claims.exp < FloorSecond(now) * MICROS_PER_SECOND then Failure(NotValid)
    else
      var c := token.claims;
      if c.jti == "" || c.sub == "" then Failure(MissingIds)
      else if c.jti !in s.resets then Failure(NotRecognised)
      else
        var entry := s.resets[c.jti];
        if entry.usedAt.Some? then Failure(AlreadyUsed)
        else if entry.userId != c.sub then Failure(WrongAccount)
        else if entry.expiresAt <= now then Failure(HasExpired)
        else
          match FindUser(s.users, c.sub)
          case None => Failure(NoAccount)
          case Some(user) => if user.isActive then Success(user) else Failure(Deactivated)
  }

  function AfterReset(s: Store, token: Token, hash: string, now: Time): (Store, Result<User, Refusal>) {
    match CheckToken(s, token, now)
    case Failure(e) => (s, Failure(e))
    case Success(user) =>
      (Store(WithEdit(s.users, user.id, PasswordEdit(hash)), Spent(s.resets, user.id, now)),
       Success(Edited(user, PasswordEdit(hash))))
  }

  /** The signed-in account, if it still exists and is active. */
  function Caller(s: Store, id: string): Option<User> {
    match FindUser(s.users, id)
    case Some(u) => if u.isActive then Some(u) else None
    case None => None
  }

  function AfterChange(s: Store, caller: string, proven: bool, hash: string, now: Time): (Store, Option<EditError>) {
    if Caller(s, caller).None? then (s, Some(NotSignedIn))
    else if !proven then (s, Some(PasswordRequired))
    else (Store(WithEdit(s.users, caller, PasswordEdit(hash)), Spent(s.resets, caller, now)), None)
  }

  /** Whether an edit must spend the account's outstanding links. */
  predicate EndsResetLinks(before: User, after: User, edit: Edit) {
    edit.hash.Some? || after.email != before.email || (before.isActive && !after.isActive)
  }

  function CheckEdit(s: Store, caller: string, target: string, edit: Edit): Result<seq<User>, EditError> {
    match Caller(s, caller)
    case None => Failure(NotSignedIn)
    case Some(c) =>
      if c.id != target && !c.role.Admin? then Failure(NotAllowed)
      else if FindUser(s.users, target).None? then Failure(NoSuchUser)
      else if !c.role.Admin? && (edit.role.Some? || edit.isActive.Some?) then Failure(NotAllowed)
      else if c.id == target && (edit.email.Some? || edit.hash.Some?) && !edit.proven then Failure(PasswordRequired)
      else UpdateStored(s.users, target, edit)
  }

  function AfterEdit(s: Store, caller: string, target: string, edit: Edit, now: Time): (Store, Option<EditError>) {
    match CheckEdit(s, caller, target, edit)
    case Failure(e) => (s, Some(e))
    case Success(users) =>
      var before, after := FindUser(s.users, target), FindUser(users, target);
      var ends := before.Some? && after.Some? && EndsResetLinks(before.value, after.value, edit);
      (Store(users, if ends then Spent(s.resets, target, now) else s.resets), None)
  }

  function AfterDelete(s: Store, caller: string, target: string): (Store, Option<EditError>) {
    match Caller(s, caller)
    case None => (s, Some(NotSignedIn))
    case Some(c) =>
      if c.id != target && !c.role.Admin? then (s, Some(NotAllowed))
      else if FindUser(s.users, target).None? then (s, Some(NoSuchUser))
      else (s.(users := Filter(s.users, NotUser(target))), None)
  }

  function AfterRegister(s: Store, id: string, email: string, hash: string): (Store, Option<EditError>) {
    if FindByEmail(s.users, email).Some? then (s, Some(EmailTaken))
    else (s.(users := s.users + [User(id, email, hash, Member, true)]), None)
  }

  datatype Op =
    | Forgot(email: string, jti: string)
    | Reset(token: Token, hash: string)
    | Change(caller: string, proven: bool, hash: string)
    | EditUser(caller: string, target: string, edit: Edit)
    | Delete(caller: string, target: string)
    | Register(id: string, email: string, hash: string)
    | Promote(id: string, role: Role)
    | Purge

  datatype Request = Request(at: Time, op: Op)

  datatype Answer =
    | Issued(claims: Option<Claims>) | Redeemed(result: Result<User, Refusal>) | Done(error: Option<EditError>) | Quiet

  /** One request: the store it leaves and what it answers. `Promote` is the administrator's script. */
  function Serve(s: Store, request: Request, lifetime: nat): (Store, Answer) {
    var now := request.at;
    match request.op
    case Forgot(email, jti) =>
      var (after, claims) := AfterForgot(s, email, jti, lifetime, now); (after, Issued(claims))
    case Reset(token, hash) =>
      var (after, result) := AfterReset(s, token, hash, now); (after, Redeemed(result))
    case Change(caller, proven, hash) =>
      var (after, error) := AfterChange(s, caller, proven, hash, now); (after, Done(error))
    case EditUser(caller, target, edit) =>
      var (after, error) := AfterEdit(s, caller, target, edit, now); (after, Done(error))
    case Delete(caller, target) =>
      var (after, error) := AfterDelete(s, caller, target); (after, Done(error))
    case Register(id, email, hash) =>
      var (after, error) := AfterRegister(s, id, email, hash); (after, Done(error))
    case Promote(id, role) =>
      (match UpdateStored(s.users, id, Edit(None, None, Some(role), None, true))
       case Success(users) => (s.(users := users), Done(None))
       case Failure(e) => (s, Done(Some(e))))
    case Purge => (s.(resets := Purged(s.resets, now)), Quiet)
  }

  // --- The service object --------------------------------------------------------------

  class AuthService {
    const lifetime: nat
    var users: seq<User>
    var resets: Registry

    constructor (lifetime: nat)
      ensures View() == Store([], map[]) && this.lifetime == lifetime
    {
      this.lifetime := lifetime;
      users, resets := [], map[];
    }

    function View(): Store
      reads this
    {
      Store(users, resets)
    }

    method PurgeExpired(now: Time) returns (removed: int)
      modifies this`resets
      ensures resets == Purged(old(resets), now)
      ensures removed == |old(resets)| - |resets|
    {
      var before := |resets|;
      resets := Purged(resets, now);
      return before - |resets|;
    }

    /** Spends every unused token of one user, and only those. */
    method InvalidateOutstanding(userId: string, now: Time)
      modifies this`resets
      ensures resets == Spent(old(resets), userId, now)
      ensures forall j :: j in resets && resets[j].userId == userId ==> resets[j].usedAt.Some?
      ensures forall j ::
                (j in old(resets) && old(resets)[j].userId != userId ==> j in resets && resets[j] == old(resets)[j])
    {
      resets := Spent(resets, userId, now);
    }

    method RequestPasswordReset(email: string, jti: string, now: Time) returns (issued: Option<Claims>)
      modifies this
      ensures (View(), issued) == AfterForgot(old(View()), email, jti, lifetime, now)
    {
      var user := FindByEmail(users, email);
      if user.None? || !user.value.isActive {
        return None;
      }
      var _ := PurgeExpired(now);
      var expiresAt := ExpiryOf(now, lifetime);
      resets := resets[jti := Entry(user.value.id, expiresAt, None)];
      return Some(Claims(jti, user.value.id, expiresAt));
    }

    method ResetPassword(token: Token, hash: string, now: Time) returns (result: Result<User, Refusal>)
      modifies this
      ensures (View(), result) == AfterReset(old(View()), token, hash, now)
    {
      var checked := CheckToken(View(), token, now);
      if checked.Failure? {
        return Failure(checked.error);
      }
      var user := checked.value;
      users := WithEdit(users, user.id, PasswordEdit(hash));
      InvalidateOutstanding(user.id, now);
      return Success(Edited(user, PasswordEdit(hash)));
    }

    method ChangePassword(caller: string, proven: bool, hash: string, now: Time) returns (error: Option<EditError>)
      modifies this
      ensures (View(), error) == AfterChange(old(View()), caller, proven, hash, now)
    {
      if Caller(View(), caller).None? {
        return Some(NotSignedIn);
      }
      if !proven {
        return Some(PasswordRequired);
      }
      users := WithEdit(users, caller, PasswordEdit(hash));
      InvalidateOutstanding(caller, now);
      return None;
    }

    method UpdateUser(caller: string, target: string, edit: Edit, now: Time) returns (error: Option<EditError>)
      modifies this
      ensures (View(), error) == AfterEdit(old(View()), caller, target, edit, now)
    {
      var checked := CheckEdit(View(), caller, target, edit);
      if checked.Failure? {
        return Some(checked.error);
      }
      var before := FindUser(users, target);
      users := checked.value;
      var after := FindUser(users, target);
      if before.Some? && after.Some? && EndsResetLinks(before.value, after.value, edit) {
        InvalidateOutstanding(target, now);
      }
      return None;
    }

    method DeleteUser(caller: string, target: string) returns (error: Option<EditError>)
      modifies this`users
      ensures (View(), error) == AfterDelete(old(View()), caller, target)
    {
      var c := Caller(View(), caller);
      if c.None? {
        return Some(NotSignedIn);
      }
      if c.value.id != target && !c.value.role.Admin? {
        return Some(NotAllowed);
      }
      if FindUser(users, target).None? {
        return Some(NoSuchUser);
      }
      users := Filter(users, NotUser(target));
      return None;
    }
  }
}
