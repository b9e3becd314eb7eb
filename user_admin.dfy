/**
 * The user-administration use cases over the user store: block and role updates (idempotent),
 * the profile update with its phone and length checks, and account creation by an administrator.
 */
module UserAdmin {
  import opened Wrappers
  import opened Text
  import opened Users

  /** The errors the use cases throw. */
  datatype UserError =
    | UserIdRequired
    | UserNotFound
    | PhoneInUse
    | InvalidPhone
    | FullNameEmpty
    | FullNameTooLong
    | BioTooLong

  /** The errors of account creation, each with the HTTP status it carries. */
  datatype CreateError = EmailRequired | PasswordTooShort | EmailTaken | PhoneTaken {
    function Status(): int
    {
      match this
      case EmailRequired => 400
      case PasswordTooShort => 400
      case EmailTaken => 409
      case PhoneTaken => 409
    }
  }

  /** What a use case returns together with the store it leaves behind. */
  datatype Outcome<E> = Outcome(result: Result<User, E>, users: seq<User>)

  /** `emailExists`: a stored user has the lower-cased email. */
  predicate EmailExists(users: seq<User>, email: string)
  {
    exists i :: 0 <= i < |users| && users[i].email == ToLower(email)
  }

  /** `phoneExists`: the trimmed phone is not empty and a stored profile has it. */
  predicate PhoneExists(users: seq<User>, phone: string)
  {
    var p := Trim(phone);
    p != [] && exists i :: 0 <= i < |users| && users[i].profile.Some? && users[i].profile.value.phone == Some(p)
  }

  /** Only position `i` may differ, and the length is kept. */
  predicate OnlyChanged(before: seq<User>, after: seq<User>, i: nat)
  {
    |after| == |before| && i < |before| && forall j :: 0 <= j < |before| && j != i ==> after[j] == before[j]
  }

  // ---------------------------------------------------------------- block and role

  /** `UpdateUserBlockStatusUseCase.execute`. */
  function BlockUpdate(users: seq<User>, userId: string, isBlocked: bool): Outcome<UserError>
  {
    if userId == [] then Outcome(Err(UserIdRequired), users)
    else match FindById(users, userId)
      case None => Outcome(Err(UserNotFound), users)
      case Some(i) =>
        if users[i].isBlocked == isBlocked then Outcome(Ok(users[i]), users)
        else
          var u := users[i].(isBlocked := isBlocked);
          Outcome(Ok(u), users[i := u])
  }

  /**
   * An empty id or an unknown user is an error that leaves the store alone; otherwise the stored
   * user comes back with the requested flag, and nothing but that flag of that user changes.
   */
  lemma BlockUpdateFacts(users: seq<User>, userId: string, isBlocked: bool)
    ensures var o := BlockUpdate(users, userId, isBlocked);
      (userId == [] ==> o == Outcome(Err(UserIdRequired), users)) &&
      (userId != [] && FindById(users, userId).None? ==> o == Outcome(Err(UserNotFound), users)) &&
      (o.result.Ok? ==>
        var i := FindById(users, userId).value;
        o.result.value == users[i].(isBlocked := isBlocked) && o.users[i] == o.result.value &&
        OnlyChanged(users, o.users, i))
  {
  }

  /** Asking for the flag the user already has changes nothing; asking twice is asking once. */
  lemma BlockUpdateIdempotent(users: seq<User>, userId: string, isBlocked: bool)
    ensures var o := BlockUpdate(users, userId, isBlocked);
      (o.result.Ok? && users[FindById(users, userId).value].isBlocked == isBlocked ==> o.users == users) &&
      BlockUpdate(o.users, userId, isBlocked) == Outcome(o.result, o.users)
  {
    var o := BlockUpdate(users, userId, isBlocked);
    if o.result.Ok? && o.users != users {
      var i := FindById(users, userId).value;
      FindByIdAfterUpdate(users, i, userId, users[i].(isBlocked := isBlocked));
    }
  }

  /** Replacing a user by one with the same id leaves the lookup where it was. */
  lemma FindByIdAfterUpdate(users: seq<User>, i: nat, id: string, u: User)
    requires FindById(users, id) == Some(i) && u.id == users[i].id
    ensures FindById(users[i := u], id) == Some(i)
  {
    var v := users[i := u];
    assert v[i].id == Some(id);
    var r := FindById(v, id);
    assert r.Some? && r.value <= i;
  }

  /** `UpdateUserRoleUseCase.execute`. */
  function RoleUpdate(users: seq<User>, userId: string, role: Role): Outcome<UserError>
  {
    if userId == [] then Outcome(Err(UserIdRequired), users)
    else match FindById(users, userId)
      case None => Outcome(Err(UserNotFound), users)
      case Some(i) =>
        if users[i].role == role then Outcome(Ok(users[i]), users)
        else
          var u := users[i].(role := role);
          Outcome(Ok(u), users[i := u])
  }

  /** As for blocking: errors leave the store alone, and success changes only the user's role. */
  lemma RoleUpdateFacts(users: seq<User>, userId: string, role: Role)
    ensures var o := RoleUpdate(users, userId, role);
      (userId == [] ==> o == Outcome(Err(UserIdRequired), users)) &&
      (userId != [] && FindById(users, userId).None? ==> o == Outcome(Err(UserNotFound), users)) &&
      (o.result.Ok? ==>
        var i := FindById(users, userId).value;
        o.result.value == users[i].(role := role) && o.users[i] == o.result.value &&
        OnlyChanged(users, o.users, i))
  {
  }

  /** An unchanged role writes nothing; a second identical request is a no-op. */
  lemma RoleUpdateIdempotent(users: seq<User>, userId: string, role: Role)
    ensures var o := RoleUpdate(users, userId, role);
      (o.result.Ok? && users[FindById(users, userId).value].role == role ==> o.users == users) &&
      RoleUpdate(o.users, userId, role) == Outcome(o.result, o.users)
  {
    var o := RoleUpdate(users, userId, role);
    if o.result.Ok? && o.users != users {
      var i := FindById(users, userId).value;
      FindByIdAfterUpdate(users, i, userId, users[i].(role := role));
    }
  }

  // ---------------------------------------------------------------- profile update

  /** Nine digits of which the first is not 0. */
  predicate SubscriberNumber(d: string)
  {
    |d| == 9 && '1' <= d[0] <= '9' && forall i :: 1 <= i < 9 ==> IsDigit(d[i])
  }

  /** The pattern `^(\+84|84|0)[1-9][0-9]{8}$`: a national prefix, then a subscriber number. */
  predicate IsPhone(s: string)
  {
    (StartsWith(s, "+84") && SubscriberNumber(s[3..])) ||
    (StartsWith(s, "84") && SubscriberNumber(s[2..])) ||
    (StartsWith(s, "0") && SubscriberNumber(s[1..]))
  }

  /** Each prefix in front of a subscriber number gives a valid phone. */
  lemma PhoneForms(d: string)
    requires SubscriberNumber(d)
    ensures IsPhone("0" + d) && IsPhone("84" + d) && IsPhone("+84" + d)
  {
    assert ("0" + d)[1..] == d;
    assert ("84" + d)[2..] == d;
    assert ("+84" + d)[3..] == d;
  }

  /** Nothing else is a valid phone: each one is a prefix of the pattern and a subscriber number. */
  lemma PhoneShape(s: string) returns (prefix: string, d: string)
    requires IsPhone(s)
    ensures (prefix == "0" || prefix == "84" || prefix == "+84") && SubscriberNumber(d) && s == prefix + d
  {
    if StartsWith(s, "+84") && SubscriberNumber(s[3..]) {
      prefix, d := "+84", s[3..];
    } else if StartsWith(s, "84") && SubscriberNumber(s[2..]) {
      prefix, d := "84", s[2..];
    } else {
      prefix, d := "0", s[1..];
    }
    assert s == s[..|prefix|] + s[|prefix|..];
  }

  /** A valid phone has 10 to 12 characters. */
  lemma PhoneLength(s: string)
    requires IsPhone(s)
    ensures 10 <= |s| <= 12
  {
  }

  /** Two numbers on either side of the pattern. */
  lemma PhoneExamples()
    ensures IsPhone("0912345678")
    ensures !IsPhone("0012345678")
  {
    var good := "0912345678";
    assert good[..1] == "0";
    assert good[1..][0] == '9' && |good[1..]| == 9;
    assert forall i :: 1 <= i < 9 ==> good[1..][i] == good[i + 1];
    assert SubscriberNumber(good[1..]);
    var bad := "0012345678";
    assert bad[0] == '0' && bad[..2] != "84" && bad[..3] != "+84";
    assert bad[1..][0] == '0';
  }

  /** `input` of the profile update; `Some(None)` is an explicit null. */
  datatype ProfileInput = ProfileInput(
    userId: string,
    fullName: Option<string>,
    phone: Option<string>,
    avatarUrl: Option<Option<string>>,
    bio: Option<Option<string>>)

  /** `profileUpdates`: a present key holds a value, or `undefined` (None) for a supplied null. */
  datatype ProfilePatch = ProfilePatch(
    phone: Option<Option<string>>,
    avatarUrl: Option<Option<string>>,
    bio: Option<Option<string>>)

  /** `updateData`: the trimmed full name when supplied, the profile keys when any was supplied. */
  datatype UserPatch = UserPatch(fullName: Option<string>, profile: Option<ProfilePatch>)

  function StoredPhone(u: User): Option<string>
  {
    if u.profile.Some? then u.profile.value.phone else None
  }

  /** The phone is checked when it is non-empty and differs from the stored one. */
  predicate PhoneChecked(u: User, phone: Option<string>)
  {
    Filled(phone) && phone != StoredPhone(u)
  }

  /** The first failing check of the profile update for a found user, in source order. */
  function ProfileError(users: seq<User>, u: User, input: ProfileInput): Option<UserError>
  {
    if PhoneChecked(u, input.phone) && PhoneExists(users, input.phone.value) then Some(PhoneInUse)
    else if PhoneChecked(u, input.phone) && !IsPhone(input.phone.value) then Some(InvalidPhone)
    else if input.fullName.Some? && Trim(input.fullName.value) == [] then Some(FullNameEmpty)
    else if input.fullName.Some? && Utf16Length(Trim(input.fullName.value)) > 100 then Some(FullNameTooLong)
    else if input.bio.Some? && input.bio.value.Some? && Utf16Length(input.bio.value.value) > 500 then Some(BioTooLong)
    else None
  }

  function PatchOf(input: ProfileInput): UserPatch
  {
    var pp := ProfilePatch(
      if input.phone.Some? then Some(input.phone) else None,
      input.avatarUrl,
      input.bio);
    UserPatch(
      if input.fullName.Some? then Some(Trim(input.fullName.value)) else None,
      if input.phone.Some? || input.avatarUrl.Some? || input.bio.Some? then Some(pp) else None)
  }

  /** The payload holds exactly the supplied fields, and no profile when no profile field was supplied. */
  lemma PatchHoldsOnlySupplied(input: ProfileInput)
    ensures PatchOf(input).fullName.Some? <==> input.fullName.Some?
    ensures input.fullName.Some? ==> PatchOf(input).fullName == Some(Trim(input.fullName.value))
    ensures PatchOf(input).profile.None? <==> input.phone.None? && input.avatarUrl.None? && input.bio.None?
    ensures PatchOf(input).profile.Some? ==>
      (PatchOf(input).profile.value.phone.Some? <==> input.phone.Some?) &&
      (PatchOf(input).profile.value.avatarUrl.Some? <==> input.avatarUrl.Some?) &&
      (PatchOf(input).profile.value.bio.Some? <==> input.bio.Some?)
  {
  }

  /** A profile field is written only when its key holds a value. */
  function Written(key: Option<Option<string>>, current: Option<string>): Option<string>
  {
    if key.Some? && key.value.Some? then key.value else current
  }

  /** The repository's `update`: `$set` of the full name and of each defined profile key. */
  function ApplyPatch(u: User, p: UserPatch): User
  {
    var fullName := if p.fullName.Some? then p.fullName else u.fullName;
    var profile :=
      if p.profile.None? then u.profile
      else
        var pp := p.profile.value;
        var writes := (pp.phone.Some? && pp.phone.value.Some?) || (pp.avatarUrl.Some? && pp.avatarUrl.value.Some?) ||
                      (pp.bio.Some? && pp.bio.value.Some?);
        var cur := u.profile.GetOr(Profile(None, None, None, None));
        if !writes then u.profile
        else Some(Profile(Written(pp.avatarUrl, cur.avatarUrl), Written(pp.phone, cur.phone), Written(pp.bio, cur.bio), cur.address));
    u.(fullName := fullName, profile := profile)
  }

  /** `UpdateUserProfileUseCase.execute`. */
  function ProfileUpdate(users: seq<User>, input: ProfileInput): Outcome<UserError>
  {
    if input.userId == [] then Outcome(Err(UserIdRequired), users)
    else match FindById(users, input.userId)
      case None => Outcome(Err(UserNotFound), users)
      case Some(i) =>
        match ProfileError(users, users[i], input)
        case Some(e) => Outcome(Err(e), users)
        case None =>
          var u := ApplyPatch(users[i], PatchOf(input));
          Outcome(Ok(u), users[i := u])
  }

  /**
   * The checks run in source order and an error writes nothing: a phone already in use is
   * reported even when it is also malformed, and an unchanged or empty phone is not checked.
   * On success only that user changes, its full name is the supplied one trimmed (1 to 100
   * UTF-16 code units), and a supplied valid new phone is stored.
   */
  lemma ProfileUpdateFacts(users: seq<User>, input: ProfileInput)
    ensures var o := ProfileUpdate(users, input);
      (input.userId == [] ==> o.result == Err(UserIdRequired)) &&
      (o.result.Err? ==> o.users == users) &&
      ((input.userId != [] && FindById(users, input.userId).Some? &&
        PhoneChecked(users[FindById(users, input.userId).value], input.phone) &&
        PhoneExists(users, input.phone.value)) ==> o.result == Err(PhoneInUse))
    ensures var o := ProfileUpdate(users, input);
      o.result.Ok? ==>
        var i := FindById(users, input.userId).value;
        OnlyChanged(users, o.users, i) && o.users[i] == o.result.value &&
        o.result.value.id == users[i].id && o.result.value.email == users[i].email &&
        o.result.value.role == users[i].role && o.result.value.isBlocked == users[i].isBlocked &&
        (input.fullName.Some? ==>
          o.result.value.fullName == Some(Trim(input.fullName.value)) && 1 <= Utf16Length(Trim(input.fullName.value)) <= 100) &&
        (input.fullName.None? ==> o.result.value.fullName == users[i].fullName) &&
        (PhoneChecked(users[i], input.phone) ==> IsPhone(input.phone.value) && StoredPhone(o.result.value) == input.phone)
  {
  }

  // ---------------------------------------------------------------- creation by an administrator

  datatype CreateInput = CreateInput(
    email: Option<string>,
    password: Option<string>,
    fullName: Option<string>,
    role: Role,
    phone: Option<string>,
    bio: Option<string>)

  /** `input.email?.trim().toLowerCase()`, empty when absent. */
  function NormalEmail(email: Option<string>): string
  {
    if email.Some? then ToLower(Trim(email.value)) else []
  }

  /** The first failing check of account creation, in source order. */
  function CreateFailure(users: seq<User>, input: CreateInput): Option<CreateError>
  {
    var email := NormalEmail(input.email);
    if email == [] then Some(EmailRequired)
    else if input.password.None? || Utf16Length(input.password.value) < 6 then Some(PasswordTooShort)
    else if EmailExists(users, email) then Some(EmailTaken)
    else if Filled(input.phone) && PhoneExists(users, input.phone.value) then Some(PhoneTaken)
    else None
  }

  /** `profile`: the supplied non-empty phone and bio, or nothing when neither is given. */
  function NewProfile(phone: Option<string>, bio: Option<string>): Option<Profile>
  {
    if Filled(phone) || Filled(bio) then
      Some(Profile(None, if Filled(phone) then phone else None, if Filled(bio) then bio else None, None))
    else None
  }

  /** The entity built for the store, with the id the store assigns. */
  function CreatedUser(input: CreateInput, passwordHash: string, newId: string): User
  {
    User(NormalEmail(input.email), passwordHash, input.role, true, false, false, Some(newId),
         if input.fullName.Some? then Some(Trim(input.fullName.value)) else None,
         NewProfile(input.phone, input.bio), None, None, None, None, None)
  }

  /**
   * `CreateUserByAdminUseCase.execute`, with `passwordHash` the hash of the password and
   * `newId` the id the store gives the new document.
   */
  function CreateByAdmin(users: seq<User>, input: CreateInput, passwordHash: string, newId: string): Outcome<CreateError>
  {
    match CreateFailure(users, input)
    case Some(e) => Outcome(Err(e), users)
    case None =>
      var u := CreatedUser(input, passwordHash, newId);
      Outcome(Ok(u), users + [u])
  }

  /**
   * Errors write nothing and carry 400 for a missing email or short password, 409 for a taken
   * email or phone; a taken email is reported before a taken phone. A created user is active,
   * unverified and unblocked, stored under its normalised email with its full name trimmed, and
   * has a profile exactly when a non-empty phone or bio was supplied.
   */
  lemma CreateUserFacts(users: seq<User>, input: CreateInput, passwordHash: string, newId: string)
    ensures var o := CreateByAdmin(users, input, passwordHash, newId);
      (o.result.Err? ==> o.users == users) &&
      (o.result.Err? && (o.result.error == EmailRequired || o.result.error == PasswordTooShort) ==> o.result.error.Status() == 400) &&
      (o.result.Err? && (o.result.error == EmailTaken || o.result.error == PhoneTaken) ==> o.result.error.Status() == 409) &&
      ((NormalEmail(input.email) != [] && input.password.Some? && Utf16Length(input.password.value) >= 6 &&
        EmailExists(users, NormalEmail(input.email))) ==> o.result == Err(EmailTaken))
    ensures var o := CreateByAdmin(users, input, passwordHash, newId);
      o.result.Ok? ==>
        var u := o.result.value;
        o.users == users + [u] && u.isActive && !u.isVerified && !u.isBlocked && u.role == input.role &&
        u.email == NormalEmail(input.email) && u.email != [] && u.id == Some(newId) &&
        (u.fullName.Some? <==> input.fullName.Some?) &&
        (input.fullName.Some? ==> u.fullName.value == Trim(input.fullName.value)) &&
        (u.profile.None? <==> !Filled(input.phone) && !Filled(input.bio)) &&
        input.password.Some? && Utf16Length(input.password.value) >= 6 && !EmailExists(users, u.email)
  {
    var o := CreateByAdmin(users, input, passwordHash, newId);
    if o.result.Ok? {
      var e := NormalEmail(input.email);
      assert o.result.value.email == e;
      LowerIdempotent(Trim(input.email.value));
    }
  }

  /** A password of three emoji is six UTF-16 code units long, so it meets the six-character minimum. */
  lemma EmojiPasswordLongEnough(users: seq<User>, input: CreateInput)
    requires NormalEmail(input.email) != [] && input.password == Some("\U{1F600}\U{1F600}\U{1F600}")
    ensures CreateFailure(users, input) != Some(PasswordTooShort)
  {
    Utf16LengthAstral(input.password.value);
  }

  /** A bio of more than 250 characters outside the basic plane exceeds 500 code units and is refused. */
  lemma AstralBioTooLong(users: seq<User>, u: User, input: ProfileInput)
    requires input.phone.None? && input.fullName.None? && input.bio.Some? && input.bio.value.Some?
    requires |input.bio.value.value| > 250
    requires forall i :: 0 <= i < |input.bio.value.value| ==> input.bio.value.value[i] as int >= 0x1_0000
    ensures ProfileError(users, u, input) == Some(BioTooLong)
  {
    Utf16LengthAstral(input.bio.value.value);
  }

  /** Lower-casing twice is lower-casing once. */
  lemma LowerIdempotent(s: string)
    ensures ToLower(ToLower(s)) == ToLower(s)
  {
    assert forall i :: 0 <= i < |s| ==> LowerChar(LowerChar(s[i])) == LowerChar(s[i]);
  }

  // ---------------------------------------------------------------- the store

  /** The user collection the use cases read and write. */
  class UserStore {
    var users: seq<User>

    constructor(users: seq<User>)
      ensures this.users == users
    {
      this.users := users;
    }

    method UpdateUserBlockStatus(userId: string, isBlocked: bool) returns (r: Result<User, UserError>)
      modifies this
      ensures Outcome(r, users) == BlockUpdate(old(users), userId, isBlocked)
    {
      if userId == [] {
        return Err(UserIdRequired);
      }
      var found := FindById(users, userId);
      if found.None? {
        return Err(UserNotFound);
      }
      var i := found.value;
      if users[i].isBlocked == isBlocked {
        return Ok(users[i]);
      }
      var updated := users[i].(isBlocked := isBlocked);
      users := users[i := updated];
      r := Ok(updated);
    }

    method UpdateUserRole(userId: string, role: Role) returns (r: Result<User, UserError>)
      modifies this
      ensures Outcome(r, users) == RoleUpdate(old(users), userId, role)
    {
      if userId == [] {
        return Err(UserIdRequired);
      }
      var found := FindById(users, userId);
      if found.None? {
        return Err(UserNotFound);
      }
      var i := found.value;
      if users[i].role == role {
        return Ok(users[i]);
      }
      var updated := users[i].(role := role);
      users := users[i := updated];
      r := Ok(updated);
    }

    method UpdateUserProfile(input: ProfileInput) returns (r: Result<User, UserError>)
      modifies this
      ensures Outcome(r, users) == ProfileUpdate(old(users), input)
    {
      if input.userId == [] {
        return Err(UserIdRequired);
      }
      var found := FindById(users, input.userId);
      if found.None? {
        return Err(UserNotFound);
      }
      var i := found.value;
      var user := users[i];
      if input.phone.Some? && input.phone.value != [] && input.phone != StoredPhone(user) {
        if PhoneExists(users, input.phone.value) {
          assert ProfileError(users, user, input) == Some(PhoneInUse);
          return Err(PhoneInUse);
        }
        if !IsPhone(input.phone.value) {
          assert ProfileError(users, user, input) == Some(InvalidPhone);
          return Err(InvalidPhone);
        }
      }
      if input.fullName.Some? {
        var trimmed := Trim(input.fullName.value);
        if trimmed == [] {
          assert ProfileError(users, user, input) == Some(FullNameEmpty);
          return Err(FullNameEmpty);
        }
        if Utf16Length(trimmed) > 100 {
          assert ProfileError(users, user, input) == Some(FullNameTooLong);
          return Err(FullNameTooLong);
        }
      }
      if input.bio.Some? && input.bio.value.Some? && Utf16Length(input.bio.value.value) > 500 {
        assert ProfileError(users, user, input) == Some(BioTooLong);
        return Err(BioTooLong);
      }
      assert ProfileError(users, user, input).None?;
      var updated := ApplyPatch(user, PatchOf(input));
      users := users[i := updated];
      r := Ok(updated);
    }

    method CreateUserByAdmin(input: CreateInput, passwordHash: string, newId: string) returns (r: Result<User, CreateError>)
      modifies this
      ensures Outcome(r, users) == CreateByAdmin(old(users), input, passwordHash, newId)
    {
      var email := NormalEmail(input.email);
      if email == [] {
        return Err(EmailRequired);
      }
      if input.password.None? || Utf16Length(input.password.value) < 6 {
        return Err(PasswordTooShort);
      }
      if EmailExists(users, email) {
        return Err(EmailTaken);
      }
      if input.phone.Some? && input.phone.value != [] && PhoneExists(users, input.phone.value) {
        return Err(PhoneTaken);
      }
      var created := CreatedUser(input, passwordHash, newId);
      users := users + [created];
      r := Ok(created);
    }
  }
}
