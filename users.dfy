/**
 * The user entity: its constructor defaults, its role predicates, profile completeness,
 * the display name and the password-free view handed to clients.
 */
module Users {
  import opened Wrappers
  import opened Text

  datatype Role = Student | Teacher | Admin

  datatype Address = Address(
    province: Option<string>,
    district: Option<string>,
    commune: Option<string>,
    street: Option<string>,
    detail: Option<string>)

  datatype Profile = Profile(
    avatarUrl: Option<string>,
    phone: Option<string>,
    bio: Option<string>,
    address: Option<Address>)

  /** JavaScript truthiness of an optional string: present and not empty. */
  predicate Filled(o: Option<string>)
  {
    o.Some? && o.value != []
  }

  /** A user; instants (last login, creation, update) are opaque timestamps. */
  datatype User = User(
    email: string,
    passwordHash: string,
    role: Role,
    isActive: bool,
    isVerified: bool,
    isBlocked: bool,
    id: Option<string>,
    fullName: Option<string>,
    profile: Option<Profile>,
    lastLoginAt: Option<int>,
    googleId: Option<string>,
    facebookId: Option<string>,
    createdAt: Option<int>,
    updatedAt: Option<int>)
  {
    predicate IsStudent()
    {
      role == Student
    }

    predicate IsTeacher()
    {
      role == Teacher
    }

    predicate IsAdmin()
    {
      role == Admin
    }

    /** A full name, a phone and an avatar, none of them empty. */
    predicate IsProfileComplete()
    {
      Filled(fullName) && profile.Some? && Filled(profile.value.phone) && Filled(profile.value.avatarUrl)
    }

    /** The full name when there is one, otherwise the part of the email before its first '@'. */
    function DisplayName(): (s: string)
      ensures Filled(fullName) ==> s == fullName.value
      ensures !Filled(fullName) ==> StartsWith(email, s) && '@' !in s && (s == email || email[|s|] == '@')
    {
      if Filled(fullName) then fullName.value else BeforeFirst(email, '@')
    }
  }

  /** `findById`: the position of the first stored user with the id. */
  function FindById(users: seq<User>, id: string): (r: Option<nat>)
    ensures r.None? <==> forall i :: 0 <= i < |users| ==> users[i].id != Some(id)
    ensures r.Some? ==> r.value < |users| && users[r.value].id == Some(id)
    ensures r.Some? ==> forall j :: 0 <= j < r.value ==> users[j].id != Some(id)
  {
    if users == [] then None
    else if users[0].id == Some(id) then Some(0)
    else match FindById(users[1..], id)
      case None => None
      case Some(k) => Some(k + 1)
  }

  /** `findOne({ email })`: the position of the first stored user with exactly that email. */
  function FindByEmail(users: seq<User>, email: string): (r: Option<nat>)
    ensures r.None? <==> forall i :: 0 <= i < |users| ==> users[i].email != email
    ensures r.Some? ==> r.value < |users| && users[r.value].email == email
    ensures r.Some? ==> forall j :: 0 <= j < r.value ==> users[j].email != email
  {
    if users == [] then None
    else if users[0].email == email then Some(0)
    else match FindByEmail(users[1..], email)
      case None => None
      case Some(k) => Some(k + 1)
  }

  /** Every stored user document carries its id. */
  predicate Stored(users: seq<User>)
  {
    forall i :: 0 <= i < |users| ==> users[i].id.Some?
  }

  /** `new UserEntity(email, passwordHash)`: every other parameter takes its default. */
  function NewUser(email: string, passwordHash: string): User
  {
    User(email, passwordHash, Student, true, false, false, None, None, None, None, None, None, None, None)
  }

  /** A fresh entity is an active, unverified, unblocked student known by its email's local part. */
  lemma NewUserDefaults(email: string, passwordHash: string)
    ensures var u := NewUser(email, passwordHash);
      u.IsStudent() && !u.IsTeacher() && !u.IsAdmin() &&
      u.isActive && !u.isVerified && !u.isBlocked &&
      !u.IsProfileComplete() && u.DisplayName() == BeforeFirst(email, '@')
  {
  }

  /** Every user has exactly one of the three roles. */
  lemma ExactlyOneRole(u: User)
    ensures u.IsStudent() <==> !u.IsTeacher() && !u.IsAdmin()
    ensures u.IsTeacher() <==> !u.IsStudent() && !u.IsAdmin()
    ensures u.IsAdmin() <==> !u.IsStudent() && !u.IsTeacher()
  {
  }

  /** A complete profile always shows the full name. */
  lemma CompleteProfileShowsFullName(u: User)
    requires u.IsProfileComplete()
    ensures u.DisplayName() == u.fullName.value
  {
  }

  /** `toSafeObject`: every field except the password hash. */
  datatype SafeUser = SafeUser(
    email: string,
    role: Role,
    isActive: bool,
    isVerified: bool,
    isBlocked: bool,
    id: Option<string>,
    fullName: Option<string>,
    profile: Option<Profile>,
    lastLoginAt: Option<int>,
    googleId: Option<string>,
    facebookId: Option<string>,
    createdAt: Option<int>,
    updatedAt: Option<int>)

  function ToSafe(u: User): SafeUser
  {
    SafeUser(u.email, u.role, u.isActive, u.isVerified, u.isBlocked, u.id, u.fullName, u.profile,
             u.lastLoginAt, u.googleId, u.facebookId, u.createdAt, u.updatedAt)
  }

  /** The user a safe view and a password hash describe. */
  function WithPassword(s: SafeUser, passwordHash: string): User
  {
    User(s.email, passwordHash, s.role, s.isActive, s.isVerified, s.isBlocked, s.id, s.fullName, s.profile,
         s.lastLoginAt, s.googleId, s.facebookId, s.createdAt, s.updatedAt)
  }

  /** The safe view loses nothing but the hash: adding the hash back gives the user. */
  lemma SafeRoundTrip(u: User)
    ensures WithPassword(ToSafe(u), u.passwordHash) == u
    ensures ToSafe(WithPassword(ToSafe(u), "")) == ToSafe(u)
  {
  }

  /** Two users have the same safe view exactly when they differ at most in their hashes. */
  lemma SafeViewIgnoresOnlyHash(u: User, v: User)
    ensures ToSafe(u) == ToSafe(v) <==> u.(passwordHash := v.passwordHash) == v
  {
  }
}
