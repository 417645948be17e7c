/**
 * users/models.py: vendor companies, accounts, delivery addresses and password-reset tokens.
 * Times are whole seconds; a password is kept as the value passed to set_password (hashing is opaque).
 */
module UserModels {
  import opened Wrappers

  type UserId = nat
  type CompanyId = nat
  type AddressId = nat

  /** CustomUser.role; stored as 'user', 'vendor' and 'admin'. */
  datatype Role = Customer | Vendor | Admin

  datatype VendorCompany = VendorCompany(name: string, accessCode: string, isActive: bool)

  /** A vendor's access code is accepted only when it equals the stored code exactly. */
  function VerifyAccessCode(company: VendorCompany, code: string): (ok: bool)
    ensures ok ==> code == company.accessCode
    ensures code == company.accessCode ==> ok
  {
    company.accessCode == code
  }

  datatype User = User(
    id: UserId,
    email: string,
    password: string,
    role: Role,
    company: Option<CompanyId>,
    isActive: bool,
    isStaff: bool,
    isSuperuser: bool)

  /** The keyword arguments create_user and create_superuser pass on to the model. */
  datatype ExtraFields = ExtraFields(role: Option<Role>, isStaff: Option<bool>, isSuperuser: Option<bool>)

  datatype AccountProblem = EmailRequired | NotStaff | NotSuperuser

  /**
   * CustomUserManager.create_user: an empty email is refused; the email goes through the manager's
   * normalize_email (a parameter: it is framework code); the role defaults to a customer and every
   * other flag to the model default. `id` is the primary key the insert will receive.
   */
  function CreateUser(id: UserId, email: string, password: string, extra: ExtraFields,
                      normalize: string -> string): (r: Result<User, AccountProblem>)
    ensures r.Failure? <==> email == ""
    ensures r.Failure? ==> r.error == EmailRequired
    ensures r.Success? ==> r.value.email == normalize(email) && r.value.password == password
    ensures r.Success? ==> r.value.role == (if extra.role.None? then Customer else extra.role.value)
    ensures r.Success? && extra.role.None? ==> r.value.role == Customer
  {
    if email == "" then Failure(EmailRequired)
    else
      var role := if extra.role.Some? then extra.role.value else Customer;
      var staff := if extra.isStaff.Some? then extra.isStaff.value else false;
      var superuser := if extra.isSuperuser.Some? then extra.isSuperuser.value else false;
      Success(User(id, normalize(email), password, role, None, true, staff, superuser))
  }

  /**
   * CustomUserManager.create_superuser: role defaults to admin and both flags to true; an explicit
   * false for either flag is refused before create_user runs.
   */
  function CreateSuperuser(id: UserId, email: string, password: string, extra: ExtraFields,
                           normalize: string -> string): (r: Result<User, AccountProblem>)
    ensures r.Success? ==> r.value.isStaff && r.value.isSuperuser
    ensures r.Success? && extra.role.None? ==> r.value.role == Admin
    ensures extra.isStaff == Some(false) ==> r == Failure(NotStaff)
    ensures extra.isStaff != Some(false) && extra.isSuperuser == Some(false) ==> r == Failure(NotSuperuser)
    ensures extra.isStaff != Some(false) && extra.isSuperuser != Some(false) ==> (r.Success? <==> email != "")
  {
    var role := if extra.role.Some? then extra.role else Some(Admin);
    var staff := if extra.isStaff.Some? then extra.isStaff.value else true;
    var superuser := if extra.isSuperuser.Some? then extra.isSuperuser.value else true;
    if !staff then Failure(NotStaff)
    else if !superuser then Failure(NotSuperuser)
    else CreateUser(id, email, password, ExtraFields(role, Some(true), Some(true)), normalize)
  }

  datatype Address = Address(
    id: AddressId,
    user: UserId,
    recipientName: string,
    street: string,
    postalCode: string,
    city: string,
    country: string,
    phone: string,
    isDefault: bool)

  /** At most one address of each user is the default. */
  ghost predicate OneDefaultPerUser(addrs: seq<Address>) {
    forall i, j :: 0 <= i < |addrs| && 0 <= j < |addrs| && i != j && addrs[i].isDefault && addrs[j].isDefault
      ==> addrs[i].user != addrs[j].user
  }

  /**
   * The bulk update in Address.save for a default address: every default address of `user` except
   * the one being saved (`keep`; None for an address not yet inserted) loses its flag.
   */
  function ClearOtherDefaults(addrs: seq<Address>, user: UserId, keep: Option<AddressId>): (r: seq<Address>)
    ensures |r| == |addrs|
    ensures forall i :: 0 <= i < |r| ==> r[i] == addrs[i].(isDefault := r[i].isDefault)
    ensures forall i :: 0 <= i < |r| && (addrs[i].user != user || keep == Some(addrs[i].id)) ==> r[i] == addrs[i]
    ensures forall i :: 0 <= i < |r| && addrs[i].user == user && keep != Some(addrs[i].id) ==> !r[i].isDefault
  {
    seq(|addrs|, i requires 0 <= i < |addrs| =>
      if addrs[i].user == user && addrs[i].isDefault && keep != Some(addrs[i].id)
      then addrs[i].(isDefault := false) else addrs[i])
  }

  /** timedelta(hours=1), in seconds. */
  const TokenLifetime: int := 3600

  datatype ResetToken = ResetToken(
    key: string,
    user: UserId,
    expiresAt: Option<int>,
    isUsed: bool,
    usedAt: Option<int>)

  /** PasswordResetToken.save: an unset expiry becomes one hour from now; a set one is kept. */
  function SaveToken(t: ResetToken, now: int): (r: ResetToken)
    ensures r.expiresAt.Some?
    ensures t.expiresAt.None? ==> r == t.(expiresAt := Some(now + TokenLifetime))
    ensures t.expiresAt.Some? ==> r == t
  {
    if t.expiresAt.None? then t.(expiresAt := Some(now + TokenLifetime)) else t
  }

  /** PasswordResetToken.is_valid, for a saved token (comparing a time with an unset expiry raises). */
  predicate IsValid(t: ResetToken, now: int)
    requires t.expiresAt.Some?
  {
    !t.isUsed && now < t.expiresAt.value
  }

  /** A freshly issued token is valid from its creation for exactly one hour. */
  lemma IssuedTokenLifetime(t: ResetToken, now: int, time: int)
    requires t.expiresAt.None? && !t.isUsed
    requires now <= time
    ensures IsValid(SaveToken(t, now), time) <==> time < now + TokenLifetime
  {
  }

  /** PasswordResetToken.mark_as_used: the flag and the time are set, and the token is then never valid. */
  function MarkAsUsed(t: ResetToken, now: int): (r: ResetToken)
    requires t.expiresAt.Some?
    ensures r.expiresAt.Some?
    ensures r == t.(isUsed := true, usedAt := Some(now))
    ensures forall time :: !IsValid(r, time)
  {
    SaveToken(t.(isUsed := true, usedAt := Some(now)), now)
  }
}
