/**
 * The user-administration handlers of the multi-user service
 * (src/handlers/multiusers/handlers.go). Each handler is a function from its request
 * and the results its dependencies would give (user store, password hashing, token
 * codec, file system) to the status it answers and the ordered list of dependency
 * calls it makes before answering.
 */
module MultiUsers {
  import opened Wrappers

  /** The predefined roles. */
  const AdminRole: string := "admin"
  const UserRole: string := "user"
  const VisitorRole: string := "visitor"

  /** Claim keys of the session token. */
  const UserIdKey: string := "uid"
  const UserNameKey: string := "user"
  const RoleKey: string := "role"
  const ExpireKey: string := "expire"

  /** The configuration values the handlers read. */
  datatype Config = Config(minUserNameLen: int, minPwdLen: int, cookieTTL: int)

  /** Why a validation or the session check failed. */
  datatype Error = NameTooShort | PasswordTooShort | PredefinedRole | NoSessionCookie | BadToken | InvalidConfig

  predicate IsPredefinedRole(role: string)
  {
    role == AdminRole || role == UserRole || role == VisitorRole
  }

  /** `isValidUserName`: a name is too short below `Users.MinUserNameLen` characters. */
  function IsValidUserName(cfg: Config, name: string): (r: Outcome<Error>)
    ensures r.Pass? <==> |name| >= cfg.minUserNameLen
    ensures r.Fail? ==> r.error == NameTooShort
  {
    if |name| < cfg.minUserNameLen then Fail(NameTooShort) else Pass
  }

  /** `isValidPwd`: a password is too short below `Users.MinPwdLen` characters. */
  function IsValidPwd(cfg: Config, pwd: string): (r: Outcome<Error>)
    ensures r.Pass? <==> |pwd| >= cfg.minPwdLen
    ensures r.Fail? ==> r.error == PasswordTooShort
  {
    if |pwd| < cfg.minPwdLen then Fail(PasswordTooShort) else Pass
  }

  /** `isValidRole`: the predefined roles are refused, any other role must pass the name rule. */
  function IsValidRole(cfg: Config, role: string): (r: Outcome<Error>)
    ensures IsPredefinedRole(role) ==> r == Fail(PredefinedRole)
    ensures !IsPredefinedRole(role) ==> r == IsValidUserName(cfg, role)
  {
    if IsPredefinedRole(role) then Fail(PredefinedRole) else IsValidUserName(cfg, role)
  }

  /** No configuration lets a predefined role be added or deleted, however short the length limit. */
  lemma PredefinedRolesAlwaysRefused(cfg: Config)
    ensures IsValidRole(cfg, AdminRole).Fail? && IsValidRole(cfg, UserRole).Fail? && IsValidRole(cfg, VisitorRole).Fail?
    ensures IsValidUserName(cfg, AdminRole).Pass? ==> IsValidRole(cfg, AdminRole) != IsValidUserName(cfg, AdminRole)
  {
  }

  /** A role is accepted exactly when it is not predefined and would be accepted as a user name. */
  lemma RoleAcceptance(cfg: Config, role: string)
    ensures IsValidRole(cfg, role).Pass? <==> !IsPredefinedRole(role) && IsValidUserName(cfg, role).Pass?
  {
  }

  /** Lengthening an accepted name or password keeps it accepted. */
  lemma ValidationIsMonotone(cfg: Config, s: string, more: string)
    ensures IsValidUserName(cfg, s).Pass? ==> IsValidUserName(cfg, s + more).Pass?
    ensures IsValidPwd(cfg, s).Pass? ==> IsValidPwd(cfg, s + more).Pass?
  {
  }

  /** A claim as Go reads it from a `map[string]string`: the empty string when absent. */
  function Claim(claims: map<string, string>, key: string): (value: string)
    ensures key in claims ==> value == claims[key]
    ensures key !in claims ==> value == ""
  {
    if key in claims then claims[key] else ""
  }

  /**
   * `getUserInfo`: the session cookie (absent, or its value) and what the token codec
   * decodes it to (`None` when decoding fails). Claims without a user id or a user name
   * are refused as an invalid configuration.
   */
  function GetUserInfo(cookie: Option<string>, decoded: Option<map<string, string>>): (r: Result<map<string, string>, Error>)
    ensures r.Success? <==>
      cookie.Some? && decoded.Some? && Claim(decoded.value, UserIdKey) != "" && Claim(decoded.value, UserNameKey) != ""
    ensures r.Success? ==> r.value == decoded.value
    ensures cookie.None? ==> r == Failure(NoSessionCookie)
    ensures cookie.Some? && decoded.None? ==> r == Failure(BadToken)
    ensures cookie.Some? && decoded.Some? && r.Failure? ==> r.error == InvalidConfig
  {
    if cookie.None? then Failure(NoSessionCookie)
    else if decoded.None? then Failure(BadToken)
    else if Claim(decoded.value, UserIdKey) == "" || Claim(decoded.value, UserNameKey) == "" then Failure(InvalidConfig)
    else Success(decoded.value)
  }

  // Decimal numbers, as `strconv.ParseUint(s, 10, 64)` reads them and `fmt.Sprint` writes them.

  const Uint64Limit: nat := 0x1_0000_0000_0000_0000

  predicate IsDigit(c: char)
  {
    '0' <= c <= '9'
  }

  predicate AllDigits(s: string)
  {
    forall i :: 0 <= i < |s| ==> IsDigit(s[i])
  }

  /** The value of a string of decimal digits, most significant first. */
  function DecimalValue(s: string): nat
    requires AllDigits(s)
  {
    if |s| == 0 then 0 else DecimalValue(s[..|s| - 1]) * 10 + (s[|s| - 1] as int - '0' as int)
  }

  /** `strconv.ParseUint(s, 10, 64)`: a non-empty run of digits whose value fits in 64 bits; no sign, leading zeros allowed. */
  function ParseUint(s: string): (r: Option<nat>)
    ensures r.Some? <==> s != "" && AllDigits(s) && DecimalValue(s) < Uint64Limit
    ensures r.Some? ==> AllDigits(s) && r.value == DecimalValue(s)
  {
    if s != "" && AllDigits(s) && DecimalValue(s) < Uint64Limit then Some(DecimalValue(s)) else None
  }

  function DigitChar(d: nat): char
    requires d < 10
  {
    ('0' as int + d) as char
  }

  /** `fmt.Sprint(n)`: decimal digits with no leading zero. */
  function FormatUint(n: nat): (s: string)
    ensures s != "" && AllDigits(s) && DecimalValue(s) == n
    ensures |s| > 1 ==> s[0] != '0'
  {
    if n < 10 then [DigitChar(n)]
    else
      var init := FormatUint(n / 10);
      var s := init + [DigitChar(n % 10)];
      assert s[..|s| - 1] == init;
      s
  }

  /** Parsing what `fmt.Sprint` wrote gives the number back. */
  lemma ParseFormat(n: nat)
    requires n < Uint64Limit
    ensures ParseUint(FormatUint(n)) == Some(n)
  {
  }

  lemma {:induction false} LeadingZeroValue(s: string)
    requires AllDigits(s)
    ensures AllDigits("0" + s) && DecimalValue("0" + s) == DecimalValue(s)
    decreases |s|
  {
    var z := "0" + s;
    if |s| > 0 {
      assert z[..|z| - 1] == "0" + s[..|s| - 1];
      LeadingZeroValue(s[..|s| - 1]);
    }
  }

  /** A leading zero does not change the number `ParseUint` reads, though it changes the string. */
  lemma LeadingZeroIgnored(s: string)
    requires s != "" && AllDigits(s)
    ensures ParseUint("0" + s) == ParseUint(s)
  {
    LeadingZeroValue(s);
  }

  /** A user record as the handlers see it. */
  datatype User = User(id: nat, name: string, role: string)

  /** How a user-store lookup fails. */
  datatype LookupError = UserNotFound | StoreError

  /** The claims a login token carries; `expire` is the Unix time the session ends. */
  datatype Claims = Claims(uid: string, user: string, role: string, expire: int)

  /** The dependency calls a handler makes, in order. */
  datatype Effect =
    | LookUpUserByName(name: string)
    | CompareHash
    | IssueToken(claims: Claims)
    | SetCookie(maxAge: int)
    | ReadSession
    | LookUpUser(id: nat)
    | HashPassword
    | StorePassword(id: nat)
    | CreateFolders(name: string)
    | AddUserRecord(name: string, role: string)
    | DeleteUserRecord(id: nat)
    | RemoveHomeFolder(path: string)
    | AddRoleRecord(role: string)
    | DelRoleRecord(role: string)

  /** The status a handler answers and the calls it made. */
  datatype Response = Response(status: int, effects: seq<Effect>)

  /**
   * `Login`. `request` is the bound user name and password (`None` when the body does not
   * bind); the other inputs are the store lookup, whether bcrypt accepts the password,
   * the current Unix time and whether token encoding succeeds.
   */
  function Login(cfg: Config, request: Option<(string, string)>, lookup: Result<User, LookupError>,
                 passwordMatches: bool, now: int, tokenEncoded: bool): (r: Response)
    ensures request.None? ==> r == Response(400, [])
    ensures request.Some? && lookup.Failure? ==>
      r.status == (if lookup.error == UserNotFound then 403 else 500) && r.effects == [LookUpUserByName(request.value.0)]
    ensures request.Some? && lookup.Success? && !passwordMatches ==> r.status == 403
    ensures r.status == 200 <==> request.Some? && lookup.Success? && passwordMatches && tokenEncoded
    ensures r.status == 200 ==>
      r.effects == [LookUpUserByName(request.value.0), CompareHash,
                    IssueToken(Claims(FormatUint(lookup.value.id), lookup.value.name, lookup.value.role, now + cfg.cookieTTL)),
                    SetCookie(cfg.cookieTTL)]
  {
    if request.None? then Response(400, [])
    else
      var looked := [LookUpUserByName(request.value.0)];
      if lookup.Failure? then
        Response(if lookup.error == UserNotFound then 403 else 500, looked)
      else if !passwordMatches then Response(403, looked + [CompareHash])
      else
        var user := lookup.value;
        var issued := looked + [CompareHash, IssueToken(Claims(FormatUint(user.id), user.name, user.role, now + cfg.cookieTTL))];
        if !tokenEncoded then Response(500, issued)
        else Response(200, issued + [SetCookie(cfg.cookieTTL)])
  }

  /** A token is issued only after the password was checked, and the cookie lives exactly as long as the token. */
  lemma LoginIssuesTokenOnlyAfterPasswordCheck(cfg: Config, request: Option<(string, string)>, lookup: Result<User, LookupError>,
                                               passwordMatches: bool, now: int, tokenEncoded: bool, c: Claims)
    ensures var r := Login(cfg, request, lookup, passwordMatches, now, tokenEncoded);
      IssueToken(c) in r.effects ==>
        passwordMatches && lookup.Success? && c.expire == now + cfg.cookieTTL &&
        (lookup.value.id < Uint64Limit ==> ParseUint(c.uid) == Some(lookup.value.id))
    ensures forall e :: e in Login(cfg, request, lookup, passwordMatches, now, tokenEncoded).effects && e.SetCookie? ==>
      e.maxAge == cfg.cookieTTL
  {
    var r := Login(cfg, request, lookup, passwordMatches, now, tokenEncoded);
    if IssueToken(c) in r.effects && lookup.Success? && lookup.value.id < Uint64Limit {
      ParseFormat(lookup.value.id);
    }
  }

  /**
   * `SetPwd`. `request` is the bound old and new password; `cookie`/`decoded` feed
   * `getUserInfo`; then the lookup of the caller, whether the old password matches,
   * whether hashing succeeds and whether the store accepts the new hash.
   */
  function SetPwd(request: Option<(string, string)>, cookie: Option<string>, decoded: Option<map<string, string>>,
                  lookup: Result<User, LookupError>, oldPasswordMatches: bool, hashed: bool, stored: bool): (r: Response)
    ensures request.None? || request.value.0 == request.value.1 ==> r == Response(400, [])
    ensures request.Some? && request.value.0 != request.value.1 && GetUserInfo(cookie, decoded).Failure? ==>
      r == Response(403, [ReadSession])
    ensures r.status == 200 <==>
      request.Some? && request.value.0 != request.value.1 && GetUserInfo(cookie, decoded).Success? &&
      ParseUint(Claim(decoded.value, UserIdKey)).Some? && lookup.Success? && oldPasswordMatches && hashed && stored
  {
    if request.None? || request.value.0 == request.value.1 then Response(400, [])
    else
      match GetUserInfo(cookie, decoded)
      case Failure(_) => Response(403, [ReadSession])
      case Success(claims) =>
        match ParseUint(Claim(claims, UserIdKey))
        case None => Response(500, [ReadSession])
        case Some(uid) =>
          var looked := [ReadSession, LookUpUser(uid)];
          if lookup.Failure? then Response(402, looked)
          else if !oldPasswordMatches then Response(403, looked + [CompareHash])
          else if !hashed then Response(500, looked + [CompareHash, HashPassword])
          else Response(if stored then 200 else 500, looked + [CompareHash, HashPassword, StorePassword(uid)])
  }

  /** `SetPwd` stores a password only for the caller named by the session, after the old password matched. */
  lemma SetPwdStoresOnlyForCaller(request: Option<(string, string)>, cookie: Option<string>, decoded: Option<map<string, string>>,
                                  lookup: Result<User, LookupError>, oldPasswordMatches: bool, hashed: bool, stored: bool, id: nat)
    requires StorePassword(id) in SetPwd(request, cookie, decoded, lookup, oldPasswordMatches, hashed, stored).effects
    ensures request.Some? && request.value.0 != request.value.1
    ensures decoded.Some? && ParseUint(Claim(decoded.value, UserIdKey)) == Some(id)
    ensures oldPasswordMatches && hashed
  {
  }

  /**
   * `ForceSetPwd`. `request` is the bound target id string and new password; then the
   * target lookup, whether hashing succeeds and whether the store accepts the hash.
   */
  function ForceSetPwd(request: Option<(string, string)>, lookup: Result<User, LookupError>, hashed: bool, stored: bool): (r: Response)
    ensures request.None? ==> r == Response(400, [])
    ensures request.Some? && ParseUint(request.value.0).None? ==> r == Response(500, [])
    ensures request.Some? && ParseUint(request.value.0).Some? && lookup.Success? && lookup.value.role == AdminRole ==>
      r.status == 403 && forall e :: e in r.effects ==> !e.StorePassword?
    ensures r.status == 200 <==>
      request.Some? && ParseUint(request.value.0).Some? && lookup.Success? && lookup.value.role != AdminRole && hashed && stored
  {
    if request.None? then Response(400, [])
    else
      match ParseUint(request.value.0)
      case None => Response(500, [])
      case Some(targetId) =>
        var looked := [LookUpUser(targetId)];
        if lookup.Failure? then Response(500, looked)
        else if lookup.value.role == AdminRole then Response(403, looked)
        else if !hashed then Response(500, looked + [HashPassword])
        else Response(if stored then 200 else 500, looked + [HashPassword, StorePassword(lookup.value.id)])
  }

  /** `ForceSetPwd` never writes the password of an admin. */
  lemma ForceSetPwdNeverTouchesAdmin(request: Option<(string, string)>, lookup: Result<User, LookupError>, hashed: bool, stored: bool, id: nat)
    requires StorePassword(id) in ForceSetPwd(request, lookup, hashed, stored).effects
    ensures lookup.Success? && lookup.value.role != AdminRole && lookup.value.id == id
  {
  }

  /**
   * `AddUser`. `request` is the bound name, password and role; then whether hashing,
   * creating the two folders and adding the record succeed. The role is left to the store.
   */
  function AddUser(cfg: Config, request: Option<(string, string, string)>, hashed: bool, foldersCreated: bool, added: bool): (r: Response)
    ensures request.None? ==> r == Response(400, [])
    ensures request.Some? && (IsValidUserName(cfg, request.value.0).Fail? || IsValidPwd(cfg, request.value.1).Fail?) ==>
      r == Response(400, [])
    ensures r.status == 200 <==>
      request.Some? && IsValidUserName(cfg, request.value.0).Pass? && IsValidPwd(cfg, request.value.1).Pass? &&
      hashed && foldersCreated && added
  {
    if request.None? then Response(400, [])
    else
      var (name, pwd, role) := request.value;
      if IsValidUserName(cfg, name).Fail? || IsValidPwd(cfg, pwd).Fail? then Response(400, [])
      else if !hashed then Response(500, [HashPassword])
      else if !foldersCreated then Response(500, [HashPassword, CreateFolders(name)])
      else Response(if added then 200 else 500, [HashPassword, CreateFolders(name), AddUserRecord(name, role)])
  }

  /** A user record is added only with a long enough name and password; the handler itself accepts any role. */
  lemma AddUserChecksNameAndPasswordOnly(cfg: Config, request: Option<(string, string, string)>, hashed: bool, foldersCreated: bool, added: bool,
                                         name: string, role: string)
    requires AddUserRecord(name, role) in AddUser(cfg, request, hashed, foldersCreated, added).effects
    ensures request.Some? && request.value.0 == name && request.value.2 == role
    ensures |name| >= cfg.minUserNameLen && |request.value.1| >= cfg.minPwdLen
  {
  }

  /** `AddRole`: `request` is the bound role; `applied` whether the store accepts the change. */
  function AddRole(cfg: Config, request: Option<string>, applied: bool): (r: Response)
    ensures request.None? || (request.Some? && IsValidRole(cfg, request.value).Fail?) ==> r == Response(400, [])
    ensures r.status == 200 <==> request.Some? && IsValidRole(cfg, request.value).Pass? && applied
  {
    if request.None? || IsValidRole(cfg, request.value).Fail? then Response(400, [])
    else Response(if applied then 200 else 500, [AddRoleRecord(request.value)])
  }

  /** `DelRole`: as `AddRole`, deleting instead. */
  function DelRole(cfg: Config, request: Option<string>, applied: bool): (r: Response)
    ensures request.None? || (request.Some? && IsValidRole(cfg, request.value).Fail?) ==> r == Response(400, [])
    ensures r.status == 200 <==> request.Some? && IsValidRole(cfg, request.value).Pass? && applied
  {
    if request.None? || IsValidRole(cfg, request.value).Fail? then Response(400, [])
    else Response(if applied then 200 else 500, [DelRoleRecord(request.value)])
  }

  /** Neither role handler ever adds or deletes a predefined role. */
  lemma PredefinedRolesStay(cfg: Config, request: Option<string>, applied: bool, role: string)
    requires IsPredefinedRole(role)
    ensures AddRoleRecord(role) !in AddRole(cfg, request, applied).effects
    ensures DelRoleRecord(role) !in DelRole(cfg, request, applied).effects
  {
  }

  /**
   * `DelUser` as written. `query` is the raw `uid` query parameter; the self check
   * compares it, as a string, with the session's `uid` claim.
   */
  function DelUser(query: string, cookie: Option<string>, decoded: Option<map<string, string>>, deleted: bool, removed: bool): (r: Response)
    ensures ParseUint(query).None? || ParseUint(query).value <= 1 ==> r == Response(400, [])
    ensures ParseUint(query).Some? && ParseUint(query).value > 1 && GetUserInfo(cookie, decoded).Failure? ==>
      r == Response(403, [ReadSession])
    ensures ParseUint(query).Some? && ParseUint(query).value > 1 && GetUserInfo(cookie, decoded).Success? &&
            Claim(decoded.value, UserIdKey) == query
            ==> r == Response(403, [ReadSession])
    ensures r.status == 200 <==>
      ParseUint(query).Some? && ParseUint(query).value > 1 && GetUserInfo(cookie, decoded).Success? &&
      Claim(decoded.value, UserIdKey) != query && deleted && removed
  {
    match ParseUint(query)
    case None => Response(400, [])
    case Some(userId) =>
      if userId == 0 || userId == 1 then Response(400, [])
      else
        match GetUserInfo(cookie, decoded)
        case Failure(_) => Response(403, [ReadSession])
        case Success(claims) =>
          if Claim(claims, UserIdKey) == query then Response(403, [ReadSession])
          else if !deleted then Response(500, [ReadSession, DeleteUserRecord(userId)])
          else Response(if removed then 200 else 500, [ReadSession, DeleteUserRecord(userId), RemoveHomeFolder(query)])
  }

  /** The record goes first: the home folder is removed only after the record was deleted. */
  lemma DelUserRecordBeforeFolder(query: string, cookie: Option<string>, decoded: Option<map<string, string>>, deleted: bool, removed: bool)
    ensures var e := DelUser(query, cookie, decoded, deleted, removed).effects;
      forall j :: 0 <= j < |e| && e[j].RemoveHomeFolder? ==> deleted && exists i :: 0 <= i < j && e[i].DeleteUserRecord?
  {
    var e := DelUser(query, cookie, decoded, deleted, removed).effects;
    forall j | 0 <= j < |e| && e[j].RemoveHomeFolder?
      ensures deleted && exists i :: 0 <= i < j && e[i].DeleteUserRecord?
    {
      assert j == 2 && e[1].DeleteUserRecord?;
    }
  }

  /** The predefined users 0 and 1 are never deleted, and the session is not even read for them. */
  lemma DelUserSparesPredefined(query: string, cookie: Option<string>, decoded: Option<map<string, string>>, deleted: bool, removed: bool)
    requires ParseUint(query) == Some(0) || ParseUint(query) == Some(1)
    ensures DelUser(query, cookie, decoded, deleted, removed) == Response(400, [])
  {
  }

  /**
   * The self check can be bypassed: a session whose `uid` claim is `"5"` (as `Login`
   * writes it) asking to delete `"05"` deletes user 5, itself.
   */
  lemma SelfDeletionWithLeadingZero(cookie: string, claims: map<string, string>)
    requires Claim(claims, UserIdKey) == "5" && Claim(claims, UserNameKey) != ""
    ensures DelUser("05", Some(cookie), Some(claims), true, true)
         == Response(200, [ReadSession, DeleteUserRecord(5), RemoveHomeFolder("05")])
  {
    assert DecimalValue("5") == 5;
    LeadingZeroIgnored("5");
    assert "0" + "5" == "05";
  }

  /**
   * `DelUser` with the self check the handler intends: the requested id, once parsed,
   * is compared with the session's parsed `uid` claim.
   */
  function DelUserByParsedId(query: string, cookie: Option<string>, decoded: Option<map<string, string>>, deleted: bool, removed: bool): (r: Response)
    ensures ParseUint(query).None? || ParseUint(query).value <= 1 ==> r == Response(400, [])
    ensures forall id :: DeleteUserRecord(id) in r.effects ==>
      id > 1 && decoded.Some? && ParseUint(Claim(decoded.value, UserIdKey)) != Some(id)
  {
    match ParseUint(query)
    case None => Response(400, [])
    case Some(userId) =>
      if userId == 0 || userId == 1 then Response(400, [])
      else
        match GetUserInfo(cookie, decoded)
        case Failure(_) => Response(403, [ReadSession])
        case Success(claims) =>
          if ParseUint(Claim(claims, UserIdKey)) == Some(userId) then Response(403, [ReadSession])
          else if !deleted then Response(500, [ReadSession, DeleteUserRecord(userId)])
          else Response(if removed then 200 else 500, [ReadSession, DeleteUserRecord(userId), RemoveHomeFolder(query)])
  }

  /** With the corrected check, a session obtained by `Login` can never delete its own user. */
  lemma LoggedInUserCannotDeleteSelf(user: User, query: string, cookie: Option<string>, claims: map<string, string>, deleted: bool, removed: bool)
    requires user.id < Uint64Limit
    requires Claim(claims, UserIdKey) == FormatUint(user.id)
    ensures DeleteUserRecord(user.id) !in DelUserByParsedId(query, cookie, Some(claims), deleted, removed).effects
  {
    ParseFormat(user.id);
  }

  /**
   * The corrected handler agrees with the one as written whenever both ids are written
   * the way `fmt.Sprint` writes them, which is how `Login` writes the `uid` claim.
   */
  lemma CorrectionAgreesOnCanonicalIds(n: nat, m: nat, cookie: Option<string>, claims: map<string, string>, deleted: bool, removed: bool)
    requires n < Uint64Limit && m < Uint64Limit
    requires Claim(claims, UserIdKey) == FormatUint(m)
    ensures DelUserByParsedId(FormatUint(n), cookie, Some(claims), deleted, removed)
         == DelUser(FormatUint(n), cookie, Some(claims), deleted, removed)
  {
    ParseFormat(n);
    ParseFormat(m);
  }
}
