/**
 * The access-control tables the multi-user service builds when it is created
 * (src/handlers/multiusers/handlers.go): the exact-path grants per role, and the
 * `/v2` prefix table loaded into a radix tree.
 */
module AccessRules {
  import opened MultiUsers

  datatype HttpMethod = GET | POST | PATCH | PUT | DELETE | OPTIONS

  /** One (verb, path) pair a role may call. */
  datatype Grant = Grant(verb: HttpMethod, path: string)

  /** One key of the exact-path table: a role, an HTTP method and a path. */
  datatype Rule = Rule(role: string, verb: HttpMethod, path: string)

  /** One key of a prefix entry: `"<role>:<METHOD>"`. */
  datatype Permission = Permission(role: string, verb: HttpMethod)

  const LoginPath: string := "/v1/users/login"
  const ForceSetPwdPath: string := "/v1/users/pwd/force-set"

  /** The admin grants; `publicPath` is the configured public directory joined to `/`. */
  function AdminGrants(publicPath: string): (grants: set<Grant>)
    ensures Grant(POST, "/v1/users/") in grants && Grant(DELETE, "/v1/users/") in grants && Grant(PATCH, ForceSetPwdPath) in grants
    ensures Grant(POST, "/v1/roles/") in grants && Grant(DELETE, "/v1/roles/") in grants
  {
    { Grant(GET, "/"), Grant(GET, publicPath), Grant(POST, LoginPath), Grant(POST, "/v1/users/logout"),
      Grant(GET, "/v1/users/isauthed"), Grant(PATCH, "/v1/users/pwd"), Grant(PATCH, "/v1/users/"),
      Grant(PATCH, ForceSetPwdPath), Grant(POST, "/v1/users/"), Grant(DELETE, "/v1/users/"),
      Grant(GET, "/v1/users/list"), Grant(GET, "/v1/users/self"), Grant(PATCH, "/v1/users/preferences"),
      Grant(PUT, "/v1/fs/used-space"), Grant(POST, "/v1/roles/"), Grant(DELETE, "/v1/roles/"),
      Grant(GET, "/v1/roles/list"), Grant(POST, "/v1/fs/files"), Grant(DELETE, "/v1/fs/files"),
      Grant(GET, "/v1/fs/files"), Grant(PATCH, "/v1/fs/files/chunks"), Grant(GET, "/v1/fs/files/chunks"),
      Grant(PATCH, "/v1/fs/files/copy"), Grant(PATCH, "/v1/fs/files/move"), Grant(GET, "/v1/fs/search"),
      Grant(PUT, "/v1/fs/reindex"), Grant(GET, "/v1/fs/dirs"), Grant(GET, "/v1/fs/dirs/home"),
      Grant(POST, "/v1/fs/dirs"), Grant(GET, "/v1/fs/uploadings"), Grant(DELETE, "/v1/fs/uploadings"),
      Grant(GET, "/v1/fs/metadata"), Grant(OPTIONS, "/v1/settings/health"), Grant(GET, "/v1/settings/client"),
      Grant(PATCH, "/v1/settings/client"), Grant(POST, "/v1/settings/errors"), Grant(GET, "/v1/settings/workers/queue-len"),
      Grant(GET, "/v1/captchas/"), Grant(GET, "/v1/captchas/imgs"), Grant(POST, "/v1/fs/sharings"),
      Grant(DELETE, "/v1/fs/sharings"), Grant(GET, "/v1/fs/sharings"), Grant(GET, "/v1/fs/sharings/exist"),
      Grant(GET, "/v1/fs/sharings/dirs"), Grant(GET, "/v1/fs/sharings/ids"), Grant(POST, "/v1/fs/hashes/sha1") }
  }

  /** The user grants. */
  function UserGrants(publicPath: string): set<Grant>
  {
    { Grant(GET, "/"), Grant(GET, publicPath), Grant(POST, "/v1/users/logout"), Grant(GET, "/v1/users/isauthed"),
      Grant(PATCH, "/v1/users/pwd"), Grant(GET, "/v1/users/self"), Grant(PATCH, "/v1/users/preferences"),
      Grant(POST, "/v1/fs/files"), Grant(DELETE, "/v1/fs/files"), Grant(GET, "/v1/fs/files"),
      Grant(PATCH, "/v1/fs/files/chunks"), Grant(GET, "/v1/fs/files/chunks"), Grant(PATCH, "/v1/fs/files/copy"),
      Grant(PATCH, "/v1/fs/files/move"), Grant(GET, "/v1/fs/search"), Grant(GET, "/v1/fs/dirs"),
      Grant(GET, "/v1/fs/dirs/home"), Grant(POST, "/v1/fs/dirs"), Grant(GET, "/v1/fs/uploadings"),
      Grant(DELETE, "/v1/fs/uploadings"), Grant(GET, "/v1/fs/metadata"), Grant(OPTIONS, "/v1/settings/health"),
      Grant(GET, "/v1/settings/client"), Grant(POST, "/v1/settings/errors"), Grant(GET, "/v1/captchas/"),
      Grant(GET, "/v1/captchas/imgs"), Grant(POST, "/v1/fs/sharings"), Grant(DELETE, "/v1/fs/sharings"),
      Grant(GET, "/v1/fs/sharings"), Grant(GET, "/v1/fs/sharings/exist"), Grant(GET, "/v1/fs/sharings/dirs"),
      Grant(GET, "/v1/fs/sharings/ids"), Grant(POST, "/v1/fs/hashes/sha1") }
  }

  /** The visitor grants: reading only, plus logging in and the health probe. */
  function VisitorGrants(publicPath: string): (grants: set<Grant>)
    ensures forall g :: g in grants ==>
      g.verb == GET || g == Grant(POST, LoginPath) || g == Grant(OPTIONS, "/v1/settings/health")
  {
    { Grant(GET, "/"), Grant(GET, publicPath), Grant(POST, LoginPath), Grant(GET, "/v1/users/self"),
      Grant(GET, "/v1/fs/files"), Grant(GET, "/v1/fs/dirs"), Grant(OPTIONS, "/v1/settings/health"),
      Grant(GET, "/v1/settings/client"), Grant(GET, "/v1/captchas/"), Grant(GET, "/v1/captchas/imgs"),
      Grant(GET, "/v1/fs/sharings/exist"), Grant(GET, "/v1/fs/sharings/dirs") }
  }

  /** The grants listed for a role; roles other than the three predefined ones have none. */
  function GrantsOf(publicPath: string, role: string): (grants: set<Grant>)
    ensures !IsPredefinedRole(role) ==> grants == {}
    ensures IsPredefinedRole(role) ==> Grant(GET, "/") in grants && Grant(GET, publicPath) in grants
  {
    if role == AdminRole then AdminGrants(publicPath)
    else if role == UserRole then UserGrants(publicPath)
    else if role == VisitorRole then VisitorGrants(publicPath)
    else {}
  }

  /** `apiACRules`: the set of keys the map holds with value `true`. */
  function ApiACRules(publicPath: string): (rules: set<Rule>)
    ensures forall role, m, p :: Rule(role, m, p) in rules <==> Grant(m, p) in GrantsOf(publicPath, role)
  {
    set role, g | role in [AdminRole, UserRole, VisitorRole] && g in GrantsOf(publicPath, role) :: Rule(role, g.verb, g.path)
  }

  /** Every grant of the user role is an admin grant too. */
  lemma UserGrantsAreAdminGrants(publicPath: string)
    ensures UserGrants(publicPath) <= AdminGrants(publicPath)
  {
  }

  /** Every visitor grant is a user grant, except logging in. */
  lemma VisitorGrantsAreUserGrantsOrLogin(publicPath: string)
    ensures VisitorGrants(publicPath) <= UserGrants(publicPath) + {Grant(POST, LoginPath)}
  {
  }

  /** Logging in is granted to visitors and admins but not to the user role. */
  lemma LoginNotUserGrant(publicPath: string)
    ensures Grant(POST, LoginPath) !in UserGrants(publicPath)
    ensures Grant(POST, LoginPath) in VisitorGrants(publicPath) && Grant(POST, LoginPath) in AdminGrants(publicPath)
  {
  }

  /** The role hierarchy of the exact-path table: visitor below user (except login), user below admin. */
  lemma RuleHierarchy(publicPath: string, m: HttpMethod, p: string)
    ensures Rule(UserRole, m, p) in ApiACRules(publicPath) ==> Rule(AdminRole, m, p) in ApiACRules(publicPath)
    ensures Rule(VisitorRole, m, p) in ApiACRules(publicPath) ==>
      Rule(UserRole, m, p) in ApiACRules(publicPath) || (m == POST && p == LoginPath)
  {
    UserGrantsAreAdminGrants(publicPath);
    VisitorGrantsAreUserGrantsOrLogin(publicPath);
    LoginNotUserGrant(publicPath);
  }

  /** Forcing a password is an admin-only operation. */
  lemma ForceSetPwdIsAdminOnly(publicPath: string, role: string)
    ensures Rule(role, PATCH, ForceSetPwdPath) in ApiACRules(publicPath) <==> role == AdminRole
  {
    ForceSetPwdNotUserGrant(publicPath);
    ForceSetPwdNotVisitorGrant(publicPath);
  }

  /** The user table leaves out forcing a password. */
  lemma ForceSetPwdNotUserGrant(publicPath: string)
    ensures Grant(PATCH, ForceSetPwdPath) !in UserGrants(publicPath)
  {
  }

  /** So does the visitor table. */
  lemma ForceSetPwdNotVisitorGrant(publicPath: string)
    ensures Grant(PATCH, ForceSetPwdPath) !in VisitorGrants(publicPath)
  {
  }

  /** `prefixRules`: what each `/v2` prefix grants. */
  function PrefixRules(): (rules: map<string, set<Permission>>)
    ensures rules.Keys == {"/v2/", "/v2/my/", "/v2/public/"}
  {
    map[
      "/v2/" := set m: HttpMethod | true :: Permission(AdminRole, m),
      "/v2/my/" := {Permission(UserRole, GET), Permission(UserRole, POST), Permission(UserRole, PATCH), Permission(UserRole, DELETE)},
      "/v2/public/" := {Permission(UserRole, GET), Permission(UserRole, POST), Permission(UserRole, OPTIONS),
                        Permission(VisitorRole, GET), Permission(VisitorRole, POST), Permission(VisitorRole, OPTIONS)}
    ]
  }

  /**
   * `/v2/` lets admin use every method; `/v2/my/` lets users read, create, patch and
   * delete but not put or call OPTIONS; `/v2/public/` names no admin permission at all.
   */
  lemma PrefixPermissions(m: HttpMethod)
    ensures Permission(AdminRole, m) in PrefixRules()["/v2/"]
    ensures Permission(UserRole, m) in PrefixRules()["/v2/my/"] <==> m in {GET, POST, PATCH, DELETE}
    ensures forall p :: p in PrefixRules()["/v2/my/"] ==> p.role == UserRole
    ensures Permission(AdminRole, m) !in PrefixRules()["/v2/public/"]
  {
  }

  /** The radix tree the prefix table is loaded into; only its contents are modelled. */
  class RouteTree {
    var entries: map<string, set<Permission>>

    constructor ()
      ensures entries == map[]
    {
      entries := map[];
    }

    method Insert(prefix: string, rules: set<Permission>)
      modifies this
      ensures entries == old(entries)[prefix := rules]
    {
      entries := entries[prefix := rules];
    }
  }

  /** The constructor's loop inserting every prefix entry into a new tree, in whatever order the map yields them. */
  method BuildRouteTree(prefixRules: map<string, set<Permission>>) returns (tree: RouteTree)
    ensures fresh(tree)
    ensures tree.entries == prefixRules
  {
    tree := new RouteTree();
    var pending := prefixRules.Keys;
    while pending != {}
      invariant pending <= prefixRules.Keys
      invariant tree.entries.Keys == prefixRules.Keys - pending
      invariant forall k :: k in tree.entries ==> tree.entries[k] == prefixRules[k]
      decreases pending
    {
      var prefix :| prefix in pending;
      tree.Insert(prefix, prefixRules[prefix]);
      pending := pending - {prefix};
    }
  }
}
