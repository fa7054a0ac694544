/** The authorization middleware: bearer-header parsing, identity resolution
    (`requireAuth`), the role gate (`requireRole`) and the store-isolation
    gate (`requireStoreAccess`). Signature and expiry checking of the token is
    an oracle `verify` that yields the user id the token names, or nothing. */
module Auth {
  import opened Basics
  import opened Model

  datatype StaffGrant = StaffGrant(storeId: Id, role: StaffRole)

  /** The `req.auth` value `requireAuth` attaches to a request. */
  datatype AuthContext = AuthContext(
    userId: Id, email: string, roles: seq<Role>,
    storeIdsAsOwner: seq<Id>, storeIdsAsStaff: seq<StaffGrant>)

  // ---------------------------------------------------------------------
  // parseAuthHeader: the regular expression /^Bearer\s+(.+)$/i

  /** ECMAScript LineTerminator: the characters `.` does not match. */
  predicate IsLineTerminator(c: char) {
    c == '\n' || c == '\r' || c == '\U{2028}' || c == '\U{2029}'
  }

  /** ECMAScript `\s`: WhiteSpace and LineTerminator. */
  predicate IsJsWhitespace(c: char) {
    || IsLineTerminator(c)
    || c == '\t' || c == '\U{000B}' || c == '\U{000C}' || c == ' '
    || c == '\U{00A0}' || c == '\U{1680}' || ('\U{2000}' <= c <= '\U{200A}')
    || c == '\U{202F}' || c == '\U{205F}' || c == '\U{3000}' || c == '\U{FEFF}'
  }

  function UpperAscii(c: char): char {
    if 'a' <= c <= 'z' then (c as int - 32) as char else c
  }

  /** `Bearer` under the `i` flag (only ASCII letters fold). */
  predicate IsBearerWord(w: string) {
    |w| == 6 && forall k :: 0 <= k < 6 ==> UpperAscii(w[k]) == "BEARER"[k]
  }

  /** The regular expression matches `s` with the capture group starting at
      index `j`: `Bearer`, then `\s+` over s[6..j], then `.+` over s[j..]. */
  ghost predicate BearerMatchAt(s: string, j: int) {
    && 6 < j < |s|
    && IsBearerWord(s[..6])
    && (forall k :: 6 <= k < j ==> IsJsWhitespace(s[k]))
    && (forall k :: j <= k < |s| ==> !IsLineTerminator(s[k]))
  }

  function LeadingWhitespace(s: string): (n: nat)
    ensures n <= |s|
    ensures forall k :: 0 <= k < n ==> IsJsWhitespace(s[k])
    ensures n < |s| ==> !IsJsWhitespace(s[n])
  {
    if |s| == 0 || !IsJsWhitespace(s[0]) then 0 else 1 + LeadingWhitespace(s[1..])
  }

  predicate NoLineTerminator(s: string) {
    forall k :: 0 <= k < |s| ==> !IsLineTerminator(s[k])
  }

  /** The token of an `Authorization` header. An absent or empty header gives
      nothing; otherwise the regular expression decides, and since `\s+` is
      greedy and backtracks, the capture starts as late as a match allows
      (so a header of `Bearer` and only spaces yields its last space). */
  function ParseAuthHeader(h: Option<string>): (r: Option<string>)
    ensures r.Some? <==> h.Some? && exists j :: BearerMatchAt(h.value, j)
    ensures r.Some? ==>
      exists j :: BearerMatchAt(h.value, j) && r.value == h.value[j..]
        && forall j' :: BearerMatchAt(h.value, j') ==> j' <= j
  {
    if h.None? || h.value == "" then None
    else
      var s := h.value;
      if |s| < 6 || !IsBearerWord(s[..6]) then None
      else
        var n := LeadingWhitespace(s[6..]);
        if n == 0 then
          assert |s| > 6 ==> s[6..][0] == s[6];
          None
        else if 6 + n < |s| then
          assert s[6..][n] == s[6 + n];
          assert forall k :: 6 <= k < 6 + n ==> IsJsWhitespace(s[k]) by {
            forall k | 6 <= k < 6 + n ensures IsJsWhitespace(s[k]) { assert s[6..][k - 6] == s[k]; }
          }
          if NoLineTerminator(s[6 + n..]) then
            assert forall k :: 6 + n <= k < |s| ==> !IsLineTerminator(s[k]) by {
              forall k | 6 + n <= k < |s| ensures !IsLineTerminator(s[k]) { assert s[6 + n..][k - 6 - n] == s[k]; }
            }
            assert BearerMatchAt(s, 6 + n);
            Some(s[6 + n..])
          else
            assert forall j :: !BearerMatchAt(s, j) by {
              var k0 :| 0 <= k0 < |s[6 + n..]| && IsLineTerminator(s[6 + n..][k0]);
              assert IsLineTerminator(s[6 + n + k0]);
            }
            None
        else
          assert forall k :: 6 <= k < |s| ==> IsJsWhitespace(s[k]) by {
            forall k | 6 <= k < |s| ensures IsJsWhitespace(s[k]) { assert s[6..][k - 6] == s[k]; }
          }
          if n >= 2 && !IsLineTerminator(s[|s| - 1]) then
            assert BearerMatchAt(s, |s| - 1);
            Some(s[|s| - 1..])
          else
            None
  }

  /** A well-formed header yields the token after the blank. */
  lemma ParseAuthHeaderPlain()
    ensures ParseAuthHeader(Some("Bearer ab")) == Some("ab")
  {
    var s := "Bearer ab";
    assert IsBearerWord(s[..6]);
    assert s[6..] == " ab";
    assert LeadingWhitespace(" ab") == 1 by {
      assert " ab"[1..] == "ab";
      assert LeadingWhitespace("ab") == 0;
    }
  }

  /** A header of `Bearer` followed only by blanks yields its last blank. */
  lemma ParseAuthHeaderBlanks()
    ensures ParseAuthHeader(Some("Bearer   ")) == Some(" ")
  {
    var s := "Bearer   ";
    assert IsBearerWord(s[..6]);
    assert s[6..] == "   ";
    assert LeadingWhitespace("   ") == 3 by {
      assert "   "[1..] == "  ";
      assert "  "[1..] == " ";
      assert " "[1..] == "";
    }
  }

  // ---------------------------------------------------------------------
  // requireAuth

  function FindUser(users: seq<User>, id: Id): (r: Option<User>)
    ensures r.Some? ==> r.value in users && r.value.id == id
    ensures r.None? ==> forall u :: u in users ==> u.id != id
  {
    if |users| == 0 then None
    else if users[0].id == id then Some(users[0])
    else FindUser(users[1..], id)
  }

  /** Ids of the stores the user owns (`ownedStores`), in table order. */
  function OwnedStoreIds(stores: seq<Store>, userId: Id): (r: seq<Id>)
    ensures forall id :: id in r <==> exists s :: s in stores && s.ownerUserId == userId && s.id == id
  {
    if |stores| == 0 then []
    else
      var rest := OwnedStoreIds(stores[1..], userId);
      assert forall s :: s in stores <==> s == stores[0] || s in stores[1..];
      if stores[0].ownerUserId == userId then [stores[0].id] + rest else rest
  }

  /** The user's staff links with `status: true`, as (store, role) grants. */
  function EnabledGrants(links: seq<StaffLink>, userId: Id): (r: seq<StaffGrant>)
    ensures forall g :: g in r <==>
      exists l :: l in links && l.userId == userId && l.enabled && g == StaffGrant(l.storeId, l.role)
  {
    if |links| == 0 then []
    else
      var rest := EnabledGrants(links[1..], userId);
      assert forall l :: l in links <==> l == links[0] || l in links[1..];
      var l := links[0];
      if l.userId == userId && l.enabled then [StaffGrant(l.storeId, l.role)] + rest else rest
  }

  /** `requireAuth`: a missing token, a token the oracle rejects (bad
      signature, expiry, unparsable subject) and an unknown user are all 401;
      otherwise the caller's context is built from the tables. */
  function RequireAuth(header: Option<string>, verify: string -> Option<Id>, db: Db): (r: Result<AuthContext>)
    ensures ParseAuthHeader(header).None? ==> r == Err(Fail(401, "Missing Bearer token"))
    ensures r.Err? ==> r.error.status == 401
    ensures r.Ok? <==>
      && ParseAuthHeader(header).Some?
      && verify(ParseAuthHeader(header).value).Some?
      && exists u :: u in db.users && u.id == verify(ParseAuthHeader(header).value).value
    ensures ParseAuthHeader(header).Some? && verify(ParseAuthHeader(header).value).None? ==>
      r == Err(Fail(401, "Invalid token"))
    ensures r.Ok? ==>
      && ParseAuthHeader(header).Some?
      && verify(ParseAuthHeader(header).value) == Some(r.value.userId)
      && (exists u :: u in db.users && u.id == r.value.userId && u.email == r.value.email && u.roles == r.value.roles)
      && (forall id :: id in r.value.storeIdsAsOwner <==>
            exists s :: s in db.stores && s.ownerUserId == r.value.userId && s.id == id)
      && (forall g :: g in r.value.storeIdsAsStaff <==>
            exists l :: l in db.staff && l.userId == r.value.userId && l.enabled && g == StaffGrant(l.storeId, l.role))
  {
    match ParseAuthHeader(header)
    case None => Err(Fail(401, "Missing Bearer token"))
    case Some(token) =>
      match verify(token)
      case None => Err(Fail(401, "Invalid token"))
      case Some(userId) =>
        match FindUser(db.users, userId)
        case None => Err(Fail(401, "Invalid token user"))
        case Some(u) =>
          Ok(AuthContext(userId, u.email, u.roles,
                         OwnedStoreIds(db.stores, userId), EnabledGrants(db.staff, userId)))
  }

  // ---------------------------------------------------------------------
  // requireRole

  /** `req.auth?.roles || []` */
  function RolesOf(auth: Option<AuthContext>): seq<Role> {
    if auth.Some? then auth.value.roles else []
  }

  /** `required.some(r => userRoles.includes(r))` */
  function SomeIncluded(required: seq<Role>, userRoles: seq<Role>): (b: bool)
    ensures b <==> exists x :: x in required && x in userRoles
  {
    if |required| == 0 then false
    else
      assert forall x :: x in required <==> x == required[0] || x in required[1..];
      required[0] in userRoles || SomeIncluded(required[1..], userRoles)
  }

  /** `requireRole(required)`: passes iff the caller holds one of `required`. */
  function RequireRole(required: seq<Role>, auth: Option<AuthContext>): (r: Gate)
    ensures r.Allow? <==> exists x :: x in required && x in RolesOf(auth)
    ensures r.Deny? ==> r.error == Fail(403, "Forbidden: role not allowed")
  {
    if SomeIncluded(required, RolesOf(auth)) then Allow
    else Deny(Fail(403, "Forbidden: role not allowed"))
  }

  lemma NoRolesAlwaysForbidden(required: seq<Role>, auth: Option<AuthContext>)
    requires RolesOf(auth) == []
    ensures RequireRole(required, auth) == Deny(Fail(403, "Forbidden: role not allowed"))
  {
  }

  // ---------------------------------------------------------------------
  // requireStoreAccess

  /** Where the store id may come from. `None` stands for a value that is
      absent or the empty string (both falsy); a present value is a decimal
      id and stands for the id it denotes. */
  datatype StoreIdSources = StoreIdSources(params: Option<Id>, body: Option<Id>, query: Option<Id>)

  /** `req.params.storeId || req.body.storeId || req.query.storeId` */
  function SelectStoreId(src: StoreIdSources): (r: Option<Id>)
    ensures src.params.Some? ==> r == src.params
    ensures src.params.None? && src.body.Some? ==> r == src.body
    ensures src.params.None? && src.body.None? ==> r == src.query
  {
    if src.params.Some? then src.params
    else if src.body.Some? then src.body
    else src.query
  }

  function OwnedOf(auth: Option<AuthContext>): seq<Id> {
    if auth.Some? then auth.value.storeIdsAsOwner else []
  }

  function GrantsOf(auth: Option<AuthContext>): seq<StaffGrant> {
    if auth.Some? then auth.value.storeIdsAsStaff else []
  }

  /** Index of the first grant for `storeId` (`staff.find(...)`), or |grants|. */
  function FirstGrantIndex(grants: seq<StaffGrant>, storeId: Id): (i: nat)
    ensures i <= |grants|
    ensures i < |grants| ==> grants[i].storeId == storeId
    ensures forall k :: 0 <= k < i ==> grants[k].storeId != storeId
  {
    if |grants| == 0 then 0
    else if grants[0].storeId == storeId then 0
    else 1 + FirstGrantIndex(grants[1..], storeId)
  }

  function FindGrant(grants: seq<StaffGrant>, storeId: Id): Option<StaffGrant> {
    var i := FirstGrantIndex(grants, storeId);
    if i < |grants| then Some(grants[i]) else None
  }

  predicate IsAdmin(auth: Option<AuthContext>) {
    Admin in RolesOf(auth)
  }

  predicate Owns(auth: Option<AuthContext>, storeId: Id) {
    storeId in OwnedOf(auth)
  }

  /** `requireStoreAccess({ staffRoles })`, decided in this order: no store
      id is 400; ADMIN passes; the owner passes; otherwise the first staff
      grant for the store decides, against `staffRoles` when it is given. */
  function RequireStoreAccess(staffRoles: Option<seq<StaffRole>>, auth: Option<AuthContext>, src: StoreIdSources): (r: Gate)
    ensures SelectStoreId(src).None? ==> r == Deny(Fail(400, "storeId is required"))
    ensures SelectStoreId(src).Some? && IsAdmin(auth) ==> r == Allow
    ensures SelectStoreId(src).Some? && Owns(auth, SelectStoreId(src).value) ==> r == Allow
    ensures SelectStoreId(src).Some? && !IsAdmin(auth) && !Owns(auth, SelectStoreId(src).value) ==>
      var id := SelectStoreId(src).value;
      if forall g :: g in GrantsOf(auth) ==> g.storeId != id then
        r == Deny(Fail(403, "Forbidden: no store access"))
      else
        exists i :: 0 <= i < |GrantsOf(auth)| && GrantsOf(auth)[i].storeId == id
          && (forall k :: 0 <= k < i ==> GrantsOf(auth)[k].storeId != id)
          && (r.Allow? <==> staffRoles.None? || GrantsOf(auth)[i].role in staffRoles.value)
          && (r.Deny? ==> r.error == Fail(403, "Forbidden: insufficient staff role"))
  {
    match SelectStoreId(src)
    case None => Deny(Fail(400, "storeId is required"))
    case Some(storeId) =>
      if IsAdmin(auth) then Allow
      else if Owns(auth, storeId) then Allow
      else
        var grants := GrantsOf(auth);
        var i := FirstGrantIndex(grants, storeId);
        if i == |grants| then
          Deny(Fail(403, "Forbidden: no store access"))
        else if staffRoles.None? || grants[i].role in staffRoles.value then
          Allow
        else
          Deny(Fail(403, "Forbidden: insufficient staff role"))
  }

  /** Widening the permitted staff roles, or dropping the restriction, never
      turns an Allow into a Deny. */
  lemma StaffRolesMonotone(narrow: Option<seq<StaffRole>>, wide: Option<seq<StaffRole>>,
                           auth: Option<AuthContext>, src: StoreIdSources)
    requires wide.None? || (narrow.Some? && forall x :: x in narrow.value ==> x in wide.value)
    ensures RequireStoreAccess(narrow, auth, src).Allow? ==> RequireStoreAccess(wide, auth, src).Allow?
  {
  }

  /** An empty staff-role list shuts out every caller who is neither ADMIN nor owner. */
  lemma EmptyStaffRolesForbidStaff(auth: Option<AuthContext>, src: StoreIdSources)
    requires SelectStoreId(src).Some?
    requires !IsAdmin(auth) && !Owns(auth, SelectStoreId(src).value)
    ensures RequireStoreAccess(Some([]), auth, src).Deny?
    ensures RequireStoreAccess(Some([]), auth, src).error.status == 403
  {
  }

  /** Only the first grant for the store is consulted: grants after it, for
      any store, do not change the decision. */
  lemma OnlyFirstGrantCounts(staffRoles: Option<seq<StaffRole>>, ctx: AuthContext, extra: seq<StaffGrant>, src: StoreIdSources)
    requires SelectStoreId(src).Some?
    requires exists g :: g in ctx.storeIdsAsStaff && g.storeId == SelectStoreId(src).value
    ensures RequireStoreAccess(staffRoles, Some(ctx), src)
         == RequireStoreAccess(staffRoles, Some(ctx.(storeIdsAsStaff := ctx.storeIdsAsStaff + extra)), src)
  {
    FirstGrantPrefix(ctx.storeIdsAsStaff, extra, SelectStoreId(src).value);
  }

  lemma {:induction false} FirstGrantPrefix(a: seq<StaffGrant>, extra: seq<StaffGrant>, id: Id)
    requires exists g :: g in a && g.storeId == id
    ensures FirstGrantIndex(a + extra, id) == FirstGrantIndex(a, id) < |a|
  {
    if a[0].storeId == id {
    } else {
      assert a + extra == [a[0]] + (a[1..] + extra);
      assert (a + extra)[1..] == a[1..] + extra;
      var g :| g in a && g.storeId == id;
      assert g in a[1..];
      FirstGrantPrefix(a[1..], extra, id);
    }
  }
}
