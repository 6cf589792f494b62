/** The browser-side token helpers. The stored token is a parameter (it lives
    in local storage) and so is the decoder, which fails on a malformed token;
    `now` is the clock in milliseconds. */
module JwtService {
  import opened Wrappers

  /** The decoded payload; a claim the token does not carry is `None`. */
  datatype Payload = Payload(exp: Option<int>, userId: Option<string>, employeeId: Option<string>,
                             email: Option<string>, roles: Option<seq<string>>)

  type Decoder = string -> Option<Payload>

  /** Local storage under the key "token". */
  datatype TokenStore = TokenStore(token: Option<string>)

  /** setToken: only a non-empty token is stored. */
  function SetToken(store: TokenStore, token: Option<string>): (r: TokenStore)
    ensures token.Some? && token.value != "" ==> r.token == token
    ensures token.None? || token.value == "" ==> r == store
  {
    if token.Some? && token.value != "" then TokenStore(token) else store
  }

  /** clearToken. */
  function ClearToken(store: TokenStore): (r: TokenStore)
    ensures r.token.None?
  {
    TokenStore(None)
  }

  predicate Falsy(t: Option<string>) { t.None? || t.value == "" }

  /** getUserFromToken: nothing for a missing or empty token or one the
      decoder rejects. */
  function UserFromToken(token: Option<string>, decode: Decoder): (r: Option<Payload>)
    ensures Falsy(token) ==> r.None?
    ensures !Falsy(token) ==> r == decode(token.value)
  {
    if Falsy(token) then None else decode(token.value)
  }

  /** isTokenExpired: a token without a usable `exp` (absent or 0) counts as
      expired; otherwise it expires once the clock reaches `exp` seconds. */
  function TokenExpired(token: Option<string>, decode: Decoder, now: int): (r: bool)
    ensures (var p := UserFromToken(token, decode); p.None? || p.value.exp.None? || p.value.exp.value == 0) ==> r
    ensures (var p := UserFromToken(token, decode);
             p.Some? && p.value.exp.Some? && p.value.exp.value != 0) ==>
      r == (now >= UserFromToken(token, decode).value.exp.value * 1000)
    ensures !r ==> !Falsy(token)
  {
    var payload := UserFromToken(token, decode);
    if payload.None? || payload.value.exp.None? || payload.value.exp.value == 0 then true
    else now >= payload.value.exp.value * 1000
  }

  /** isAuthenticated. */
  function Authenticated(token: Option<string>, decode: Decoder, now: int): (r: bool)
    ensures r <==> !TokenExpired(token, decode, now)
  {
    !TokenExpired(token, decode, now)
  }

  /** Once expired, a token stays expired as the clock advances. */
  lemma ExpiryIsPermanent(token: Option<string>, decode: Decoder, now: int, later: int)
    requires now <= later
    requires TokenExpired(token, decode, now)
    ensures TokenExpired(token, decode, later)
  {
  }

  /** A text claim read with `|| null`: an empty string reads as absent. */
  function TextClaim(v: Option<string>): (r: Option<string>)
    ensures r.Some? <==> v.Some? && v.value != ""
    ensures r.Some? ==> r == v
  {
    if v.Some? && v.value != "" then v else None
  }

  /** getUserId. */
  function UserId(token: Option<string>, decode: Decoder): (r: Option<string>)
    ensures r.Some? ==> !Falsy(token) && r.value != ""
    ensures r.Some? ==> decode(token.value).Some? && decode(token.value).value.userId == r
    ensures !Falsy(token) && decode(token.value).Some? && decode(token.value).value.userId.Some?
            && decode(token.value).value.userId.value != "" ==>
      r == decode(token.value).value.userId
  {
    var p := UserFromToken(token, decode);
    if p.None? then None else TextClaim(p.value.userId)
  }

  /** getEmployeeId. */
  function EmployeeId(token: Option<string>, decode: Decoder): (r: Option<string>)
    ensures r.Some? ==> !Falsy(token) && r.value != ""
    ensures r.Some? ==> decode(token.value).Some? && decode(token.value).value.employeeId == r
    ensures !Falsy(token) && decode(token.value).Some? && decode(token.value).value.employeeId.Some?
            && decode(token.value).value.employeeId.value != "" ==>
      r == decode(token.value).value.employeeId
  {
    var p := UserFromToken(token, decode);
    if p.None? then None else TextClaim(p.value.employeeId)
  }

  /** getEmail. */
  function Email(token: Option<string>, decode: Decoder): (r: Option<string>)
    ensures r.Some? ==> !Falsy(token) && r.value != ""
    ensures r.Some? ==> decode(token.value).Some? && decode(token.value).value.email == r
    ensures !Falsy(token) && decode(token.value).Some? && decode(token.value).value.email.Some?
            && decode(token.value).value.email.value != "" ==>
      r == decode(token.value).value.email
  {
    var p := UserFromToken(token, decode);
    if p.None? then None else TextClaim(p.value.email)
  }

  /** getRoles: the roles claim, or no roles at all. */
  function Roles(token: Option<string>, decode: Decoder): (r: seq<string>)
    ensures UserFromToken(token, decode).None? ==> r == []
    ensures (var p := UserFromToken(token, decode); p.Some? && p.value.roles.Some?) ==>
      r == UserFromToken(token, decode).value.roles.value
    ensures (var p := UserFromToken(token, decode); p.Some? && p.value.roles.None?) ==> r == []
  {
    var p := UserFromToken(token, decode);
    if p.None? || p.value.roles.None? then [] else p.value.roles.value
  }

  /** hasRole: exact, case-sensitive membership. */
  function HasRole(token: Option<string>, decode: Decoder, role: string): (r: bool)
    ensures r <==> exists i :: 0 <= i < |Roles(token, decode)| && Roles(token, decode)[i] == role
    ensures UserFromToken(token, decode).None? ==> !r
  {
    role in Roles(token, decode)
  }

  /** hasAnyRole. */
  function HasAnyRole(token: Option<string>, decode: Decoder, wanted: seq<string>): (r: bool)
    ensures r <==> exists i :: 0 <= i < |wanted| && wanted[i] in Roles(token, decode)
    ensures wanted == [] ==> !r
  {
    if wanted == [] then false
    else HasRole(token, decode, wanted[0]) || HasAnyRole(token, decode, wanted[1..])
  }

  /** hasAllRoles. */
  function HasAllRoles(token: Option<string>, decode: Decoder, wanted: seq<string>): (r: bool)
    ensures r <==> forall i :: 0 <= i < |wanted| ==> wanted[i] in Roles(token, decode)
    ensures wanted == [] ==> r
  {
    if wanted == [] then true
    else HasRole(token, decode, wanted[0]) && HasAllRoles(token, decode, wanted[1..])
  }

  /** For a non-empty list, holding all the roles implies holding one of them. */
  lemma AllImpliesAny(token: Option<string>, decode: Decoder, wanted: seq<string>)
    requires wanted != []
    requires HasAllRoles(token, decode, wanted)
    ensures HasAnyRole(token, decode, wanted)
  {
  }

  /** Without a token the user has no role and is not authenticated. */
  lemma NoTokenNoAccess(decode: Decoder, now: int, role: string)
    ensures !HasRole(None, decode, role)
    ensures !Authenticated(None, decode, now)
    ensures EmployeeId(None, decode).None?
  {
  }
}
