/** The two middleware gates in front of the protected routes:
    `authenticateToken` (bearer token extraction and verification) and
    `requireAdmin` (role check). Token verification (signature and secret)
    is a parameter: an oracle that yields the decoded claims or nothing. */
module Auth {
  import opened Http
  import Text

  /** The decoded token payload. A payload signed elsewhere may lack a field. */
  datatype Claims = Claims(userId: Option<string>, role: Option<string>)

  /** The verifier: decoded claims for a good token, None for a rejected one. */
  type Verifier = string -> Option<Claims>

  /** Either the request continues with `req.user` set, or a status is sent. */
  datatype Gate = Pass(user: Claims) | Deny(status: int)

  const AdminRole: string := "ADMIN"

  /** `authHeader && authHeader.split(' ')[1]`, with the falsy results
      (no header, empty header, no second word, empty second word) as None.
      The first word is never inspected. */
  function BearerToken(header: Option<string>): (token: Option<string>)
    ensures token.Some? ==> token.value != [] && ' ' !in token.value
    ensures token.Some? ==> header.Some? && ' ' in header.value
  {
    match header
    case None => None
    case Some(h) =>
      var words := Text.Split(h, ' ');
      if |words| >= 2 && words[1] != [] then
        assert Text.Join(words, ' ') == words[0] + [' '] + Text.Join(words[1..], ' ');
        assert h[|words[0]|] == ' ';
        Some(words[1])
      else None
  }

  /** Whatever the first word is, a non-empty second word that ends the header
      or is followed by a space is the token. */
  lemma {:induction false} BearerTokenOfHeader(scheme: string, token: string, tail: string)
    requires ' ' !in scheme && ' ' !in token && token != []
    requires tail == [] || tail[0] == ' '
    ensures BearerToken(Some(scheme + [' '] + token + tail)) == Some(token)
  {
    var h := scheme + [' '] + token + tail;
    var parts := if tail == [] then [scheme, token] else [scheme, token] + Text.Split(tail[1..], ' ');
    if tail != [] {
      var more := Text.Split(tail[1..], ' ');
      assert Text.Join(parts[1..], ' ') == token + [' '] + Text.Join(more, ' ') by {
        assert parts[1..][1..] == more;
      }
      assert [' '] + tail[1..] == tail;
    }
    assert Text.Join(parts, ' ') == h;
    Text.SplitJoin(parts, ' ');
  }

  /** An empty second word gives no token: the header ends right after its
      first space ("Bearer "), or a second space follows it, even when a
      token comes after ("Bearer  x"). */
  lemma {:induction false} NoTokenAfterEmptyWord(scheme: string, rest: string)
    requires ' ' !in scheme
    requires rest == [] || rest[0] == ' '
    ensures BearerToken(Some(scheme + [' '] + rest)) == None
  {
    if rest == [] {
      assert Text.Join([scheme, []], ' ') == scheme + [' '] + rest;
      Text.SplitJoin([scheme, []], ' ');
    } else {
      var more := Text.Split(rest[1..], ' ');
      var parts := [scheme, []] + more;
      assert parts[1..][1..] == more;
      assert [' '] + rest[1..] == rest;
      assert Text.Join(parts, ' ') == scheme + [' '] + rest;
      Text.SplitJoin(parts, ' ');
    }
  }

  /** `authenticateToken`: 401 when there is no token, 403 when the verifier
      rejects it, otherwise continue with the verifier's claims. */
  function Authenticate(header: Option<string>, verify: Verifier): (g: Gate)
    ensures g.Deny? ==> g.status == Unauthorized || g.status == Forbidden
    ensures g == Deny(Unauthorized) <==> BearerToken(header).None?
    ensures g == Deny(Forbidden) <==> BearerToken(header).Some? && verify(BearerToken(header).value).None?
    ensures g.Pass? ==> Some(g.user) == verify(BearerToken(header).value)
  {
    match BearerToken(header)
    case None => Deny(Unauthorized)
    case Some(token) =>
      match verify(token)
      case None => Deny(Forbidden)
      case Some(claims) => Pass(claims)
  }

  /** Without a token the verifier is never consulted: any two verifiers give
      the same 401. */
  lemma MissingTokenIgnoresVerifier(header: Option<string>, v1: Verifier, v2: Verifier)
    requires BearerToken(header).None?
    ensures Authenticate(header, v1) == Authenticate(header, v2) == Deny(Unauthorized)
  {
  }

  /** `requireAdmin`: 403 unless the role claim is exactly "ADMIN". */
  function RequireAdmin(user: Claims): (g: Gate)
    ensures g.Pass? <==> user.role == Some(AdminRole)
    ensures g.Pass? ==> g.user == user
    ensures g.Deny? ==> g.status == Forbidden
  {
    if user.role != Some(AdminRole) then Deny(Forbidden) else Pass(user)
  }

  /** The admin routes: `authenticateToken` first, then `requireAdmin`. */
  function AdminGate(header: Option<string>, verify: Verifier): (g: Gate)
    ensures g.Pass? ==> g.user.role == Some(AdminRole) && g == Authenticate(header, verify)
    ensures g.Deny? ==> g.status == Unauthorized || g.status == Forbidden
    ensures Authenticate(header, verify).Deny? ==> g == Authenticate(header, verify)
  {
    match Authenticate(header, verify)
    case Pass(user) => RequireAdmin(user)
    case denied => denied
  }

  /** The order of the admin gates: a request without a token gets 401 (never
      403); a rejected token or a non-admin role gets 403; only a verified
      "ADMIN" role passes, carrying its claims. */
  lemma AdminGateOrder(header: Option<string>, verify: Verifier)
    ensures AdminGate(header, verify) == Deny(Unauthorized) <==> BearerToken(header).None?
    ensures AdminGate(header, verify).Pass? <==>
      BearerToken(header).Some? &&
      verify(BearerToken(header).value).Some? &&
      verify(BearerToken(header).value).value.role == Some(AdminRole)
    ensures AdminGate(header, verify).Pass? ==> Some(AdminGate(header, verify).user) == verify(BearerToken(header).value)
    ensures AdminGate(header, verify).Deny? ==>
      AdminGate(header, verify).status == Unauthorized || AdminGate(header, verify).status == Forbidden
  {
  }
}
