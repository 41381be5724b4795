/** The middleware of backend/src/middlewares/authMiddleware.js. Verifying a
    token is a parameter: `verify(token)` is the id in the token's payload, or
    `None` when the token does not verify. */
module AuthMiddleware {
  import opened Common
  import opened Text
  import opened Users
  import opened Access

  const TokenMissing := "Token não fornecido"
  const TokenInvalid := "Token inválido ou expirado"
  const UserInvalid := "Usuário inválido"
  const Restricted := "Acesso restrito"

  /** `const [, token] = header.split(' ')`: the second space-separated word,
      if the header has one. */
  function BearerToken(header: string): Option<string> {
    var words := Split(header, ' ');
    if |words| >= 2 then Some(words[1]) else None
  }

  /** For `Bearer <token>`, with no space inside either word, the token is
      the second word. */
  lemma BearerTokenOf(scheme: string, token: string)
    requires forall k :: 0 <= k < |scheme| ==> scheme[k] != ' '
    requires forall k :: 0 <= k < |token| ==> token[k] != ' '
    ensures BearerToken(scheme + " " + token) == Some(token)
  {
    var words := [scheme, token];
    assert Join(words[1..], ' ') == token;
    assert Join(words, ' ') == scheme + " " + token;
    SplitJoin(words, ' ');
  }

  /** A header without a space has no token. */
  lemma NoSpaceNoToken(header: string)
    requires forall k :: 0 <= k < |header| ==> header[k] != ' '
    ensures BearerToken(header) == None
  {
    SplitPiece(header, ' ');
  }

  /** `authMiddleware`: a missing or empty header is refused with "Token não
      fornecido"; a header without a second word, or whose token does not
      verify, with "Token inválido ou expirado"; a token whose id names no
      user, with "Usuário inválido". Otherwise the user is attached and the
      request goes on. Every refusal is a 401. */
  function Authenticate(header: Option<string>, verify: string -> Option<Id>, users: seq<Entry<User>>): (r: Outcome)
    ensures r.Next? || r.Unauthenticated?
    ensures r == Unauthenticated(TokenMissing) <==> header.None? || header.value == []
    ensures r == Unauthenticated(TokenInvalid) <==>
              && header.Some? && header.value != []
              && (BearerToken(header.value).None? || verify(BearerToken(header.value).value).None?)
    ensures r == Unauthenticated(UserInvalid) <==>
              && header.Some? && header.value != []
              && BearerToken(header.value).Some?
              && verify(BearerToken(header.value).value).Some?
              && FindById(users, verify(BearerToken(header.value).value).value).None?
    ensures r.Next? <==>
              && header.Some? && header.value != []
              && BearerToken(header.value).Some?
              && verify(BearerToken(header.value).value).Some?
              && FindById(users, verify(BearerToken(header.value).value).value).Some?
    ensures r.Next? ==> r.user in users && r.user.id == verify(BearerToken(header.value).value).value
  {
    if header.None? || header.value == [] then Unauthenticated(TokenMissing)
    else match BearerToken(header.value)
      case None => Unauthenticated(TokenInvalid)
      case Some(token) =>
        match verify(token)
        case None => Unauthenticated(TokenInvalid)
        case Some(id) =>
          match FindById(users, id)
          case None => Unauthenticated(UserInvalid)
          case Some(u) => Next(u)
  }

  /** A well-formed `Bearer` header whose token names a stored user lets
      that user through, whatever else the collection holds. */
  lemma BearerUserPasses(token: string, verify: string -> Option<Id>, users: seq<Entry<User>>, u: Entry<User>)
    requires forall k :: 0 <= k < |token| ==> token[k] != ' '
    requires verify(token) == Some(u.id)
    requires u in users
    requires forall k :: 0 <= k < |users| && users[k].id == u.id ==> users[k] == u
    ensures Authenticate(Some("Bearer " + token), verify, users) == Next(u)
  {
    BearerTokenOf("Bearer", token);
    assert "Bearer" + " " + token == "Bearer " + token;
  }

  /** `adminOnly`: 403 "Acesso restrito" exactly when the attached user is
      not an administrator; otherwise the request goes on with that user. */
  function AdminCheck(user: Entry<User>): (r: Outcome)
    ensures r == Forbidden(Restricted) <==> user.value.role != AdminRole
    ensures r == Next(user) <==> user.value.role == AdminRole
    ensures r.Next? || r.Forbidden?
  {
    if user.value.role != AdminRole then Forbidden(Restricted) else Next(user)
  }
}
