/** The account endpoints over a mutable store of accounts and of refresh
    tokens that have been revoked: `registrar`, `entrar`, `perfil` (GET and
    PATCH) and `sair`. Token issue, the password hash and the token check are
    parameters. */
module Accounts {
  import opened Common
  import opened Authentication

  const UsuarioCriadoMessage := "Usuário criado com sucesso!"
  const LoginRealizadoMessage := "Login realizado com sucesso!"
  const LogoutRealizadoMessage := "Logout realizado com sucesso!"
  const TokenInvalidoMessage := "Token inválido"
  const NotAuthenticatedMessage := "Authentication credentials were not provided."

  /** The pair of JWTs issued for an account. */
  datatype Tokens = Tokens(refresh: string, access: string)

  /** The JSON bodies the endpoints answer with. */
  datatype Body =
    | Sessao(mensagem: string, usuario: UsuarioView, tokens: Tokens)
    | Perfil(perfil: PerfilView)
    | Erros(errors: seq<FieldError>)
    | Mensagem(texto: string)
    | Erro(erro: string)
    | Detail(detail: string)
    /** The framework's page for an uncaught error. */
    | ServerErrorPage

  datatype Response = Response(status: nat, body: Body)

  /** What `IsAuthenticated` answers to a caller it refuses. */
  const Unauthorized := Response(401, Detail(NotAuthenticatedMessage))

  /** What the framework answers when a view raises. */
  const ServerFailure := Response(500, ServerErrorPage)

  /** The account with this id. */
  function UserById(users: seq<User>, id: nat): (r: Option<User>)
    ensures r.Some? ==> r.value in users && r.value.id == id
    ensures r.None? <==> forall u :: u in users ==> u.id != id
  {
    FindFirst(users, (u: User) => u.id == id)
  }

  /** The caller presented a token for an account that exists and is active.
      `caller` is the account id the access token names, `None` without one. */
  predicate Authenticated(users: seq<User>, caller: Option<nat>): (r: bool)
    ensures r ==> caller.Some? && exists u :: u in users && u.id == caller.value && u.isActive
    ensures UniqueUserIds(users) && caller.Some? && (exists u :: u in users && u.id == caller.value && u.isActive) ==> r
  {
    caller.Some? && (UserByIdAll(users, caller.value);
      UserById(users, caller.value).Some? && UserById(users, caller.value).value.isActive)
  }

  /** Under unique ids, every account holding the id is the one found. */
  lemma UserByIdAll(users: seq<User>, id: nat)
    ensures UniqueUserIds(users) ==> forall u :: u in users && u.id == id ==> UserById(users, id) == Some(u)
  {
    if UniqueUserIds(users) {
      forall u | u in users && u.id == id ensures UserById(users, id) == Some(u) {
        var found := UserById(users, id).value;
        var i :| 0 <= i < |users| && users[i] == found;
        var j :| 0 <= j < |users| && users[j] == u;
        assert i == j;
      }
    }
  }

  /** `sair` once the caller is authenticated, as a function of the revoked
      tokens: no token (or an empty one) is a success that changes nothing; a
      token is revoked when it parses (`tokenAccepted`) and is not already
      revoked; anything else is the 400 answer. */
  function SairOutcome(refresh: Option<string>, blacklist: set<string>, tokenAccepted: string -> bool): (out: (Response, set<string>))
    ensures refresh.None? || refresh.value == "" ==> out == (Response(200, Mensagem(LogoutRealizadoMessage)), blacklist)
    ensures refresh.Some? && refresh.value != "" ==>
      (out.0.status == 200 <==> tokenAccepted(refresh.value) && refresh.value !in blacklist)
    ensures out.0.status == 200 ==> (out.0.body == Mensagem(LogoutRealizadoMessage)
      && out.1 == blacklist + (if refresh.Some? && refresh.value != "" then {refresh.value} else {}))
    ensures out.0.status != 200 ==> out == (Response(400, Erro(TokenInvalidoMessage)), blacklist)
  {
    if refresh.Some? && refresh.value != "" then
      if tokenAccepted(refresh.value) && refresh.value !in blacklist then
        (Response(200, Mensagem(LogoutRealizadoMessage)), blacklist + {refresh.value})
      else (Response(400, Erro(TokenInvalidoMessage)), blacklist)
    else (Response(200, Mensagem(LogoutRealizadoMessage)), blacklist)
  }

  /** A refresh token revoked by a logout cannot log out again. */
  lemma SairTwiceFails(t: string, blacklist: set<string>, tokenAccepted: string -> bool)
    requires t != "" && SairOutcome(Some(t), blacklist, tokenAccepted).0.status == 200
    ensures var after := SairOutcome(Some(t), blacklist, tokenAccepted).1;
      SairOutcome(Some(t), after, tokenAccepted).0 == Response(400, Erro(TokenInvalidoMessage))
  {
  }

  /** Logging out never takes a token off the revoked set. */
  lemma SairOnlyRevokes(refresh: Option<string>, blacklist: set<string>, tokenAccepted: string -> bool)
    ensures blacklist <= SairOutcome(refresh, blacklist, tokenAccepted).1
    ensures |SairOutcome(refresh, blacklist, tokenAccepted).1 - blacklist| <= 1
  {
    var after := SairOutcome(refresh, blacklist, tokenAccepted).1;
    if refresh.Some? && refresh.value != "" && after != blacklist {
      assert after - blacklist == {refresh.value};
    } else {
      assert after - blacklist == {};
    }
  }

  /** Replacing an account by one with the same id and username keeps ids and
      usernames unique. */
  lemma ReplaceUserKeepsUnique(users: seq<User>, k: nat, u: User)
    requires k < |users| && UniqueUserIds(users) && UniqueUsernames(users)
    requires u.id == users[k].id && u.username == users[k].username
    ensures UniqueUserIds(users[k := u]) && UniqueUsernames(users[k := u])
  {
  }

  /** Adding an account with a fresh id and a free username keeps them unique. */
  lemma AppendUserKeepsUnique(users: seq<User>, u: User)
    requires UniqueUserIds(users) && UniqueUsernames(users)
    requires forall x :: x in users ==> x.id != u.id && x.username != u.username
    ensures UniqueUserIds(users + [u]) && UniqueUsernames(users + [u])
  {
    var all := users + [u];
    forall i, j | 0 <= i < j < |all| ensures all[i].id != all[j].id && all[i].username != all[j].username {
      if j == |users| { assert all[i] in users; }
    }
  }

  class AccountStore {
    var users: seq<User>
    /** Refresh tokens revoked by `sair`. */
    var blacklist: set<string>
    var nextUserId: nat

    ghost predicate Valid()
      reads this
    {
      && UniqueUserIds(users)
      && UniqueUsernames(users)
      && forall u :: u in users ==> u.id < nextUserId
    }

    constructor ()
      ensures Valid() && users == [] && blacklist == {}
    {
      users := [];
      blacklist := {};
      nextUserId := 0;
    }

    /** `registrar`: 201 with the new account and its tokens, else 400 with the
        errors. `hashed` is the stored form of the password, `tokens` the pair
        issued for the new account, `now` the registration time. A payload
        whose normalised username is already stored passes the serializer but
        breaks the table's unique constraint on insert: the error is not
        caught, so the answer is the framework's 500 and nothing is stored. */
    method Registrar(input: RegistroInput, b: Backend, now: int, hashed: string, tokens: Tokens) returns (resp: Response)
      requires Valid()
      modifies this
      ensures Valid()
      ensures blacklist == old(blacklist)
      ensures var errs := ValidateRegistro(input, old(users), b);
        && (errs != [] ==> resp == Response(400, Erros(errs)) && users == old(users))
        && (errs == [] && b.normalizeUsername(input.username.value) in UsernamesOf(old(users)) ==>
              resp == ServerFailure && users == old(users))
        && (errs == [] && b.normalizeUsername(input.username.value) !in UsernamesOf(old(users)) ==>
              (var u := NewUser(old(nextUserId), input, now, hashed, b);
              users == old(users) + [u] && (forall x :: x in old(users) ==> x.id != u.id)
              && resp == Response(201, Sessao(UsuarioCriadoMessage, ToUsuarioView(u), tokens))))
    {
      var errs := ValidateRegistro(input, users, b);
      if errs != [] {
        return Response(400, Erros(errs));
      }
      if b.normalizeUsername(input.username.value) in UsernamesOf(users) {
        return ServerFailure;
      }
      var u := NewUser(nextUserId, input, now, hashed, b);
      AppendUserKeepsUnique(users, u);
      users := users + [u];
      nextUserId := nextUserId + 1;
      resp := Response(201, Sessao(UsuarioCriadoMessage, ToUsuarioView(u), tokens));
    }

    /** `entrar`: 200 with the account and its tokens, else 400 with the errors.
        Nothing is stored. */
    function Entrar(input: LoginInput, b: Backend, tokens: Tokens): (resp: Response)
      reads this
      ensures resp.status == 200 || (resp.status == 400 && resp.body.Erros?)
      ensures ValidateLogin(input, users, b).Err? ==>
        resp == Response(400, Erros(ErrorsOf(ValidateLogin(input, users, b))))
      ensures ValidateLogin(input, users, b).Ok? ==>
        resp == Response(200, Sessao(LoginRealizadoMessage, ToUsuarioView(ValidateLogin(input, users, b).value), tokens))
      ensures resp.status == 200 ==> (resp.body.Sessao? && resp.body.mensagem == LoginRealizadoMessage
        && resp.body.tokens == tokens
        && exists u :: u in users && u.isActive && Some(u.username) == input.nomeUsuario
             && resp.body.usuario == ToUsuarioView(u))
      ensures (UniqueUsernames(users) && input.nomeUsuario.Some? && input.nomeUsuario.value != ""
        && input.senha.Some? && input.senha.value != "") ==>
        (resp.status == 200 <==> exists u :: (u in users && u.username == input.nomeUsuario.value && u.isActive
          && b.checkPassword(input.senha.value, u.passwordHash)))
    {
      match ValidateLogin(input, users, b)
      case Ok(u) => Response(200, Sessao(LoginRealizadoMessage, ToUsuarioView(u), tokens))
      case Err(e) => Response(400, Erros(ErrorsOf<User>(Err(e))))
    }

    /** `perfil` GET: the caller's own profile, or 401. */
    function PerfilGet(caller: Option<nat>): (resp: Response)
      reads this
      ensures !Authenticated(users, caller) ==> resp == Unauthorized
      ensures Authenticated(users, caller) ==> (resp.status == 200 && resp.body.Perfil?
        && exists u :: u in users && u.id == caller.value && resp.body.perfil == ToPerfilView(u))
    {
      if Authenticated(users, caller) then Response(200, Perfil(ToPerfilView(UserById(users, caller.value).value)))
      else Unauthorized
    }

    /** `perfil` PATCH: the caller's own account takes the submitted writable
        fields, or 400 with the errors, or 401. */
    method PerfilPatch(caller: Option<nat>, input: PerfilInput, b: Backend) returns (resp: Response)
      requires Valid()
      modifies this
      ensures Valid()
      ensures blacklist == old(blacklist) && nextUserId == old(nextUserId)
      ensures !Authenticated(old(users), caller) ==> resp == Unauthorized && users == old(users)
      ensures Authenticated(old(users), caller) && ValidatePerfil(input, b) != [] ==>
        resp == Response(400, Erros(ValidatePerfil(input, b))) && users == old(users)
      ensures Authenticated(old(users), caller) && ValidatePerfil(input, b) == [] ==>
        exists k :: 0 <= k < |old(users)| && old(users)[k].id == caller.value
          && users == old(users)[k := ApplyPerfil(old(users)[k], input)]
          && resp == Response(200, Perfil(ToPerfilView(users[k])))
    {
      if !Authenticated(users, caller) {
        return Unauthorized;
      }
      var errs := ValidatePerfil(input, b);
      if errs != [] {
        return Response(400, Erros(errs));
      }
      var k :| 0 <= k < |users| && users[k] == UserById(users, caller.value).value;
      var u := ApplyPerfil(users[k], input);
      ReplaceUserKeepsUnique(users, k, u);
      users := users[k := u];
      resp := Response(200, Perfil(ToPerfilView(u)));
    }

    /** `sair`: 401 for an unauthenticated caller; otherwise `SairOutcome`. */
    method Sair(caller: Option<nat>, refresh: Option<string>, tokenAccepted: string -> bool) returns (resp: Response)
      requires Valid()
      modifies this
      ensures Valid()
      ensures users == old(users) && nextUserId == old(nextUserId)
      ensures !Authenticated(users, caller) ==> resp == Unauthorized && blacklist == old(blacklist)
      ensures Authenticated(users, caller) ==> (resp, blacklist) == SairOutcome(refresh, old(blacklist), tokenAccepted)
    {
      if !Authenticated(users, caller) {
        return Unauthorized;
      }
      var out := SairOutcome(refresh, blacklist, tokenAccepted);
      resp := out.0;
      blacklist := out.1;
    }
  }
}
