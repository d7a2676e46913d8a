/** The account side: the `User` record, the three serializers (registration,
    login, profile) and the backend lookup behind `authenticate`. Password
    hashing, the username pattern and the email format are opaque: they are
    parameters. */
module Authentication {
  import opened Common
  import opened Text

  const MinSenha := 8
  /** Django's `User` bounds: username, first and last name 150, email 254. */
  const MaxUsername := 150
  const MaxNomePessoa := 150
  const MaxEmail := 254

  const EmailEmUsoMessage := "Este email já está em uso."
  const UsernameEmUsoMessage := "Este nome de usuário já está em uso."
  /** The unique-error message Django's `User.username` declares. */
  const UsernameExisteMessage := "A user with that username already exists."
  const SenhasDiferentesMessage := "As senhas não coincidem."
  const CredenciaisInvalidasMessage := "Credenciais inválidas."
  const UsuarioInativoMessage := "Usuário inativo."
  const CamposObrigatoriosMessage := "Nome de usuário e senha são obrigatórios."
  const InvalidUsernameMessage := "Enter a valid username. This value may contain only letters, numbers, and @/./+/-/_ characters."

  /** One account. `passwordHash` is what `create_user` stored for the password. */
  datatype User = User(
    id: nat,
    username: string,
    email: string,
    firstName: string,
    lastName: string,
    isActive: bool,
    dateJoined: int,
    passwordHash: string)

  /** The `usuario` object of the registration and login responses. */
  datatype UsuarioView = UsuarioView(
    id: nat,
    nomeUsuario: string,
    email: string,
    primeiroNome: string,
    ultimoNome: string)

  /** What `UsuarioPerfilSerializer` emits. */
  datatype PerfilView = PerfilView(
    id: nat,
    username: string,
    email: string,
    firstName: string,
    lastName: string,
    dateJoined: int)

  /** The opaque parts of the account checks: the username pattern of Django's
      `User`, the email format, the password check against a stored hash,
      whether the authentication backend also accepts inactive accounts (the
      default `ModelBackend` does not), and the two text maps `create_user`
      applies: NFKC normalisation of the username and Python's `str.lower`. */
  datatype Backend = Backend(
    usernameOk: string -> bool,
    emailOk: string -> bool,
    checkPassword: (string, string) -> bool,
    allowInactive: bool,
    normalizeUsername: string -> string,
    lower: string -> string)

  function ToUsuarioView(u: User): (v: UsuarioView)
    ensures v.id == u.id && v.nomeUsuario == u.username && v.email == u.email
    ensures v.primeiroNome == u.firstName && v.ultimoNome == u.lastName
  {
    UsuarioView(u.id, u.username, u.email, u.firstName, u.lastName)
  }

  /** Exactly the six profile fields; the password hash and the active flag never leave. */
  function ToPerfilView(u: User): (v: PerfilView)
    ensures v.id == u.id && v.username == u.username && v.email == u.email
    ensures v.firstName == u.firstName && v.lastName == u.lastName && v.dateJoined == u.dateJoined
  {
    PerfilView(u.id, u.username, u.email, u.firstName, u.lastName, u.dateJoined)
  }

  /** Two accounts that differ only in password or active flag look the same on the profile. */
  lemma PerfilHidesSecrets(u: User, hash: string, active: bool)
    ensures ToPerfilView(u.(passwordHash := hash, isActive := active)) == ToPerfilView(u)
    ensures ToUsuarioView(u.(passwordHash := hash, isActive := active)) == ToUsuarioView(u)
  {
  }

  // ---------------------------------------------------------------------------
  // Lookups

  /** The first account with this username. */
  function FindByUsername(users: seq<User>, username: string): (r: Option<User>)
    ensures r.Some? ==> r.value in users && r.value.username == username
    ensures r.None? <==> forall u :: u in users ==> u.username != username
  {
    FindFirst(users, (u: User) => u.username == username)
  }

  /** Usernames, and ids, name at most one account. */
  predicate UniqueUsernames(users: seq<User>) {
    forall i, j :: 0 <= i < j < |users| ==> users[i].username != users[j].username
  }

  predicate UniqueUserIds(users: seq<User>) {
    forall i, j :: 0 <= i < j < |users| ==> users[i].id != users[j].id
  }

  /** With unique usernames the lookup finds exactly the account that holds the name. */
  lemma FindByUsernameUnique(users: seq<User>, u: User)
    requires UniqueUsernames(users) && u in users
    ensures FindByUsername(users, u.username) == Some(u)
  {
    var found := FindByUsername(users, u.username).value;
    var i :| 0 <= i < |users| && users[i] == found;
    var j :| 0 <= j < |users| && users[j] == u;
    assert i == j;
  }

  /** Under unique usernames, every account holding the name is the one found. */
  lemma FindByUsernameAll(users: seq<User>, username: string)
    ensures UniqueUsernames(users) ==>
      forall u :: u in users && u.username == username ==> FindByUsername(users, username) == Some(u)
  {
    if UniqueUsernames(users) {
      forall u | u in users && u.username == username ensures FindByUsername(users, username) == Some(u) {
        FindByUsernameUnique(users, u);
      }
    }
  }

  /** `authenticate(username=..., password=...)` with the model backend: the
      account with that username whose stored hash accepts the password and
      which the backend lets in. */
  function Authenticate(users: seq<User>, username: string, password: string, b: Backend): (r: Option<User>)
    ensures r.Some? ==> (r.value in users && r.value.username == username
      && b.checkPassword(password, r.value.passwordHash) && (b.allowInactive || r.value.isActive))
    ensures r.None? && UniqueUsernames(users) ==> forall u :: u in users && u.username == username ==>
      !b.checkPassword(password, u.passwordHash) || (!b.allowInactive && !u.isActive)
  {
    FindByUsernameAll(users, username);
    match FindByUsername(users, username)
    case None => None
    case Some(u) =>
      if b.checkPassword(password, u.passwordHash) && (b.allowInactive || u.isActive) then Some(u) else None
  }

  // ---------------------------------------------------------------------------
  // Registration: UsuarioRegistroSerializer

  /** A registration payload; `None` is a field left out of the request. */
  datatype RegistroInput = RegistroInput(
    username: Option<string>,
    email: Option<string>,
    firstName: Option<string>,
    lastName: Option<string>,
    senha: Option<string>,
    confirmarSenha: Option<string>)

  function EmailsOf(users: seq<User>): (s: set<string>)
    ensures forall e :: e in s <==> exists u :: u in users && u.email == e
  {
    set u | u in users :: u.email
  }

  function UsernamesOf(users: seq<User>): (s: set<string>)
    ensures forall n :: n in s <==> exists u :: u in users && u.username == n
  {
    set u | u in users :: u.username
  }

  /** `validate_username`: the serializer's own check that the name is free. */
  function ValidateUsername(value: string, taken: set<string>): (r: Result<string>)
    ensures r.Ok? <==> value !in taken
    ensures r.Ok? ==> r.value == value
    ensures r.Err? ==> r == Invalid("username", UsernameEmUsoMessage)
  {
    if value in taken then Invalid("username", UsernameEmUsoMessage) else Ok(value)
  }

  /** The `username` field the model serializer builds from `User.username`:
      required and not blank; then every validator of the field runs and their
      errors are collected, in the order the field lists them: the username
      pattern, the unique validator, the 150 bound. Only when all of them pass
      does `validate_username` run. */
  function UsernameErrors(v: Option<string>, taken: set<string>, usernameOk: string -> bool): (errs: seq<FieldError>)
    ensures |errs| <= 3 && forall e :: e in errs ==> e.field == "username"
    ensures errs == [] <==> v.Some? && 0 < |v.value| <= MaxUsername && usernameOk(v.value) && v.value !in taken
    ensures v.Some? && v.value != "" && v.value in taken ==> FieldError("username", UsernameExisteMessage) in errs
    ensures v.Some? && v.value in taken && 0 < |v.value| <= MaxUsername && usernameOk(v.value) ==>
      errs == [FieldError("username", UsernameExisteMessage)]
    ensures FieldError("username", UsernameEmUsoMessage) !in errs
  {
    match v
    case None => [FieldError("username", RequiredMessage)]
    case Some(s) =>
      if s == "" then [FieldError("username", BlankMessage)]
      else
        var validators :=
          (if !usernameOk(s) then [FieldError("username", InvalidUsernameMessage)] else [])
          + (if s in taken then [FieldError("username", UsernameExisteMessage)] else [])
          + (if |s| > MaxUsername then [FieldError("username", MaxLengthMessage(MaxUsername))] else []);
        if validators != [] then validators else ErrorsOf(ValidateUsername(s, taken))
  }

  /** The unique validator rejects a taken name before `validate_username`
      runs, so the serializer's own message for a taken name never reaches the
      response. */
  lemma ValidateUsernameNeverAnswers(input: RegistroInput, users: seq<User>, b: Backend)
    ensures FieldError("username", UsernameEmUsoMessage) !in ValidateRegistro(input, users, b)
  {
    var e := FieldError("username", UsernameEmUsoMessage);
    var fieldErrs := RegistroFieldErrors(input, users, b);
    if fieldErrs != [] {
      var u := UsernameErrors(input.username, UsernamesOf(users), b.usernameOk);
      var email := EmailErrors(input.email, EmailsOf(users), b.emailOk);
      var first := NomePessoaErrors("first_name", input.firstName);
      var last := NomePessoaErrors("last_name", input.lastName);
      var senha := SenhaErrors(input.senha);
      var confirmar := ConfirmarSenhaErrors(input.confirmarSenha);
      assert fieldErrs == u + email + first + last + senha + confirmar;
      assert e !in u;
      assert e !in email + first + last + senha + confirmar;
    }
  }

  /** Optional and blank-allowed; a non-empty value must be a valid address
      within 254. Whatever is sent, even the empty text, must not be the email
      of an existing account. */
  function EmailErrors(v: Option<string>, taken: set<string>, emailOk: string -> bool): (errs: seq<FieldError>)
    ensures |errs| <= 1 && forall e :: e in errs ==> e.field == "email"
    ensures errs == [] <==> v.None? || ((v.value != "" ==> |v.value| <= MaxEmail && emailOk(v.value)) && v.value !in taken)
    ensures v.Some? && v.value in taken && (v.value != "" ==> |v.value| <= MaxEmail && emailOk(v.value)) ==>
      errs == [FieldError("email", EmailEmUsoMessage)]
  {
    match v
    case None => []
    case Some(s) =>
      if s != "" && |s| > MaxEmail then [FieldError("email", MaxLengthMessage(MaxEmail))]
      else if s != "" && !emailOk(s) then [FieldError("email", InvalidEmailMessage)]
      else if s in taken then [FieldError("email", EmailEmUsoMessage)]
      else []
  }

  /** `first_name` and `last_name`: optional, blank allowed, at most 150. */
  function NomePessoaErrors(field: string, v: Option<string>): (errs: seq<FieldError>)
    ensures |errs| <= 1 && forall e :: e in errs ==> e.field == field
    ensures errs == [] <==> v.None? || |v.value| <= MaxNomePessoa
  {
    if v.Some? && |v.value| > MaxNomePessoa then [FieldError(field, MaxLengthMessage(MaxNomePessoa))] else []
  }

  /** `senha`: required, not blank, at least 8 characters. */
  function SenhaErrors(v: Option<string>): (errs: seq<FieldError>)
    ensures |errs| <= 1 && forall e :: e in errs ==> e.field == "senha"
    ensures errs == [] <==> v.Some? && |v.value| >= MinSenha
  {
    match v
    case None => [FieldError("senha", RequiredMessage)]
    case Some(s) =>
      if s == "" then [FieldError("senha", BlankMessage)]
      else if |s| < MinSenha then [FieldError("senha", MinLengthMessage(MinSenha))]
      else []
  }

  /** `confirmar_senha`: required and not blank. */
  function ConfirmarSenhaErrors(v: Option<string>): (errs: seq<FieldError>)
    ensures |errs| <= 1 && forall e :: e in errs ==> e.field == "confirmar_senha"
    ensures errs == [] <==> v.Some? && v.value != ""
  {
    match v
    case None => [FieldError("confirmar_senha", RequiredMessage)]
    case Some(s) => if s == "" then [FieldError("confirmar_senha", BlankMessage)] else []
  }

  /** Every rule of the registration serializer holds. */
  predicate RegistroAcceptable(input: RegistroInput, users: seq<User>, b: Backend) {
    && input.username.Some? && 0 < |input.username.value| <= MaxUsername && b.usernameOk(input.username.value)
    && (forall u :: u in users ==> u.username != input.username.value)
    && (input.email.Some? ==> (input.email.value != "" ==> |input.email.value| <= MaxEmail && b.emailOk(input.email.value))
                              && forall u :: u in users ==> u.email != input.email.value)
    && (input.firstName.Some? ==> |input.firstName.value| <= MaxNomePessoa)
    && (input.lastName.Some? ==> |input.lastName.value| <= MaxNomePessoa)
    && input.senha.Some? && |input.senha.value| >= MinSenha
    && input.confirmarSenha.Some? && input.confirmarSenha.value == input.senha.value
  }

  function RegistroFieldErrors(input: RegistroInput, users: seq<User>, b: Backend): seq<FieldError> {
    UsernameErrors(input.username, UsernamesOf(users), b.usernameOk)
      + EmailErrors(input.email, EmailsOf(users), b.emailOk)
      + NomePessoaErrors("first_name", input.firstName)
      + NomePessoaErrors("last_name", input.lastName)
      + SenhaErrors(input.senha)
      + ConfirmarSenhaErrors(input.confirmarSenha)
  }

  /** `is_valid` on the registration payload: the field errors in field order;
      only when every field passes does `validate` compare the two passwords. */
  function ValidateRegistro(input: RegistroInput, users: seq<User>, b: Backend): (errs: seq<FieldError>)
    ensures errs == [] <==> RegistroAcceptable(input, users, b)
    ensures RegistroFieldErrors(input, users, b) == [] && errs != [] ==>
      errs == [FieldError(NonFieldErrors, SenhasDiferentesMessage)]
    ensures RegistroFieldErrors(input, users, b) != [] ==> errs == RegistroFieldErrors(input, users, b)
  {
    var fieldErrs := RegistroFieldErrors(input, users, b);
    if fieldErrs != [] then fieldErrs
    else if input.senha.value != input.confirmarSenha.value then [FieldError(NonFieldErrors, SenhasDiferentesMessage)]
    else []
  }

  /** An existing username or email always fails registration, whatever else is sent. */
  lemma RegistroRejectsTaken(input: RegistroInput, users: seq<User>, b: Backend, u: User)
    requires u in users
    requires (input.username.Some? && input.username.value == u.username)
          || (input.email.Some? && input.email.value == u.email)
    ensures ValidateRegistro(input, users, b) != []
  {
  }

  /** The position of the last `@` in `s`. */
  function LastAt(s: string): (i: Option<nat>)
    ensures i.Some? ==> i.value < |s| && s[i.value] == '@' && '@' !in s[i.value + 1..]
    ensures i.None? <==> '@' !in s
  {
    if s == [] then None
    else if s[|s| - 1] == '@' then Some(|s| - 1)
    else
      var i := LastAt(s[..|s| - 1]);
      assert s == s[..|s| - 1] + [s[|s| - 1]];
      i
  }

  /** `BaseUserManager.normalize_email`: the address stripped of surrounding
      whitespace with the part after its last `@` lower-cased; an address
      without `@` is kept exactly as sent, whitespace included. */
  function NormalizeEmail(email: string, lower: string -> string): (r: string)
    ensures '@' !in Strip(email) ==> r == email
    ensures '@' in Strip(email) ==>
      exists i :: (0 <= i < |Strip(email)| && Strip(email)[i] == '@' && '@' !in Strip(email)[i + 1..]
                   && r == Strip(email)[..i + 1] + lower(Strip(email)[i + 1..]))
  {
    var t := Strip(email);
    match LastAt(t)
    case None => email
    case Some(i) => t[..i + 1] + lower(t[i + 1..])
  }

  /** `create`: `confirmar_senha` is dropped and `create_user` stores the rest,
      with the username normalised and the email through `normalize_email`; an
      omitted email or name is stored empty and the account starts active.
      `hashed` is the stored form of the password. */
  function NewUser(id: nat, input: RegistroInput, now: int, hashed: string, b: Backend): (u: User)
    requires input.username.Some?
    ensures u.id == id && u.username == b.normalizeUsername(input.username.value) && u.isActive && u.dateJoined == now
    ensures u.email == (if input.email.Some? then NormalizeEmail(input.email.value, b.lower) else "")
    ensures u.firstName == (if input.firstName.Some? then input.firstName.value else "")
    ensures u.lastName == (if input.lastName.Some? then input.lastName.value else "")
    ensures u.passwordHash == hashed
  {
    User(id, b.normalizeUsername(input.username.value),
      if input.email.Some? then NormalizeEmail(input.email.value, b.lower) else "",
      if input.firstName.Some? then input.firstName.value else "",
      if input.lastName.Some? then input.lastName.value else "",
      true, now, hashed)
  }

  // ---------------------------------------------------------------------------
  // Login: UsuarioLoginSerializer

  datatype LoginInput = LoginInput(nomeUsuario: Option<string>, senha: Option<string>)

  /** `UsuarioLoginSerializer.validate`: both values must be non-empty, the
      backend must return an account, and the account must be active. */
  function CheckCredentials(username: string, senha: string, users: seq<User>, b: Backend): (r: Result<User>)
    ensures username == "" || senha == "" ==> r == Invalid(NonFieldErrors, CamposObrigatoriosMessage)
    ensures username != "" && senha != "" && Authenticate(users, username, senha, b).None? ==>
      r == Invalid(NonFieldErrors, CredenciaisInvalidasMessage)
    ensures (username != "" && senha != "" && Authenticate(users, username, senha, b).Some?
             && !Authenticate(users, username, senha, b).value.isActive) ==>
      r == Invalid(NonFieldErrors, UsuarioInativoMessage)
    ensures (username != "" && senha != "" && Authenticate(users, username, senha, b).Some?
             && Authenticate(users, username, senha, b).value.isActive) ==>
      r == Ok(Authenticate(users, username, senha, b).value)
    ensures r.Ok? ==> Authenticate(users, username, senha, b) == Some(r.value) && r.value.isActive
  {
    if username != "" && senha != "" then
      match Authenticate(users, username, senha, b)
      case None => Invalid(NonFieldErrors, CredenciaisInvalidasMessage)
      case Some(u) => if !u.isActive then Invalid(NonFieldErrors, UsuarioInativoMessage) else Ok(u)
    else Invalid(NonFieldErrors, CamposObrigatoriosMessage)
  }

  /** The two required, non-blank `CharField`s. */
  function LoginFieldErrors(input: LoginInput): (errs: seq<FieldError>)
    ensures errs == [] <==> input.nomeUsuario.Some? && input.nomeUsuario.value != "" && input.senha.Some? && input.senha.value != ""
  {
    (match input.nomeUsuario
     case None => [FieldError("nome_usuario", RequiredMessage)]
     case Some(s) => if s == "" then [FieldError("nome_usuario", BlankMessage)] else [])
    + (match input.senha
       case None => [FieldError("senha", RequiredMessage)]
       case Some(s) => if s == "" then [FieldError("senha", BlankMessage)] else [])
  }

  /** `is_valid` on the login payload: field checks, then `validate`. The
      result is the account the login is for. */
  function ValidateLogin(input: LoginInput, users: seq<User>, b: Backend): (r: Result<User>)
    ensures LoginFieldErrors(input) != [] ==> r == Err(ValidationError(LoginFieldErrors(input)))
    ensures LoginFieldErrors(input) == [] ==> r == CheckCredentials(input.nomeUsuario.value, input.senha.value, users, b)
    ensures r.Ok? ==> (input.senha.Some? && r.value in users && Some(r.value.username) == input.nomeUsuario
      && r.value.isActive && b.checkPassword(input.senha.value, r.value.passwordHash))
    ensures (UniqueUsernames(users) && input.nomeUsuario.Some? && input.nomeUsuario.value != ""
      && input.senha.Some? && input.senha.value != "") ==>
      (r.Ok? <==> exists u :: (u in users && u.username == input.nomeUsuario.value && u.isActive
        && b.checkPassword(input.senha.value, u.passwordHash)))
  {
    var errs := LoginFieldErrors(input);
    if errs != [] then Err(ValidationError(errs))
    else CheckCredentials(input.nomeUsuario.value, input.senha.value, users, b)
  }

  /** The `else` branch of `validate` cannot be reached through the serializer:
      the field checks already reject a missing or empty value. */
  lemma LoginNeverReportsMissingPair(input: LoginInput, users: seq<User>, b: Backend)
    ensures ValidateLogin(input, users, b) != Invalid(NonFieldErrors, CamposObrigatoriosMessage)
  {
    var errs := LoginFieldErrors(input);
    if errs != [] {
      assert errs[0].field != NonFieldErrors;
    } else {
      var r := CheckCredentials(input.nomeUsuario.value, input.senha.value, users, b);
      assert r.Err? ==> r.error.errors[0].message != CamposObrigatoriosMessage;
    }
  }

  /** With the default backend an inactive account is refused as bad credentials;
      "Usuário inativo." is reported only by a backend that lets inactive
      accounts through. */
  lemma InactiveReportedOnlyWithPermissiveBackend(input: LoginInput, users: seq<User>, b: Backend)
    ensures ValidateLogin(input, users, b) == Invalid(NonFieldErrors, UsuarioInativoMessage) ==> b.allowInactive
  {
    var errs := LoginFieldErrors(input);
    if errs != [] {
      assert errs[0].field != NonFieldErrors;
    } else {
      var r := CheckCredentials(input.nomeUsuario.value, input.senha.value, users, b);
      var a := Authenticate(users, input.nomeUsuario.value, input.senha.value, b);
      assert a.Some? && !b.allowInactive ==> r.Ok?;
    }
  }

  /** A backend that lets inactive accounts through makes an inactive
      account's correct credentials answer "Usuário inativo.". */
  lemma InactiveReportedWithPermissiveBackend(users: seq<User>, u: User, senha: string, b: Backend)
    requires UniqueUsernames(users) && u in users && u.username != "" && senha != ""
    requires b.allowInactive && !u.isActive && b.checkPassword(senha, u.passwordHash)
    ensures ValidateLogin(LoginInput(Some(u.username), Some(senha)), users, b) == Invalid(NonFieldErrors, UsuarioInativoMessage)
  {
    FindByUsernameUnique(users, u);
  }

  /** An account just stored can log in under the username it is stored with
      (the normalised one) and the password it registered with. */
  lemma RegisteredCanLogIn(users: seq<User>, input: RegistroInput, b: Backend, id: nat, now: int, hashed: string)
    requires UniqueUsernames(users)
    requires RegistroAcceptable(input, users, b)
    requires b.checkPassword(input.senha.value, hashed)
    requires forall u :: u in users ==> u.username != b.normalizeUsername(input.username.value)
    requires b.normalizeUsername(input.username.value) != ""
    ensures var u := NewUser(id, input, now, hashed, b);
      ValidateLogin(LoginInput(Some(u.username), input.senha), users + [u], b) == Ok(u)
  {
    var u := NewUser(id, input, now, hashed, b);
    var all := users + [u];
    assert UniqueUsernames(all) by {
      forall i, j | 0 <= i < j < |all| ensures all[i].username != all[j].username {
        if j == |users| { assert all[i] in users; }
      }
    }
    assert u in all;
    FindByUsernameUnique(all, u);
  }

  // ---------------------------------------------------------------------------
  // Profile: UsuarioPerfilSerializer

  /** A profile PATCH payload. `id`, `username` and `date_joined` are read-only:
      they may be sent, and they are ignored. */
  datatype PerfilInput = PerfilInput(
    id: Option<int>,
    username: Option<string>,
    email: Option<string>,
    firstName: Option<string>,
    lastName: Option<string>,
    dateJoined: Option<int>)

  /** The writable fields' errors, in field order. The email is not checked
      against other accounts here. */
  function ValidatePerfil(input: PerfilInput, b: Backend): (errs: seq<FieldError>)
    ensures errs == [] <==>
      && (input.email.Some? && input.email.value != "" ==> |input.email.value| <= MaxEmail && b.emailOk(input.email.value))
      && (input.firstName.Some? ==> |input.firstName.value| <= MaxNomePessoa)
      && (input.lastName.Some? ==> |input.lastName.value| <= MaxNomePessoa)
    ensures forall e :: e in errs ==> e.field in {"email", "first_name", "last_name"}
  {
    EmailErrors(input.email, {}, b.emailOk)
      + NomePessoaErrors("first_name", input.firstName)
      + NomePessoaErrors("last_name", input.lastName)
  }

  /** The account after a validated profile PATCH: the submitted writable fields
      replace the stored ones; nothing else changes. */
  function ApplyPerfil(u: User, input: PerfilInput): (v: User)
    ensures v.id == u.id && v.username == u.username && v.dateJoined == u.dateJoined
    ensures v.isActive == u.isActive && v.passwordHash == u.passwordHash
    ensures v.email == (if input.email.Some? then input.email.value else u.email)
    ensures v.firstName == (if input.firstName.Some? then input.firstName.value else u.firstName)
    ensures v.lastName == (if input.lastName.Some? then input.lastName.value else u.lastName)
  {
    u.(email := if input.email.Some? then input.email.value else u.email,
       firstName := if input.firstName.Some? then input.firstName.value else u.firstName,
       lastName := if input.lastName.Some? then input.lastName.value else u.lastName)
  }

  /** The read-only fields of the payload have no effect. */
  lemma PerfilIgnoresReadOnly(u: User, input: PerfilInput, id: Option<int>, username: Option<string>, dateJoined: Option<int>, b: Backend)
    ensures ApplyPerfil(u, input.(id := id, username := username, dateJoined := dateJoined)) == ApplyPerfil(u, input)
    ensures ValidatePerfil(input.(id := id, username := username, dateJoined := dateJoined), b) == ValidatePerfil(input, b)
  {
  }

  /** Sending the same PATCH twice leaves the account as the first one did. */
  lemma ApplyPerfilIdempotent(u: User, input: PerfilInput)
    ensures ApplyPerfil(ApplyPerfil(u, input), input) == ApplyPerfil(u, input)
  {
  }
}
