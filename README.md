# Clinic scheduling API — a Dafny model

This project models the rules of a small clinic-scheduling REST API written
with Django and Django REST Framework. The API keeps a table of health
professionals (`Profissional`), a table of appointments (`Consulta`) that
reference them, and user accounts with JWT sessions.

The model covers:

- **Field rules.** The validators, required fields and length bounds of the
  serializers and models are total functions. Each returns the field errors
  the API would report, in field order, or the validated data. The model
  proves that there are no errors exactly when an independent predicate
  (`Acceptable`, `RegistroAcceptable`) holds.
- **Python's `str.strip()`.** It is modelled over `str.isspace`. The model
  proves that it returns the unique slice with no whitespace at either end,
  that it is idempotent, and that it yields nothing exactly on blank text.
- **The clinic store.** `Clinic.ClinicStore` is a class holding the
  professionals as a map and the appointments as a sequence. Its methods
  create, patch and delete records and state the whole new state. Its
  invariant `Valid()` holds:
  - unique professional emails;
  - every appointment references a stored professional;
  - at most one appointment per (professional, time);
  - unique ids;
  - the column bounds.

  Deleting a professional cascades to exactly its appointments.
- **The appointment listing.** The listing is newest first, with the optional
  `profissional_id` filter. The filtered list is a subsequence of the full
  listing holding exactly that professional's rows.
- **The account store.** `Accounts.AccountStore` is a class holding the
  accounts and the revoked refresh tokens. It implements the four endpoints
  `registrar`, `entrar`, `perfil` (GET and PATCH) and `sair`, each with its
  status codes and response bodies.

Everything the code hands to a library is a parameter:

- the current time `now`;
- the stored password hash and the password check;
- the issued token pair and the refresh-token check;
- the email format and username pattern checks;
- the NFKC normalisation `create_user` applies to the username, and
  Python's `str.lower`, which it applies to the email's domain;
- the conversion of the query parameter to an id.

Times are integers.

Behaviour of the code a reader may not expect:

- A listing filter that matches no professional gives an empty list
  (`ConsultaViews.NoMatchListsEmpty`).
- A professional's `telefone` is free text within its length bound, and a
  professional record has no flag of its own for being active. The code does
  not trim `nome` or `especialidade` itself; the framework's default trimming
  of text input is listed under "Left out".
- The login serializer's "Nome de usuário e senha são obrigatórios." branch
  cannot be reached. Its two fields are required and may not be blank, so the
  field checks reject those inputs first
  (`Authentication.LoginNeverReportsMissingPair`).
- "Usuário inativo." is reported only when the configured backend lets
  inactive accounts through. The default `ModelBackend` refuses them as bad
  credentials (`Authentication.InactiveReportedOnlyWithPermissiveBackend`).
- A profile PATCH does not check the email against other accounts. Only
  registration does.
- Registration compares the submitted email exactly, so an explicit empty
  email is refused when another account already has an empty email.
- The model's `clean()` is not called on the serializer path. The serializer's
  own `validate_data_hora` accepts the same times
  (`Consultas.CleanAgreesWithValidator`).
- The serializer's own "Este nome de usuário já está em uso." check is
  modelled, but it never answers. The framework builds the `username` field
  from `User.username` with a unique validator, whose message is Django's "A
  user with that username already exists.". That validator rejects a taken
  name before `validate_username` runs
  (`Authentication.ValidateUsernameNeverAnswers`).
- `create_user` stores the NFKC-normalised username and the email through
  `normalize_email`, while the serializer checks the names as sent. Two
  different names can normalise to the same stored one; the insert then
  breaks the table's unique constraint and the view answers 500
  (`Accounts.AccountStore.Registrar`).

## Model

| member | source | states |
|---|---|---|
| Text.StripIsTrimmed | consultas/serializers.py:12 | `strip()` returns a slice of its input with only whitespace outside it and no whitespace at either end |
| Text.StripUnique | consultas/serializers.py:12 | that slice is unique: any slice with whitespace only outside and non-whitespace ends is the result of `strip()` |
| Text.StripEmptyIffBlank | consultas/serializers.py:12-13 | `strip()` yields the empty text exactly when the input is empty or all whitespace |
| Text.StripIdempotent | consultas/serializers.py:12 | stripping twice equals stripping once |
| Consultas.ValidatePacienteNome | consultas/serializers.py:11-17 | accepts exactly the names that are not blank and returns them stripped (non-empty, no whitespace at either end); a blank name gives the `paciente_nome` error with the source's message |
| Consultas.ValidatePacienteNomeIdempotent | consultas/serializers.py:12-17 | validating the validator's output returns the same output |
| Consultas.ValidateDataHora | consultas/serializers.py:19-24 | a time strictly before `now` gives the `data_hora` error; any time at or after `now` is returned unchanged |
| Consultas.ValidateObservacoes | consultas/serializers.py:26-31 | `None` and non-blank text pass unchanged (not stripped); empty or whitespace-only text gives the `observacoes` error |
| Consultas.Clean | consultas/models.py:39-41 | raises exactly when a time is set and is before `now`; a time equal to `now` passes |
| Consultas.CleanAgreesWithValidator | consultas/models.py:39-41 | the model check and the serializer check accept the same times |
| Consultas.ProfissionalIdErrors | consultas/serializers.py:7-9 | no error exactly when the id names an existing professional (or is omitted from a PATCH) |
| Consultas.PacienteNomeErrors | consultas/serializers.py:11-17 | no error exactly when the name is present (or omitted from a PATCH), at most 100 characters and not blank; a blank name reports the validator's message |
| Consultas.DataHoraErrors | consultas/serializers.py:19-24 | no error exactly when the time is present (or omitted from a PATCH) and not before `now` |
| Consultas.ObservacoesErrors | consultas/serializers.py:26-31 | an omitted note passes; a sent note passes exactly when it is not blank |
| Consultas.ConsultaErrors | consultas/serializers.py:6-35 | the serializer reports no error exactly when the payload is acceptable; its errors are exactly those of the four fields |
| Consultas.ConsultaErrorsAreKeyed | consultas/serializers.py:33-35 | every reported error is keyed on one of the serializer's input fields |
| Consultas.StoredObservacoes | consultas/models.py:18 | an omitted note is stored as the empty text and a sent one as sent; after validation the stored note is blank exactly when none was sent |
| Consultas.ValidateConsulta | consultas/serializers.py:6-35 | valid exactly when acceptable; the validated data carries the stripped patient name and every other field as sent; a past time, a blank name or blank notes each put their message in the errors |
| Consultas.Detalhe | consultas/serializers.py:38-55 | the projection copies the appointment's fields, the professional's id and specialty, and sets `profissional_nome` to the professional's display name |
| Consultas.DetalheAsWritten | consultas/serializers.py:40 | as written, the projection looks up `nome_exibicao` among the professional's attributes and fails with a server error when it is missing |
| Consultas.DetalheAsWrittenAlwaysFails | consultas/serializers.py:38-55 | for every appointment and its professional the as-written projection fails, while the corrected one yields the display name |
| Consultas.InsertNewestFirst | consultas/models.py:25 | inserting into a newest-first list keeps it newest first and adds exactly one copy of the row |
| Consultas.OrderNewestFirst | consultas/models.py:25 | the listing order is newest first and is a reordering of the table |
| Consultas.SameTimeNeedsDifferentProfessionals | consultas/models.py:28-33 | two appointments at the same time are allowed together exactly when their professionals differ |
| Consultas.SubsequenceRowsValid | consultas/models.py:10-15 | removing rows keeps ids and slots unique and keeps references valid for the surviving professionals |
| Consultas.AppendRowValid | consultas/models.py:28-33 | appending a row with a fresh id, an existing professional and a free slot keeps the table valid |
| Consultas.ReplaceRowValid | consultas/models.py:28-33 | replacing a row by one with the same id and a slot no other row holds keeps the table valid |
| ConsultaViews.Allowed | consultas/views.py:9 | exactly GET, POST, PATCH, DELETE, HEAD and OPTIONS are accepted; PUT is not |
| ConsultaViews.Listar | consultas/views.py:12-17 | no filter or an empty one lists the whole table newest first; a filter lists exactly that professional's rows, newest first, as a subsequence of the full listing; text that is not a number is a server error |
| ConsultaViews.ListarFilterCounts | consultas/views.py:12-17 | the filtered listing holds each of that professional's rows as many times as the table does, and no other row |
| ConsultaViews.NoMatchListsEmpty | consultas/views.py:12-17 | a filter that matches no row lists nothing and is not an error |
| ConsultaViews.EmptyTableListsEmpty | consultas/views.py:12-17 | an empty table lists as an empty result |
| Profissionais.NomeExibicao | profissionais/serializers.py:11-12 | the display name is the social name when that is non-empty, otherwise the legal name, and always one of the two |
| Profissionais.StrIgnoresNomeSocial | profissionais/models.py:12-13 | `str()` is the legal name whatever the social name, and differs from the display name exactly when a different non-empty social name is set |
| Profissionais.Serialize | profissionais/serializers.py:5-9 | the serialized record copies every column and computes `nome_exibicao` |
| Profissionais.CheckText | profissionais/models.py:6-10 | a required text column has no error exactly when it is present (or omitted from a PATCH), not empty and within its bound |
| Profissionais.ValidateProfissional | profissionais/models.py:5-10 | the payload has no error exactly when it is acceptable; errors are keyed on the five columns; an email already in use is always rejected |
| Profissionais.OnlyNomeIsRejected | profissionais/models.py:6-10 | creating with only a name fails |
| Profissionais.FromInput | profissionais/models.py:5-10 | the created record takes every submitted column, with a NULL social name when none was sent |
| Profissionais.ApplyPatch | profissionais/serializers.py:4-9 | a partial update changes exactly the submitted columns and keeps the id |
| Profissionais.CreatedWithinBounds | profissionais/models.py:6-10 | an accepted create payload gives a record within the column bounds |
| Profissionais.PatchedWithinBounds | profissionais/models.py:6-10 | an accepted partial update keeps a record within the column bounds |
| Clinic.EmailsInUse | profissionais/models.py:9 | the emails of the stored professionals other than the one being updated |
| Clinic.ClinicStore.CriarProfissional | profissionais/models.py:5-10 | creates exactly the record built from an acceptable payload under a fresh id; otherwise reports the errors and changes nothing; the store stays valid (unique emails) |
| Clinic.ClinicStore.AtualizarProfissional | profissionais/models.py:5-10 | an unknown id is not found; an acceptable PATCH replaces exactly that record by the patched one; otherwise nothing changes; emails stay unique |
| Clinic.ClinicStore.ExcluirProfissional | consultas/models.py:10-15 | deleting removes exactly that professional and exactly its appointments, keeping every other appointment in order; an unknown id is not found |
| Clinic.ClinicStore.CriarConsulta | consultas/models.py:28-33 | exactly three outcomes: an invalid payload reports the serializer's errors, a valid payload for a taken (professional, time) slot reports the unique-constraint error, both with the table unchanged; a valid payload for a free slot succeeds and appends exactly the new row under a fresh id |
| Clinic.ClinicStore.AtualizarConsulta | consultas/models.py:28-33 | an unknown id is not found; for a stored id, an invalid PATCH reports the serializer's errors, a patched row whose slot another row holds reports the unique-constraint error, both with the table unchanged; otherwise it succeeds and replaces exactly that row by the patched one |
| Clinic.ClinicStore.ExcluirConsulta | consultas/views.py:5-9 | deleting removes exactly the row with that id; an unknown id is not found |
| Clinic.ClinicStore.Listar | consultas/views.py:12-17 | every listed row is newest first and references a stored professional |
| Clinic.ClinicStore.DetalheDe | consultas/serializers.py:38-55 | a stored appointment's detail view always finds its professional and shows its display name |
| Clinic.Patched | consultas/serializers.py:33-35 | a PATCHed appointment takes the submitted fields and keeps its id and the rest |
| Authentication.ToUsuarioView | authentication/views.py:36-42 | the `usuario` block mirrors the account's id, username, email, first and last name |
| Authentication.ToPerfilView | authentication/serializers.py:56-60 | the profile shows exactly id, username, email, first name, last name and date joined |
| Authentication.PerfilHidesSecrets | authentication/serializers.py:56-60 | neither view depends on the password hash or the active flag |
| Authentication.FindByUsername | authentication/serializers.py:45 | finds an account with that username, and none exactly when no account has it |
| Authentication.FindByUsernameUnique | authentication/serializers.py:45 | with unique usernames the lookup finds exactly the account holding the name |
| Authentication.Authenticate | authentication/serializers.py:45-47 | returns an account only when it holds the username, its hash accepts the password, and the backend admits it; with unique usernames a refusal means no account matches |
| Authentication.ValidateUsername | authentication/serializers.py:20-23 | a taken name gives the serializer's "já está em uso" error; a free one passes unchanged |
| Authentication.UsernameErrors | authentication/serializers.py:7-13 | no error exactly when the username is present, 1 to 150 characters, of the allowed pattern and not taken; a taken name always gives the unique validator's message, and `validate_username`'s own message never appears |
| Authentication.ValidateUsernameNeverAnswers | authentication/serializers.py:20-23 | no registration payload ever gets `validate_username`'s message |
| Authentication.EmailErrors | authentication/serializers.py:15-18 | an omitted email passes; a sent one passes exactly when it is empty or a valid address within 254, and is not the email of any account |
| Authentication.NomePessoaErrors | authentication/serializers.py:11-13 | first and last names are optional and at most 150 characters |
| Authentication.SenhaErrors | authentication/serializers.py:8 | no error exactly when the password is present with at least 8 characters |
| Authentication.ConfirmarSenhaErrors | authentication/serializers.py:9 | no error exactly when the confirmation is present and not empty |
| Authentication.ValidateRegistro | authentication/serializers.py:25-28 | no error exactly when registration is acceptable, passwords matching included; the mismatch error is reported only when every field passes |
| Authentication.RegistroRejectsTaken | authentication/serializers.py:15-23 | an existing username or email always fails registration |
| Authentication.NormalizeEmail | authentication/serializers.py:32 | an address with an `@` is stripped and its part after the last `@` lower-cased; one without is kept as sent |
| Authentication.NewUser | authentication/serializers.py:30-33 | the created account holds the normalised username and email and the submitted names, stores the hash, is active, and keeps no confirmation |
| Authentication.CheckCredentials | authentication/serializers.py:40-53 | an empty value gives the "obrigatórios" error, no account from the backend gives "Credenciais inválidas.", an inactive account from the backend gives "Usuário inativo.", and an active one is returned |
| Authentication.LoginFieldErrors | authentication/serializers.py:36-38 | no field error exactly when both values are present and not empty |
| Authentication.ValidateLogin | authentication/serializers.py:36-53 | field errors are reported as such, and only when both fields pass do the credentials get checked; login yields an active account with that username whose hash accepts the password; with unique usernames it succeeds exactly when such an account exists |
| Authentication.LoginNeverReportsMissingPair | authentication/serializers.py:52-53 | the serializer never reports the "obrigatórios" message |
| Authentication.InactiveReportedOnlyWithPermissiveBackend | authentication/serializers.py:48-49 | "Usuário inativo." is reported only by a backend that admits inactive accounts |
| Authentication.InactiveReportedWithPermissiveBackend | authentication/serializers.py:45-49 | with a backend that admits inactive accounts, an inactive account's correct credentials get "Usuário inativo." |
| Authentication.RegisteredCanLogIn | authentication/serializers.py:30-51 | an account just stored logs in under its stored username with its password, and the login yields that account |
| Authentication.ValidatePerfil | authentication/serializers.py:56-60 | a profile PATCH has no error exactly when its email is empty or a valid address within 254 and its names are within 150 |
| Authentication.ApplyPerfil | authentication/serializers.py:56-60 | a profile PATCH changes only email and names; id, username, date joined, password and active flag are kept |
| Authentication.PerfilIgnoresReadOnly | authentication/serializers.py:60 | sending id, username or date joined changes neither the validation nor the result |
| Authentication.ApplyPerfilIdempotent | authentication/serializers.py:56-60 | applying the same PATCH twice equals applying it once |
| Accounts.UserById | authentication/views.py:106 | finds the account with that id, and none exactly when no account has it |
| Accounts.UserByIdAll | authentication/views.py:106 | with unique ids the lookup finds exactly the account holding the id |
| Accounts.Authenticated | authentication/views.py:103 | a caller passes `IsAuthenticated` only with the id of an active account; with unique ids, every caller holding an active account's id passes |
| Accounts.SairOutcome | authentication/views.py:142-151 | no token or an empty one succeeds with no change; a token succeeds exactly when it parses and is not revoked, and is then revoked; every failure is 400 "Token inválido" with no change |
| Accounts.SairTwiceFails | authentication/views.py:144-146 | a refresh token revoked by a logout fails a second logout |
| Accounts.SairOnlyRevokes | authentication/views.py:142-151 | a logout adds at most one token to the revoked set and removes none |
| Accounts.ReplaceUserKeepsUnique | authentication/views.py:112-116 | replacing an account by one with the same id and username keeps ids and usernames unique |
| Accounts.AppendUserKeepsUnique | authentication/serializers.py:30-33 | adding an account with a fresh id and a free username keeps ids and usernames unique |
| Accounts.AccountStore.Registrar | authentication/views.py:27-50 | 400 with the errors and no change when registration does not validate; 500 and no change when the normalised username is already stored; otherwise 201 with the new account's `usuario` block and tokens, adding exactly that account |
| Accounts.AccountStore.Entrar | authentication/views.py:61-84 | 200 with the `usuario` block of the account the login yields and the tokens, or 400 with exactly the serializer's errors; with unique usernames 200 exactly when the credentials match an active account |
| Accounts.AccountStore.PerfilGet | authentication/views.py:102-110 | 401 unless the caller is an active account; otherwise 200 with the caller's own profile |
| Accounts.AccountStore.PerfilPatch | authentication/views.py:112-117 | 401 for an unauthenticated caller and 400 for invalid input, both with no change; otherwise exactly the caller's account is patched and returned |
| Accounts.AccountStore.Sair | authentication/views.py:138-151 | 401 for an unauthenticated caller with no change; otherwise the outcome and new revoked set are `SairOutcome`'s; accounts never change |

## Left out

- Rate limiting is not modelled. The throttle classes are declared but attached to none of the modelled views. Their counting lives in the framework and the cache.
- JWT signing, parsing and expiry are not modelled. Issued tokens are a parameter and the refresh-token check is the predicate `tokenAccepted`. Revoked tokens are recorded by their text rather than by their token id.
- Password hashing and its salt are not modelled. The stored hash is a parameter and the check is `Backend.checkPassword`.
- The email format and the username character pattern are opaque predicates of `Backend`. The same holds for `emailOk` in the professional checks.
- The wall clock is not modelled. `now` is an integer parameter.
- DRF's `CharField` trims surrounding whitespace from input by default. This is not modelled: every validator sees the value as sent. This matches how the code's own checks are written.
- Profissionais.ValidateProfissional: reports only the first failing rule of each field, while the framework can list several messages for one field.
- Authentication.ValidateRegistro: reports only the first failing rule of each field other than `username`, while the framework can list several messages for one field.
- DRF's `CharField` also refuses any text holding the NUL character (U+0000) with "Null characters are not allowed.". This is not modelled: every text field of every serializer accepts such text when its other rules pass.
- JSON `null` for a non-nullable field, and values of the wrong JSON type, are not modelled. Inputs are typed.
- Clinic.ClinicStore.CriarConsulta: the unique (professional, time) constraint is reported as a non-field validation error. It is checked atomically before the insert, and database races are not modelled.
- The audit timestamps `criado_em` and `atualizado_em` are not modelled. No serializer exposes them and no rule depends on them. The same holds for the indexes.
- `Consulta.__str__` and its date formatting are not modelled.
- Retrieving one record by id, and the professionals listing, are not modelled. Both are plain lookups with no rule of their own.
- The professionals view set, URL routing, health and debug probes, settings and API documentation decorators are not modelled.
- Accounts.AccountStore.PerfilGet, Accounts.AccountStore.PerfilPatch and Accounts.AccountStore.Sair: every refused caller gets one 401 body. The framework words its `detail` message differently for a missing, malformed or inactive-account token.
- Account fields that no serializer touches (staff and superuser flags, last login) are not modelled.

## Findings

| source | as written | input that shows it | evidently intended | confidence | as-written member | corrected member |
|---|---|---|---|---|---|---|
| consultas/serializers.py:40 | `profissional_nome` takes its value from `profissional.nome_exibicao`, but the `Profissional` model (profissionais/models.py:5-13) has no such attribute; it exists only as a computed field of the professional serializer, so serialization fails | any appointment with its professional, e.g. professional 1 "Ana" and an appointment for it | the professional's display name, as `get_nome_exibicao` computes it | high; not executed | Consultas.DetalheAsWritten | Consultas.Detalhe |
