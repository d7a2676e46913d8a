/** The `Profissional` record, its serialized form with the computed display
    name, and the field rules its serializer enforces on create and on a
    partial update. */
module Profissionais {
  import opened Common

  // Column bounds declared on the model.
  const MaxNome := 100
  const MaxNomeSocial := 100
  const MaxEspecialidade := 70
  /** `EmailField` without an explicit bound gets Django's default of 254. */
  const MaxEmail := 254
  const MaxTelefone := 20

  const UniqueEmailMessage := "profissional with this email already exists."

  /** One stored professional; `nomeSocial` is `None` when the column is NULL. */
  datatype Profissional = Profissional(
    id: nat,
    nome: string,
    nomeSocial: Option<string>,
    especialidade: string,
    email: string,
    telefone: string)

  /** What `ProfissionalSerializer` emits: the columns plus `nome_exibicao`. */
  datatype ProfissionalView = ProfissionalView(
    id: nat,
    nome: string,
    nomeSocial: Option<string>,
    nomeExibicao: string,
    especialidade: string,
    email: string,
    telefone: string)

  /** A create or PATCH payload; `None` is a field left out of the request.
      `nomeSocial` is `Some(None)` when the request sends `null`. There is no
      `nome_exibicao` here: the field is computed and never read from input. */
  datatype ProfissionalInput = ProfissionalInput(
    nome: Option<string>,
    nomeSocial: Option<Option<string>>,
    especialidade: Option<string>,
    email: Option<string>,
    telefone: Option<string>)

  /** The declared bounds and required columns hold for a stored record. */
  predicate WithinBounds(p: Profissional) {
    && 0 < |p.nome| <= MaxNome
    && (p.nomeSocial.Some? ==> |p.nomeSocial.value| <= MaxNomeSocial)
    && 0 < |p.especialidade| <= MaxEspecialidade
    && 0 < |p.email| <= MaxEmail
    && 0 < |p.telefone| <= MaxTelefone
  }

  /** `__str__`: the legal name. */
  function Str(p: Profissional): string {
    p.nome
  }

  /** `get_nome_exibicao`: the social name when it is truthy, else the legal name. */
  function NomeExibicao(p: Profissional): (r: string)
    ensures r == p.nome || (p.nomeSocial.Some? && r == p.nomeSocial.value)
    ensures p.nomeSocial.Some? && p.nomeSocial.value != "" ==> r == p.nomeSocial.value
    ensures p.nomeSocial.None? || p.nomeSocial.value == "" ==> r == p.nome
  {
    match p.nomeSocial
    case Some(social) => if social != "" then social else p.nome
    case None => p.nome
  }

  /** `str(p)` is the legal name whatever the social name is, so it differs from
      the display name exactly when a non-empty, different social name is set. */
  lemma StrIgnoresNomeSocial(p: Profissional, social: Option<string>)
    ensures Str(p.(nomeSocial := social)) == Str(p) == p.nome
    ensures Str(p) != NomeExibicao(p) <==> p.nomeSocial.Some? && p.nomeSocial.value != "" && p.nomeSocial.value != p.nome
  {
  }

  /** The serialized record: every column copied, `nome_exibicao` computed. */
  function Serialize(p: Profissional): (v: ProfissionalView)
    ensures v.id == p.id && v.nome == p.nome && v.nomeSocial == p.nomeSocial
    ensures v.especialidade == p.especialidade && v.email == p.email && v.telefone == p.telefone
    ensures v.nomeExibicao == NomeExibicao(p)
  {
    ProfissionalView(p.id, p.nome, p.nomeSocial, NomeExibicao(p), p.especialidade, p.email, p.telefone)
  }

  /** A required `CharField` (`blank=False`): present unless the update is
      partial, not empty, within its bound. */
  function CheckText(field: string, v: Option<string>, maxLen: nat, partial: bool): (errs: seq<FieldError>)
    ensures |errs| <= 1 && (forall e :: e in errs ==> e.field == field)
    ensures errs == [] <==> (v.None? ==> partial) && (v.Some? ==> 0 < |v.value| <= maxLen)
  {
    match v
    case None => if partial then [] else [FieldError(field, RequiredMessage)]
    case Some(s) =>
      if s == "" then [FieldError(field, BlankMessage)]
      else if |s| > maxLen then [FieldError(field, MaxLengthMessage(maxLen))]
      else []
  }

  /** The payload satisfies every field rule. `emailsInUse` holds the emails of
      the other records (the one being updated is excluded); `emailOk` is the
      email-format check. */
  predicate Acceptable(input: ProfissionalInput, emailsInUse: set<string>, emailOk: string -> bool, partial: bool) {
    && (input.nome.None? ==> partial)
    && (input.nome.Some? ==> 0 < |input.nome.value| <= MaxNome)
    && (input.nomeSocial.Some? && input.nomeSocial.value.Some? ==> |input.nomeSocial.value.value| <= MaxNomeSocial)
    && (input.especialidade.None? ==> partial)
    && (input.especialidade.Some? ==> 0 < |input.especialidade.value| <= MaxEspecialidade)
    && (input.email.None? ==> partial)
    && (input.email.Some? ==> 0 < |input.email.value| <= MaxEmail && emailOk(input.email.value) && input.email.value !in emailsInUse)
    && (input.telefone.None? ==> partial)
    && (input.telefone.Some? ==> 0 < |input.telefone.value| <= MaxTelefone)
  }

  /** The field errors `ProfissionalSerializer.is_valid` reports, in field order;
      none exactly when the payload is acceptable. */
  function ValidateProfissional(input: ProfissionalInput, emailsInUse: set<string>, emailOk: string -> bool, partial: bool): (errs: seq<FieldError>)
    ensures errs == [] <==> Acceptable(input, emailsInUse, emailOk, partial)
    ensures forall e :: e in errs ==> e.field in {"nome", "nome_social", "especialidade", "email", "telefone"}
    ensures input.email.Some? && input.email.value in emailsInUse ==> errs != []
  {
    var nomeSocial :=
      if input.nomeSocial.Some? && input.nomeSocial.value.Some? && |input.nomeSocial.value.value| > MaxNomeSocial
      then [FieldError("nome_social", MaxLengthMessage(MaxNomeSocial))] else [];
    var email := CheckText("email", input.email, MaxEmail, partial);
    var email :=
      if email != [] || input.email.None? then email
      else if !emailOk(input.email.value) then [FieldError("email", InvalidEmailMessage)]
      else if input.email.value in emailsInUse then [FieldError("email", UniqueEmailMessage)]
      else [];
    CheckText("nome", input.nome, MaxNome, partial) + nomeSocial
      + CheckText("especialidade", input.especialidade, MaxEspecialidade, partial)
      + email + CheckText("telefone", input.telefone, MaxTelefone, partial)
  }

  /** Creating with only a name fails: the specialty, email and phone are required. */
  lemma OnlyNomeIsRejected(nome: string, emailsInUse: set<string>, emailOk: string -> bool)
    ensures ValidateProfissional(ProfissionalInput(Some(nome), None, None, None, None), emailsInUse, emailOk, false) != []
  {
  }

  /** The record a validated create payload stores; an omitted social name is NULL. */
  function FromInput(id: nat, input: ProfissionalInput): (p: Profissional)
    requires input.nome.Some? && input.especialidade.Some? && input.email.Some? && input.telefone.Some?
    ensures p.id == id && p.nome == input.nome.value && p.especialidade == input.especialidade.value
    ensures p.email == input.email.value && p.telefone == input.telefone.value
    ensures input.nomeSocial.None? ==> p.nomeSocial.None?
    ensures input.nomeSocial.Some? ==> p.nomeSocial == input.nomeSocial.value
  {
    Profissional(id, input.nome.value,
      if input.nomeSocial.Some? then input.nomeSocial.value else None,
      input.especialidade.value, input.email.value, input.telefone.value)
  }

  /** A partial update: each submitted field replaces the column, every other
      column and the id keep their value. */
  function ApplyPatch(p: Profissional, input: ProfissionalInput): (q: Profissional)
    ensures q.id == p.id
    ensures q.nome == (if input.nome.Some? then input.nome.value else p.nome)
    ensures q.nomeSocial == (if input.nomeSocial.Some? then input.nomeSocial.value else p.nomeSocial)
    ensures q.especialidade == (if input.especialidade.Some? then input.especialidade.value else p.especialidade)
    ensures q.email == (if input.email.Some? then input.email.value else p.email)
    ensures q.telefone == (if input.telefone.Some? then input.telefone.value else p.telefone)
  {
    p.(nome := if input.nome.Some? then input.nome.value else p.nome,
       nomeSocial := if input.nomeSocial.Some? then input.nomeSocial.value else p.nomeSocial,
       especialidade := if input.especialidade.Some? then input.especialidade.value else p.especialidade,
       email := if input.email.Some? then input.email.value else p.email,
       telefone := if input.telefone.Some? then input.telefone.value else p.telefone)
  }

  /** An accepted create payload yields a record within the declared bounds. */
  lemma CreatedWithinBounds(id: nat, input: ProfissionalInput, emailsInUse: set<string>, emailOk: string -> bool)
    requires Acceptable(input, emailsInUse, emailOk, false)
    ensures WithinBounds(FromInput(id, input))
  {
  }

  /** An accepted partial update keeps a record within the declared bounds. */
  lemma PatchedWithinBounds(p: Profissional, input: ProfissionalInput, emailsInUse: set<string>, emailOk: string -> bool)
    requires WithinBounds(p) && Acceptable(input, emailsInUse, emailOk, true)
    ensures WithinBounds(ApplyPatch(p, input))
  {
  }
}
