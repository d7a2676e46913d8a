/** The `Consulta` record and the rules around it: the three field validators of
    `ConsultaSerializer`, the model's `clean()`, the detail projection, the
    newest-first ordering and the table constraints. Time is an integer
    instant; `now` is always a parameter. */
module Consultas {
  import opened Common
  import opened Text
  import Profissionais

  const MaxPacienteNome := 100

  const PacienteNomeVazioMessage := "O nome do paciente não pode estar vazio."
  const DataPassadaMessage := "Não é permitido cadastrar consultas para datas no passado."
  const ObservacoesVaziasMessage := "Observações, se informadas, não podem estar vazias."
  const CleanPassadoMessage := "Não é possível agendar consultas no passado."
  const UniqueSlotMessage := "The fields profissional_id, data_hora must make a unique set."
  /** The key Django uses for an error raised by `Model.clean`. */
  const AllFields := "__all__"

  /** One stored appointment. `observacoes` is a `TextField(blank=True)`: it is
      never NULL and may be empty at the table level. */
  datatype Consulta = Consulta(
    id: nat,
    profissionalId: nat,
    pacienteNome: string,
    dataHora: int,
    observacoes: string)

  /** A create or PATCH payload; `None` is a field left out of the request. */
  datatype ConsultaInput = ConsultaInput(
    profissionalId: Option<int>,
    pacienteNome: Option<string>,
    dataHora: Option<int>,
    observacoes: Option<string>)

  /** What `ConsultaDetalheSerializer` emits. */
  datatype ConsultaDetalhe = ConsultaDetalhe(
    id: nat,
    profissionalId: nat,
    profissionalNome: string,
    profissionalEspecialidade: string,
    dataHora: int,
    pacienteNome: string,
    observacoes: string)

  // ---------------------------------------------------------------------------
  // Field validators of ConsultaSerializer

  /** `validate_paciente_nome`: the name with surrounding whitespace removed,
      rejected when nothing is left. */
  function ValidatePacienteNome(value: string): (r: Result<string>)
    ensures r.Ok? <==> !IsBlank(value)
    ensures r.Ok? ==> (r.value == Strip(value) && r.value != []
      && !IsSpace(r.value[0]) && !IsSpace(r.value[|r.value| - 1]))
    ensures r.Err? ==> r == Invalid("paciente_nome", PacienteNomeVazioMessage)
  {
    StripEmptyIffBlank(value);
    var v := Strip(value);
    if v == [] then Invalid("paciente_nome", PacienteNomeVazioMessage)
    else
      StripIsTrimmed(value, IsSpace);
      Ok(v)
  }

  /** Validating the validator's own output gives the same output. */
  lemma ValidatePacienteNomeIdempotent(value: string)
    requires ValidatePacienteNome(value).Ok?
    ensures ValidatePacienteNome(ValidatePacienteNome(value).value) == ValidatePacienteNome(value)
  {
    StripIdempotent(value);
    StripEmptyIffBlank(Strip(value));
  }

  /** `validate_data_hora`: a time before `now` is rejected, any other is kept. */
  function ValidateDataHora(value: int, now: int): (r: Result<int>)
    ensures r.Ok? <==> now <= value
    ensures r.Ok? ==> r.value == value
    ensures r.Err? ==> r == Invalid("data_hora", DataPassadaMessage)
  {
    if value < now then Invalid("data_hora", DataPassadaMessage) else Ok(value)
  }

  /** `validate_observacoes`: `None` passes; a blank text is rejected; any
      other text is returned as it was sent, not stripped. */
  function ValidateObservacoes(value: Option<string>): (r: Result<Option<string>>)
    ensures r.Ok? <==> value.None? || !IsBlank(value.value)
    ensures r.Ok? ==> r.value == value
    ensures r.Err? ==> r == Invalid("observacoes", ObservacoesVaziasMessage)
  {
    match value
    case None => Ok(value)
    case Some(text) =>
      StripEmptyIffBlank(text);
      if Strip(text) == "" then Invalid("observacoes", ObservacoesVaziasMessage) else Ok(value)
  }

  /** `Consulta.clean()`: an unset time passes; a set time before `now` raises. */
  function Clean(dataHora: Option<int>, now: int): (r: Result<()>)
    ensures r.Err? <==> dataHora.Some? && dataHora.value < now
    ensures r.Err? ==> r == Invalid(AllFields, CleanPassadoMessage)
  {
    if dataHora.Some? && dataHora.value < now then Invalid(AllFields, CleanPassadoMessage) else Ok(())
  }

  /** The model check and the serializer check accept the same set times. */
  lemma CleanAgreesWithValidator(t: int, now: int)
    ensures Clean(Some(t), now).Ok? <==> ValidateDataHora(t, now).Ok?
  {
  }

  // ---------------------------------------------------------------------------
  // The whole serializer

  /** The payload passes every field rule, given the existing professional ids. */
  predicate Acceptable(input: ConsultaInput, profissionais: set<nat>, now: int, partial: bool) {
    && (input.profissionalId.None? ==> partial)
    && (input.profissionalId.Some? ==> input.profissionalId.value >= 0 && input.profissionalId.value as nat in profissionais)
    && (input.pacienteNome.None? ==> partial)
    && (input.pacienteNome.Some? ==> |input.pacienteNome.value| <= MaxPacienteNome && !IsBlank(input.pacienteNome.value))
    && (input.dataHora.None? ==> partial)
    && (input.dataHora.Some? ==> now <= input.dataHora.value)
    && (input.observacoes.Some? ==> !IsBlank(input.observacoes.value))
  }

  function PacienteNomeErrors(v: Option<string>, partial: bool): (errs: seq<FieldError>)
    ensures errs == [] <==> (v.None? ==> partial) && (v.Some? ==> |v.value| <= MaxPacienteNome && !IsBlank(v.value))
    ensures forall e :: e in errs ==> e.field == "paciente_nome"
    ensures v.Some? && v.value != "" && IsBlank(v.value) && |v.value| <= MaxPacienteNome ==>
      errs == [FieldError("paciente_nome", PacienteNomeVazioMessage)]
  {
    match v
    case None => if partial then [] else [FieldError("paciente_nome", RequiredMessage)]
    case Some(s) =>
      if s == "" then [FieldError("paciente_nome", BlankMessage)]
      else if |s| > MaxPacienteNome then [FieldError("paciente_nome", MaxLengthMessage(MaxPacienteNome))]
      else ErrorsOf(ValidatePacienteNome(s))
  }

  /** `PrimaryKeyRelatedField`: the id must name an existing professional. */
  function ProfissionalIdErrors(v: Option<int>, profissionais: set<nat>, partial: bool): (errs: seq<FieldError>)
    ensures errs == [] <==> (v.None? ==> partial) && (v.Some? ==> v.value >= 0 && v.value as nat in profissionais)
    ensures forall e :: e in errs ==> e.field == "profissional_id"
  {
    match v
    case None => if partial then [] else [FieldError("profissional_id", RequiredMessage)]
    case Some(pk) =>
      if pk >= 0 && pk as nat in profissionais then []
      else [FieldError("profissional_id", "Invalid pk \"" + IntToString(pk) + "\" - object does not exist.")]
  }

  function DataHoraErrors(v: Option<int>, now: int, partial: bool): (errs: seq<FieldError>)
    ensures errs == [] <==> (v.None? ==> partial) && (v.Some? ==> now <= v.value)
    ensures forall e :: e in errs ==> e.field == "data_hora"
    ensures v.Some? && v.value < now ==> errs == [FieldError("data_hora", DataPassadaMessage)]
  {
    match v
    case None => if partial then [] else [FieldError("data_hora", RequiredMessage)]
    case Some(t) => ErrorsOf(ValidateDataHora(t, now))
  }

  /** `observacoes` is optional (`blank=True`); when sent, its validator runs. */
  function ObservacoesErrors(v: Option<string>): (errs: seq<FieldError>)
    ensures errs == [] <==> (v.Some? ==> !IsBlank(v.value))
    ensures forall e :: e in errs ==> e.field == "observacoes"
    ensures v.Some? && IsBlank(v.value) ==> errs == [FieldError("observacoes", ObservacoesVaziasMessage)]
  {
    if v.Some? then ErrorsOf(ValidateObservacoes(v)) else []
  }

  /** The errors of every field, in field order. */
  function ConsultaErrors(input: ConsultaInput, profissionais: set<nat>, now: int, partial: bool): (errs: seq<FieldError>)
    ensures errs == [] <==> Acceptable(input, profissionais, now, partial)
    ensures forall e :: e in errs <==>
      || e in ProfissionalIdErrors(input.profissionalId, profissionais, partial)
      || e in PacienteNomeErrors(input.pacienteNome, partial)
      || e in DataHoraErrors(input.dataHora, now, partial)
      || e in ObservacoesErrors(input.observacoes)
  {
    ProfissionalIdErrors(input.profissionalId, profissionais, partial)
      + PacienteNomeErrors(input.pacienteNome, partial)
      + DataHoraErrors(input.dataHora, now, partial)
      + ObservacoesErrors(input.observacoes)
  }

  /** Every error the serializer reports is keyed on one of its input fields. */
  lemma ConsultaErrorsAreKeyed(input: ConsultaInput, profissionais: set<nat>, now: int, partial: bool)
    ensures forall e :: e in ConsultaErrors(input, profissionais, now, partial) ==>
      e.field in {"profissional_id", "paciente_nome", "data_hora", "observacoes"}
  {
    forall e | e in ConsultaErrors(input, profissionais, now, partial)
      ensures e.field in {"profissional_id", "paciente_nome", "data_hora", "observacoes"}
    {
      if e in ProfissionalIdErrors(input.profissionalId, profissionais, partial) {
        assert e.field == "profissional_id";
      } else if e in PacienteNomeErrors(input.pacienteNome, partial) {
        assert e.field == "paciente_nome";
      } else if e in DataHoraErrors(input.dataHora, now, partial) {
        assert e.field == "data_hora";
      } else {
        assert e.field == "observacoes";
      }
    }
  }

  /** `ConsultaSerializer.is_valid`: every field is checked and the errors are
      collected in field order; the validated data carries the stripped
      patient name. `partial` is a PATCH. */
  function ValidateConsulta(input: ConsultaInput, profissionais: set<nat>, now: int, partial: bool): (r: Result<ConsultaInput>)
    ensures r.Ok? <==> Acceptable(input, profissionais, now, partial)
    ensures r.Ok? ==> r.value == input.(pacienteNome :=
      if input.pacienteNome.Some? then Some(Strip(input.pacienteNome.value)) else None)
    ensures r.Err? ==> r.error.ValidationError? && r.error.errors == ConsultaErrors(input, profissionais, now, partial)
    ensures input.dataHora.Some? && input.dataHora.value < now ==>
      r.Err? && FieldError("data_hora", DataPassadaMessage) in r.error.errors
    ensures (input.pacienteNome.Some? && input.pacienteNome.value != "" && IsBlank(input.pacienteNome.value)
      && |input.pacienteNome.value| <= MaxPacienteNome) ==>
      r.Err? && FieldError("paciente_nome", PacienteNomeVazioMessage) in r.error.errors
    ensures input.observacoes.Some? && IsBlank(input.observacoes.value) ==>
      r.Err? && FieldError("observacoes", ObservacoesVaziasMessage) in r.error.errors
  {
    var errs := ConsultaErrors(input, profissionais, now, partial);
    if errs != [] then Err(ValidationError(errs))
    else
      Ok(input.(pacienteNome := if input.pacienteNome.Some? then Some(ValidatePacienteNome(input.pacienteNome.value).value) else None))
  }

  /** Notes are required to be non-blank only on this path: an absent note is
      stored as the empty text, which the table accepts. */
  function StoredObservacoes(v: Option<string>): (r: string)
    ensures v.Some? ==> r == v.value
    ensures v.None? ==> r == ""
    ensures ValidateObservacoes(v).Ok? ==> (IsBlank(r) <==> v.None?)
  {
    if v.Some? then v.value else ""
  }

  // ---------------------------------------------------------------------------
  // Detail projection

  /** `ConsultaDetalheSerializer`: the appointment's own fields, and the id,
      display name and specialty of the professional it references. */
  function Detalhe(c: Consulta, p: Profissionais.Profissional): (d: ConsultaDetalhe)
    requires p.id == c.profissionalId
    ensures d.id == c.id && d.dataHora == c.dataHora && d.pacienteNome == c.pacienteNome && d.observacoes == c.observacoes
    ensures d.profissionalId == p.id && d.profissionalEspecialidade == p.especialidade
    ensures d.profissionalNome == Profissionais.NomeExibicao(p)
    ensures d.profissionalNome == p.nome || (p.nomeSocial.Some? && d.profissionalNome == p.nomeSocial.value)
  {
    ConsultaDetalhe(c.id, p.id, Profissionais.NomeExibicao(p), p.especialidade, c.dataHora, c.pacienteNome, c.observacoes)
  }

  /** A text attribute of a stored professional looked up by name, as a dotted
      serializer `source` does: only the record's own text columns exist.
      `nome_exibicao` is not one of them: it is computed by the professional
      serializer, not stored on the record. */
  function ProfissionalText(p: Profissionais.Profissional, name: string): (r: Option<string>)
    ensures r.Some? <==> name in {"nome", "especialidade", "email", "telefone"}
    ensures name == "nome" ==> r == Some(p.nome)
    ensures name == "especialidade" ==> r == Some(p.especialidade)
  {
    if name == "nome" then Some(p.nome)
    else if name == "especialidade" then Some(p.especialidade)
    else if name == "email" then Some(p.email)
    else if name == "telefone" then Some(p.telefone)
    else None
  }

  /** `ConsultaDetalheSerializer` as written: `profissional_nome` reads the
      attribute `nome_exibicao` of the professional, and a missing attribute
      makes serialization fail with a server error. */
  function DetalheAsWritten(c: Consulta, p: Profissionais.Profissional): (r: Result<ConsultaDetalhe>)
    requires p.id == c.profissionalId
    ensures r.Ok? <==> ProfissionalText(p, "nome_exibicao").Some? && ProfissionalText(p, "especialidade").Some?
    ensures r.Err? ==> r == Err(ServerError)
  {
    match (ProfissionalText(p, "nome_exibicao"), ProfissionalText(p, "especialidade"))
    case (Some(nome), Some(especialidade)) =>
      Ok(ConsultaDetalhe(c.id, p.id, nome, especialidade, c.dataHora, c.pacienteNome, c.observacoes))
    case _ => Err(ServerError)
  }

  /** For every appointment and professional the as-written projection fails,
      while `Detalhe` produces the display name. */
  lemma DetalheAsWrittenAlwaysFails(c: Consulta, p: Profissionais.Profissional)
    requires p.id == c.profissionalId
    ensures DetalheAsWritten(c, p) == Err(ServerError)
    ensures Detalhe(c, p).profissionalNome == Profissionais.NomeExibicao(p)
  {
    assert "nome_exibicao" !in {"nome", "especialidade", "email", "telefone"};
  }

  // ---------------------------------------------------------------------------
  // The table

  /** `ordering = ['-data_hora']`: every row is at least as late as the ones after it. */
  predicate NewestFirst(rows: seq<Consulta>) {
    forall i, j :: 0 <= i < j < |rows| ==> rows[i].dataHora >= rows[j].dataHora
  }

  function NotLater(a: Consulta, b: Consulta): bool {
    a.dataHora >= b.dataHora
  }

  lemma NewestFirstIsPairwise(rows: seq<Consulta>)
    ensures NewestFirst(rows) <==> Pairwise(rows, NotLater)
  {
  }

  /** Places `c` before the first row that is not later than it. */
  function InsertNewestFirst(c: Consulta, rows: seq<Consulta>): (r: seq<Consulta>)
    requires NewestFirst(rows)
    ensures NewestFirst(r)
    ensures multiset(r) == multiset(rows) + multiset{c}
    ensures forall x :: x in r ==> x == c || x in rows
  {
    if rows == [] || rows[0].dataHora <= c.dataHora then [c] + rows
    else
      var rest := InsertNewestFirst(c, rows[1..]);
      assert rows == [rows[0]] + rows[1..];
      forall x | x in rest ensures x.dataHora <= rows[0].dataHora {
        if x != c {
          var k :| 0 <= k < |rows[1..]| && rows[1..][k] == x;
          assert rows[k + 1] == x;
        }
      }
      [rows[0]] + rest
  }

  /** The rows in listing order, newest first: a reordering of the table. */
  function OrderNewestFirst(rows: seq<Consulta>): (r: seq<Consulta>)
    ensures NewestFirst(r)
    ensures multiset(r) == multiset(rows)
    ensures |r| == |rows|
  {
    if rows == [] then []
    else
      assert rows == [rows[0]] + rows[1..];
      InsertNewestFirst(rows[0], OrderNewestFirst(rows[1..]))
  }

  /** Row ids are distinct. */
  predicate UniqueIds(rows: seq<Consulta>) {
    forall i, j :: 0 <= i < j < |rows| ==> rows[i].id != rows[j].id
  }

  /** `UniqueConstraint(fields=['profissional', 'data_hora'])`. */
  predicate UniqueSlots(rows: seq<Consulta>) {
    forall i, j :: 0 <= i < j < |rows| ==>
      rows[i].profissionalId != rows[j].profissionalId || rows[i].dataHora != rows[j].dataHora
  }

  function DistinctIds(a: Consulta, b: Consulta): bool {
    a.id != b.id
  }

  function DistinctSlots(a: Consulta, b: Consulta): bool {
    a.profissionalId != b.profissionalId || a.dataHora != b.dataHora
  }

  /** Some row other than the one with id `except` holds this (professional, time) slot. */
  predicate SlotTaken(rows: seq<Consulta>, profissionalId: nat, dataHora: int, except: Option<nat>) {
    exists c :: c in rows && c.profissionalId == profissionalId && c.dataHora == dataHora
      && (except.Some? ==> c.id != except.value)
  }

  /** Every row references a stored professional, and the declared bounds hold. */
  predicate RowsValid(rows: seq<Consulta>, profissionais: set<nat>, nextId: nat) {
    && UniqueIds(rows)
    && UniqueSlots(rows)
    && forall c :: c in rows ==>
         c.profissionalId in profissionais && c.id < nextId && |c.pacienteNome| <= MaxPacienteNome
  }

  /** The constraint is on the pair: two appointments at the same time can
      coexist exactly when they are with different professionals. */
  lemma SameTimeNeedsDifferentProfessionals(a: Consulta, b: Consulta, profissionais: set<nat>, nextId: nat)
    requires a.id != b.id && a.id < nextId && b.id < nextId && a.dataHora == b.dataHora
    requires a.profissionalId in profissionais && b.profissionalId in profissionais
    requires |a.pacienteNome| <= MaxPacienteNome && |b.pacienteNome| <= MaxPacienteNome
    ensures RowsValid([a, b], profissionais, nextId) <==> a.profissionalId != b.profissionalId
  {
    var rows := [a, b];
    assert rows[0] == a && rows[1] == b;
  }

  /** Removing rows keeps ids and slots unique; surviving rows keep their
      references when their professional survives. */
  lemma SubsequenceRowsValid(r: seq<Consulta>, rows: seq<Consulta>, profissionais: set<nat>, kept: set<nat>, nextId: nat)
    requires IsSubsequence(r, rows) && RowsValid(rows, profissionais, nextId)
    requires forall c :: c in r ==> c.profissionalId in kept
    ensures RowsValid(r, kept, nextId)
  {
    assert Pairwise(rows, DistinctIds);
    assert Pairwise(rows, DistinctSlots);
    SubsequencePairwise(r, rows, DistinctIds);
    SubsequencePairwise(r, rows, DistinctSlots);
    SubsequenceMembers(r, rows);
    assert Pairwise(r, DistinctIds) && Pairwise(r, DistinctSlots);
  }

  /** Appending a row with a fresh id and a free slot keeps the table valid. */
  lemma AppendRowValid(rows: seq<Consulta>, c: Consulta, profissionais: set<nat>, nextId: nat)
    requires RowsValid(rows, profissionais, nextId)
    requires c.id == nextId && c.profissionalId in profissionais && |c.pacienteNome| <= MaxPacienteNome
    requires !SlotTaken(rows, c.profissionalId, c.dataHora, None)
    ensures RowsValid(rows + [c], profissionais, nextId + 1)
  {
    var r := rows + [c];
    forall i, j | 0 <= i < j < |r| ensures r[i].id != r[j].id && DistinctSlots(r[i], r[j]) {
      if j == |rows| { assert r[i] in rows; }
    }
  }

  /** Replacing one row by a row with the same id and a slot no other row holds
      keeps the table valid. */
  lemma ReplaceRowValid(rows: seq<Consulta>, k: nat, c: Consulta, profissionais: set<nat>, nextId: nat)
    requires RowsValid(rows, profissionais, nextId) && k < |rows|
    requires c.id == rows[k].id && c.profissionalId in profissionais && |c.pacienteNome| <= MaxPacienteNome
    requires !SlotTaken(rows, c.profissionalId, c.dataHora, Some(c.id))
    ensures RowsValid(rows[k := c], profissionais, nextId)
  {
    var r := rows[k := c];
    forall i, j | 0 <= i < j < |r| ensures r[i].id != r[j].id && DistinctSlots(r[i], r[j]) {
      if i == k {
        assert r[j] == rows[j] && rows[j] in rows && rows[j].id != rows[k].id;
      } else if j == k {
        assert r[i] == rows[i] && rows[i] in rows && rows[i].id != rows[k].id;
      }
    }
    forall x | x in r ensures x.profissionalId in profissionais && x.id < nextId && |x.pacienteNome| <= MaxPacienteNome {
      var i :| 0 <= i < |r| && r[i] == x;
      if i != k { assert rows[i] in rows; } else { assert rows[k] in rows; }
    }
  }
}
