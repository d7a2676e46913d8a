/** The clinic's two tables as one mutable store: professionals keyed by id,
    and appointments as rows. The store keeps the declared constraints: unique
    professional emails, every appointment referencing a stored professional,
    one appointment per (professional, time), and the column bounds. */
module Clinic {
  import opened Common
  import opened Profissionais
  import opened Consultas
  import ConsultaViews
  import Text

  /** Every record is stored under its own id, ids come from the counter, the
      bounds hold and no two records share an email (`unique=True`). */
  predicate ProfissionaisValid(ps: map<nat, Profissional>, nextId: nat) {
    && (forall id :: id in ps ==> ps[id].id == id && id < nextId && WithinBounds(ps[id]))
    && (forall a, b :: a in ps && b in ps && a != b ==> ps[a].email != ps[b].email)
  }

  /** The emails of every record except the one with id `except`. */
  function EmailsInUse(ps: map<nat, Profissional>, except: Option<nat>): (s: set<string>)
    ensures forall e :: e in s <==> exists id :: id in ps && ps[id].email == e && except != Some(id)
  {
    set id | id in ps && except != Some(id) :: ps[id].email
  }

  class ClinicStore {
    var profissionais: map<nat, Profissional>
    var consultas: seq<Consulta>
    var nextProfissionalId: nat
    var nextConsultaId: nat

    ghost predicate Valid()
      reads this
    {
      && ProfissionaisValid(profissionais, nextProfissionalId)
      && RowsValid(consultas, profissionais.Keys, nextConsultaId)
    }

    constructor ()
      ensures Valid() && profissionais == map[] && consultas == []
    {
      profissionais := map[];
      consultas := [];
      nextProfissionalId := 0;
      nextConsultaId := 0;
    }

    /** POST to the professionals resource. */
    method CriarProfissional(input: ProfissionalInput, emailOk: string -> bool) returns (r: Result<Profissional>)
      requires Valid()
      modifies this
      ensures Valid()
      ensures consultas == old(consultas)
      ensures var errs := ValidateProfissional(input, EmailsInUse(old(profissionais), None), emailOk, false);
        && (r.Ok? <==> errs == [])
        && (r.Ok? ==> r.value.id !in old(profissionais) && r.value == FromInput(r.value.id, input)
                      && profissionais == old(profissionais)[r.value.id := r.value])
        && (r.Err? ==> r == Err(ValidationError(errs)) && profissionais == old(profissionais))
    {
      var errs := ValidateProfissional(input, EmailsInUse(profissionais, None), emailOk, false);
      if errs != [] {
        return Err(ValidationError(errs));
      }
      var p := FromInput(nextProfissionalId, input);
      CreatedWithinBounds(nextProfissionalId, input, EmailsInUse(profissionais, None), emailOk);
      profissionais := profissionais[p.id := p];
      nextProfissionalId := nextProfissionalId + 1;
      r := Ok(p);
    }

    /** PATCH of one professional: only the submitted fields are validated and
        changed; the email must stay unique among the other records. */
    method AtualizarProfissional(id: nat, input: ProfissionalInput, emailOk: string -> bool) returns (r: Result<Profissional>)
      requires Valid()
      modifies this
      ensures Valid()
      ensures consultas == old(consultas)
      ensures id !in old(profissionais) ==> r == Err(NotFound) && profissionais == old(profissionais)
      ensures id in old(profissionais) ==>
        var errs := ValidateProfissional(input, EmailsInUse(old(profissionais), Some(id)), emailOk, true);
        && (r.Ok? <==> errs == [])
        && (r.Ok? ==> r.value == ApplyPatch(old(profissionais)[id], input) && profissionais == old(profissionais)[id := r.value])
        && (r.Err? ==> r == Err(ValidationError(errs)) && profissionais == old(profissionais))
    {
      if id !in profissionais {
        return Err(NotFound);
      }
      var errs := ValidateProfissional(input, EmailsInUse(profissionais, Some(id)), emailOk, true);
      if errs != [] {
        return Err(ValidationError(errs));
      }
      var p := ApplyPatch(profissionais[id], input);
      PatchedWithinBounds(profissionais[id], input, EmailsInUse(profissionais, Some(id)), emailOk);
      profissionais := profissionais[id := p];
      r := Ok(p);
    }

    /** DELETE of one professional: `on_delete=CASCADE` removes exactly its
        appointments, and every other appointment stays, in order. */
    method ExcluirProfissional(id: nat) returns (r: Result<()>)
      requires Valid()
      modifies this
      ensures Valid()
      ensures r.Err? <==> id !in old(profissionais)
      ensures r.Err? ==> r == Err(NotFound) && profissionais == old(profissionais) && consultas == old(consultas)
      ensures r.Ok? ==> (profissionais == old(profissionais) - {id}
        && consultas == Filter(old(consultas), (c: Consulta) => c.profissionalId != id))
      ensures forall c :: c in consultas <==> c in old(consultas) && (r.Ok? ==> c.profissionalId != id)
    {
      if id !in profissionais {
        return Err(NotFound);
      }
      var kept := Filter(consultas, (c: Consulta) => c.profissionalId != id);
      SubsequenceRowsValid(kept, consultas, profissionais.Keys, profissionais.Keys - {id}, nextConsultaId);
      profissionais := profissionais - {id};
      consultas := kept;
      r := Ok(());
    }

    /** POST to the appointments resource: the serializer's checks, then the
        (professional, time) constraint. */
    method CriarConsulta(input: ConsultaInput, now: int) returns (r: Result<Consulta>)
      requires Valid()
      modifies this
      ensures Valid()
      ensures profissionais == old(profissionais)
      ensures var v := ValidateConsulta(input, old(profissionais).Keys, now, false);
        && (v.Err? ==> r == Err(v.error) && consultas == old(consultas))
        && (v.Ok? && SlotTaken(old(consultas), v.value.profissionalId.value as nat, v.value.dataHora.value, None) ==>
              r == Invalid(NonFieldErrors, UniqueSlotMessage) && consultas == old(consultas))
        && (v.Ok? && !SlotTaken(old(consultas), v.value.profissionalId.value as nat, v.value.dataHora.value, None) ==>
              r.Ok? && consultas == old(consultas) + [r.value]
              && r.value.profissionalId as int == v.value.profissionalId.value
              && r.value.pacienteNome == v.value.pacienteNome.value
              && r.value.dataHora == v.value.dataHora.value
              && r.value.observacoes == StoredObservacoes(input.observacoes)
              && r.value.id !in (set c | c in old(consultas) :: c.id))
      ensures r.Ok? || consultas == old(consultas)
    {
      var v := ValidateConsulta(input, profissionais.Keys, now, false);
      if v.Err? {
        return Err(v.error);
      }
      var data := v.value;
      var pid := data.profissionalId.value as nat;
      if SlotTaken(consultas, pid, data.dataHora.value, None) {
        return Invalid(NonFieldErrors, UniqueSlotMessage);
      }
      var c := Consulta(nextConsultaId, pid, data.pacienteNome.value, data.dataHora.value, StoredObservacoes(data.observacoes));
      assert |c.pacienteNome| <= MaxPacienteNome by {
        Text.StripIsTrimmed(input.pacienteNome.value, Text.IsSpace);
      }
      AppendRowValid(consultas, c, profissionais.Keys, nextConsultaId);
      consultas := consultas + [c];
      nextConsultaId := nextConsultaId + 1;
      r := Ok(c);
    }

    /** PATCH of one appointment: only the submitted fields are validated and
        changed, and the resulting slot must be free of every other row. */
    method AtualizarConsulta(id: nat, input: ConsultaInput, now: int) returns (r: Result<Consulta>)
      requires Valid()
      modifies this
      ensures Valid()
      ensures profissionais == old(profissionais)
      ensures (forall c :: c in old(consultas) ==> c.id != id) ==> r == Err(NotFound)
      ensures r.Err? ==> consultas == old(consultas)
      ensures r.Ok? ==> (ValidateConsulta(input, old(profissionais).Keys, now, true).Ok?
        && exists k :: 0 <= k < |old(consultas)| && old(consultas)[k].id == id
             && r.value == Patched(old(consultas)[k], ValidateConsulta(input, old(profissionais).Keys, now, true).value)
             && consultas == old(consultas)[k := r.value])
      ensures forall k :: 0 <= k < |old(consultas)| && old(consultas)[k].id == id ==>
        var v := ValidateConsulta(input, old(profissionais).Keys, now, true);
        && (v.Err? ==> r == Err(v.error))
        && (v.Ok? ==> var c := Patched(old(consultas)[k], v.value);
              && (SlotTaken(old(consultas), c.profissionalId, c.dataHora, Some(id)) ==>
                    r == Invalid(NonFieldErrors, UniqueSlotMessage))
              && (!SlotTaken(old(consultas), c.profissionalId, c.dataHora, Some(id)) ==>
                    r == Ok(c) && consultas == old(consultas)[k := c]))
    {
      if forall c :: c in consultas ==> c.id != id {
        return Err(NotFound);
      }
      var k :| 0 <= k < |consultas| && consultas[k].id == id;
      forall j | 0 <= j < |consultas| && consultas[j].id == id ensures j == k {
        assert consultas[j].id == consultas[k].id;
      }
      var v := ValidateConsulta(input, profissionais.Keys, now, true);
      if v.Err? {
        return Err(v.error);
      }
      var c := Patched(consultas[k], v.value);
      if SlotTaken(consultas, c.profissionalId, c.dataHora, Some(id)) {
        return Invalid(NonFieldErrors, UniqueSlotMessage);
      }
      assert consultas[k] in consultas;
      assert |c.pacienteNome| <= MaxPacienteNome by {
        if input.pacienteNome.Some? {
          Text.StripIsTrimmed(input.pacienteNome.value, Text.IsSpace);
        }
      }
      ReplaceRowValid(consultas, k, c, profissionais.Keys, nextConsultaId);
      consultas := consultas[k := c];
      r := Ok(c);
    }

    /** DELETE of one appointment. */
    method ExcluirConsulta(id: nat) returns (r: Result<()>)
      requires Valid()
      modifies this
      ensures Valid()
      ensures profissionais == old(profissionais)
      ensures r.Err? <==> forall c :: c in old(consultas) ==> c.id != id
      ensures r.Err? ==> r == Err(NotFound) && consultas == old(consultas)
      ensures r.Ok? ==> consultas == Filter(old(consultas), (c: Consulta) => c.id != id)
    {
      if forall c :: c in consultas ==> c.id != id {
        return Err(NotFound);
      }
      var kept := Filter(consultas, (c: Consulta) => c.id != id);
      SubsequenceRowsValid(kept, consultas, profissionais.Keys, profissionais.Keys, nextConsultaId);
      consultas := kept;
      r := Ok(());
    }

    /** GET of the appointments list, with the optional professional filter. */
    function Listar(param: Option<string>, toInt: string -> Option<int>): (r: Result<seq<Consulta>>)
      reads this
      requires Valid()
      ensures r.Ok? ==> NewestFirst(r.value)
      ensures r.Ok? ==> forall c :: c in r.value ==> c.profissionalId in profissionais
    {
      var r := ConsultaViews.Listar(consultas, param, toInt);
      if r.Ok? then
        var base := OrderNewestFirst(consultas);
        SubsequenceMembers(r.value, base);
        assert forall c :: c in base ==> c in multiset(consultas);
        r
      else r
    }

    /** The detail view of a stored appointment: its professional is always there. */
    function DetalheDe(c: Consulta): (d: ConsultaDetalhe)
      reads this
      requires Valid() && c in consultas
      ensures d.id == c.id && d.profissionalNome == NomeExibicao(profissionais[c.profissionalId])
    {
      Detalhe(c, profissionais[c.profissionalId])
    }
  }

  /** An appointment after a validated PATCH: submitted fields replace the
      stored ones, the id never changes. */
  function Patched(c: Consulta, data: ConsultaInput): (q: Consulta)
    requires data.profissionalId.Some? ==> data.profissionalId.value >= 0
    ensures q.id == c.id
    ensures q.profissionalId as int == (if data.profissionalId.Some? then data.profissionalId.value else c.profissionalId)
    ensures q.pacienteNome == (if data.pacienteNome.Some? then data.pacienteNome.value else c.pacienteNome)
    ensures q.dataHora == (if data.dataHora.Some? then data.dataHora.value else c.dataHora)
    ensures q.observacoes == (if data.observacoes.Some? then data.observacoes.value else c.observacoes)
  {
    c.(profissionalId := if data.profissionalId.Some? then data.profissionalId.value as nat else c.profissionalId,
       pacienteNome := if data.pacienteNome.Some? then data.pacienteNome.value else c.pacienteNome,
       dataHora := if data.dataHora.Some? then data.dataHora.value else c.dataHora,
       observacoes := if data.observacoes.Some? then data.observacoes.value else c.observacoes)
  }
}
