/** `ConsultaViewSet`: which HTTP methods it answers, and the listing query
    with its optional `profissional_id` filter. */
module ConsultaViews {
  import opened Common
  import opened Consultas

  datatype HttpMethod = Get | Post | Put | Patch | Delete | Head | Options | Trace

  /** `http_method_names`: PUT (and TRACE) are refused, so updates are PATCH only. */
  function Allowed(m: HttpMethod): (r: bool)
    ensures r <==> m in {Get, Post, Patch, Delete, Head, Options}
  {
    match m
    case Put => false
    case Trace => false
    case _ => true
  }

  /** `get_queryset`. `param` is the `profissional_id` query parameter (absent
      is `None`); `toInt` is the ORM's conversion of its text to an id, which
      fails (a server error) on text that is not a number. The base queryset
      is the table in its default `-data_hora` order. */
  function Listar(rows: seq<Consulta>, param: Option<string>, toInt: string -> Option<int>): (r: Result<seq<Consulta>>)
    ensures param.None? || param.value == "" ==> r == Ok(OrderNewestFirst(rows))
    ensures param.Some? && param.value != "" && toInt(param.value).None? ==> r == Err(ServerError)
    ensures param.Some? && param.value != "" && toInt(param.value).Some? ==>
      r.Ok? && forall c :: c in r.value <==> c in rows && c.profissionalId == toInt(param.value).value
    ensures r.Ok? ==> NewestFirst(r.value) && IsSubsequence(r.value, OrderNewestFirst(rows))
  {
    var base := OrderNewestFirst(rows);
    if param.None? || param.value == "" then
      SubsequenceOfItself(base);
      Ok(base)
    else match toInt(param.value)
      case None => Err(ServerError)
      case Some(id) =>
        var filtered := Filter(base, (c: Consulta) => c.profissionalId == id);
        assert forall c :: c in base <==> c in multiset(rows);
        NewestFirstIsPairwise(base);
        SubsequencePairwise(filtered, base, NotLater);
        NewestFirstIsPairwise(filtered);
        Ok(filtered)
  }

  /** Filtering keeps every row of that professional, as many times as the
      table holds it: the listing is a reordering of exactly those rows. */
  lemma {:induction false} ListarFilterCounts(rows: seq<Consulta>, param: string, toInt: string -> Option<int>, c: Consulta)
    requires param != "" && toInt(param).Some?
    ensures var r := Listar(rows, Some(param), toInt);
      r.Ok? && multiset(r.value)[c] == if c.profissionalId == toInt(param).value then multiset(rows)[c] else 0
  {
    var base := OrderNewestFirst(rows);
    var id := toInt(param).value;
    var filtered := Filter(base, (x: Consulta) => x.profissionalId == id);
    assert Listar(rows, Some(param), toInt) == Ok(filtered);
    assert multiset(base) == multiset(rows);
  }

  /** A filter that matches nothing lists nothing; it is not an error. */
  lemma NoMatchListsEmpty(rows: seq<Consulta>, param: string, toInt: string -> Option<int>)
    requires param != "" && toInt(param).Some?
    requires forall c :: c in rows ==> c.profissionalId != toInt(param).value
    ensures Listar(rows, Some(param), toInt) == Ok([])
  {
  }

  /** An empty table lists as an empty result whenever the filter is usable. */
  lemma EmptyTableListsEmpty(param: Option<string>, toInt: string -> Option<int>)
    requires param.Some? && param.value != "" ==> toInt(param.value).Some?
    ensures Listar([], param, toInt) == Ok([])
  {
    if param.Some? && param.value != "" {
      NoMatchListsEmpty([], param.value, toInt);
    }
  }
}
