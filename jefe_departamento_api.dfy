/**
 * The department-head terms endpoint: which rows a request sees (the
 * soft-delete visibility rule), the soft delete itself, the page-number
 * pagination of its listings, and the listing of terms ending within the
 * next 30 days.
 *
 * Query parameters are a map from name to value (the last value given for
 * a name, as `QueryDict.get` returns it).
 */
module JefeDepartamentoApi {
  import opened Wrappers
  import opened Models
  import PyText

  type QueryParams = map<string, string>

  // ---------------------------------------------------------------------
  // Visibility and soft delete.

  /** `query_params.get('show_all', False)` is truthy: present and not empty. */
  predicate ShowAll(params: QueryParams) {
    "show_all" in params && params["show_all"] != ""
  }

  /** The rows a request sees: all of them with `show_all` or an `estado` parameter, else only active ones. */
  function GetQueryset(rows: seq<JefeDepartamento>, params: QueryParams): (r: seq<JefeDepartamento>)
    ensures |r| <= |rows|
  {
    if ShowAll(params) || "estado" in params then rows
    else if rows == [] then []
    else
      var rest := GetQueryset(rows[1..], params);
      if rows[0].estado == "1" then [rows[0]] + rest else rest
  }

  /**
   * A row is visible exactly when the request asks for everything (any
   * non-empty `show_all`, even "false", or any `estado` parameter) or the
   * row is active.
   */
  lemma {:induction false} VisibleIff(rows: seq<JefeDepartamento>, params: QueryParams, j: JefeDepartamento)
    ensures j in GetQueryset(rows, params) <==> j in rows && (ShowAll(params) || "estado" in params || j.estado == "1")
  {
    if !(ShowAll(params) || "estado" in params) && rows != [] {
      VisibleIff(rows[1..], params, j);
      assert rows == [rows[0]] + rows[1..];
    }
  }

  /** The position of the visible row with primary key `pk`. */
  function VisibleIndex(rows: seq<JefeDepartamento>, params: QueryParams, pk: int): (r: Option<nat>)
    ensures r.Some? ==> r.value < |rows| && rows[r.value].id == pk
                        && (ShowAll(params) || "estado" in params || rows[r.value].estado == "1")
    ensures r.None? ==> forall k :: 0 <= k < |rows| && rows[k].id == pk ==>
                          !(ShowAll(params) || "estado" in params || rows[k].estado == "1")
  {
    if rows == [] then None
    else if rows[0].id == pk && (ShowAll(params) || "estado" in params || rows[0].estado == "1") then Some(0)
    else match VisibleIndex(rows[1..], params, pk)
      case None => None
      case Some(k) => Some(k + 1)
  }

  /** The table after `destroy(pk)`; `None` is the 404 of `get_object`. */
  function SoftDelete(rows: seq<JefeDepartamento>, params: QueryParams, pk: int): Option<seq<JefeDepartamento>> {
    match VisibleIndex(rows, params, pk)
    case None => None
    case Some(k) => Some(rows[k := rows[k].(estado := "0")])
  }

  /**
   * The soft delete keeps every row, changes only the `estado` of the
   * deleted one to "0", and afterwards a default request no longer sees
   * it while a `show_all` request still does.
   */
  lemma SoftDeleteKeepsRow(rows: seq<JefeDepartamento>, params: QueryParams, pk: int, showAll: QueryParams)
    requires SoftDelete(rows, params, pk).Some?
    requires ShowAll(showAll)
    ensures var after := SoftDelete(rows, params, pk).value;
            var k := VisibleIndex(rows, params, pk).value;
            && |after| == |rows|
            && after[k] == rows[k].(estado := "0")
            && (forall i :: 0 <= i < |rows| && i != k ==> after[i] == rows[i])
            && after[k] !in GetQueryset(after, map[])
            && after[k] in GetQueryset(after, showAll)
  {
    var after := SoftDelete(rows, params, pk).value;
    var k := VisibleIndex(rows, params, pk).value;
    VisibleIff(after, map[], after[k]);
    VisibleIff(after, showAll, after[k]);
  }

  /** A soft-deleted row cannot be deleted again by a default request: it is not found. */
  lemma DeletedIsNotFound(rows: seq<JefeDepartamento>, pk: int)
    requires forall i, j :: 0 <= i < j < |rows| ==> rows[i].id != rows[j].id
    requires SoftDelete(rows, map[], pk).Some?
    ensures SoftDelete(SoftDelete(rows, map[], pk).value, map[], pk).None?
  {
    var after := SoftDelete(rows, map[], pk).value;
    var k := VisibleIndex(rows, map[], pk).value;
    forall i | 0 <= i < |after| && after[i].id == pk
      ensures after[i].estado != "1"
    {
      assert i == k;
    }
  }

  /** `destroy`: 204 after setting `estado` to "0" on the visible row, 404 when there is none. */
  method Destroy(db: Database, params: QueryParams, pk: int) returns (status: int)
    modifies db
    ensures status == (if SoftDelete(old(db.jefes), params, pk).Some? then 204 else 404)
    ensures db.State() == old(db.State()).(jefes := SoftDelete(old(db.jefes), params, pk).GetOr(old(db.jefes)))
  {
    var found := VisibleIndex(db.jefes, params, pk);
    if found.None? {
      return 404;
    }
    var k := found.value;
    db.jefes := db.jefes[k := db.jefes[k].(estado := "0")];
    return 204;
  }

  // ---------------------------------------------------------------------
  // Page-number pagination: 10 per page, `page_size` up to 100.

  const DefaultPageSize: nat := 10
  const MaxPageSize: nat := 100

  /** The page size: a positive integer `page_size` capped at 100, else 10. */
  function PageSize(params: QueryParams): (n: nat)
    ensures 1 <= n <= MaxPageSize
    ensures "page_size" !in params ==> n == DefaultPageSize
    ensures "page_size" in params && PyText.PyInt(params["page_size"]).Some? && PyText.PyInt(params["page_size"]).value >= 1
            ==> n == if PyText.PyInt(params["page_size"]).value < MaxPageSize then PyText.PyInt(params["page_size"]).value else MaxPageSize
    ensures "page_size" in params && (PyText.PyInt(params["page_size"]).None? || PyText.PyInt(params["page_size"]).value < 1)
            ==> n == DefaultPageSize
  {
    if "page_size" !in params then DefaultPageSize
    else match PyText.PyInt(params["page_size"])
      case None => DefaultPageSize
      case Some(v) => if v < 1 then DefaultPageSize else if v < MaxPageSize then v else MaxPageSize
  }

  /** The number of pages: at least one, even for no rows. */
  function NumPages(count: nat, size: nat): (n: nat)
    requires size >= 1
    ensures n >= 1 && (n - 1) * size < if count == 0 then 1 else count
    ensures count <= n * size
  {
    if count <= size then 1 else 1 + NumPages(count - size, size)
  }

  /** The requested page number: `page` or 1; "last" is the last page; `None` when not an integer. */
  function RequestedPage(params: QueryParams, numPages: nat): Option<int> {
    if "page" !in params || params["page"] == "" then Some(1)
    else if params["page"] == "last" then Some(numPages)
    else PyText.PyInt(params["page"])
  }

  /** Page `number` of `rows`; `None` is the 404 for a page outside 1..NumPages. */
  function PageOf<T>(rows: seq<T>, size: nat, number: int): (r: Option<seq<T>>)
    requires size >= 1
    ensures r.Some? <==> 1 <= number <= NumPages(|rows|, size)
  {
    var n := NumPages(|rows|, size);
    if number < 1 || number > n then None
    else
      var bottom := (number - 1) * size;
      MulMono(number - 1, n - 1, size);
      var top := if bottom + size >= |rows| then |rows| else bottom + size;
      Some(rows[bottom..top])
  }

  /** Multiplying by a natural keeps the order. */
  lemma MulMono(a: nat, b: nat, size: nat)
    requires a <= b
    ensures 0 <= a * size <= b * size
  {
    assert b * size == a * size + (b - a) * size;
  }

  /** The page a request asks for: `None` is the 404. */
  function Paginate<T>(rows: seq<T>, params: QueryParams): Option<seq<T>> {
    var size := PageSize(params);
    match RequestedPage(params, NumPages(|rows|, size))
    case None => None
    case Some(number) => PageOf(rows, size, number)
  }

  /**
   * Pages cover the rows without overlap: row `i` is on page `i / size + 1`,
   * at position `i % size`, and every page has at most `size` rows.
   */
  lemma RowOnItsPage<T>(rows: seq<T>, size: nat, i: nat)
    requires size >= 1 && i < |rows|
    ensures var p := PageOf(rows, size, i / size + 1);
            p.Some? && i % size < |p.value| <= size && p.value[i % size] == rows[i]
  {
    var q, r := DivMod(i, size);
    var bottom := q * size;
    NumPagesCovers(|rows|, size, q + 1);
    var top := if bottom + size >= |rows| then |rows| else bottom + size;
    assert PageOf(rows, size, q + 1) == Some(rows[bottom..top]);
    assert rows[bottom..top][r] == rows[i];
  }

  /** Euclidean division of `i` by `size`, named. */
  lemma DivMod(i: nat, size: nat) returns (q: nat, r: nat)
    requires size >= 1
    ensures q == i / size && r == i % size && q * size + r == i && r < size
  {
    q, r := i / size, i % size;
  }

  lemma {:induction false} NumPagesCovers(count: nat, size: nat, n: int)
    requires size >= 1 && n >= 1 && (n - 1) * size < count
    ensures n <= NumPages(count, size)
    decreases count
  {
    if count > size && n > 1 {
      assert (n - 2) * size == (n - 1) * size - size;
      NumPagesCovers(count - size, size, n - 1);
    }
  }

  /** The first page always exists, even for an empty listing. */
  lemma FirstPageExists<T>(rows: seq<T>, params: QueryParams)
    requires "page" !in params
    ensures Paginate(rows, params).Some?
  {
  }

  /** `page=last` serves the last page, which always exists and ends with the last row. */
  lemma LastPageServed<T>(rows: seq<T>, params: QueryParams)
    requires "page" in params && params["page"] == "last"
    ensures Paginate(rows, params).Some?
    ensures var page := Paginate(rows, params).value;
            rows != [] ==> page != [] && page[|page| - 1] == rows[|rows| - 1]
  {
    var size := PageSize(params);
    var n := NumPages(|rows|, size);
    assert Paginate(rows, params) == PageOf(rows, size, n);
    if rows != [] {
      var bottom := (n - 1) * size;
      assert n * size == bottom + size;
      assert bottom < |rows| <= bottom + size;
      assert PageOf(rows, size, n) == Some(rows[bottom..|rows|]);
    }
  }

  // ---------------------------------------------------------------------
  // list_proximos_vencimientos

  /** The holder as the listing shows it; a missing e-mail is written "No disponible". */
  datatype PersonaInfo = PersonaInfo(id: int, nombre: string, apellido: string, email: string)

  /** One listed term. */
  datatype VencimientoItem = VencimientoItem(
    id: int,
    estado: string,
    notificado: bool,
    fechaDeInicio: Option<CivilDate>,
    fechaDeFin: Option<CivilDate>,
    departamento: string,
    persona: Option<PersonaInfo>)

  /** `today <= fecha_de_fin <= limit`, inclusive at both ends; a term with no end date is never in it. */
  predicate InWindow(j: JefeDepartamento, today: CivilDate, limit: CivilDate) {
    j.fechaDeFin.Some? && DateLeq(today, j.fechaDeFin.value) && DateLeq(j.fechaDeFin.value, limit)
  }

  /** The terms in the window, in table order; no filter on `estado` or `notificado`. */
  function Window(jefes: seq<JefeDepartamento>, today: CivilDate, limit: CivilDate): (w: seq<JefeDepartamento>)
    ensures |w| <= |jefes|
  {
    if jefes == [] then []
    else
      var rest := Window(jefes[1..], today, limit);
      if InWindow(jefes[0], today, limit) then [jefes[0]] + rest else rest
  }

  /**
   * A term is listed exactly when its end date lies in the window, whatever
   * its `estado` and `notificado`: inactive and already-notified terms are
   * listed too.
   */
  lemma {:induction false} WindowIff(jefes: seq<JefeDepartamento>, today: CivilDate, limit: CivilDate, j: JefeDepartamento)
    ensures j in Window(jefes, today, limit) <==> j in jefes && InWindow(j, today, limit)
  {
    if jefes != [] {
      WindowIff(jefes[1..], today, limit, j);
      assert jefes == [jefes[0]] + jefes[1..];
    }
  }

  function Item(personas: seq<Persona>, j: JefeDepartamento): VencimientoItem {
    var info := match FindPersona(personas, j.personaId)
      case None => None
      case Some(p) => Some(PersonaInfo(p.id, p.nombre, p.apellido, if HasEmail(p) then p.email.value else "No disponible"));
    VencimientoItem(j.id, j.estado, j.notificado, j.fechaDeInicio, j.fechaDeFin, j.departamento, info)
  }

  function Items(personas: seq<Persona>, jefes: seq<JefeDepartamento>): (items: seq<VencimientoItem>)
    ensures |items| == |jefes|
    ensures forall k :: 0 <= k < |jefes| ==> items[k] == Item(personas, jefes[k])
  {
    seq(|jefes|, k requires 0 <= k < |jefes| => Item(personas, jefes[k]))
  }

  /** The listing at instant `now`: today's date (UTC) to 30 days later, paginated; `None` is the 404. */
  function ListProximosVencimientos(personas: seq<Persona>, jefes: seq<JefeDepartamento>, now: int, params: QueryParams)
    : Option<seq<VencimientoItem>>
  {
    var today := DateOfInstant(now);
    var limit := CivilFromDays(DateOf(now) + 30);
    match Paginate(Window(jefes, today, limit), params)
    case None => None
    case Some(page) => Some(Items(personas, page))
  }

  /**
   * Every listed item echoes its term's id, `estado`, `notificado` and end
   * date, and the holder's e-mail is never shown empty: it is the holder's
   * address, or "No disponible" when the holder has none.
   */
  lemma ListedItems(personas: seq<Persona>, jefes: seq<JefeDepartamento>, now: int, params: QueryParams)
    requires ListProximosVencimientos(personas, jefes, now, params).Some?
    ensures var items := ListProximosVencimientos(personas, jefes, now, params).value;
            var today := DateOfInstant(now);
            var limit := CivilFromDays(DateOf(now) + 30);
            forall it :: it in items ==>
              && (exists j :: j in jefes && InWindow(j, today, limit) && j.id == it.id && j.estado == it.estado
                              && j.notificado == it.notificado && j.fechaDeFin == it.fechaDeFin)
              && (it.persona.Some? ==> it.persona.value.email != "")
              && (it.persona.Some? ==> exists p :: p in personas && p.id == it.persona.value.id
                                                   && it.persona.value.email == (if HasEmail(p) then p.email.value else "No disponible"))
  {
    var today := DateOfInstant(now);
    var limit := CivilFromDays(DateOf(now) + 30);
    var w := Window(jefes, today, limit);
    var page := Paginate(w, params).value;
    var items := Items(personas, page);
    forall it | it in items
      ensures exists j :: j in jefes && InWindow(j, today, limit) && j.id == it.id && j.estado == it.estado
                          && j.notificado == it.notificado && j.fechaDeFin == it.fechaDeFin
      ensures it.persona.Some? ==> it.persona.value.email != ""
      ensures it.persona.Some? ==> exists p :: p in personas && p.id == it.persona.value.id
                                              && it.persona.value.email == (if HasEmail(p) then p.email.value else "No disponible")
    {
      var k :| 0 <= k < |items| && items[k] == it;
      var j := page[k];
      assert j in w by {
        PageIsSlice(w, params);
      }
      WindowIff(jefes, today, limit, j);
    }
  }

  /** A page holds rows of the listing it was cut from. */
  lemma PageIsSlice<T>(rows: seq<T>, params: QueryParams)
    requires Paginate(rows, params).Some?
    ensures forall x :: x in Paginate(rows, params).value ==> x in rows
  {
    var size := PageSize(params);
    var number := RequestedPage(params, NumPages(|rows|, size)).value;
    var page := PageOf(rows, size, number).value;
    assert Paginate(rows, params).value == page;
    forall x | x in page ensures x in rows {
      SliceMember(rows, size, number, x);
    }
  }

  /** A row of a page is a row of the listing. */
  lemma SliceMember<T>(rows: seq<T>, size: nat, number: int, x: T)
    requires size >= 1 && PageOf(rows, size, number).Some? && x in PageOf(rows, size, number).value
    ensures x in rows
  {
    var n := NumPages(|rows|, size);
    var bottom := (number - 1) * size;
    MulMono(number - 1, n - 1, size);
    var top := if bottom + size >= |rows| then |rows| else bottom + size;
    var page := rows[bottom..top];
    assert PageOf(rows, size, number).value == page;
    var i :| 0 <= i < |page| && page[i] == x;
    assert rows[bottom + i] == x;
  }
}
