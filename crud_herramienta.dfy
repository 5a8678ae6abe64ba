/** The tool catalog: insert, lookup, listings, field patch and the in-service flag. */
module CrudHerramienta {
  import opened Common
  import opened Tables
  import opened Models
  import opened Store
  import Patch

  const CODIGO_UNIQUE := "herramienta.codigo_interno"

  /**
    create_herramienta: one new row with the given columns under the next key
    (`descripcion` defaults to None). The
    unique constraint on `codigo_interno` makes the commit fail when the code is
    already stored, and then nothing is written.
  */
  method CreateHerramienta(
    session: Session,
    nombre: string,
    categoria: string,
    estado: bool,
    codigoInterno: string,
    cantidadDisponible: int,
    descripcion: Option<string> := None)
    returns (r: Result<Herramienta, IntegrityError>)
    requires session.Valid()
    modifies session`herramientas
    ensures session.Valid()
    ensures r.Failure? <==> old(CodigoTaken(session.herramientas, codigoInterno, session.herramientas.nextId))
    ensures r.Failure? ==>
      r.error == UniqueViolation(CODIGO_UNIQUE) && session.herramientas == old(session.herramientas)
    ensures r.Success? ==>
      && r.value == Herramienta(old(session.herramientas.nextId), nombre, categoria, estado,
                                codigoInterno, cantidadDisponible, descripcion)
      && session.herramientas == old(session.herramientas).Insert(r.value)
  {
    var t := session.herramientas;
    if CodigoTaken(t, codigoInterno, t.nextId) {
      return Failure(UniqueViolation(CODIGO_UNIQUE));
    }
    var herramienta := Herramienta(t.nextId, nombre, categoria, estado, codigoInterno,
                                   cantidadDisponible, descripcion);
    HerramientaInsertOk(t, herramienta);
    session.herramientas := t.Insert(herramienta);
    r := Success(herramienta);
  }

  /** get_herramienta_by_id: the stored tool whose id is `herramientaId`, or None when no row has it. */
  function GetHerramientaById(t: Table<Herramienta>, herramientaId: int): (r: Option<Herramienta>)
    requires HerramientasOk(t)
    ensures r.Some? ==> r.value in t.Rows() && r.value.idHerramienta == herramientaId
    ensures r.None? ==> forall h :: h in t.Rows() ==> h.idHerramienta != herramientaId
  {
    if herramientaId in t.rows then Some(t.rows[herramientaId]) else None
  }

  /** get_herramientas_disponibles: exactly the tools in service, whatever their stock. */
  function GetHerramientasDisponibles(t: Table<Herramienta>): (r: seq<Herramienta>)
    requires t.Valid()
    ensures forall h :: h in r ==> h in t.Rows() && h.estado
    ensures forall id :: id in t.rows ==> (t.rows[id] in r <==> t.rows[id].estado)
    ensures forall h :: multiset(r)[h] == if h.estado then multiset(t.Rows())[h] else 0
  {
    Filter(t.Rows(), (h: Herramienta) => h.estado)
  }

  /** get_herramientas_por_categoria: exactly the tools whose category string is `categoria`. */
  function GetHerramientasPorCategoria(t: Table<Herramienta>, categoria: string): (r: seq<Herramienta>)
    requires t.Valid()
    ensures forall h :: h in r ==> h in t.Rows() && h.categoria == categoria
    ensures forall id :: id in t.rows ==> (t.rows[id] in r <==> t.rows[id].categoria == categoria)
    ensures forall h :: multiset(r)[h] == if h.categoria == categoria then multiset(t.Rows())[h] else 0
  {
    Filter(t.Rows(), (h: Herramienta) => h.categoria == categoria)
  }

  /** One `key=value` of the update's `**kwargs`. */
  datatype HerramientaKwarg =
    | SetNombre(nombre: string)
    | SetCategoria(categoria: string)
    | SetEstado(estado: bool)
    | SetCodigoInterno(codigoInterno: string)
    | SetCantidadDisponible(cantidadDisponible: int)
    | SetDescripcion(descripcion: Option<string>)

  datatype HerramientaColumn =
    NombreColumn | CategoriaColumn | EstadoColumn | CodigoInternoColumn | CantidadDisponibleColumn | DescripcionColumn

  function Column(f: HerramientaKwarg): HerramientaColumn
  {
    match f
    case SetNombre(_) => NombreColumn
    case SetCategoria(_) => CategoriaColumn
    case SetEstado(_) => EstadoColumn
    case SetCodigoInterno(_) => CodigoInternoColumn
    case SetCantidadDisponible(_) => CantidadDisponibleColumn
    case SetDescripcion(_) => DescripcionColumn
  }

  /** getattr, given back as the assignment that would store the current value. */
  function GetAttr(h: Herramienta, c: HerramientaColumn): (f: HerramientaKwarg)
    ensures Column(f) == c
  {
    match c
    case NombreColumn => SetNombre(h.nombre)
    case CategoriaColumn => SetCategoria(h.categoria)
    case EstadoColumn => SetEstado(h.estado)
    case CodigoInternoColumn => SetCodigoInterno(h.codigoInterno)
    case CantidadDisponibleColumn => SetCantidadDisponible(h.cantidadDisponible)
    case DescripcionColumn => SetDescripcion(h.descripcion)
  }

  /** setattr: the named column takes the value, every other column and the key stay. */
  function SetAttr(h: Herramienta, f: HerramientaKwarg): (r: Herramienta)
    ensures r.idHerramienta == h.idHerramienta
    ensures forall c :: GetAttr(r, c) == if Column(f) == c then f else GetAttr(h, c)
  {
    match f
    case SetNombre(v) => h.(nombre := v)
    case SetCategoria(v) => h.(categoria := v)
    case SetEstado(v) => h.(estado := v)
    case SetCodigoInterno(v) => h.(codigoInterno := v)
    case SetCantidadDisponible(v) => h.(cantidadDisponible := v)
    case SetDescripcion(v) => h.(descripcion := v)
  }

  /** The row after the `setattr` loop over `kwargs`. */
  function ApplyKwargs(h: Herramienta, kwargs: seq<HerramientaKwarg>): (r: Herramienta)
    ensures r.idHerramienta == h.idHerramienta
    ensures forall c :: GetAttr(r, c) == Patch.LastFor(kwargs, Column, c, GetAttr(h, c))
    decreases |kwargs|
  {
    if kwargs == [] then h
    else SetAttr(ApplyKwargs(h, kwargs[..|kwargs| - 1]), kwargs[|kwargs| - 1])
  }

  /**
    update_herramienta: None when the id is absent; otherwise the stored row with the
    patch applied. A patch that gives the row another tool's code fails at commit and
    writes nothing.
  */
  method UpdateHerramienta(session: Session, herramientaId: int, kwargs: seq<HerramientaKwarg>)
    returns (r: Result<Option<Herramienta>, IntegrityError>)
    requires session.Valid()
    modifies session`herramientas
    ensures session.Valid()
    ensures herramientaId !in old(session.herramientas.rows) ==>
      r == Success(None) && session.herramientas == old(session.herramientas)
    ensures herramientaId in old(session.herramientas.rows) ==>
      var patched := ApplyKwargs(old(session.herramientas.rows[herramientaId]), kwargs);
      if old(CodigoTaken(session.herramientas, patched.codigoInterno, herramientaId)) then
        r == Failure(UniqueViolation(CODIGO_UNIQUE)) && session.herramientas == old(session.herramientas)
      else
        r == Success(Some(patched)) && session.herramientas == old(session.herramientas).Put(herramientaId, patched)
  {
    var found := GetHerramientaById(session.herramientas, herramientaId);
    if found.None? {
      return Success(None);
    }
    var h := found.value;
    var i := 0;
    while i < |kwargs|
      invariant 0 <= i <= |kwargs|
      invariant h == ApplyKwargs(found.value, kwargs[..i])
    {
      assert kwargs[..i + 1][..i] == kwargs[..i];
      h := SetAttr(h, kwargs[i]);
      i := i + 1;
    }
    assert kwargs[..i] == kwargs;
    if CodigoTaken(session.herramientas, h.codigoInterno, herramientaId) {
      return Failure(UniqueViolation(CODIGO_UNIQUE));
    }
    session.herramientas := session.herramientas.Put(herramientaId, h);
    r := Success(Some(h));
  }

  /** inhabilitar_herramienta: takes the tool out of service; False and no change when absent. */
  method InhabilitarHerramienta(session: Session, herramientaId: int) returns (ok: bool)
    requires session.Valid()
    modifies session`herramientas
    ensures session.Valid()
    ensures ok <==> herramientaId in old(session.herramientas.rows)
    ensures !ok ==> session.herramientas == old(session.herramientas)
    ensures ok ==> session.herramientas == old(session.herramientas).Put(
      herramientaId, old(session.herramientas.rows[herramientaId]).(estado := false))
    ensures ok && !old(session.herramientas.rows[herramientaId].estado) ==>
      session.herramientas == old(session.herramientas)
  {
    var found := GetHerramientaById(session.herramientas, herramientaId);
    if found.None? {
      return false;
    }
    session.herramientas := session.herramientas.Put(herramientaId, found.value.(estado := false));
    ok := true;
  }

  /** habilitar_herramienta: puts the tool back in service; False and no change when absent. */
  method HabilitarHerramienta(session: Session, herramientaId: int) returns (ok: bool)
    requires session.Valid()
    modifies session`herramientas
    ensures session.Valid()
    ensures ok <==> herramientaId in old(session.herramientas.rows)
    ensures !ok ==> session.herramientas == old(session.herramientas)
    ensures ok ==> session.herramientas == old(session.herramientas).Put(
      herramientaId, old(session.herramientas.rows[herramientaId]).(estado := true))
    ensures ok && old(session.herramientas.rows[herramientaId].estado) ==>
      session.herramientas == old(session.herramientas)
  {
    var found := GetHerramientaById(session.herramientas, herramientaId);
    if found.None? {
      return false;
    }
    session.herramientas := session.herramientas.Put(herramientaId, found.value.(estado := true));
    ok := true;
  }
}
