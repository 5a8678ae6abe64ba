/**
  The category catalog: insert, lookup, listings, field patch, the active flag and,
  for this table only, removal of a row.
*/
module CrudCategoria {
  import opened Common
  import opened Tables
  import opened Models
  import opened Store
  import Patch

  /** create_categoria: one new row under the next key; `estado` defaults to true. */
  method CreateCategoria(session: Session, nombre: string, estado: bool := true) returns (c: Categoria)
    requires session.Valid()
    modifies session`categorias
    ensures session.Valid()
    ensures c == Categoria(old(session.categorias.nextId), nombre, estado)
    ensures session.categorias == old(session.categorias).Insert(c)
  {
    var t := session.categorias;
    c := Categoria(t.nextId, nombre, estado);
    session.categorias := t.Insert(c);
  }

  /** get_categoria_by_id: the stored category whose id is `categoriaId`, or None when no row has it. */
  function GetCategoriaById(t: Table<Categoria>, categoriaId: int): (r: Option<Categoria>)
    requires CategoriasOk(t)
    ensures r.Some? ==> r.value in t.Rows() && r.value.idCategoria == categoriaId
    ensures r.None? ==> forall c :: c in t.Rows() ==> c.idCategoria != categoriaId
  {
    if categoriaId in t.rows then Some(t.rows[categoriaId]) else None
  }

  /** get_categorias_activas: exactly the active categories. */
  function GetCategoriasActivas(t: Table<Categoria>): (r: seq<Categoria>)
    requires t.Valid()
    ensures forall c :: c in r ==> c in t.Rows() && c.estado
    ensures forall id :: id in t.rows ==> (t.rows[id] in r <==> t.rows[id].estado)
    ensures forall c :: multiset(r)[c] == if c.estado then multiset(t.Rows())[c] else 0
  {
    Filter(t.Rows(), (c: Categoria) => c.estado)
  }

  /** One `key=value` of the update's `**kwargs`. */
  datatype CategoriaKwarg = SetNombre(nombre: string) | SetEstado(estado: bool)

  datatype CategoriaColumn = NombreColumn | EstadoColumn

  function Column(f: CategoriaKwarg): CategoriaColumn
  {
    match f
    case SetNombre(_) => NombreColumn
    case SetEstado(_) => EstadoColumn
  }

  /** getattr, given back as the assignment that would store the current value. */
  function GetAttr(c: Categoria, col: CategoriaColumn): (f: CategoriaKwarg)
    ensures Column(f) == col
  {
    match col
    case NombreColumn => SetNombre(c.nombre)
    case EstadoColumn => SetEstado(c.estado)
  }

  /** setattr: the named column takes the value, the other column and the key stay. */
  function SetAttr(c: Categoria, f: CategoriaKwarg): (r: Categoria)
    ensures r.idCategoria == c.idCategoria
    ensures forall col :: GetAttr(r, col) == if Column(f) == col then f else GetAttr(c, col)
  {
    match f
    case SetNombre(v) => c.(nombre := v)
    case SetEstado(v) => c.(estado := v)
  }

  /** The row after the `setattr` loop over `kwargs`. */
  function ApplyKwargs(c: Categoria, kwargs: seq<CategoriaKwarg>): (r: Categoria)
    ensures r.idCategoria == c.idCategoria
    ensures forall col :: GetAttr(r, col) == Patch.LastFor(kwargs, Column, col, GetAttr(c, col))
    decreases |kwargs|
  {
    if kwargs == [] then c
    else SetAttr(ApplyKwargs(c, kwargs[..|kwargs| - 1]), kwargs[|kwargs| - 1])
  }

  /** update_categoria: None and no change when the id is absent; otherwise the stored row with the patch applied. */
  method UpdateCategoria(session: Session, categoriaId: int, kwargs: seq<CategoriaKwarg>)
    returns (r: Option<Categoria>)
    requires session.Valid()
    modifies session`categorias
    ensures session.Valid()
    ensures r.None? <==> categoriaId !in old(session.categorias.rows)
    ensures r.None? ==> session.categorias == old(session.categorias)
    ensures r.Some? ==>
      && r.value == ApplyKwargs(old(session.categorias.rows[categoriaId]), kwargs)
      && session.categorias == old(session.categorias).Put(categoriaId, r.value)
  {
    var found := GetCategoriaById(session.categorias, categoriaId);
    if found.None? {
      return None;
    }
    var c := found.value;
    var i := 0;
    while i < |kwargs|
      invariant 0 <= i <= |kwargs|
      invariant c == ApplyKwargs(found.value, kwargs[..i])
    {
      assert kwargs[..i + 1][..i] == kwargs[..i];
      c := SetAttr(c, kwargs[i]);
      i := i + 1;
    }
    assert kwargs[..i] == kwargs;
    session.categorias := session.categorias.Put(categoriaId, c);
    r := Some(c);
  }

  /** inhabilitar_categoria: marks the category inactive; False and no change when absent. */
  method InhabilitarCategoria(session: Session, categoriaId: int) returns (ok: bool)
    requires session.Valid()
    modifies session`categorias
    ensures session.Valid()
    ensures ok <==> categoriaId in old(session.categorias.rows)
    ensures !ok ==> session.categorias == old(session.categorias)
    ensures ok ==> session.categorias == old(session.categorias).Put(
      categoriaId, old(session.categorias.rows[categoriaId]).(estado := false))
    ensures ok && !old(session.categorias.rows[categoriaId].estado) ==>
      session.categorias == old(session.categorias)
  {
    var found := GetCategoriaById(session.categorias, categoriaId);
    if found.None? {
      return false;
    }
    session.categorias := session.categorias.Put(categoriaId, found.value.(estado := false));
    ok := true;
  }

  /** habilitar_categoria: marks the category active; False and no change when absent. */
  method HabilitarCategoria(session: Session, categoriaId: int) returns (ok: bool)
    requires session.Valid()
    modifies session`categorias
    ensures session.Valid()
    ensures ok <==> categoriaId in old(session.categorias.rows)
    ensures !ok ==> session.categorias == old(session.categorias)
    ensures ok ==> session.categorias == old(session.categorias).Put(
      categoriaId, old(session.categorias.rows[categoriaId]).(estado := true))
    ensures ok && old(session.categorias.rows[categoriaId].estado) ==>
      session.categorias == old(session.categorias)
  {
    var found := GetCategoriaById(session.categorias, categoriaId);
    if found.None? {
      return false;
    }
    session.categorias := session.categorias.Put(categoriaId, found.value.(estado := true));
    ok := true;
  }

  /**
    delete_categoria: removes exactly that row, after which the lookup finds nothing;
    every other category stays as it was. False and no change when absent.
  */
  method DeleteCategoria(session: Session, categoriaId: int) returns (ok: bool)
    requires session.Valid()
    modifies session`categorias
    ensures session.Valid()
    ensures ok <==> categoriaId in old(session.categorias.rows)
    ensures !ok ==> session.categorias == old(session.categorias)
    ensures ok ==> session.categorias == old(session.categorias).Delete(categoriaId)
    ensures GetCategoriaById(session.categorias, categoriaId).None?
    ensures session.categorias.rows.Keys == old(session.categorias.rows.Keys) - {categoriaId}
    ensures forall id :: id in session.categorias.rows ==>
      session.categorias.rows[id] == old(session.categorias.rows[id])
  {
    var found := GetCategoriaById(session.categorias, categoriaId);
    if found.None? {
      return false;
    }
    session.categorias := session.categorias.Delete(categoriaId);
    ok := true;
  }
}
