/**
  The four record shapes of the schema and the constraints the schema declares on
  each table: the primary key stored in the row equals its key in the table, and
  the columns declared unique hold no repeated value.
*/
module Models {
  import opened Common
  import opened Tables

  datatype Categoria = Categoria(idCategoria: int, nombre: string, estado: bool)

  /**
    `correo` may be None on the object a caller builds, but the column is declared
    NOT NULL and unique: a stored row always has an e-mail no other row has.
  */
  datatype Empleado = Empleado(
    id: int,
    nombre: string,
    apellido: string,
    area: string,
    correo: Option<string>,
    activo: bool)

  /** `categoria` is a free string, not a key into the category table. */
  datatype Herramienta = Herramienta(
    idHerramienta: int,
    nombre: string,
    categoria: string,
    estado: bool,
    codigoInterno: string,
    cantidadDisponible: int,
    descripcion: Option<string>)

  /** `estado` is a free string; the ledger writes "activo", "devuelto" and "cancelado". */
  datatype Prestamo = Prestamo(
    idPrestamo: int,
    idEmpleadoH: int,
    idHerramientaH: int,
    fechaPrestamo: Timestamp,
    fechaDevolucionEstimada: Timestamp,
    fechaDevolucion: Option<Timestamp>,
    observaciones: Option<string>,
    estado: string)

  ghost predicate CategoriasOk(t: Table<Categoria>)
  {
    t.Valid() && forall id :: id in t.rows ==> t.rows[id].idCategoria == id
  }

  ghost predicate EmpleadosOk(t: Table<Empleado>)
  {
    && t.Valid()
    && (forall id :: id in t.rows ==> t.rows[id].id == id)
    && (forall id :: id in t.rows ==> t.rows[id].correo.Some?)
    && (forall a, b :: a in t.rows && b in t.rows && a != b ==>
          t.rows[a].correo != t.rows[b].correo)
  }

  ghost predicate HerramientasOk(t: Table<Herramienta>)
  {
    && t.Valid()
    && (forall id :: id in t.rows ==> t.rows[id].idHerramienta == id)
    && (forall a, b :: a in t.rows && b in t.rows && a != b ==>
          t.rows[a].codigoInterno != t.rows[b].codigoInterno)
  }

  ghost predicate PrestamosOk(t: Table<Prestamo>)
  {
    t.Valid() && forall id :: id in t.rows ==> t.rows[id].idPrestamo == id
  }

  /** Some row other than `self` already holds this e-mail. */
  predicate CorreoTaken(t: Table<Empleado>, correo: string, self: int)
  {
    exists id :: id in t.rows && id != self && t.rows[id].correo == Some(correo)
  }

  /** Some row other than `self` already holds this internal code. */
  predicate CodigoTaken(t: Table<Herramienta>, codigo: string, self: int)
  {
    exists id :: id in t.rows && id != self && t.rows[id].codigoInterno == codigo
  }

  /** Appending an employee with an e-mail no row holds keeps the employee table's constraints. */
  lemma EmpleadoInsertOk(t: Table<Empleado>, e: Empleado)
    requires EmpleadosOk(t) && e.id == t.nextId && e.correo.Some? && !CorreoTaken(t, e.correo.value, t.nextId)
    ensures EmpleadosOk(t.Insert(e))
  {
  }

  /** Appending a tool whose code no row holds keeps the tool table's constraints. */
  lemma HerramientaInsertOk(t: Table<Herramienta>, h: Herramienta)
    requires HerramientasOk(t) && h.idHerramienta == t.nextId && !CodigoTaken(t, h.codigoInterno, t.nextId)
    ensures HerramientasOk(t.Insert(h))
  {
  }
}
