/** The employee catalog: insert, lookup, listings, field patch and the active flag. Employees are never removed. */
module CrudEmpleado {
  import opened Common
  import opened Tables
  import opened Models
  import opened Store
  import Patch

  const CORREO_COLUMN := "empleado.correo"

  /**
    create_empleado: one new row under the next key; `activo` defaults to true and
    `correo` to None. The e-mail column is NOT NULL and unique, so a missing
    e-mail, or one another employee already has, fails at commit and nothing is
    written.
  */
  method CreateEmpleado(
    session: Session,
    nombre: string,
    apellido: string,
    area: string,
    correo: Option<string> := None,
    activo: bool := true)
    returns (r: Result<Empleado, IntegrityError>)
    requires session.Valid()
    modifies session`empleados
    ensures session.Valid()
    ensures r.Success? <==> correo.Some? && !old(CorreoTaken(session.empleados, correo.value, session.empleados.nextId))
    ensures correo.None? ==>
      r == Failure(NotNullViolation(CORREO_COLUMN)) && session.empleados == old(session.empleados)
    ensures correo.Some? && old(CorreoTaken(session.empleados, correo.value, session.empleados.nextId)) ==>
      r == Failure(UniqueViolation(CORREO_COLUMN)) && session.empleados == old(session.empleados)
    ensures r.Success? ==>
      && r.value == Empleado(old(session.empleados.nextId), nombre, apellido, area, correo, activo)
      && session.empleados == old(session.empleados).Insert(r.value)
  {
    var t := session.empleados;
    if correo.None? {
      return Failure(NotNullViolation(CORREO_COLUMN));
    }
    if CorreoTaken(t, correo.value, t.nextId) {
      return Failure(UniqueViolation(CORREO_COLUMN));
    }
    var empleado := Empleado(t.nextId, nombre, apellido, area, correo, activo);
    EmpleadoInsertOk(t, empleado);
    session.empleados := t.Insert(empleado);
    r := Success(empleado);
  }

  /** get_empleado_by_id: the stored employee whose id is `empleadoId`, or None when no row has it. */
  function GetEmpleadoById(t: Table<Empleado>, empleadoId: int): (r: Option<Empleado>)
    requires EmpleadosOk(t)
    ensures r.Some? ==> r.value in t.Rows() && r.value.id == empleadoId
    ensures r.None? ==> forall e :: e in t.Rows() ==> e.id != empleadoId
  {
    if empleadoId in t.rows then Some(t.rows[empleadoId]) else None
  }

  /** get_empleados_activos: exactly the active employees. */
  function GetEmpleadosActivos(t: Table<Empleado>): (r: seq<Empleado>)
    requires t.Valid()
    ensures forall e :: e in r ==> e in t.Rows() && e.activo
    ensures forall id :: id in t.rows ==> (t.rows[id] in r <==> t.rows[id].activo)
    ensures forall e :: multiset(r)[e] == if e.activo then multiset(t.Rows())[e] else 0
  {
    Filter(t.Rows(), (e: Empleado) => e.activo)
  }

  /** get_empleados_por_area: exactly the employees of area `area`. */
  function GetEmpleadosPorArea(t: Table<Empleado>, area: string): (r: seq<Empleado>)
    requires t.Valid()
    ensures forall e :: e in r ==> e in t.Rows() && e.area == area
    ensures forall id :: id in t.rows ==> (t.rows[id] in r <==> t.rows[id].area == area)
    ensures forall e :: multiset(r)[e] == if e.area == area then multiset(t.Rows())[e] else 0
  {
    Filter(t.Rows(), (e: Empleado) => e.area == area)
  }

  /** One `key=value` of the update's `**kwargs`. */
  datatype EmpleadoKwarg =
    | SetNombre(nombre: string)
    | SetApellido(apellido: string)
    | SetArea(area: string)
    | SetCorreo(correo: Option<string>)
    | SetActivo(activo: bool)

  datatype EmpleadoColumn = NombreColumn | ApellidoColumn | AreaColumn | CorreoColumn | ActivoColumn

  function Column(f: EmpleadoKwarg): EmpleadoColumn
  {
    match f
    case SetNombre(_) => NombreColumn
    case SetApellido(_) => ApellidoColumn
    case SetArea(_) => AreaColumn
    case SetCorreo(_) => CorreoColumn
    case SetActivo(_) => ActivoColumn
  }

  /** getattr, given back as the assignment that would store the current value. */
  function GetAttr(e: Empleado, c: EmpleadoColumn): (f: EmpleadoKwarg)
    ensures Column(f) == c
  {
    match c
    case NombreColumn => SetNombre(e.nombre)
    case ApellidoColumn => SetApellido(e.apellido)
    case AreaColumn => SetArea(e.area)
    case CorreoColumn => SetCorreo(e.correo)
    case ActivoColumn => SetActivo(e.activo)
  }

  /** setattr: the named column takes the value, every other column and the key stay. */
  function SetAttr(e: Empleado, f: EmpleadoKwarg): (r: Empleado)
    ensures r.id == e.id
    ensures forall c :: GetAttr(r, c) == if Column(f) == c then f else GetAttr(e, c)
  {
    match f
    case SetNombre(v) => e.(nombre := v)
    case SetApellido(v) => e.(apellido := v)
    case SetArea(v) => e.(area := v)
    case SetCorreo(v) => e.(correo := v)
    case SetActivo(v) => e.(activo := v)
  }

  /** The row after the `setattr` loop over `kwargs`. */
  function ApplyKwargs(e: Empleado, kwargs: seq<EmpleadoKwarg>): (r: Empleado)
    ensures r.id == e.id
    ensures forall c :: GetAttr(r, c) == Patch.LastFor(kwargs, Column, c, GetAttr(e, c))
    decreases |kwargs|
  {
    if kwargs == [] then e
    else SetAttr(ApplyKwargs(e, kwargs[..|kwargs| - 1]), kwargs[|kwargs| - 1])
  }

  /**
    update_empleado: None when the id is absent; otherwise the stored row with the
    patch applied. A patch that leaves the row without an e-mail, or gives it
    another employee's, fails at commit and writes nothing.
  */
  method UpdateEmpleado(session: Session, empleadoId: int, kwargs: seq<EmpleadoKwarg>)
    returns (r: Result<Option<Empleado>, IntegrityError>)
    requires session.Valid()
    modifies session`empleados
    ensures session.Valid()
    ensures empleadoId !in old(session.empleados.rows) ==>
      r == Success(None) && session.empleados == old(session.empleados)
    ensures empleadoId in old(session.empleados.rows) ==>
      var patched := ApplyKwargs(old(session.empleados.rows[empleadoId]), kwargs);
      if patched.correo.None? then
        r == Failure(NotNullViolation(CORREO_COLUMN)) && session.empleados == old(session.empleados)
      else if old(CorreoTaken(session.empleados, patched.correo.value, empleadoId)) then
        r == Failure(UniqueViolation(CORREO_COLUMN)) && session.empleados == old(session.empleados)
      else
        r == Success(Some(patched)) && session.empleados == old(session.empleados).Put(empleadoId, patched)
  {
    var found := GetEmpleadoById(session.empleados, empleadoId);
    if found.None? {
      return Success(None);
    }
    var e := found.value;
    var i := 0;
    while i < |kwargs|
      invariant 0 <= i <= |kwargs|
      invariant e == ApplyKwargs(found.value, kwargs[..i])
    {
      assert kwargs[..i + 1][..i] == kwargs[..i];
      e := SetAttr(e, kwargs[i]);
      i := i + 1;
    }
    assert kwargs[..i] == kwargs;
    if e.correo.None? {
      return Failure(NotNullViolation(CORREO_COLUMN));
    }
    if CorreoTaken(session.empleados, e.correo.value, empleadoId) {
      return Failure(UniqueViolation(CORREO_COLUMN));
    }
    session.empleados := session.empleados.Put(empleadoId, e);
    r := Success(Some(e));
  }

  /** inhabilitar_empleado: marks the employee inactive (the row stays); False and no change when absent. */
  method InhabilitarEmpleado(session: Session, empleadoId: int) returns (ok: bool)
    requires session.Valid()
    modifies session`empleados
    ensures session.Valid()
    ensures ok <==> empleadoId in old(session.empleados.rows)
    ensures session.empleados.rows.Keys == old(session.empleados.rows.Keys)
    ensures !ok ==> session.empleados == old(session.empleados)
    ensures ok ==> session.empleados == old(session.empleados).Put(
      empleadoId, old(session.empleados.rows[empleadoId]).(activo := false))
    ensures ok && !old(session.empleados.rows[empleadoId].activo) ==>
      session.empleados == old(session.empleados)
  {
    var found := GetEmpleadoById(session.empleados, empleadoId);
    if found.None? {
      return false;
    }
    session.empleados := session.empleados.Put(empleadoId, found.value.(activo := false));
    ok := true;
  }

  /** habilitar_empleado: marks the employee active; False and no change when absent. */
  method HabilitarEmpleado(session: Session, empleadoId: int) returns (ok: bool)
    requires session.Valid()
    modifies session`empleados
    ensures session.Valid()
    ensures ok <==> empleadoId in old(session.empleados.rows)
    ensures session.empleados.rows.Keys == old(session.empleados.rows.Keys)
    ensures !ok ==> session.empleados == old(session.empleados)
    ensures ok ==> session.empleados == old(session.empleados).Put(
      empleadoId, old(session.empleados.rows[empleadoId]).(activo := true))
    ensures ok && old(session.empleados.rows[empleadoId].activo) ==>
      session.empleados == old(session.empleados)
  {
    var found := GetEmpleadoById(session.empleados, empleadoId);
    if found.None? {
      return false;
    }
    session.empleados := session.empleados.Put(empleadoId, found.value.(activo := true));
    ok := true;
  }
}
