/**
  The loan ledger. Creating a loan takes one unit of a tool's stock; returning or
  cancelling gives one back. `Ledger` is the part of the database these operations
  touch, and its functions say what one committed operation does to it; the
  methods below carry the same steps out on a session, one commit each.

  As the source is written, returning or cancelling does not look at the loan's
  current status: a loan returned twice gives its unit back twice.
*/
module CrudPrestamo {
  import opened Common
  import opened Tables
  import opened Models
  import opened Store
  import Patch

  const ACTIVO := "activo"
  const DEVUELTO := "devuelto"
  const CANCELADO := "cancelado"

  /** `after` is `before` with only tool `id`'s stock moved by `delta`. */
  ghost predicate OnlyStockMoved(before: Table<Herramienta>, after: Table<Herramienta>, id: int, delta: int)
    requires id in before.rows
  {
    && after.ids == before.ids && after.nextId == before.nextId
    && after.rows.Keys == before.rows.Keys
    && after.rows[id] == before.rows[id].(cantidadDisponible := before.rows[id].cantidadDisponible + delta)
    && forall k :: k in before.rows && k != id ==> after.rows[k] == before.rows[k]
  }

  datatype Ledger = Ledger(herramientas: Table<Herramienta>, prestamos: Table<Prestamo>)
  {
    ghost predicate Valid()
    {
      HerramientasOk(herramientas) && PrestamosOk(prestamos)
    }

    /** The three checks of create_prestamo, in order: the tool exists, is in service, has stock. */
    predicate Prestable(idHerramienta: int)
    {
      && idHerramienta in herramientas.rows
      && herramientas.rows[idHerramienta].estado
      && herramientas.rows[idHerramienta].cantidadDisponible > 0
    }

    ghost predicate StockNonNegative()
    {
      forall id :: id in herramientas.rows ==> herramientas.rows[id].cantidadDisponible >= 0
    }

    /**
      create_prestamo. A refused loan changes nothing. An accepted one is one new
      loan row, with the given employee, tool, notes and status (by default
      "activo") and the date defaults, and exactly one unit less of that tool,
      which leaves it at 0 or more.
    */
    function Create(
      idEmpleado: int,
      idHerramienta: int,
      now: Timestamp,
      fechaPrestamo: Option<Timestamp> := None,
      fechaDevolucionEstimada: Option<Timestamp> := None,
      observaciones: Option<string> := None,
      estado: string := ACTIVO): (r: (Ledger, Option<Prestamo>))
      requires Valid()
      ensures r.0.Valid()
      ensures r.1.Some? <==> Prestable(idHerramienta)
      ensures r.1.None? ==> r.0 == this
      ensures r.1.Some? ==>
        && r.1.value == Prestamo(prestamos.nextId, idEmpleado, idHerramienta,
                                 OrElse(fechaPrestamo, now), OrElse(fechaDevolucionEstimada, now + DAY),
                                 None, observaciones, estado)
        && r.0.prestamos == prestamos.Insert(r.1.value)
        && OnlyStockMoved(herramientas, r.0.herramientas, idHerramienta, -1)
        && r.0.herramientas.rows[idHerramienta].cantidadDisponible >= 0
    {
      if !Prestable(idHerramienta) then (this, None)
      else
        var h := herramientas.rows[idHerramienta];
        var p := Prestamo(prestamos.nextId, idEmpleado, idHerramienta,
                          OrElse(fechaPrestamo, now), OrElse(fechaDevolucionEstimada, now + DAY),
                          None, observaciones, estado);
        (Ledger(herramientas.Put(idHerramienta, h.(cantidadDisponible := h.cantidadDisponible - 1)),
                prestamos.Insert(p)),
         Some(p))
    }

    /** The stock increment shared by return and cancel: one more unit of the loan's tool, if that tool still exists. */
    function GiveBack(p: Prestamo): (t: Table<Herramienta>)
      requires Valid()
      ensures HerramientasOk(t)
      ensures p.idHerramientaH in herramientas.rows ==> OnlyStockMoved(herramientas, t, p.idHerramientaH, 1)
      ensures p.idHerramientaH !in herramientas.rows ==> t == herramientas
    {
      if p.idHerramientaH in herramientas.rows then
        var h := herramientas.rows[p.idHerramientaH];
        herramientas.Put(p.idHerramientaH, h.(cantidadDisponible := h.cantidadDisponible + 1))
      else herramientas
    }

    /**
      devolver_prestamo. False and no change for an unknown loan; otherwise the
      loan is marked returned with the given date (or `now`) and its tool, when it
      still exists, gets one unit back, whatever status the loan had before.
    */
    function Devolver(idPrestamo: int, fechaDevolucion: Option<Timestamp>, now: Timestamp): (r: (Ledger, bool))
      requires Valid()
      ensures r.0.Valid()
      ensures r.1 <==> idPrestamo in prestamos.rows
      ensures !r.1 ==> r.0 == this
      ensures r.1 ==>
        var p := prestamos.rows[idPrestamo];
        && r.0.prestamos == prestamos.Put(idPrestamo,
             p.(estado := DEVUELTO, fechaDevolucion := Some(OrElse(fechaDevolucion, now))))
        && r.0.herramientas == GiveBack(p)
    {
      if idPrestamo !in prestamos.rows then (this, false)
      else
        var p := prestamos.rows[idPrestamo];
        (Ledger(GiveBack(p),
                prestamos.Put(idPrestamo, p.(estado := DEVUELTO, fechaDevolucion := Some(OrElse(fechaDevolucion, now))))),
         true)
    }

    /**
      cancelar_prestamo. Same not-found answer and same stock effect as a return,
      but the loan is marked cancelled and its return date is left as it was.
    */
    function Cancelar(idPrestamo: int): (r: (Ledger, bool))
      requires Valid()
      ensures r.0.Valid()
      ensures r.1 <==> idPrestamo in prestamos.rows
      ensures !r.1 ==> r.0 == this
      ensures r.1 ==>
        var p := prestamos.rows[idPrestamo];
        && r.0.prestamos == prestamos.Put(idPrestamo, p.(estado := CANCELADO))
        && r.0.herramientas == GiveBack(p)
    {
      if idPrestamo !in prestamos.rows then (this, false)
      else
        var p := prestamos.rows[idPrestamo];
        (Ledger(GiveBack(p), prestamos.Put(idPrestamo, p.(estado := CANCELADO))), true)
    }

    /** One ledger operation, whatever its answer. */
    function Step(op: LedgerOp): (r: Ledger)
      requires Valid()
      ensures r.Valid()
      ensures r.herramientas.rows.Keys == herramientas.rows.Keys
    {
      match op
      case Prestar(e, h, now, fp, fd, o, s) => Create(e, h, now, fp, fd, o, s).0
      case Devolucion(id, f, now) => Devolver(id, f, now).0
      case Cancelacion(id) => Cancelar(id).0
    }

    /** A sequence of ledger operations, one commit after another. */
    function Run(ops: seq<LedgerOp>): (r: Ledger)
      requires Valid()
      ensures r.Valid()
      ensures r.herramientas.rows.Keys == herramientas.rows.Keys
      decreases |ops|
    {
      if ops == [] then this else Step(ops[0]).Run(ops[1..])
    }
  }

  datatype LedgerOp =
    | Prestar(idEmpleado: int, idHerramienta: int, now: Timestamp, fechaPrestamo: Option<Timestamp>,
              fechaDevolucionEstimada: Option<Timestamp>, observaciones: Option<string>, estado: string)
    | Devolucion(idPrestamo: int, fechaDevolucion: Option<Timestamp>, now: Timestamp)
    | Cancelacion(idPrestamo: int)

  /** No single ledger operation drives a stock below zero. */
  lemma StepKeepsStockNonNegative(l: Ledger, op: LedgerOp)
    requires l.Valid() && l.StockNonNegative()
    ensures l.Step(op).StockNonNegative()
  {
    match op
    case Prestar(e, h, now, fp, fd, o, s) =>
      var r := l.Create(e, h, now, fp, fd, o, s);
      if r.1.Some? {
        assert OnlyStockMoved(l.herramientas, r.0.herramientas, h, -1);
      }
    case Devolucion(id, f, now) =>
      if id in l.prestamos.rows {
        var p := l.prestamos.rows[id];
        if p.idHerramientaH in l.herramientas.rows {
          assert OnlyStockMoved(l.herramientas, l.GiveBack(p), p.idHerramientaH, 1);
        }
      }
    case Cancelacion(id) =>
      if id in l.prestamos.rows {
        var p := l.prestamos.rows[id];
        if p.idHerramientaH in l.herramientas.rows {
          assert OnlyStockMoved(l.herramientas, l.GiveBack(p), p.idHerramientaH, 1);
        }
      }
  }

  /** Across any sequence of loans, returns and cancellations, stocks that start at 0 or more stay there. */
  lemma {:induction false} RunKeepsStockNonNegative(l: Ledger, ops: seq<LedgerOp>)
    requires l.Valid() && l.StockNonNegative()
    ensures l.Run(ops).StockNonNegative()
    decreases |ops|
  {
    if ops != [] {
      StepKeepsStockNonNegative(l, ops[0]);
      RunKeepsStockNonNegative(l.Step(ops[0]), ops[1..]);
    }
  }

  /** Lending a unit and then returning that loan leaves the tool table exactly as it was. */
  lemma CreateThenDevolverRestoresStock(
    l: Ledger, idEmpleado: int, idHerramienta: int, fechaPrestamo: Option<Timestamp>,
    fechaDevolucionEstimada: Option<Timestamp>, observaciones: Option<string>, estado: string,
    now: Timestamp, fechaDevolucion: Option<Timestamp>, later: Timestamp)
    requires l.Valid() && l.Prestable(idHerramienta)
    ensures
      var (l1, p) := l.Create(idEmpleado, idHerramienta, now, fechaPrestamo, fechaDevolucionEstimada,
                            observaciones, estado);
      && p.Some?
      && var (l2, ok) := l1.Devolver(p.value.idPrestamo, fechaDevolucion, later);
      && ok
      && l2.herramientas == l.herramientas
      && l2.prestamos.rows[p.value.idPrestamo].estado == DEVUELTO
  {
    var (l1, p) := l.Create(idEmpleado, idHerramienta, now, fechaPrestamo, fechaDevolucionEstimada,
                            observaciones, estado);
    var (l2, ok) := l1.Devolver(p.value.idPrestamo, fechaDevolucion, later);
    assert l1.prestamos.rows[p.value.idPrestamo] == p.value;
    assert l2.herramientas.rows == l.herramientas.rows;
  }

  /** Lending a unit and then cancelling that loan leaves the tool table exactly as it was. */
  lemma CreateThenCancelarRestoresStock(
    l: Ledger, idEmpleado: int, idHerramienta: int, fechaPrestamo: Option<Timestamp>,
    fechaDevolucionEstimada: Option<Timestamp>, observaciones: Option<string>, estado: string,
    now: Timestamp)
    requires l.Valid() && l.Prestable(idHerramienta)
    ensures
      var (l1, p) := l.Create(idEmpleado, idHerramienta, now, fechaPrestamo, fechaDevolucionEstimada,
                            observaciones, estado);
      && p.Some?
      && var (l2, ok) := l1.Cancelar(p.value.idPrestamo);
      && ok
      && l2.herramientas == l.herramientas
      && l2.prestamos.rows[p.value.idPrestamo].estado == CANCELADO
  {
    var (l1, p) := l.Create(idEmpleado, idHerramienta, now, fechaPrestamo, fechaDevolucionEstimada,
                            observaciones, estado);
    var (l2, ok) := l1.Cancelar(p.value.idPrestamo);
    assert l1.prestamos.rows[p.value.idPrestamo] == p.value;
    assert l2.herramientas.rows == l.herramientas.rows;
  }

  /**
    A loan given only the employee, the tool and the clock is active, lent now,
    due one day later, not returned and without notes. It is listed among the
    active loans, and among the overdue ones exactly once the clock is past its
    due date.
  */
  lemma DefaultLoan(l: Ledger, idEmpleado: int, idHerramienta: int, now: Timestamp, later: Timestamp)
    requires l.Valid() && l.Prestable(idHerramienta)
    ensures
      var (l1, p) := l.Create(idEmpleado, idHerramienta, now);
      && p.Some?
      && p.value.estado == ACTIVO
      && p.value.fechaPrestamo == now && p.value.fechaDevolucionEstimada == now + DAY
      && p.value.fechaDevolucion.None? && p.value.observaciones.None?
      && p.value in GetPrestamosActivos(l1.prestamos)
      && (p.value in GetPrestamosVencidos(l1.prestamos, later) <==> now + DAY < later)
  {
    var (l1, p) := l.Create(idEmpleado, idHerramienta, now);
    assert l1.prestamos.rows[p.value.idPrestamo] == p.value;
  }

  /**
    As written, a second return of the same loan succeeds again and gives the
    tool a second unit back, although the loan was already returned.
  */
  lemma DevolverTwiceGivesBackTwice(
    l: Ledger, idPrestamo: int, f1: Option<Timestamp>, now1: Timestamp,
    f2: Option<Timestamp>, now2: Timestamp)
    requires l.Valid() && idPrestamo in l.prestamos.rows
    requires l.prestamos.rows[idPrestamo].idHerramientaH in l.herramientas.rows
    ensures
      var t := l.prestamos.rows[idPrestamo].idHerramientaH;
      var (l1, ok1) := l.Devolver(idPrestamo, f1, now1);
      var (l2, ok2) := l1.Devolver(idPrestamo, f2, now2);
      && ok1 && ok2
      && l1.prestamos.rows[idPrestamo].estado == DEVUELTO
      && t in l2.herramientas.rows
      && l2.herramientas.rows[t].cantidadDisponible == l.herramientas.rows[t].cantidadDisponible + 2
  {
    var t := l.prestamos.rows[idPrestamo].idHerramientaH;
    var (l1, ok1) := l.Devolver(idPrestamo, f1, now1);
    assert l1.prestamos.rows[idPrestamo].idHerramientaH == t;
    assert OnlyStockMoved(l.herramientas, l1.herramientas, t, 1);
    var (l2, ok2) := l1.Devolver(idPrestamo, f2, now2);
    assert OnlyStockMoved(l1.herramientas, l2.herramientas, t, 1);
  }

  /**
    The single-unit scenario as the source behaves: the first loan takes the last
    unit, a second loan is refused, a return gives the unit back, and a repeated
    return gives it back once more.
  */
  lemma SingleUnitScenario()
    ensures
      var tool := Herramienta(1, "Taladro", "Electricas", true, "TAL-001", 1, None);
      var l0 := Ledger(Table(map[1 := tool], [1], 2), Table(map[], [], 1));
      var (l1, p1) := l0.Create(10, 1, 0);
      var (l2, p2) := l1.Create(20, 1, 0);
      var (l3, ok3) := l2.Devolver(1, None, DAY);
      var (l4, ok4) := l3.Devolver(1, None, 2 * DAY);
      && p1.Some? && p1.value.idPrestamo == 1 && l1.herramientas.rows[1].cantidadDisponible == 0
      && p2.None? && l2 == l1
      && ok3 && l3.herramientas.rows[1].cantidadDisponible == 1 && l3.prestamos.rows[1].estado == DEVUELTO
      && ok4 && l4.herramientas.rows[1].cantidadDisponible == 2
  {
    var tool := Herramienta(1, "Taladro", "Electricas", true, "TAL-001", 1, None);
    var l0 := Ledger(Table(map[1 := tool], [1], 2), Table(map[], [], 1));
    assert l0.Valid();
  }

  /** get_prestamo_by_id: the stored loan whose id is `prestamoId`, or None when no row has it. */
  function GetPrestamoById(t: Table<Prestamo>, prestamoId: int): (r: Option<Prestamo>)
    requires PrestamosOk(t)
    ensures r.Some? ==> r.value in t.Rows() && r.value.idPrestamo == prestamoId
    ensures r.None? ==> forall p :: p in t.Rows() ==> p.idPrestamo != prestamoId
  {
    if prestamoId in t.rows then Some(t.rows[prestamoId]) else None
  }

  /** get_prestamos_activos: exactly the loans whose status is "activo". */
  function GetPrestamosActivos(t: Table<Prestamo>): (r: seq<Prestamo>)
    requires t.Valid()
    ensures forall p :: p in r ==> p in t.Rows() && p.estado == ACTIVO
    ensures forall id :: id in t.rows ==> (t.rows[id] in r <==> t.rows[id].estado == ACTIVO)
    ensures forall p :: multiset(r)[p] == if p.estado == ACTIVO then multiset(t.Rows())[p] else 0
  {
    Filter(t.Rows(), (p: Prestamo) => p.estado == ACTIVO)
  }

  /** get_prestamos_por_empleado: exactly the loans of employee `empleadoId`. */
  function GetPrestamosPorEmpleado(t: Table<Prestamo>, empleadoId: int): (r: seq<Prestamo>)
    requires t.Valid()
    ensures forall p :: p in r ==> p in t.Rows() && p.idEmpleadoH == empleadoId
    ensures forall id :: id in t.rows ==> (t.rows[id] in r <==> t.rows[id].idEmpleadoH == empleadoId)
    ensures forall p :: multiset(r)[p] == if p.idEmpleadoH == empleadoId then multiset(t.Rows())[p] else 0
  {
    Filter(t.Rows(), (p: Prestamo) => p.idEmpleadoH == empleadoId)
  }

  /** get_prestamos_por_herramienta: exactly the loans of tool `herramientaId`. */
  function GetPrestamosPorHerramienta(t: Table<Prestamo>, herramientaId: int): (r: seq<Prestamo>)
    requires t.Valid()
    ensures forall p :: p in r ==> p in t.Rows() && p.idHerramientaH == herramientaId
    ensures forall id :: id in t.rows ==> (t.rows[id] in r <==> t.rows[id].idHerramientaH == herramientaId)
    ensures forall p :: multiset(r)[p] == if p.idHerramientaH == herramientaId then multiset(t.Rows())[p] else 0
  {
    Filter(t.Rows(), (p: Prestamo) => p.idHerramientaH == herramientaId)
  }

  /** get_prestamos_vencidos: exactly the active loans whose estimated return is before `now`. */
  function GetPrestamosVencidos(t: Table<Prestamo>, now: Timestamp): (r: seq<Prestamo>)
    requires t.Valid()
    ensures forall p :: p in r ==> p in t.Rows() && p.estado == ACTIVO && p.fechaDevolucionEstimada < now
    ensures forall id :: id in t.rows ==>
      (t.rows[id] in r <==> t.rows[id].estado == ACTIVO && t.rows[id].fechaDevolucionEstimada < now)
    ensures forall p :: multiset(r)[p] ==
                        if p.estado == ACTIVO && p.fechaDevolucionEstimada < now then multiset(t.Rows())[p] else 0
  {
    Filter(t.Rows(), (p: Prestamo) => p.fechaDevolucionEstimada < now && p.estado == ACTIVO)
  }

  /** Once returned, a loan is no longer listed as overdue, whatever the clock says. */
  lemma DevolverLeavesVencidos(l: Ledger, idPrestamo: int, fechaDevolucion: Option<Timestamp>, now: Timestamp, later: Timestamp)
    requires l.Valid() && idPrestamo in l.prestamos.rows
    ensures
      var (l1, _) := l.Devolver(idPrestamo, fechaDevolucion, now);
      && idPrestamo in l1.prestamos.rows
      && l1.prestamos.rows[idPrestamo] !in GetPrestamosVencidos(l1.prestamos, later)
  {
  }

  /** One `key=value` of the update's `**kwargs`. */
  datatype PrestamoKwarg =
    | SetIdEmpleadoH(idEmpleadoH: int)
    | SetIdHerramientaH(idHerramientaH: int)
    | SetFechaPrestamo(fechaPrestamo: Timestamp)
    | SetFechaDevolucionEstimada(fechaDevolucionEstimada: Timestamp)
    | SetFechaDevolucion(fechaDevolucion: Option<Timestamp>)
    | SetObservaciones(observaciones: Option<string>)
    | SetEstado(estado: string)

  datatype PrestamoColumn =
    | IdEmpleadoHColumn | IdHerramientaHColumn | FechaPrestamoColumn | FechaDevolucionEstimadaColumn
    | FechaDevolucionColumn | ObservacionesColumn | EstadoColumn

  function Column(f: PrestamoKwarg): PrestamoColumn
  {
    match f
    case SetIdEmpleadoH(_) => IdEmpleadoHColumn
    case SetIdHerramientaH(_) => IdHerramientaHColumn
    case SetFechaPrestamo(_) => FechaPrestamoColumn
    case SetFechaDevolucionEstimada(_) => FechaDevolucionEstimadaColumn
    case SetFechaDevolucion(_) => FechaDevolucionColumn
    case SetObservaciones(_) => ObservacionesColumn
    case SetEstado(_) => EstadoColumn
  }

  /** getattr, given back as the assignment that would store the current value. */
  function GetAttr(p: Prestamo, c: PrestamoColumn): (f: PrestamoKwarg)
    ensures Column(f) == c
  {
    match c
    case IdEmpleadoHColumn => SetIdEmpleadoH(p.idEmpleadoH)
    case IdHerramientaHColumn => SetIdHerramientaH(p.idHerramientaH)
    case FechaPrestamoColumn => SetFechaPrestamo(p.fechaPrestamo)
    case FechaDevolucionEstimadaColumn => SetFechaDevolucionEstimada(p.fechaDevolucionEstimada)
    case FechaDevolucionColumn => SetFechaDevolucion(p.fechaDevolucion)
    case ObservacionesColumn => SetObservaciones(p.observaciones)
    case EstadoColumn => SetEstado(p.estado)
  }

  /** setattr: the named column takes the value, every other column and the key stay. */
  function SetAttr(p: Prestamo, f: PrestamoKwarg): (r: Prestamo)
    ensures r.idPrestamo == p.idPrestamo
    ensures forall c :: GetAttr(r, c) == if Column(f) == c then f else GetAttr(p, c)
  {
    match f
    case SetIdEmpleadoH(v) => p.(idEmpleadoH := v)
    case SetIdHerramientaH(v) => p.(idHerramientaH := v)
    case SetFechaPrestamo(v) => p.(fechaPrestamo := v)
    case SetFechaDevolucionEstimada(v) => p.(fechaDevolucionEstimada := v)
    case SetFechaDevolucion(v) => p.(fechaDevolucion := v)
    case SetObservaciones(v) => p.(observaciones := v)
    case SetEstado(v) => p.(estado := v)
  }

  /** The row after the `setattr` loop over `kwargs`. */
  function ApplyKwargs(p: Prestamo, kwargs: seq<PrestamoKwarg>): (r: Prestamo)
    ensures r.idPrestamo == p.idPrestamo
    ensures forall c :: GetAttr(r, c) == Patch.LastFor(kwargs, Column, c, GetAttr(p, c))
    decreases |kwargs|
  {
    if kwargs == [] then p
    else SetAttr(ApplyKwargs(p, kwargs[..|kwargs| - 1]), kwargs[|kwargs| - 1])
  }

  /** An accepted loan, written out: the two table updates `create_prestamo` commits. */
  lemma CreateAccepted(
    l: Ledger, idEmpleado: int, idHerramienta: int, now: Timestamp, fechaPrestamo: Option<Timestamp>,
    fechaDevolucionEstimada: Option<Timestamp>, observaciones: Option<string>, estado: string)
    requires l.Valid() && l.Prestable(idHerramienta)
    ensures
      var h := l.herramientas.rows[idHerramienta];
      var p := Prestamo(l.prestamos.nextId, idEmpleado, idHerramienta,
                        OrElse(fechaPrestamo, now), OrElse(fechaDevolucionEstimada, now + DAY),
                        None, observaciones, estado);
      l.Create(idEmpleado, idHerramienta, now, fechaPrestamo, fechaDevolucionEstimada,
                              observaciones, estado)
        == (Ledger(l.herramientas.Put(idHerramienta, h.(cantidadDisponible := h.cantidadDisponible - 1)),
                   l.prestamos.Insert(p)),
            Some(p))
  {
  }

  function LedgerOf(session: Session): Ledger
    reads session
  {
    Ledger(session.herramientas, session.prestamos)
  }

  /**
    create_prestamo on a session: the checks, then the new row and the decrement
    in one commit. The optional arguments default as in the source: no dates, no
    notes, status "activo".
  */
  method CreatePrestamo(
    session: Session,
    idEmpleadoH: int,
    idHerramientaH: int,
    now: Timestamp,
    fechaPrestamo: Option<Timestamp> := None,
    fechaDevolucionEstimada: Option<Timestamp> := None,
    observaciones: Option<string> := None,
    estado: string := ACTIVO)
    returns (r: Option<Prestamo>)
    requires session.Valid()
    modifies session`herramientas, session`prestamos
    ensures session.Valid()
    ensures (LedgerOf(session), r) == old(LedgerOf(session)).Create(
      idEmpleadoH, idHerramientaH, now, fechaPrestamo, fechaDevolucionEstimada, observaciones, estado)
  {
    if idHerramientaH !in session.herramientas.rows {
      return None;
    }
    var h := session.herramientas.rows[idHerramientaH];
    if !h.estado {
      return None;
    }
    if h.cantidadDisponible <= 0 {
      return None;
    }
    var prestamo := Prestamo(session.prestamos.nextId, idEmpleadoH, idHerramientaH,
                             OrElse(fechaPrestamo, now), OrElse(fechaDevolucionEstimada, now + DAY),
                             None, observaciones, estado);
    var prestamos := session.prestamos.Insert(prestamo);
    var herramientas := session.herramientas.Put(idHerramientaH, h.(cantidadDisponible := h.cantidadDisponible - 1));
    CreateAccepted(LedgerOf(session), idEmpleadoH, idHerramientaH, now, fechaPrestamo, fechaDevolucionEstimada,
                   observaciones, estado);
    assert Ledger(herramientas, prestamos).Valid();
    session.herramientas, session.prestamos := herramientas, prestamos;
    r := Some(prestamo);
  }

  /** devolver_prestamo on a session: the status, the return date and the stock, in one commit. */
  method DevolverPrestamo(session: Session, prestamoId: int, fechaDevolucion: Option<Timestamp>, now: Timestamp)
    returns (ok: bool)
    requires session.Valid()
    modifies session`herramientas, session`prestamos
    ensures session.Valid()
    ensures (LedgerOf(session), ok) == old(LedgerOf(session)).Devolver(prestamoId, fechaDevolucion, now)
  {
    ghost var spec := LedgerOf(session).Devolver(prestamoId, fechaDevolucion, now);
    var found := GetPrestamoById(session.prestamos, prestamoId);
    if found.None? {
      return false;
    }
    var prestamo := found.value;
    assert prestamoId in session.prestamos.rows && prestamo == session.prestamos.rows[prestamoId];
    var herramientas := session.herramientas;
    if prestamo.idHerramientaH in herramientas.rows {
      var h := herramientas.rows[prestamo.idHerramientaH];
      herramientas := herramientas.Put(prestamo.idHerramientaH, h.(cantidadDisponible := h.cantidadDisponible + 1));
    }
    assert herramientas == LedgerOf(session).GiveBack(prestamo);
    var prestamos := session.prestamos.Put(prestamoId, prestamo.(estado := DEVUELTO, fechaDevolucion := Some(OrElse(fechaDevolucion, now))));
    assert spec == (Ledger(herramientas, prestamos), true);
    session.herramientas, session.prestamos := herramientas, prestamos;
    assert LedgerOf(session) == spec.0;
    ok := true;
  }

  /** cancelar_prestamo on a session: the status and the stock, in one commit. */
  method CancelarPrestamo(session: Session, prestamoId: int) returns (ok: bool)
    requires session.Valid()
    modifies session`herramientas, session`prestamos
    ensures session.Valid()
    ensures (LedgerOf(session), ok) == old(LedgerOf(session)).Cancelar(prestamoId)
  {
    ghost var spec := LedgerOf(session).Cancelar(prestamoId);
    var found := GetPrestamoById(session.prestamos, prestamoId);
    if found.None? {
      return false;
    }
    var prestamo := found.value;
    assert prestamoId in session.prestamos.rows && prestamo == session.prestamos.rows[prestamoId];
    var herramientas := session.herramientas;
    if prestamo.idHerramientaH in herramientas.rows {
      var h := herramientas.rows[prestamo.idHerramientaH];
      herramientas := herramientas.Put(prestamo.idHerramientaH, h.(cantidadDisponible := h.cantidadDisponible + 1));
    }
    assert herramientas == LedgerOf(session).GiveBack(prestamo);
    var prestamos := session.prestamos.Put(prestamoId, prestamo.(estado := CANCELADO));
    assert spec == (Ledger(herramientas, prestamos), true);
    session.herramientas, session.prestamos := herramientas, prestamos;
    assert LedgerOf(session) == spec.0;
    ok := true;
  }

  /**
    update_prestamo: None and no change when the id is absent; otherwise the stored
    loan with the patch applied. Only the loan table is written: no stock moves,
    even when the patch changes the status or the tool.
  */
  method UpdatePrestamo(session: Session, prestamoId: int, kwargs: seq<PrestamoKwarg>)
    returns (r: Option<Prestamo>)
    requires session.Valid()
    modifies session`prestamos
    ensures session.Valid()
    ensures r.None? <==> prestamoId !in old(session.prestamos.rows)
    ensures r.None? ==> session.prestamos == old(session.prestamos)
    ensures r.Some? ==>
      && r.value == ApplyKwargs(old(session.prestamos.rows[prestamoId]), kwargs)
      && session.prestamos == old(session.prestamos).Put(prestamoId, r.value)
  {
    var found := GetPrestamoById(session.prestamos, prestamoId);
    if found.None? {
      return None;
    }
    var p := found.value;
    var i := 0;
    while i < |kwargs|
      invariant 0 <= i <= |kwargs|
      invariant p == ApplyKwargs(found.value, kwargs[..i])
    {
      assert kwargs[..i + 1][..i] == kwargs[..i];
      p := SetAttr(p, kwargs[i]);
      i := i + 1;
    }
    assert kwargs[..i] == kwargs;
    session.prestamos := session.prestamos.Put(prestamoId, p);
    r := Some(p);
  }
}
