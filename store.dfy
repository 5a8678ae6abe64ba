/**
  The database as one open session sees it between commits. Every CRUD operation
  takes the session, and each of its commit-or-rollback blocks is one method that
  either applies all of its changes to these fields or leaves them as they were.
*/
module Store {
  import opened Tables
  import opened Models

  class Session {
    var categorias: Table<Categoria>
    var empleados: Table<Empleado>
    var herramientas: Table<Herramienta>
    var prestamos: Table<Prestamo>

    ghost predicate Valid()
      reads this
    {
      && CategoriasOk(categorias)
      && EmpleadosOk(empleados)
      && HerramientasOk(herramientas)
      && PrestamosOk(prestamos)
    }

    /** A freshly created schema: four empty tables whose first key is 1. */
    constructor ()
      ensures Valid()
      ensures categorias == Table(map[], [], 1) && empleados == Table(map[], [], 1)
      ensures herramientas == Table(map[], [], 1) && prestamos == Table(map[], [], 1)
    {
      categorias := Table(map[], [], 1);
      empleados := Table(map[], [], 1);
      herramientas := Table(map[], [], 1);
      prestamos := Table(map[], [], 1);
    }
  }
}
