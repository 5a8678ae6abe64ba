# Tool-loan inventory: the CRUD core in Dafny

The system keeps a workshop's tool inventory in a relational database: tools
(herramientas) with an internal code and a count of units on the shelf,
employees (empleados) who borrow them, categories (categorias), and the loan
ledger (prestamos). Every operation opens on a database session, reads or
changes rows, and commits or rolls back as one unit.

This project models that core:

- `Tables` gives the shape of one table: rows keyed by primary key, the keys in
  insertion order, and the next key to hand out. `Filter` is a `WHERE` clause,
  `Page` is `OFFSET … LIMIT …`, and `Table.List` is the paginated `SELECT` that
  every catalog shares, with the source's defaults `skip = 0` and `limit = 100`.
- `Models` holds the four record types and the schema's constraints: the stored
  key matches the row, `herramienta.codigo_interno` is unique, and
  `empleado.correo` is NOT NULL and unique (`app/models/empleado.py` line 9
  declares it as a plain `str` with `unique=True`).
- `Store.Session` is the open session. It is a class with one field per table,
  and every write operation is a method that reassigns only the fields it writes.
- `CrudHerramienta`, `CrudEmpleado` and `CrudCategoria` are the catalog
  operations: create, lookup by key, the filtered listings, the `**kwargs`
  update, the active/in-service flag, and, for categories only, deletion. The
  optional arguments of the create operations keep the source's defaults as
  Dafny default parameters.
- `Patch` states, once for all entities, what a `setattr` loop over `**kwargs`
  leaves in each column: the last value assigned to it, or the stored one. A
  Python call names each keyword once, so that is the value the call gives.
- `CrudPrestamo` is the ledger.
  - `Ledger.Create`, `Ledger.Devolver` and `Ledger.Cancelar` say what one
    committed loan, return or cancellation does to the tool and loan tables.
  - The session methods `CreatePrestamo`, `DevolverPrestamo` and
    `CancelarPrestamo` carry out the same steps. Each is proved equal to its
    function.
  - The lemmas cover: stock never goes negative across any sequence of
    operations; a loan followed by its return or cancellation gives the tool
    table back exactly; a repeated return gives a unit back twice.
- `Utils` holds the front-end helpers with logic of their own: the
  required-field check, the status badge, and "N/A" for a missing date.

Timestamps are integers in seconds. The current time is a parameter (`now`)
wherever the source reads the clock. Date formatting is a function parameter.

Four behaviours of the code shape the model:

- The default estimated return date of a new loan is the current time plus one
  day (`app/crud/crud_prestamo.py` line 36), whatever loan date was passed.
- Returning or cancelling a loan does not check its current status, so a second
  return increments the stock again (lines 124-129 and 149-154). The model
  reproduces this; `DevolverTwiceGivesBackTwice` states it.
- A refused loan comes back as a bare `None`, with no reason given. The model
  answers `None` the same way.
- `create_empleado` defaults `correo` to None (`app/crud/crud_empleado.py`
  line 10), but the column is NOT NULL, so that call fails at commit. The model
  answers it with the NOT NULL violation and writes nothing.

## Model

| member | source | states |
|---|---|---|
| CrudPrestamo.Ledger.Create | app/crud/crud_prestamo.py:7-53 | A loan is accepted exactly when the tool exists, is in service and has stock above 0. A refused loan changes nothing. An accepted loan adds one row under the next key, with the date defaults (now, now + 1 day), no return date and the given status, "activo" unless another is passed; notes default to none. It takes exactly one unit from that tool and none from any other, leaving that tool at 0 or more. |
| CrudPrestamo.Ledger.GiveBack | app/crud/crud_prestamo.py:123-127 | If the loan's tool still exists, it gets exactly one unit back and nothing else in the tool table moves. If it does not exist, the tool table is unchanged. |
| CrudPrestamo.Ledger.Devolver | app/crud/crud_prestamo.py:116-138 | Succeeds exactly when the loan exists; otherwise nothing changes. On success the loan is marked "devuelto" with the given return date or `now`, and its tool gets its unit back. The loan's previous status is not consulted. |
| CrudPrestamo.Ledger.Cancelar | app/crud/crud_prestamo.py:141-162 | Succeeds exactly when the loan exists; otherwise nothing changes. On success the loan is marked "cancelado" with its return date untouched, and its tool gets its unit back. |
| CrudPrestamo.Ledger.Step | app/crud/crud_prestamo.py:7-162 | One ledger operation keeps both tables' invariants and never adds or removes a tool. |
| CrudPrestamo.Ledger.Run | app/crud/crud_prestamo.py:7-162 | Any sequence of loans, returns and cancellations keeps both tables' invariants and the set of tools. |
| CrudPrestamo.StepKeepsStockNonNegative | app/crud/crud_prestamo.py:27-29 | No single operation drives a stock count below zero. The stock check before lending is what keeps the decrement at 0 or above. |
| CrudPrestamo.RunKeepsStockNonNegative | app/crud/crud_prestamo.py:27-43 | Starting from non-negative stocks, every sequence of operations ends with non-negative stocks. |
| CrudPrestamo.CreateThenDevolverRestoresStock | app/crud/crud_prestamo.py:43 | Lending an available tool and then returning that loan gives back exactly the original tool table. The loan ends as "devuelto". |
| CrudPrestamo.CreateThenCancelarRestoresStock | app/crud/crud_prestamo.py:152 | Lending an available tool and then cancelling that loan gives back exactly the original tool table. The loan ends as "cancelado". |
| CrudPrestamo.DefaultLoan | app/crud/crud_prestamo.py:7-45 | A loan given only the employee, the tool and the clock is "activo", lent now, due one day later, not returned and without notes. It is listed among the active loans, and among the overdue ones exactly when the clock is past now + 1 day. |
| CrudPrestamo.DevolverTwiceGivesBackTwice | app/crud/crud_prestamo.py:124-130 | Returning the same loan twice succeeds both times, and the tool ends with two more units than before. |
| CrudPrestamo.SingleUnitScenario | app/crud/crud_prestamo.py:19-48 | With one unit of one tool, the first loan takes it and gets key 1, and a second loan is refused with no change. A return puts the stock back to 1, and a repeated return puts it at 2. |
| CrudPrestamo.GetPrestamoById | app/crud/crud_prestamo.py:56-59 | The answer is the stored loan with that key, or None exactly when no stored loan has it. |
| Tables.Table.List | app/crud/crud_prestamo.py:62-65 | Returns min(limit, rows after skip) rows: the stored rows from position `skip` on, in table order, with `skip` 0 and `limit` 100 by default. `get_prestamos` is this query on the loan table; `get_herramientas` (`app/crud/crud_herramienta.py` lines 36-39), `get_empleados` (`app/crud/crud_empleado.py` lines 34-37) and `get_categorias` (`app/crud/crud_categoria.py` lines 60-73) are the same query on theirs. |
| CrudPrestamo.GetPrestamosActivos | app/crud/crud_prestamo.py:68-71 | A stored loan is listed exactly when its status is "activo". Each listed row appears exactly as many times as it is stored, and no other row appears. |
| CrudPrestamo.GetPrestamosPorEmpleado | app/crud/crud_prestamo.py:74-77 | A stored loan is listed exactly when it belongs to that employee. Each listed row appears exactly as many times as it is stored, and no other row appears. |
| CrudPrestamo.GetPrestamosPorHerramienta | app/crud/crud_prestamo.py:80-83 | A stored loan is listed exactly when it is of that tool. Each listed row appears exactly as many times as it is stored, and no other row appears. |
| CrudPrestamo.GetPrestamosVencidos | app/crud/crud_prestamo.py:86-93 | A stored loan is listed exactly when it is "activo" and its estimated return is strictly before `now`. Each listed row appears exactly as many times as it is stored, and no other row appears. |
| CrudPrestamo.DevolverLeavesVencidos | app/crud/crud_prestamo.py:86-93 | After a return, the returned loan is not listed as overdue at any later time. |
| CrudPrestamo.SetAttr | app/crud/crud_prestamo.py:103-104 | The assigned column takes the new value. Every other column and the key keep theirs. |
| CrudPrestamo.ApplyKwargs | app/crud/crud_prestamo.py:103-104 | After the whole patch, each column holds its last assigned value, or its stored value when unassigned. The key is unchanged. |
| CrudPrestamo.CreatePrestamo | app/crud/crud_prestamo.py:7-53 | The session's tool and loan tables and the result are exactly those of `Ledger.Create`. No other table is written. |
| CrudPrestamo.DevolverPrestamo | app/crud/crud_prestamo.py:116-138 | The session's tool and loan tables and the result are exactly those of `Ledger.Devolver`. No other table is written. |
| CrudPrestamo.CancelarPrestamo | app/crud/crud_prestamo.py:141-162 | The session's tool and loan tables and the result are exactly those of `Ledger.Cancelar`. No other table is written. |
| CrudPrestamo.UpdatePrestamo | app/crud/crud_prestamo.py:96-113 | Returns None with no change when the loan is absent. Otherwise the stored loan is replaced by the patched one. Only the loan table is written, so a status change by update never moves stock. |
| Patch.UnnamedColumnKept | app/crud/crud_prestamo.py:103-104 | A column that no assignment in the patch names keeps its stored value. |
| Patch.NamedColumnTakesLast | app/crud/crud_prestamo.py:103-104 | A column the patch names ends with the value of its last assignment. No later assignment names it. |
| Patch.DistinctColumnsTakeTheirValue | app/crud/crud_prestamo.py:103-104 | When the keywords name distinct columns, as in any Python call, each named column ends with exactly the value the call gives it. |
| Models.HerramientaInsertOk | app/models/herramienta.py:4-11 | Appending a tool under the next key whose code no stored tool has keeps the table's constraints: keys match rows and codes stay unique. |
| Models.EmpleadoInsertOk | app/models/empleado.py:4-10 | Appending an employee under the next key with an e-mail that no stored employee has keeps the table's constraints: keys match rows, every stored employee has an e-mail, and e-mails stay unique. |
| CrudHerramienta.CreateHerramienta | app/crud/crud_herramienta.py:5-27 | Fails with the `codigo_interno` unique violation, writing nothing, exactly when another tool already has that code. Otherwise it appends one row with the given columns under the next key. `descripcion` defaults to none. |
| CrudHerramienta.GetHerramientaById | app/crud/crud_herramienta.py:30-33 | The answer is the stored tool with that key, or None exactly when no stored tool has it. |
| CrudHerramienta.GetHerramientasDisponibles | app/crud/crud_herramienta.py:42-45 | A stored tool is listed exactly when it is in service, whatever its stock. Each listed row appears exactly as many times as it is stored, and no other row appears. |
| CrudHerramienta.GetHerramientasPorCategoria | app/crud/crud_herramienta.py:48-51 | A stored tool is listed exactly when its category text equals the argument. Each listed row appears exactly as many times as it is stored, and no other row appears. |
| CrudHerramienta.SetAttr | app/crud/crud_herramienta.py:60-61 | The assigned column takes the new value. Every other column and the key keep theirs. |
| CrudHerramienta.ApplyKwargs | app/crud/crud_herramienta.py:60-61 | After the whole patch, each column holds its last assigned value, or its stored value when unassigned. The key is unchanged. |
| CrudHerramienta.UpdateHerramienta | app/crud/crud_herramienta.py:54-65 | Returns None with no change when the tool is absent. A patch that gives the tool another tool's code fails with the unique violation and writes nothing. Otherwise the stored tool is replaced by the patched one. |
| CrudHerramienta.InhabilitarHerramienta | app/crud/crud_herramienta.py:68-77 | True exactly when the tool exists. In that case only its `estado` becomes false, so a repeated call changes nothing more. False means no change. |
| CrudHerramienta.HabilitarHerramienta | app/crud/crud_herramienta.py:80-89 | True exactly when the tool exists. In that case only its `estado` becomes true, so a repeated call changes nothing more. False means no change. |
| CrudEmpleado.CreateEmpleado | app/crud/crud_empleado.py:5-25 | Succeeds exactly when an e-mail is given and no other employee has it. Without an e-mail, the default, it fails with the `correo` NOT NULL violation; with a taken one, with the `correo` unique violation; either way nothing is written. On success it appends one row with the given columns under the next key, `activo` true unless another value is passed. |
| CrudEmpleado.GetEmpleadoById | app/crud/crud_empleado.py:28-31 | The answer is the stored employee with that key, or None exactly when no stored employee has it. |
| CrudEmpleado.GetEmpleadosActivos | app/crud/crud_empleado.py:40-43 | A stored employee is listed exactly when active. Each listed row appears exactly as many times as it is stored, and no other row appears. |
| CrudEmpleado.GetEmpleadosPorArea | app/crud/crud_empleado.py:46-49 | A stored employee is listed exactly when their area equals the argument. Each listed row appears exactly as many times as it is stored, and no other row appears. |
| CrudEmpleado.SetAttr | app/crud/crud_empleado.py:58-59 | The assigned column takes the new value. Every other column and the key keep theirs. |
| CrudEmpleado.ApplyKwargs | app/crud/crud_empleado.py:58-59 | After the whole patch, each column holds its last assigned value, or its stored value when unassigned. The key is unchanged. |
| CrudEmpleado.UpdateEmpleado | app/crud/crud_empleado.py:52-63 | Returns None with no change when the employee is absent. A patch that sets the e-mail to None fails with the NOT NULL violation, and one that gives the employee another employee's e-mail fails with the unique violation; either way nothing is written. Otherwise the stored employee is replaced by the patched one. |
| CrudEmpleado.InhabilitarEmpleado | app/crud/crud_empleado.py:66-75 | True exactly when the employee exists. In that case only `activo` becomes false, and the row is kept. False means no change. |
| CrudEmpleado.HabilitarEmpleado | app/crud/crud_empleado.py:78-87 | True exactly when the employee exists. In that case only `activo` becomes true. False means no change. |
| CrudCategoria.CreateCategoria | app/crud/crud_categoria.py:12-42 | Appends exactly one row with the given name and flag under the next key. The flag is true unless another value is passed. |
| CrudCategoria.GetCategoriaById | app/crud/crud_categoria.py:45-57 | The answer is the stored category with that key, or None exactly when no stored category has it. |
| CrudCategoria.GetCategoriasActivas | app/crud/crud_categoria.py:92-103 | A stored category is listed exactly when active. Each listed row appears exactly as many times as it is stored, and no other row appears. |
| CrudCategoria.SetAttr | app/crud/crud_categoria.py:123-124 | The assigned column takes the new value. The other column and the key keep theirs. |
| CrudCategoria.ApplyKwargs | app/crud/crud_categoria.py:123-124 | After the whole patch, each column holds its last assigned value, or its stored value when unassigned. The key is unchanged. |
| CrudCategoria.UpdateCategoria | app/crud/crud_categoria.py:106-133 | Returns None with no change when the category is absent. Otherwise the stored category is replaced by the patched one. |
| CrudCategoria.InhabilitarCategoria | app/crud/crud_categoria.py:136-154 | True exactly when the category exists. In that case only its `estado` becomes false. False means no change. |
| CrudCategoria.HabilitarCategoria | app/crud/crud_categoria.py:157-175 | True exactly when the category exists. In that case only its `estado` becomes true. False means no change. |
| CrudCategoria.DeleteCategoria | app/crud/crud_categoria.py:178-195 | True exactly when the category exists. In that case exactly that row is removed, a lookup of its key then finds nothing, and every other category is unchanged. False means no change. |
| Utils.StripEmptyIffBlank | frontend/utils.py:74 | `strip()` leaves nothing exactly when every character is whitespace. |
| Utils.MissingTextIffBlank | frontend/utils.py:74 | A text value is missing exactly when it is empty or all whitespace. |
| Utils.FalsyValuesAreMissing | frontend/utils.py:74 | None, 0, False and "" count as missing; a non-zero number and True do not. |
| Utils.ValidateRequiredFields | frontend/utils.py:71-76 | Succeeds exactly when no value is missing, with the fixed success message. Otherwise the message names the first missing field in argument order. |
| Utils.GetStatusBadge | frontend/utils.py:104-113 | Every badge is non-empty. The mapping itself lives in the body; `KnownBadges` and `BadgeRoundTrip` state it. |
| Utils.KnownBadges | frontend/utils.py:104-113 | "activo", "devuelto" and "cancelado" get their three fixed badges, and any other text s is shown as "⚪ " + s, from which s reads back. |
| Utils.BadgeRoundTrip | frontend/utils.py:104-113 | The status can be read back from its badge. The three fixed badges stand for their statuses, and "⚪ " + s stands for s. |
| Utils.BadgeInjective | frontend/utils.py:104-113 | Different statuses never share a badge. |
| Utils.FormatDate | frontend/utils.py:33-37 | "N/A" when there is no date; otherwise the formatter's output for day/month/year hour:minute. |
| Utils.FormatDateShort | frontend/utils.py:40-44 | "N/A" when there is no date; otherwise the formatter's output for day/month/year. |

## Left out

- Keys come from a counter. The model does not capture SQLite reusing the highest key after that row is deleted (only categories are ever deleted).
- `skip` and `limit` are natural numbers. SQLite's reading of a negative `LIMIT` as "no limit" is not modelled.
- Listing order is insertion order. The database guarantees no order without `ORDER BY`, and the model fixes one.
- Update patches can assign any non-key column. Assigning the primary key, or a name that is not a column, is not modelled.
- Errors from the database other than the two unique constraints and the NOT NULL e-mail are not modelled. These are lost connections, type errors, and the re-raised exception after rollback.
- The foreign keys from a loan to its employee and tool are not enforced. The source never checks the employee, and SQLite does not enforce foreign keys by default.
- `create_prestamo` reads the clock twice, once per date default. The model uses one `now` for both.
- `Utils.FormatDate` and `Utils.FormatDateShort` take `strftime` as a parameter. Calendar formatting is a library call and is not modelled.
- `Utils.ValidateRequiredFields` takes values that are None, strings, integers or booleans. Floats, dates and other Python values are not modelled. Field names are assumed distinct, as keyword arguments are.
- `get_herramientas_por_categoria` in `app/crud/crud_categoria.py` is not part of this model. It filters by a category-key column that the tool table does not have.
- Session mechanics, `refresh`, concurrency between sessions, and the Streamlit pages are not modelled. So are the messages, e-mail regex and currency helpers of `frontend/utils.py`, the database configuration and schema creation.
- The one-off e-mail migration (`app/database/migrate_correo_unique.py`) is not modelled. Its check on line 50 reads the NOT NULL flag the wrong way round, so on a schema built from the model it stops at once and the column stays NOT NULL, which is what the model assumes.
