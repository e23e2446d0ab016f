# To-do list: task store, managers and demo seed, in Dafny

This project models the core of a small to-do application written in Python
with SQLAlchemy over SQLite. It covers the following parts, and proves what
each operation promises about the tables it reads and changes.

- **Schema (`Esquema`).** The `usuarios` and `tareas` tables, with their
  constraints:
  - usernames are unique;
  - a task title is never blank;
  - each owner uses a title at most once;
  - every task's owner exists;
  - deleting a user cascades to that user's tasks.

  The database is a `BaseDatos` object holding both tables as maps from
  primary key to row. The constraints are its class invariant.
- **Task repository (`RepositorioTareas`).**
  - create, edit, delete and mark a task, each scoped by the owner;
  - get one task by (owner, id);
  - list an owner's tasks newest first.

  Each write is one transaction. A write the constraints reject returns a
  failure value and leaves the tables as they were.
- **Mock CRUD controller (`ControladorTareasVista`).** A class with three
  fields: an in-memory list of task records, the id the next record gets,
  and the selected row. It has save, update, delete, clear and select
  operations and a statistics count.
- **Global task manager (`GestorTareas`).** One `tasks` table whose
  description is NOT NULL and UNIQUE. A missing row raises `ValueError`.
- **HU03 task manager (`GestorTareasHU03`).** It validates the title on
  create and reads the table back whole, by id, or filtered by the completed
  flag, newest first.
- **Standalone edit routine (`EditarTareaLogica`).** It looks a task up by id
  alone.
- **Login check (`LoginLogica`).** A username lookup plus a hash comparison.
  The hash function is a parameter.
- **Demo seed script (`Sembrado`, `SeedDemoData`).**
  - creates two users unless their usernames are taken;
  - builds a batch of twenty tasks;
  - inserts every task whose (owner, title) pair is not stored yet, and
    counts the inserts;
  - a second run changes nothing.

Shared pieces:

- `Texto`: Python's `str.strip()` over the characters `str.isspace()`
  accepts.
- `Tabla`: how SQLite hands out a new rowid (one past the largest in use, or
  1), and what `ORDER BY ... DESC` returns over a table.
- `Comun`: `Option`, `Result` and the clock type `Instante`.

New ids follow SQLite's rowid rule, `Tabla.SiguienteClave`. The tables are
declared without the AUTOINCREMENT keyword, so after the row with the largest
id is deleted, that id is handed out again. The model therefore proves new
ids fresh, not never reused. "Never reused" is proved only for the mock
controller's counter.

The seed session runs with autoflush off. Inside the insert loop, the
existence query sees the table as it was before the loop. The rows the loop
adds reach the table at the commit, in order. `Sembrado.Sembrar` models
exactly that.

## Model

| member | source | states |
|---|---|---|
| Texto.Strip | src/modelo/repositorio_tareas.py:54 | `strip()` gives the empty string exactly for an all-whitespace input; otherwise the result starts and ends with a non-whitespace character and is no longer than the input |
| Texto.StripRecorta | src/modelo/repositorio_tareas.py:54 | `strip()` returns the input with its leading and trailing whitespace cut off and every inner character kept: the slice of `s` after its `Inicio(s)` leading whitespace characters, with only whitespace before and after it |
| Texto.StripEsElUnicoRecorte | src/logica/editar_tarea_logica.py:33 | any slice of `s` with only whitespace before and after it that is empty or starts and ends on non-whitespace is exactly what `strip()` returns, so the result is determined by that description alone |
| Texto.StripIdempotente | src/logica/editar_tarea_logica.py:33 | stripping an already stripped title changes nothing, so the stripped title is what gets stored |
| Tabla.SiguienteClave | src/modelo/bd_model.py:54-58 | the rowid of a new row is not in use, is above every rowid in use, and is 1 in an empty table |
| Tabla.Claves | src/logica/task_manager.py:30-32 | a full scan lists every key of the table exactly once and nothing else |
| Tabla.ClavesPorSelloDesc | src/modelo/repositorio_tareas.py:82-89 | `ORDER BY stamp DESC` lists every key exactly once, with non-increasing stamps |
| Tabla.FilasPorSelloDesc | src/modelo/repositorio_tareas.py:82-89 | the rows in that order: each row of the table once, each stored under its own key, non-increasing stamps |
| Tabla.FilaMayorSelloPrimera | src/logica/task_manager_HU03.py:25-38 | a row whose stamp is strictly the greatest is the first row of `ORDER BY stamp DESC` |
| Esquema.UsuariosPorClave | src/modelo/bd_model.py:18-22 | every user row is stored under its own `id_usuario`, the primary key |
| Esquema.TareasPorClave | src/modelo/bd_model.py:54-58 | every task row is stored under its own `id_tarea`, the primary key |
| Esquema.UsernamesUnicos | src/modelo/bd_model.py:23-28 | no two users share a username (`unique=True`) |
| Esquema.TitulosNoVacios | src/modelo/bd_model.py:101-105 | no stored title is blank once stripped (`ck_tareas_titulo_no_vacio`) |
| Esquema.TitulosUnicosPorUsuario | src/modelo/bd_model.py:110-114 | no owner has two tasks with the same title (`uq_tareas_usuario_titulo`) |
| Esquema.PropietariosExisten | src/modelo/bd_model.py:60-69 | every task's owner is a stored user (the foreign key) |
| Esquema.TablasValidas | src/modelo/bd_model.py:18-117 | all six constraints above at once; it is the invariant of `BaseDatos`, and every write below is proved to keep it |
| Esquema.TituloOcupado | src/modelo/bd_model.py:110-114 | holds exactly when a row other than the excepted one already has that (owner, title) pair, the pair the unique constraint would reject |
| Esquema.InsertarPreservaValidez | src/modelo/bd_model.py:101-117 | inserting a row under a fresh id, with an existing owner, a non-blank title and an unused (owner, title) pair, keeps every constraint |
| Esquema.ReemplazarPreservaValidez | src/modelo/bd_model.py:101-117 | rewriting a row in place with the same owner, a non-blank title and a title no other row of the owner uses keeps every constraint |
| Esquema.MarcarPreservaValidez | src/modelo/bd_model.py:80-85 | changing only the completed flag of a row keeps every constraint |
| Esquema.InsertarUsuarioPreservaValidez | src/modelo/bd_model.py:18-28 | inserting a user under a fresh id with an unused username keeps every constraint |
| Esquema.BorrarUsuarioEnCascada | src/modelo/bd_model.py:60-69 | deleting a user removes exactly that user's id, keeps exactly the tasks of other owners unchanged, and keeps every constraint |
| Esquema.BaseDatos.EliminarUsuario | src/modelo/bd_model.py:39-43 | the database after the cascading delete is the cascade's result, no task of that user survives, and the invariant holds |
| Esquema.BaseDatos.InsertarTarea | src/modelo/repositorio_tareas.py:71-72 | an insert the constraints accept adds exactly that row, leaves the users alone and keeps the invariant |
| Esquema.BaseDatos.ReemplazarTarea | src/modelo/repositorio_tareas.py:120-121 | an update the constraints accept replaces exactly that row, leaves the users alone and keeps the invariant |
| RepositorioTareas.NormalizarDescripcion | src/modelo/repositorio_tareas.py:55 | a missing description stays None, a given one is stored stripped |
| RepositorioTareas.ObtenerTarea | src/modelo/repositorio_tareas.py:91-97 | a task is returned exactly when one has both that id and that owner, and it is that task; another owner's id answers like a missing one |
| RepositorioTareas.DeUsuario | src/modelo/repositorio_tareas.py:86 | the rows kept by `WHERE id_usuario = ?` are exactly the owner's tasks, unchanged |
| RepositorioTareas.ListarTareas | src/modelo/repositorio_tareas.py:82-89 | each of the owner's tasks exactly once, nothing of any other owner, newest first; as many as the owner has (none when the owner has none) |
| RepositorioTareas.NuevaTareaPrimera | src/modelo/repositorio_tareas.py:82-89 | a task created later than all of its owner's tasks is the first one listed |
| RepositorioTareas.RepositorioTareasSQLite.CrearTarea | src/modelo/repositorio_tareas.py:48-80 | a blank title, an unknown owner and a title the owner already uses each return `(None, message)` with the tables unchanged; otherwise exactly one row is added under a fresh id with the owner, the stripped title, the stripped or None description and `completada == false`, and it can be fetched back |
| RepositorioTareas.RepositorioTareasSQLite.EditarTarea | src/modelo/repositorio_tareas.py:99-127 | a blank title, a task the owner does not have, and a title another task of the owner uses each fail with their own message and change nothing; otherwise only that row's title and description change (renaming to its own title succeeds) |
| RepositorioTareas.RepositorioTareasSQLite.EliminarTarea | src/modelo/repositorio_tareas.py:129-136 | a task the owner does not have fails and changes nothing; otherwise exactly that row is removed |
| RepositorioTareas.RepositorioTareasSQLite.MarcarCompletada | src/modelo/repositorio_tareas.py:138-150 | a task the owner does not have fails and changes nothing; otherwise only that row's flag changes, to the given value |
| ControladorTareasVista.Cuenta | src/vista/controlador_tareas_vista.py:200-202 | the count for a flag is the number of positions holding a record with that flag |
| ControladorTareasVista.CuentaParticion | src/vista/controlador_tareas_vista.py:199-203 | completed and pending counts add up to the list's length |
| ControladorTareasVista.CuentaAlAgregar | src/vista/controlador_tareas_vista.py:66 | appending a record raises the count of its own flag by one and leaves the other count unchanged; `GuardarTarea` uses it for its statistics clause |
| ControladorTareasVista.ControladorTareasVista.IdsValidos | src/vista/controlador_tareas_vista.py:23-24 | the record ids are at least 1, pairwise distinct and all below the counter, so the counter's value is never an id in use |
| ControladorTareasVista.ControladorTareasVista.Valid | src/vista/controlador_tareas_vista.py:23-25 | the id facts above, and a selection always points at a record of the list; every method keeps it |
| ControladorTareasVista.ControladorTareasVista.constructor | src/vista/controlador_tareas_vista.py:22-25 | an empty list, the counter at 1 and no selection |
| ControladorTareasVista.ControladorTareasVista.Limpiar | src/vista/controlador_tareas_vista.py:125-128 | only the selection changes, to None |
| ControladorTareasVista.ControladorTareasVista.GuardarTarea | src/vista/controlador_tareas_vista.py:44-69 | an empty title changes nothing; otherwise one record is appended whose id is the counter's old value (an id no record has) and whose two stamps are equal, the counter goes up by one, the selection is cleared, and ids stay distinct and below the counter; the statistics count for the record's flag goes up by one and the other count stays |
| ControladorTareasVista.ControladorTareasVista.ActualizarTareaSeleccionada | src/vista/controlador_tareas_vista.py:71-100 | no selection or an empty title changes nothing; otherwise only the selected record's title, description, flag and `actualizada_en` change, and the selection is cleared |
| ControladorTareasVista.ControladorTareasVista.EliminarTareaSeleccionada | src/vista/controlador_tareas_vista.py:102-123 | no selection or no confirmation changes nothing; otherwise exactly the selected record is removed, the others keep their order, and the counter is not lowered |
| ControladorTareasVista.ControladorTareasVista.AlSeleccionarFila | src/vista/controlador_tareas_vista.py:130-148 | no selected row sets the selection to None; otherwise the first selected row becomes the selection and its title, description and flag are loaded |
| ControladorTareasVista.ControladorTareasVista.ObtenerEstadisticas | src/vista/controlador_tareas_vista.py:197-208 | total is the list length, completed and pending are the numbers of records with each flag, and they add up to total |
| GestorTareas.TablaValida | src/modelo/task.py:24-25 | every row is stored under its own id and no two rows share a description (`unique=True`) |
| GestorTareas.DescripcionOcupada | src/modelo/task.py:25 | holds exactly when a row other than the excepted one already has that description, which the unique column would reject |
| GestorTareas.ListarTareas | src/logica/task_manager.py:30-32 | every row exactly once and nothing else |
| GestorTareas.TaskManager.CrearTarea | src/logica/task_manager.py:17-27 | a missing or already stored description raises "La tarea ya existe." with the table unchanged; otherwise one row with a fresh id, that description and `completada == false` is added |
| GestorTareas.TaskManager.EditarTarea | src/logica/task_manager.py:35-43 | an unknown id raises "Tarea no encontrada." and changes nothing; a missing or duplicate description fails at commit and changes nothing; otherwise only that row's description changes |
| GestorTareas.TaskManager.EliminarTarea | src/logica/task_manager.py:46-53 | an unknown id raises "Tarea no encontrada." and changes nothing; otherwise exactly that row is removed |
| GestorTareas.TaskManager.MarcarCompletada | src/logica/task_manager.py:56-64 | an unknown id raises "Tarea no encontrada." and changes nothing; otherwise that row's flag becomes true and nothing else changes |
| GestorTareas.TaskManager.MarcarDosVeces | src/logica/task_manager.py:56-64 | marking an existing task twice succeeds both times with the same answer and leaves the table as one marking does |
| GestorTareasHU03.Filtrar | src/logica/task_manager_HU03.py:54 | `WHERE completed = ?` keeps exactly the rows with that flag, unchanged |
| GestorTareasHU03.Consulta | src/logica/task_manager_HU03.py:25-81 | the kept rows, each exactly once and nothing else, newest first |
| GestorTareasHU03.GetAllTasks | src/logica/task_manager_HU03.py:25-38 | every row exactly once, newest first; an empty table gives an empty list |
| GestorTareasHU03.GetCompletedTasks | src/logica/task_manager_HU03.py:53-66 | exactly the completed rows, newest first |
| GestorTareasHU03.GetPendingTasks | src/logica/task_manager_HU03.py:68-81 | exactly the rows not completed, newest first |
| GestorTareasHU03.GetTaskById | src/logica/task_manager_HU03.py:40-51 | the row with that id, or None exactly when there is none |
| GestorTareasHU03.CompletadasYPendientesParticionan | src/logica/task_manager_HU03.py:53-81 | the completed and pending lists partition all rows: a row is in the full list exactly when it is in one of them, in never both, and the lengths add up |
| GestorTareasHU03.TodasEstanEnAlgunFiltro | src/logica/task_manager_HU03.py:25-81 | every row of the full list is in the completed or the pending list |
| GestorTareasHU03.FiltradasEstanEnTodas | src/logica/task_manager_HU03.py:25-81 | every row of the completed or pending list is in the full list |
| GestorTareasHU03.FiltradasEstanEnTodasCon | src/logica/task_manager_HU03.py:25-81 | every row of one filtered list is in the full list |
| GestorTareasHU03.FiltrosDisjuntos | src/logica/task_manager_HU03.py:53-81 | no row is both completed and pending |
| GestorTareasHU03.FiltrosParticionan | src/logica/task_manager_HU03.py:53-81 | the completed and the pending rows together are as many as the table's rows |
| GestorTareasHU03.UltimaCreadaPrimera | src/logica/task_manager_HU03.py:25-38 | a row created later than every stored row is the first row `get_all_tasks` returns |
| GestorTareasHU03.TaskManager.CreateTask | src/logica/task_manager_HU03.py:8-23 | a missing, empty or blank title raises ValueError and inserts nothing; otherwise one row with a fresh id, the stripped title and description and `completed == false` is inserted and returned, and it is listed first when created after every row |
| EditarTareaLogica.EditarTareaLogica.EditarTarea | src/logica/editar_tarea_logica.py:8-44 | a missing or blank title, an unknown id, and a commit the unique (owner, title) constraint rejects return False and change nothing; otherwise only that row's title (stripped) and description (verbatim, None clears it) change and True is returned |
| LoginLogica.BuscarPorUsername | src/logica/login_logica.py:25-29 | the user with that username, or None exactly when no user has it |
| LoginLogica.Login | src/logica/login_logica.py:17-39 | True exactly when some user has that username and its stored hash equals the hash of the password (so False when no user has that username, the empty one included); the table is only read |
| LoginLogica.LoginDeUsuarioRegistrado | src/logica/login_logica.py:31-36 | for a stored user, login with its username succeeds exactly when the password hashes to its stored hash |
| Sembrado.FechaConOffset | seed_demo_data.py:198-199 | the run's clock reading moved back the given number of days, 86400 seconds each |
| Sembrado.AFila | seed_demo_data.py:42-55 | the row `_crear_tarea` builds, with the task's owner, title, description, flag and stamp, stored under the rowid the commit gives it |
| Sembrado.Sembrar | seed_demo_data.py:247-259 | the tasks table after the commit: in batch order, each task whose (owner, title) the pre-loop snapshot lacks is added under the next rowid, the others are skipped |
| Sembrado.LoteValido | seed_demo_data.py:247-259 | what is enough for the commit to accept a batch: every owner exists, no title is blank under Python's whitespace set (which implies SQLite's `trim` CHECK), no (owner, title) pair comes twice |
| Sembrado.Grupo | seed_demo_data.py:202-211 | one loop over a list builds one task per entry |
| Sembrado.AgregarGrupo | seed_demo_data.py:202-211 | the loop appends the tasks of its list, in order, each dated `base - idx` days back, after the tasks already built |
| Sembrado.ContarGrupo | seed_demo_data.py:202-211 | the tasks one loop builds count entirely for their own owner and flag and not at all for another |
| Sembrado.ContarConcatenacion | seed_demo_data.py:195-245 | counting over the batch built by successive loops is the sum of the loops' counts |
| Sembrado.Insertadas | seed_demo_data.py:247-257 | the value of the insert counter: how many tasks of the batch the pre-loop snapshot lacks; `SembrarCuenta` proves the table grows by exactly that many |
| Sembrado.SembrarConserva | seed_demo_data.py:247-259 | seeding only adds rows: every stored row is kept unchanged |
| Sembrado.SembrarCuenta | seed_demo_data.py:247-259 | the table grows by exactly the number of inserts counted |
| Sembrado.SembrarCubreLote | seed_demo_data.py:247-259 | after seeding, every (owner, title) pair of the batch is stored |
| Sembrado.SembrarSinNovedad | seed_demo_data.py:247-257 | when every pair of the batch is already stored, nothing is added and the counter ends at 0 |
| Sembrado.SembrarDosVeces | seed_demo_data.py:247-259 | seeding again with the same batch changes nothing and counts 0 (idempotence) |
| Sembrado.SembrarDesdeInstantanea | seed_demo_data.py:247-259 | seeding a valid batch against the pre-loop snapshot keeps every constraint, grows the table by exactly the insert count, keeps every stored row and leaves every pair of the batch stored |
| Sembrado.SembrarPreservaValidez | seed_demo_data.py:247-259 | a valid batch, seeded against the pre-loop snapshot, keeps every constraint of the tables |
| Sembrado.CrearUsuarioSiNoExiste | seed_demo_data.py:26-39 | a taken username returns that user and changes nothing; otherwise exactly one user is added under a fresh id with that username and the hash of the password; tasks are untouched |
| Sembrado.InsertarSiNoExisten | seed_demo_data.py:247-259 | the loop adds, in order, each task of the batch whose (owner, title) the table lacked before the loop; the counter equals the number of rows added; stored rows are kept; afterwards every pair of the batch is stored; the invariant holds |
| SeedDemoData.Titulos | seed_demo_data.py:83-193 | the batch has twenty titles |
| SeedDemoData.LoteCon | seed_demo_data.py:201-245 | the four loops build twenty tasks |
| SeedDemoData.Lote | seed_demo_data.py:195-245 | the batch of the script, built from its four title lists with their own descriptions |
| SeedDemoData.ConstruirLote | seed_demo_data.py:195-245 | the four loops, run in order, build exactly the batch |
| SeedDemoData.LoteEnPosicion | seed_demo_data.py:201-245 | the i-th task has the i-th title, the first user for the first ten, is completed in the second half of each user's ten, and is dated the right number of days back |
| SeedDemoData.TitulosDistintosPorUsuario | seed_demo_data.py:83-193 | no user gets the same title twice in the batch |
| SeedDemoData.TitulosNoEnBlanco | seed_demo_data.py:83-193 | no title of the batch is blank |
| SeedDemoData.LoteConValido | seed_demo_data.py:83-245 | for two different existing users, every owner exists, no title is blank and no (owner, title) pair repeats, so the commit accepts the batch |
| SeedDemoData.LotePresenteSiTitulos | seed_demo_data.py:247-257 | every pair of the batch is stored exactly when the table holds all twenty (owner, title) pairs |
| SeedDemoData.ContarLote | seed_demo_data.py:4-7 | the number of tasks with a given flag (and owner) is the sum of five per matching list |
| SeedDemoData.LoteCuentas | seed_demo_data.py:4-7 | twenty tasks: ten pending and ten completed, five of each per user |
| SeedDemoData.LoteCronologico | seed_demo_data.py:197-245 | every task is dated before the run, each strictly later than the one before it |
| SeedDemoData.SemillaPresente | seed_demo_data.py:247-257 | both demo users exist and the table holds all twenty (owner, title) pairs, so a run inserts nothing |
| SeedDemoData.SemillaPresenteSiLote | seed_demo_data.py:247-257 | with both users stored, the seed is present exactly when every pair of their batch is stored |
| SeedDemoData.CrearUsuariosDemo | seed_demo_data.py:62-77 | both users exist afterwards with their usernames and distinct ids; existing users are kept; a new one carries its password's hash; with the seed present the users table is unchanged |
| SeedDemoData.SembrarDemo | seed_demo_data.py:58-272 | users kept and created as above; the tasks table is the seeding of the batch against the pre-loop snapshot, stored rows kept, counter equal to the rows added; afterwards the whole seed is present; when it already was, nothing changes and the counter is 0 |

## Left out

- The PyQt6 screens, widgets, dialogs and table-drawing calls. The
  controller's message boxes are left out. The delete confirmation is a
  boolean parameter. The selected rows are a list of row numbers below the
  list's length.
- Engine, session and PRAGMA setup and file I/O. Each repository write is
  one atomic step on the tables. Session flush, commit and rollback are not
  modelled. An `IntegrityError` is an explicit check of the constraint it
  enforces.
- The repository's `RuntimeError` when no session factory exists. This is
  import-time configuration, not task logic.
- SHA-256 inside `generar_hash`. The hash is a function parameter, so it is
  deterministic by construction.
- Clock readings. `CURRENT_TIMESTAMP`, `datetime.now()` and
  `datetime.utcnow` are an integer parameter `ahora` in seconds. The seed's
  day offsets are multiples of 86400.
- The `actualizada_en` and `creado_en` columns of the database tables. They
  are timestamps the database fills in, and no property depends on them. The
  mock controller's own two stamps are modelled.
- Rows with equal creation stamps. `ORDER BY ... DESC` does not fix their
  order, and neither does the model. The properties about ordering hold for
  any order among them.
- SQLite's `trim` in the title CHECK. It trims only spaces, where Python's
  `strip()` trims all whitespace. The model uses Python's set throughout,
  which makes `Esquema.TitulosNoVacios` stricter than the CHECK: a title
  such as a lone tab passes the CHECK but not the model. The repository,
  the edit routine and the HU03 manager strip a title before writing it, so
  for them the two tests agree. The seed script writes its literal titles
  unchanged. `Sembrado.LoteValido` applies the Python-set test to them,
  which implies SQLite's CHECK. The script's own batch meets it, as
  `SeedDemoData.TitulosNoEnBlanco` proves.
- The `String(50)`, `String(120)` and `String(255)` length bounds. SQLite
  does not enforce them.
- Task ids under SQLite's rowid rule are fresh but may be reused after the
  row with the largest id is deleted. This is why only the mock controller
  proves "ids never reused".
- GestorTareas.TaskManager.EditarTarea: when the commit fails, the source
  leaves the session in a failed state, and the exception reaches the
  caller. The model returns `IntegrityError` with the table unchanged. What
  the broken session does on later calls is not modelled.
- GestorTareasHU03: the `Database` class it needs, and the `Task` shape
  with a title, are not part of this model. The table is a map from row id
  to row, and an insert gets the next rowid. The loops that copy each
  fetched row into a `Task` are the identity here, because a row already is
  a `Task`.
- GestorTareasHU03.TaskManager.CreateTask: the description is a string. A
  description of None makes the source raise `AttributeError` on `strip()`,
  and that case is not modelled.
- EditarTareaLogica.EditarTareaLogica.EditarTarea: other exceptions that the
  catch-all `except` turns into False are not modelled. Examples are a
  locked or unreadable database file, and a title over SQLite's overall
  maximum string length. The `String(120)` bound itself is not enforced.
  Only the unique (owner, title) rejection is modelled.
- Sembrado.InsertarSiNoExisten: it requires a batch whose owners exist, with
  no title blank under Python's whitespace set and no repeated (owner,
  title) pair. A missing owner or a repeated pair would make the commit
  raise and the script abort. A title made only of non-space whitespace
  would pass the commit, but the model does not cover it. The script's own
  batch meets the precondition, as SeedDemoData.LoteConValido proves.
- The seed script's `print` calls and `init_db()`.
- `_crear_tarea` is the `TareaSemilla` constructor, with `AFila` giving the
  stored row. Each list of (title, description) pairs is held as two
  parallel lists of the same length.
- The test files, the documentation configuration and the demo drivers.
  Tests written against a service layer that the source does not have are
  also left out.
