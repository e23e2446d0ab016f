/**
 * The task manager of user story HU03: it validates the title on create and
 * reads the `tasks` table back whole, by id, or filtered by the `completed`
 * flag, always newest first. Its `Database` wrapper is not part of this model:
 * the table is a map from row id to row, an insert gets the next SQLite rowid,
 * and each query is a pure function of the table.
 */
module GestorTareasHU03 {
  import opened Comun
  import opened Texto
  import Tabla

  /** A row of `tasks`, read back as a `Task` (`completed` as a boolean). */
  datatype Task = Task(id: int, title: string, description: string, completed: bool, createdAt: Instante)

  const TituloVacio := "El título de la tarea no puede estar vacío"

  /** Every row is stored under its own id. */
  ghost predicate TablaValida(tasks: map<int, Task>) {
    forall k :: k in tasks ==> tasks[k].id == k
  }

  /** A row's primary key. */
  function IdDe(t: Task): int { t.id }

  /** A row's `created_at`. */
  function SelloDe(t: Task): int { t.createdAt }

  /** The rows a `WHERE` clause keeps: all of them, or those whose flag is `completed.value`. */
  function Filtrar(tasks: map<int, Task>, completed: Option<bool>): (f: map<int, Task>)
    ensures forall k :: k in f <==> k in tasks && (completed.None? || tasks[k].completed == completed.value)
    ensures forall k :: k in f ==> f[k] == tasks[k]
  {
    map k | k in tasks && (completed.None? || tasks[k].completed == completed.value) :: tasks[k]
  }

  /**
   * `SELECT * FROM tasks [WHERE completed = ?] ORDER BY created_at DESC`: the
   * kept rows, each once, newest first. Rows with equal stamps come in an
   * order the query does not fix.
   */
  ghost function Consulta(tasks: map<int, Task>, completed: Option<bool>): (r: seq<Task>)
    requires TablaValida(tasks)
    ensures |r| == |Filtrar(tasks, completed)|
    ensures forall i :: 0 <= i < |r| ==>
      && r[i].id in tasks && tasks[r[i].id] == r[i]
      && (completed.None? || r[i].completed == completed.value)
    ensures forall k :: k in tasks && (completed.None? || tasks[k].completed == completed.value) ==> tasks[k] in r
    ensures forall i, j :: 0 <= i < j < |r| ==> r[i].id != r[j].id
    ensures forall i, j :: 0 <= i < j < |r| ==> r[i].createdAt >= r[j].createdAt
  {
    Tabla.FilasPorSelloDesc(Filtrar(tasks, completed), IdDe, SelloDe)
  }

  /** `get_all_tasks`: every row once, newest first; none on an empty table. */
  ghost function GetAllTasks(tasks: map<int, Task>): (r: seq<Task>)
    requires TablaValida(tasks)
    ensures |r| == |tasks|
    ensures forall i :: 0 <= i < |r| ==> r[i].id in tasks && tasks[r[i].id] == r[i]
    ensures forall k :: k in tasks ==> tasks[k] in r
    ensures forall i, j :: 0 <= i < j < |r| ==> r[i].createdAt >= r[j].createdAt
    ensures tasks == map[] ==> r == []
  {
    assert Filtrar(tasks, None) == tasks;
    Consulta(tasks, None)
  }

  /** `get_completed_tasks`: exactly the completed rows, newest first. */
  ghost function GetCompletedTasks(tasks: map<int, Task>): (r: seq<Task>)
    requires TablaValida(tasks)
    ensures forall i :: 0 <= i < |r| ==> r[i].completed && r[i].id in tasks && tasks[r[i].id] == r[i]
    ensures forall k :: k in tasks && tasks[k].completed ==> tasks[k] in r
    ensures |r| == |Filtrar(tasks, Some(true))|
    ensures forall i, j :: 0 <= i < j < |r| ==> r[i].createdAt >= r[j].createdAt
  {
    Consulta(tasks, Some(true))
  }

  /** `get_pending_tasks`: exactly the rows not completed, newest first. */
  ghost function GetPendingTasks(tasks: map<int, Task>): (r: seq<Task>)
    requires TablaValida(tasks)
    ensures forall i :: 0 <= i < |r| ==> !r[i].completed && r[i].id in tasks && tasks[r[i].id] == r[i]
    ensures forall k :: k in tasks && !tasks[k].completed ==> tasks[k] in r
    ensures |r| == |Filtrar(tasks, Some(false))|
    ensures forall i, j :: 0 <= i < j < |r| ==> r[i].createdAt >= r[j].createdAt
  {
    Consulta(tasks, Some(false))
  }

  /** `get_task_by_id`: the row with that id, or None when there is none. */
  function GetTaskById(tasks: map<int, Task>, id: int): (r: Option<Task>)
    requires TablaValida(tasks)
    ensures r.Some? <==> exists k :: k in tasks && tasks[k].id == id
    ensures forall k :: k in tasks && tasks[k].id == id ==> r == Some(tasks[k])
  {
    if id in tasks then Some(tasks[id]) else None
  }

  /**
   * The completed and the pending rows split all rows: each row is in exactly
   * one of the two lists, and their lengths add up to the table's size.
   */
  lemma CompletadasYPendientesParticionan(tasks: map<int, Task>)
    requires TablaValida(tasks)
    ensures forall t :: t in GetAllTasks(tasks) <==> t in GetCompletedTasks(tasks) || t in GetPendingTasks(tasks)
    ensures forall t :: t in GetCompletedTasks(tasks) ==> t !in GetPendingTasks(tasks)
    ensures |GetCompletedTasks(tasks)| + |GetPendingTasks(tasks)| == |GetAllTasks(tasks)|
  {
    TodasEstanEnAlgunFiltro(tasks);
    FiltradasEstanEnTodas(tasks);
    FiltrosDisjuntos(tasks);
    FiltrosParticionan(tasks);
  }

  /** Every row `get_all_tasks` returns is returned by one of the two filtered queries. */
  lemma TodasEstanEnAlgunFiltro(tasks: map<int, Task>)
    requires TablaValida(tasks)
    ensures forall t :: t in GetAllTasks(tasks) ==> t in GetCompletedTasks(tasks) || t in GetPendingTasks(tasks)
  {
    var todas := GetAllTasks(tasks);
    var hechas := GetCompletedTasks(tasks);
    var pendientes := GetPendingTasks(tasks);
    forall i | 0 <= i < |todas| ensures todas[i] in hechas || todas[i] in pendientes {
      var k := todas[i].id;
      assert k in tasks && tasks[k] == todas[i];
    }
  }

  /** Every row a filtered query returns is returned by `get_all_tasks`. */
  lemma FiltradasEstanEnTodas(tasks: map<int, Task>)
    requires TablaValida(tasks)
    ensures forall t :: t in GetCompletedTasks(tasks) || t in GetPendingTasks(tasks) ==> t in GetAllTasks(tasks)
  {
    FiltradasEstanEnTodasCon(tasks, true);
    FiltradasEstanEnTodasCon(tasks, false);
  }

  /** Every row a query filtered on `completed` returns is returned by `get_all_tasks`. */
  lemma FiltradasEstanEnTodasCon(tasks: map<int, Task>, completed: bool)
    requires TablaValida(tasks)
    ensures forall t :: t in Consulta(tasks, Some(completed)) ==> t in GetAllTasks(tasks)
  {
    var filtradas := Consulta(tasks, Some(completed));
    var todas := GetAllTasks(tasks);
    forall i | 0 <= i < |filtradas| ensures filtradas[i] in todas {
      var k := filtradas[i].id;
      assert k in tasks && tasks[k] == filtradas[i];
    }
  }

  /** No row is both completed and pending. */
  lemma FiltrosDisjuntos(tasks: map<int, Task>)
    requires TablaValida(tasks)
    ensures forall t :: t in GetCompletedTasks(tasks) ==> t !in GetPendingTasks(tasks)
  {
    var hechas := GetCompletedTasks(tasks);
    assert forall i :: 0 <= i < |hechas| ==> hechas[i].completed;
  }

  /** The completed rows and the pending rows have as many rows between them as the table. */
  lemma FiltrosParticionan(tasks: map<int, Task>)
    ensures |Filtrar(tasks, Some(true))| + |Filtrar(tasks, Some(false))| == |tasks|
  {
    var hechas := Filtrar(tasks, Some(true)).Keys;
    var pendientes := Filtrar(tasks, Some(false)).Keys;
    assert tasks.Keys == hechas + pendientes;
    assert hechas * pendientes == {};
  }

  /** A row inserted with a stamp later than every stored row is the first one `get_all_tasks` returns. */
  lemma UltimaCreadaPrimera(tasks: map<int, Task>, nueva: Task)
    requires TablaValida(tasks)
    requires nueva.id !in tasks
    requires forall k :: k in tasks ==> tasks[k].createdAt < nueva.createdAt
    ensures TablaValida(tasks[nueva.id := nueva])
    ensures GetAllTasks(tasks[nueva.id := nueva]) != []
    ensures GetAllTasks(tasks[nueva.id := nueva])[0] == nueva
  {
    var despues := tasks[nueva.id := nueva];
    assert TablaValida(despues);
    var todas := Filtrar(despues, None);
    assert forall j :: j in todas ==> IdDe(todas[j]) == j;
    assert nueva.id in todas;
    assert forall j :: j in todas && j != nueva.id ==> SelloDe(todas[j]) < SelloDe(todas[nueva.id]) by {
      forall j | j in todas && j != nueva.id ensures SelloDe(todas[j]) < SelloDe(todas[nueva.id]) {
        assert j in tasks && todas[j] == tasks[j];
      }
    }
    Tabla.FilaMayorSelloPrimera(todas, IdDe, SelloDe, nueva.id);
    assert GetAllTasks(despues) == Tabla.FilasPorSelloDesc(todas, IdDe, SelloDe);
  }

  /** The manager; the `tasks` table of its database is the field `tasks`. */
  class TaskManager {
    var tasks: map<int, Task>

    ghost predicate Valid()
      reads this
    {
      TablaValida(tasks)
    }

    /** Opens the database whose `tasks` table holds `tabla`. */
    constructor (tabla: map<int, Task>)
      requires TablaValida(tabla)
      ensures Valid() && tasks == tabla
    {
      tasks := tabla;
    }

    /**
     * `create_task`: a missing, empty or whitespace-only title raises
     * ValueError and inserts nothing; otherwise one row is inserted with the
     * stripped title and description, `completed == false` and a fresh id, and
     * that row is returned. Created after every stored row, it is listed first.
     */
    method CreateTask(title: Option<string>, description: string, ahora: Instante) returns (r: Result<Task, string>)
      requires Valid()
      modifies this
      ensures Valid()
      ensures if title.None? || Strip(title.value) == "" then
          r == Err(TituloVacio) && tasks == old(tasks)
        else
          && r.Ok?
          && r.value.id !in old(tasks)
          && r.value == Task(r.value.id, Strip(title.value), Strip(description), false, ahora)
          && tasks == old(tasks)[r.value.id := r.value]
      ensures r.Ok? && (forall k :: k in old(tasks) ==> old(tasks)[k].createdAt < ahora) ==>
        GetAllTasks(tasks) != [] && GetAllTasks(tasks)[0] == r.value
    {
      if title.None? || title.value == "" || Strip(title.value) == "" {
        return Err(TituloVacio);
      }
      var id := Tabla.SiguienteClave(tasks);
      var task := Task(id, Strip(title.value), Strip(description), false, ahora);
      if forall k :: k in tasks ==> tasks[k].createdAt < ahora {
        UltimaCreadaPrimera(tasks, task);
      }
      tasks := tasks[id := task];
      return Ok(task);
    }
  }
}
