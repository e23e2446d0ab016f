/**
 * The first, global task manager: one table of tasks with no owner, whose
 * `descripcion` column is NOT NULL and UNIQUE. Every call works on the whole
 * table. A missing row is reported as `ValueError("Tarea no encontrada.")`;
 * an insert the constraints reject is rolled back and reported as
 * `ValueError("La tarea ya existe.")`; an edit the constraints reject is not
 * caught, so the `IntegrityError` reaches the caller and the stored row keeps
 * its old description.
 */
module GestorTareas {
  import opened Comun
  import Tabla

  /** A row of the `tasks` table. A NULL description cannot be stored. */
  datatype Task = Task(id: int, descripcion: string, completada: bool, createdAt: Instante)

  /** The exceptions a call can raise. */
  datatype Falla = ValueError(mensaje: string) | IntegrityError

  const TareaYaExiste := "La tarea ya existe."
  const TareaNoEncontrada := "Tarea no encontrada."

  /** Every row is stored under its own id and no two rows share a description. */
  ghost predicate TablaValida(tasks: map<int, Task>) {
    && (forall k :: k in tasks ==> tasks[k].id == k)
    && (forall a, b :: a in tasks && b in tasks && tasks[a].descripcion == tasks[b].descripcion ==> a == b)
  }

  /** Some row other than `excepto` already has description `descripcion`. */
  predicate DescripcionOcupada(tasks: map<int, Task>, descripcion: string, excepto: Option<int>) {
    exists k :: k in tasks && Some(k) != excepto && tasks[k].descripcion == descripcion
  }

  /**
   * `query(Task).all()`: every row exactly once, in the order a full scan of
   * the table returns them (no ORDER BY, so that order is not fixed here).
   */
  ghost function ListarTareas(tasks: map<int, Task>): (r: seq<Task>)
    requires TablaValida(tasks)
    ensures |r| == |tasks|
    ensures forall i :: 0 <= i < |r| ==> r[i].id in tasks && tasks[r[i].id] == r[i]
    ensures forall k :: k in tasks ==> tasks[k] in r
    ensures forall i, j :: 0 <= i < j < |r| ==> r[i].id != r[j].id
  {
    var ks := Tabla.Claves(tasks);
    Tabla.FilasDeClavesDistintas(tasks, IdDe, ks);
    Tabla.FilasDe(tasks, ks)
  }

  /** A row's primary key. */
  function IdDe(t: Task): int { t.id }

  /** The manager; its session's `tasks` table is the field `tasks`. */
  class TaskManager {
    var tasks: map<int, Task>

    ghost predicate Valid()
      reads this
    {
      TablaValida(tasks)
    }

    /** Opens a session on a database whose `tasks` table holds `tabla`. */
    constructor (tabla: map<int, Task>)
      requires TablaValida(tabla)
      ensures Valid() && tasks == tabla
    {
      tasks := tabla;
    }

    /**
     * `crear_tarea`: a missing description or one already stored is rejected
     * with "La tarea ya existe." and the table is unchanged; otherwise one row
     * with a fresh id, that description and `completada == false` is added.
     */
    method CrearTarea(descripcion: Option<string>, ahora: Instante) returns (r: Result<Task, Falla>)
      requires Valid()
      modifies this
      ensures Valid()
      ensures if descripcion.None? || DescripcionOcupada(old(tasks), descripcion.value, None) then
          r == Err(ValueError(TareaYaExiste)) && tasks == old(tasks)
        else
          && r.Ok?
          && r.value.id !in old(tasks)
          && r.value == Task(r.value.id, descripcion.value, false, ahora)
          && tasks == old(tasks)[r.value.id := r.value]
    {
      if descripcion.None? || DescripcionOcupada(tasks, descripcion.value, None) {
        // NOT NULL or UNIQUE fails at commit; the session rolls back.
        return Err(ValueError(TareaYaExiste));
      }
      var id := Tabla.SiguienteClave(tasks);
      var tarea := Task(id, descripcion.value, false, ahora);
      tasks := tasks[id := tarea];
      return Ok(tarea);
    }

    /**
     * `editar_tarea`: an unknown id raises "Tarea no encontrada."; a missing
     * description or one another row has makes the commit fail and the row
     * keeps its description; otherwise only that row's description changes.
     */
    method EditarTarea(id: int, nuevaDescripcion: Option<string>) returns (r: Result<Task, Falla>)
      requires Valid()
      modifies this
      ensures Valid()
      ensures if id !in old(tasks) then
          r == Err(ValueError(TareaNoEncontrada)) && tasks == old(tasks)
        else if nuevaDescripcion.None? || DescripcionOcupada(old(tasks), nuevaDescripcion.value, Some(id)) then
          r == Err(IntegrityError) && tasks == old(tasks)
        else
          && r == Ok(old(tasks)[id].(descripcion := nuevaDescripcion.value))
          && tasks == old(tasks)[id := r.value]
    {
      if id !in tasks {
        return Err(ValueError(TareaNoEncontrada));
      }
      if nuevaDescripcion.None? || DescripcionOcupada(tasks, nuevaDescripcion.value, Some(id)) {
        return Err(IntegrityError);
      }
      var tarea := tasks[id].(descripcion := nuevaDescripcion.value);
      tasks := tasks[id := tarea];
      return Ok(tarea);
    }

    /** `eliminar_tarea`: an unknown id raises "Tarea no encontrada."; otherwise exactly that row goes. */
    method EliminarTarea(id: int) returns (r: Result<(), Falla>)
      requires Valid()
      modifies this
      ensures Valid()
      ensures if id !in old(tasks) then
          r == Err(ValueError(TareaNoEncontrada)) && tasks == old(tasks)
        else
          r == Ok(()) && tasks == old(tasks) - {id}
    {
      if id !in tasks {
        return Err(ValueError(TareaNoEncontrada));
      }
      tasks := tasks - {id};
      return Ok(());
    }

    /**
     * `marcar_completada`: an unknown id raises "Tarea no encontrada.";
     * otherwise that row's flag becomes true, whatever it was.
     */
    method MarcarCompletada(id: int) returns (r: Result<Task, Falla>)
      requires Valid()
      modifies this
      ensures Valid()
      ensures if id !in old(tasks) then
          r == Err(ValueError(TareaNoEncontrada)) && tasks == old(tasks)
        else
          && r == Ok(old(tasks)[id].(completada := true))
          && tasks == old(tasks)[id := r.value]
    {
      if id !in tasks {
        return Err(ValueError(TareaNoEncontrada));
      }
      var tarea := tasks[id].(completada := true);
      tasks := tasks[id := tarea];
      return Ok(tarea);
    }

    /** Marking a task twice succeeds both times and leaves the table as marking it once does. */
    method MarcarDosVeces(id: int) returns (primera: Result<Task, Falla>, segunda: Result<Task, Falla>)
      requires Valid()
      requires id in tasks
      modifies this
      ensures Valid()
      ensures primera.Ok? && segunda == primera
      ensures tasks == old(tasks)[id := old(tasks)[id].(completada := true)]
    {
      primera := MarcarCompletada(id);
      segunda := MarcarCompletada(id);
    }
  }
}
