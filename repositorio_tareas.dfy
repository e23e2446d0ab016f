/**
 * The task repository: create, list, get, edit, delete and mark tasks, every
 * call scoped by the owner's id. Expected failures come back as values
 * (`(None, mensaje)` or a `ResultadoOperacion` with `ok == false`). Each write
 * runs in one transaction, so a write the unique constraint rejects leaves the
 * tables exactly as they were.
 */
module RepositorioTareas {
  import opened Comun
  import opened Texto
  import Tabla
  import opened Esquema

  /** The outcome of a write: a success flag and a message for the user. */
  datatype ResultadoOperacion = ResultadoOperacion(ok: bool, mensaje: string)

  const TituloVacio := "El título no puede estar vacío."
  const UsuarioNoExiste := "El usuario no existe."
  const TareaCreada := "Tarea creada correctamente."
  const TituloDuplicado := "Ya existe una tarea con ese título para este usuario."
  const TareaNoExiste := "La tarea no existe."
  const TareaActualizada := "Tarea actualizada correctamente."
  const TareaEliminada := "Tarea eliminada correctamente."
  const EstadoActualizado := "Estado actualizado correctamente."

  /** A description as create and edit store it: stripped, and None kept as None. */
  function NormalizarDescripcion(descripcion: Option<string>): Option<string> {
    if descripcion.Some? then Some(Strip(descripcion.value)) else None
  }

  /**
   * `SELECT ... WHERE id_usuario = ? AND id_tarea = ?`, one row or none: the
   * row that has both that id and that owner, if any, so another owner's task
   * id answers like an id that does not exist.
   */
  function ObtenerTarea(tareas: map<int, Tarea>, idUsuario: int, idTarea: int): (r: Option<Tarea>)
    requires TareasPorClave(tareas)
    ensures r.Some? <==> exists k :: k in tareas && tareas[k].idTarea == idTarea && tareas[k].idUsuario == idUsuario
    ensures forall k :: k in tareas && tareas[k].idTarea == idTarea && tareas[k].idUsuario == idUsuario ==>
      r == Some(tareas[k])
  {
    if idTarea in tareas && tareas[idTarea].idUsuario == idUsuario then Some(tareas[idTarea]) else None
  }

  /** The owner's tasks, keyed by id. */
  function DeUsuario(tareas: map<int, Tarea>, idUsuario: int): (d: map<int, Tarea>)
    ensures forall k :: k in d <==> k in tareas && tareas[k].idUsuario == idUsuario
    ensures forall k :: k in d ==> d[k] == tareas[k]
  {
    map k | k in tareas && tareas[k].idUsuario == idUsuario :: tareas[k]
  }

  /** A task's primary key. */
  function IdDe(t: Tarea): int { t.idTarea }

  /** A task's `creada_en` stamp. */
  function SelloDe(t: Tarea): int { t.creadaEn }

  /**
   * `listar_tareas`, that is `WHERE id_usuario = ? ORDER BY creada_en DESC`:
   * each task of the owner exactly once, newest first, and nothing else.
   */
  ghost function ListarTareas(tareas: map<int, Tarea>, idUsuario: int): (r: seq<Tarea>)
    requires TareasPorClave(tareas)
    ensures forall i :: 0 <= i < |r| ==>
      r[i].idUsuario == idUsuario && r[i].idTarea in tareas && tareas[r[i].idTarea] == r[i]
    ensures forall k :: k in tareas && tareas[k].idUsuario == idUsuario ==> tareas[k] in r
    ensures forall i, j :: 0 <= i < j < |r| ==> r[i].idTarea != r[j].idTarea
    ensures forall i, j :: 0 <= i < j < |r| ==> r[i].creadaEn >= r[j].creadaEn
    ensures |r| == |DeUsuario(tareas, idUsuario)|
  {
    Tabla.FilasPorSelloDesc(DeUsuario(tareas, idUsuario), IdDe, SelloDe)
  }

  /** A task created with a stamp later than all of its owner's tasks is listed first. */
  lemma NuevaTareaPrimera(tareas: map<int, Tarea>, nueva: Tarea)
    requires TareasPorClave(tareas)
    requires nueva.idTarea !in tareas
    requires forall k :: k in tareas && tareas[k].idUsuario == nueva.idUsuario ==> tareas[k].creadaEn < nueva.creadaEn
    ensures TareasPorClave(tareas[nueva.idTarea := nueva])
    ensures ListarTareas(tareas[nueva.idTarea := nueva], nueva.idUsuario) != []
    ensures ListarTareas(tareas[nueva.idTarea := nueva], nueva.idUsuario)[0] == nueva
  {
    var despues := tareas[nueva.idTarea := nueva];
    assert TareasPorClave(despues);
    var propias := DeUsuario(despues, nueva.idUsuario);
    assert forall j :: j in propias ==> IdDe(propias[j]) == j;
    assert nueva.idTarea in propias;
    assert forall j :: j in propias && j != nueva.idTarea ==> SelloDe(propias[j]) < SelloDe(propias[nueva.idTarea]) by {
      forall j | j in propias && j != nueva.idTarea
        ensures SelloDe(propias[j]) < SelloDe(propias[nueva.idTarea])
      {
        assert j in tareas && propias[j] == tareas[j];
      }
    }
    Tabla.FilaMayorSelloPrimera(propias, IdDe, SelloDe, nueva.idTarea);
    assert ListarTareas(despues, nueva.idUsuario) == Tabla.FilasPorSelloDesc(propias, IdDe, SelloDe);
  }

  /** The repository object; its session factory is the database it opens sessions on. */
  class RepositorioTareasSQLite {
    const bd: BaseDatos

    constructor (bd: BaseDatos)
      ensures this.bd == bd
    {
      this.bd := bd;
    }

    /**
     * `crear_tarea`: strips title and description, then rejects a blank title, an
     * unknown owner and a title the owner already uses; otherwise inserts one row
     * with a fresh id, `completada == false` and the given clock reading.
     */
    method CrearTarea(idUsuario: int, titulo: Option<string>, descripcion: Option<string>, ahora: Instante)
      returns (tarea: Option<Tarea>, mensaje: string)
      requires bd.Valid()
      modifies bd
      ensures bd.Valid()
      ensures bd.usuarios == old(bd.usuarios)
      ensures var t := Strip(OVacio(titulo));
        if t == "" then
          tarea == None && mensaje == TituloVacio && bd.tareas == old(bd.tareas)
        else if idUsuario !in old(bd.usuarios) then
          tarea == None && mensaje == UsuarioNoExiste && bd.tareas == old(bd.tareas)
        else if TituloOcupado(old(bd.tareas), idUsuario, t, None) then
          tarea == None && mensaje == TituloDuplicado && bd.tareas == old(bd.tareas)
        else
          && tarea.Some?
          && tarea.value.idTarea !in old(bd.tareas)
          && tarea.value == Tarea(tarea.value.idTarea, idUsuario, t, NormalizarDescripcion(descripcion), false, ahora)
          && bd.tareas == old(bd.tareas)[tarea.value.idTarea := tarea.value]
          && mensaje == TareaCreada
      ensures tarea.Some? ==> ObtenerTarea(bd.tareas, idUsuario, tarea.value.idTarea) == tarea
    {
      var t := Strip(OVacio(titulo));
      var d := NormalizarDescripcion(descripcion);
      if t == "" {
        return None, TituloVacio;
      }
      if idUsuario !in bd.usuarios {
        return None, UsuarioNoExiste;
      }
      if TituloOcupado(bd.tareas, idUsuario, t, None) {
        // The flush raises IntegrityError and the transaction rolls back.
        return None, TituloDuplicado;
      }
      var id := Tabla.SiguienteClave(bd.tareas);
      var nueva := Tarea(id, idUsuario, t, d, false, ahora);
      StripIdempotente(OVacio(titulo));
      bd.InsertarTarea(nueva);
      return Some(nueva), TareaCreada;
    }

    /**
     * `editar_tarea`: a blank title, a task the owner does not have, and a title
     * another task of the owner already uses all fail and change nothing;
     * otherwise only that row's title and description change.
     */
    method EditarTarea(idUsuario: int, idTarea: int, nuevoTitulo: Option<string>, nuevaDescripcion: Option<string>)
      returns (r: ResultadoOperacion)
      requires bd.Valid()
      modifies bd
      ensures bd.Valid()
      ensures bd.usuarios == old(bd.usuarios)
      ensures var t := Strip(OVacio(nuevoTitulo));
        if t == "" then
          r == ResultadoOperacion(false, TituloVacio) && bd.tareas == old(bd.tareas)
        else if ObtenerTarea(old(bd.tareas), idUsuario, idTarea) == None then
          r == ResultadoOperacion(false, TareaNoExiste) && bd.tareas == old(bd.tareas)
        else if TituloOcupado(old(bd.tareas), idUsuario, t, Some(idTarea)) then
          r == ResultadoOperacion(false, TituloDuplicado) && bd.tareas == old(bd.tareas)
        else
          && r == ResultadoOperacion(true, TareaActualizada)
          && bd.tareas == old(bd.tareas)[idTarea :=
               old(bd.tareas)[idTarea].(titulo := t, descripcion := NormalizarDescripcion(nuevaDescripcion))]
    {
      var t := Strip(OVacio(nuevoTitulo));
      var d := NormalizarDescripcion(nuevaDescripcion);
      if t == "" {
        return ResultadoOperacion(false, TituloVacio);
      }
      var tarea := ObtenerTarea(bd.tareas, idUsuario, idTarea);
      if tarea == None {
        return ResultadoOperacion(false, TareaNoExiste);
      }
      if TituloOcupado(bd.tareas, idUsuario, t, Some(idTarea)) {
        // The commit raises IntegrityError and the transaction rolls back.
        return ResultadoOperacion(false, TituloDuplicado);
      }
      StripIdempotente(OVacio(nuevoTitulo));
      bd.ReemplazarTarea(tarea.value.(titulo := t, descripcion := d));
      return ResultadoOperacion(true, TareaActualizada);
    }

    /** `eliminar_tarea`: removes exactly the owner's task with that id, or fails and changes nothing. */
    method EliminarTarea(idUsuario: int, idTarea: int) returns (r: ResultadoOperacion)
      requires bd.Valid()
      modifies bd
      ensures bd.Valid()
      ensures bd.usuarios == old(bd.usuarios)
      ensures if ObtenerTarea(old(bd.tareas), idUsuario, idTarea) == None then
          r == ResultadoOperacion(false, TareaNoExiste) && bd.tareas == old(bd.tareas)
        else
          r == ResultadoOperacion(true, TareaEliminada) && bd.tareas == old(bd.tareas) - {idTarea}
    {
      var tarea := ObtenerTarea(bd.tareas, idUsuario, idTarea);
      if tarea == None {
        return ResultadoOperacion(false, TareaNoExiste);
      }
      bd.tareas := bd.tareas - {idTarea};
      return ResultadoOperacion(true, TareaEliminada);
    }

    /** `marcar_completada`: sets only that row's flag to `completada`, or fails and changes nothing. */
    method MarcarCompletada(idUsuario: int, idTarea: int, completada: bool) returns (r: ResultadoOperacion)
      requires bd.Valid()
      modifies bd
      ensures bd.Valid()
      ensures bd.usuarios == old(bd.usuarios)
      ensures if ObtenerTarea(old(bd.tareas), idUsuario, idTarea) == None then
          r == ResultadoOperacion(false, TareaNoExiste) && bd.tareas == old(bd.tareas)
        else
          && r == ResultadoOperacion(true, EstadoActualizado)
          && bd.tareas == old(bd.tareas)[idTarea := old(bd.tareas)[idTarea].(completada := completada)]
    {
      var tarea := ObtenerTarea(bd.tareas, idUsuario, idTarea);
      if tarea == None {
        return ResultadoOperacion(false, TareaNoExiste);
      }
      MarcarPreservaValidez(bd.usuarios, bd.tareas, idTarea, completada);
      bd.tareas := bd.tareas[idTarea := tarea.value.(completada := completada)];
      return ResultadoOperacion(true, EstadoActualizado);
    }
  }
}
