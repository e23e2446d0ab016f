/**
 * The standalone edit routine: it looks a task up by id alone (whoever owns
 * it), sets the stripped title and the description exactly as given, and
 * commits. It answers with a boolean; a failed commit is rolled back, so a
 * False answer always leaves the tables as they were.
 */
module EditarTareaLogica {
  import opened Comun
  import opened Texto
  import opened Esquema

  /** The routine's object; its sessions open on `bd`. */
  class EditarTareaLogica {
    const bd: BaseDatos

    constructor (bd: BaseDatos)
      ensures this.bd == bd
    {
      this.bd := bd;
    }

    /**
     * `editar_tarea`: a missing or blank new title, an unknown id, and a
     * commit the unique (owner, title) constraint rejects all return False and
     * change nothing. Otherwise only that row's title (stripped) and
     * description (verbatim, None clearing it) change, and True is returned.
     */
    method EditarTarea(idTarea: int, nuevoTitulo: Option<string>, nuevaDescripcion: Option<string>)
      returns (ok: bool)
      requires bd.Valid()
      modifies bd
      ensures bd.Valid()
      ensures bd.usuarios == old(bd.usuarios)
      ensures var t := Strip(OVacio(nuevoTitulo));
        if t == "" || idTarea !in old(bd.tareas) then
          !ok && bd.tareas == old(bd.tareas)
        else if TituloOcupado(old(bd.tareas), old(bd.tareas)[idTarea].idUsuario, t, Some(idTarea)) then
          !ok && bd.tareas == old(bd.tareas)
        else
          && ok
          && bd.tareas == old(bd.tareas)[idTarea :=
               old(bd.tareas)[idTarea].(titulo := t, descripcion := nuevaDescripcion)]
    {
      var t := Strip(OVacio(nuevoTitulo));
      if t == "" {
        return false;
      }
      if idTarea !in bd.tareas {
        return false;
      }
      var tarea := bd.tareas[idTarea];
      if TituloOcupado(bd.tareas, tarea.idUsuario, t, Some(idTarea)) {
        // The commit raises IntegrityError; the session rolls back.
        return false;
      }
      var editada := tarea.(titulo := t, descripcion := nuevaDescripcion);
      StripIdempotente(OVacio(nuevoTitulo));
      bd.ReemplazarTarea(editada);
      return true;
    }
  }
}
