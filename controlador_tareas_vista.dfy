/**
 * The mock CRUD controller behind the task form: an in-memory list of task
 * records, the id the next saved record gets, and the index of the selected
 * table row. No database is involved. What the form holds arrives as a
 * `DatosFormulario` (the form strips title and description before handing
 * them over), the clock reading as `ahora`, and the user's answer to the
 * delete confirmation as a boolean.
 */
module ControladorTareasVista {
  import opened Comun

  /** One record of the mock list (a dict in the controller). */
  datatype TareaMock = TareaMock(
    idTarea: int,
    titulo: string,
    descripcion: string,
    completada: bool,
    creadaEn: Instante,
    actualizadaEn: Instante)

  /** What `obtener_datos_formulario` returns, and what a selection loads back into the form. */
  datatype DatosFormulario = DatosFormulario(titulo: string, descripcion: string, completada: bool)

  /** The dict `obtener_estadisticas` returns. */
  datatype Estadisticas = Estadisticas(total: nat, pendientes: int, completadas: nat)

  /** The positions of the records whose flag is `completada`. */
  ghost function Posiciones(tareas: seq<TareaMock>, completada: bool): set<int> {
    set i | 0 <= i < |tareas| && tareas[i].completada == completada
  }

  /**
   * How many records have `completada == completada`, counted from the back: the
   * number of positions holding a record with that flag.
   */
  function Cuenta(tareas: seq<TareaMock>, completada: bool): (n: nat)
    ensures n == |Posiciones(tareas, completada)|
  {
    if tareas == [] then
      assert Posiciones(tareas, completada) == {};
      0
    else
      PosicionesAlFinal(tareas, completada);
      Cuenta(tareas[..|tareas| - 1], completada) + (if tareas[|tareas| - 1].completada == completada then 1 else 0)
  }

  /** The positions in a nonempty list are those in all but its last record, plus the last one if its flag matches. */
  lemma PosicionesAlFinal(tareas: seq<TareaMock>, completada: bool)
    requires tareas != []
    ensures var n := |tareas| - 1;
      Posiciones(tareas, completada)
        == Posiciones(tareas[..n], completada) + (if tareas[n].completada == completada then {n} else {})
  {
    var n := |tareas| - 1;
    var previas := tareas[..n];
    var ultima: set<int> := if tareas[n].completada == completada then {n} else {};
    forall i ensures i in Posiciones(tareas, completada) <==> i in Posiciones(previas, completada) + ultima {
      if 0 <= i < n {
        assert previas[i] == tareas[i];
      }
    }
  }

  /** Every record is either completed or pending. */
  lemma {:induction false} CuentaParticion(tareas: seq<TareaMock>)
    ensures Cuenta(tareas, true) + Cuenta(tareas, false) == |tareas|
    decreases |tareas|
  {
    if tareas != [] {
      CuentaParticion(tareas[..|tareas| - 1]);
    }
  }

  /** Counting over a list with one record appended adds that record's contribution. */
  lemma CuentaAlAgregar(tareas: seq<TareaMock>, t: TareaMock, completada: bool)
    ensures Cuenta(tareas + [t], completada) == Cuenta(tareas, completada) + (if t.completada == completada then 1 else 0)
  {
    assert (tareas + [t])[..|tareas|] == tareas;
  }

  /** The controller object; the view it drives is not part of this model. */
  class ControladorTareasVista {
    var tareasMock: seq<TareaMock>
    var idSiguiente: int
    var indiceSeleccionado: Option<nat>

    /**
     * Ids are positive, pairwise distinct and all below the counter, so the
     * counter's value is never an id in use; a selection points at a record.
     */
    ghost predicate Valid()
      reads this
    {
      IdsValidos() && (indiceSeleccionado.Some? ==> indiceSeleccionado.value < |tareasMock|)
    }

    /** The part of `Valid` about the records and the counter. */
    ghost predicate IdsValidos()
      reads this
    {
      && idSiguiente >= 1
      && (forall i :: 0 <= i < |tareasMock| ==> 1 <= tareasMock[i].idTarea < idSiguiente)
      && (forall i, j :: 0 <= i < j < |tareasMock| ==> tareasMock[i].idTarea != tareasMock[j].idTarea)
    }

    /** An empty list, the counter at 1 and nothing selected. */
    constructor ()
      ensures Valid()
      ensures tareasMock == [] && idSiguiente == 1 && indiceSeleccionado == None
    {
      tareasMock := [];
      idSiguiente := 1;
      indiceSeleccionado := None;
    }

    /** `_limpiar`: clears the selection (and the form) and nothing else. */
    method Limpiar()
      requires IdsValidos()
      modifies this
      ensures Valid()
      ensures indiceSeleccionado == None
      ensures tareasMock == old(tareasMock) && idSiguiente == old(idSiguiente)
    {
      indiceSeleccionado := None;
    }

    /**
     * `_guardar_tarea`: an empty title changes nothing; otherwise one record is
     * appended whose id is the counter's old value and whose two stamps are the
     * same reading, the counter goes up by one and the selection is cleared;
     * the statistics count for the record's flag goes up by one, the other stays.
     */
    method GuardarTarea(datos: DatosFormulario, ahora: Instante)
      requires Valid()
      modifies this
      ensures Valid()
      ensures if datos.titulo == "" then
          && tareasMock == old(tareasMock)
          && idSiguiente == old(idSiguiente)
          && indiceSeleccionado == old(indiceSeleccionado)
        else
          && tareasMock == old(tareasMock) +
               [TareaMock(old(idSiguiente), datos.titulo, datos.descripcion, datos.completada, ahora, ahora)]
          && idSiguiente == old(idSiguiente) + 1
          && indiceSeleccionado == None
      ensures forall i :: 0 <= i < |old(tareasMock)| ==> old(tareasMock)[i].idTarea != old(idSiguiente)
      ensures datos.titulo != "" ==>
        && Cuenta(tareasMock, datos.completada) == Cuenta(old(tareasMock), datos.completada) + 1
        && Cuenta(tareasMock, !datos.completada) == Cuenta(old(tareasMock), !datos.completada)
    {
      if datos.titulo == "" {
        return;
      }
      var tarea := TareaMock(idSiguiente, datos.titulo, datos.descripcion, datos.completada, ahora, ahora);
      CuentaAlAgregar(tareasMock, tarea, datos.completada);
      CuentaAlAgregar(tareasMock, tarea, !datos.completada);
      tareasMock := tareasMock + [tarea];
      idSiguiente := idSiguiente + 1;
      Limpiar();
    }

    /**
     * `_actualizar_tarea_seleccionada`: no selection or an empty title changes
     * nothing; otherwise the selected record takes the form's title,
     * description and flag and a new `actualizada_en`, keeping its id and
     * `creada_en`, and the selection is cleared.
     */
    method ActualizarTareaSeleccionada(datos: DatosFormulario, ahora: Instante)
      requires Valid()
      modifies this
      ensures Valid()
      ensures idSiguiente == old(idSiguiente)
      ensures if old(indiceSeleccionado).None? || datos.titulo == "" then
          tareasMock == old(tareasMock) && indiceSeleccionado == old(indiceSeleccionado)
        else
          var i := old(indiceSeleccionado).value;
          && i < |old(tareasMock)|
          && tareasMock == old(tareasMock)[i := old(tareasMock)[i].(
               titulo := datos.titulo,
               descripcion := datos.descripcion,
               completada := datos.completada,
               actualizadaEn := ahora)]
          && indiceSeleccionado == None
    {
      if indiceSeleccionado.None? {
        return;
      }
      if datos.titulo == "" {
        return;
      }
      var i := indiceSeleccionado.value;
      var tarea := tareasMock[i];
      tareasMock := tareasMock[i := tarea.(
        titulo := datos.titulo,
        descripcion := datos.descripcion,
        completada := datos.completada,
        actualizadaEn := ahora)];
      Limpiar();
    }

    /**
     * `_eliminar_tarea_seleccionada`: no selection, or an answer other than
     * Yes, changes nothing; otherwise the selected record is removed, the
     * others keep their order, the counter stays and the selection is cleared.
     */
    method EliminarTareaSeleccionada(confirmado: bool)
      requires Valid()
      modifies this
      ensures Valid()
      ensures idSiguiente == old(idSiguiente)
      ensures if old(indiceSeleccionado).None? || !confirmado then
          tareasMock == old(tareasMock) && indiceSeleccionado == old(indiceSeleccionado)
        else
          var i := old(indiceSeleccionado).value;
          && i < |old(tareasMock)|
          && tareasMock == old(tareasMock)[..i] + old(tareasMock)[i + 1..]
          && indiceSeleccionado == None
    {
      if indiceSeleccionado.None? {
        return;
      }
      if !confirmado {
        return;
      }
      var i := indiceSeleccionado.value;
      ghost var antes := tareasMock;
      tareasMock := tareasMock[..i] + tareasMock[i + 1..];
      assert forall k :: 0 <= k < |tareasMock| ==> tareasMock[k] == antes[if k < i then k else k + 1];
      Limpiar();
    }

    /**
     * `_al_seleccionar_fila`: with no selected row the selection becomes None
     * and nothing is loaded; otherwise the first selected row becomes the
     * selection and its record's title, description and flag are loaded into
     * the form. `filas` are the selected row numbers of the table, which lists
     * the records in order.
     */
    method AlSeleccionarFila(filas: seq<nat>) returns (cargados: Option<DatosFormulario>)
      requires Valid()
      requires forall k :: 0 <= k < |filas| ==> filas[k] < |tareasMock|
      modifies this
      ensures Valid()
      ensures tareasMock == old(tareasMock) && idSiguiente == old(idSiguiente)
      ensures if filas == [] then
          indiceSeleccionado == None && cargados == None
        else
          && indiceSeleccionado == Some(filas[0])
          && cargados == Some(DatosFormulario(
               tareasMock[filas[0]].titulo, tareasMock[filas[0]].descripcion, tareasMock[filas[0]].completada))
    {
      if filas == [] {
        indiceSeleccionado := None;
        return None;
      }
      var fila := filas[0];
      indiceSeleccionado := Some(fila);
      var tarea := tareasMock[fila];
      return Some(DatosFormulario(tarea.titulo, tarea.descripcion, tarea.completada));
    }

    /**
     * `obtener_estadisticas`: the number of records, of completed ones and of
     * pending ones, the last two adding up to the first.
     */
    method ObtenerEstadisticas() returns (e: Estadisticas)
      ensures e.total == |tareasMock|
      ensures e.completadas == Cuenta(tareasMock, true) == |Posiciones(tareasMock, true)|
      ensures e.pendientes == Cuenta(tareasMock, false) == |Posiciones(tareasMock, false)|
      ensures e.pendientes + e.completadas == e.total
    {
      var total := |tareasMock|;
      var completadas := Cuenta(tareasMock, true);
      CuentaParticion(tareasMock);
      return Estadisticas(total, total - completadas, completadas);
    }
  }
}
