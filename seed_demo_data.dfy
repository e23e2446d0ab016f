/**
 * The demo seed script `seed_demo_data.py`: it creates the users "Juan" and
 * "Marleni" unless their usernames are taken, builds a batch of twenty tasks
 * (five pending and five completed for each user, dated some days before the
 * run, oldest first), and inserts each task of the batch whose owner has no
 * task with that title yet, counting the inserts. Running it again finds
 * everything in place and changes nothing.
 *
 * Each of the script's four lists of (title, description) pairs is held here
 * as a list of titles and a list of descriptions of the same length. The
 * descriptions play no part in any property below, so the batch is first
 * defined for any descriptions (`LoteCon`) and then for the script's own.
 */
module SeedDemoData {
  import opened Comun
  import opened Texto
  import opened Esquema
  import opened Sembrado
  import LoginLogica

  const Usuario1 := "Juan"
  const Password1 := "admin123"
  const Usuario2 := "Marleni"
  const Password2 := "colab123"

  const TitulosU1Pendientes: seq<string> := [
    "Preparar informe semanal",
    "Revisar pull request de la API",
    "Llamar al proveedor de internet",
    "Actualizar README del repositorio",
    "Planificar tareas de la semana"
  ]

  const DescripcionesU1Pendientes: seq<string> := [
    "Resumir avances del proyecto, riesgos y próximos pasos. Adjuntar métricas y capturas relevantes.",
    "Validar estilo, pruebas y manejo de errores. Dejar comentarios y solicitar cambios si corresponde.",
    "Consultar interrupciones recientes y solicitar mejora de estabilidad. Pedir número de ticket y tiempo estimado.",
    "Agregar instrucciones de instalación, ejecución de tests y estructura del proyecto. Verificar que funcione en Windows.",
    "Definir prioridades (alto/medio/bajo), estimación y dependencias. Bloquear tiempos de foco en el calendario."
  ]

  const TitulosU1Completadas: seq<string> := [
    "Instalar dependencias del entorno",
    "Diseñar mockup del dashboard",
    "Configurar base de datos SQLite",
    "Implementar búsqueda por título",
    "Corregir estilos de botones"
  ]

  const DescripcionesU1Completadas: seq<string> := [
    "Se creó el entorno virtual y se instalaron requerimientos. Se validó que `python -m unittest -v` ejecute sin errores.",
    "Se definió layout: header, tarjetas de estadísticas y listas de tareas. Se alineó con estilo profesional y tipografías.",
    "Se generó DB.sqlite y se verificaron tablas `usuarios` y `tareas`. Se habilitaron PRAGMAs de integridad.",
    "Se conectó el input de búsqueda con la vista y se filtra por coincidencia parcial. Se mantiene el comportamiento al limpiar el texto.",
    "Se ajustaron colores y estados hover/pressed para mejorar contraste. Se revisó que los textos sean legibles."
  ]

  const TitulosU2Pendientes: seq<string> := [
    "Organizar carpeta de recursos",
    "Preparar presentación para clase",
    "Registrar tareas de ejemplo",
    "Revisar reglas de negocio",
    "Optimizar rendimiento del listado"
  ]

  const DescripcionesU2Pendientes: seq<string> := [
    "Ordenar imágenes, iconos y archivos QSS. Eliminar duplicados y nombrar de forma consistente.",
    "Crear una diapositiva por HU (login, CRUD, completar). Incluir arquitectura por capas y captura del UI.",
    "Cargar un set de tareas reales para demo. Verificar que pendientes y completadas se muestren bien.",
    "Confirmar validaciones: título obligatorio, duplicados por usuario, y permisos por sesión activa.",
    "Revisar creación/destrucción de widgets en layouts. Evitar refrescos innecesarios al buscar."
  ]

  const TitulosU2Completadas: seq<string> := [
    "Integrar navegación con QStackedWidget",
    "Agregar validación de campos en registrar tarea",
    "Implementar edición de tareas",
    "Marcar tareas como completadas",
    "Configurar estructura del proyecto"
  ]

  const DescripcionesU2Completadas: seq<string> := [
    "Se conectaron señales entre login, dashboard y registrar tarea. Se validó el flujo volver/cerrar sesión.",
    "Se bloquea guardar sin título y se muestra mensaje al usuario. Se limpia formulario al cancelar.",
    "Se carga la tarea en el formulario, se actualiza y se vuelve al dashboard. Se mantiene consistencia de datos.",
    "Se añadió botón de completar y actualiza el estado en BD. La tarea pasa a la sección de completadas.",
    "Se organizaron carpetas `logica`, `modelo`, `vista` y `tests`. Se verificaron imports y __init__.py."
  ]

  /** The titles of the batch in order: the first user's ten, then the second user's. */
  function Titulos(): (r: seq<string>)
    ensures |r| == 20
  {
    TitulosU1Pendientes + TitulosU1Completadas + TitulosU2Pendientes + TitulosU2Completadas
  }

  /** The owner of the `i`-th task of the batch. */
  function Propietario(u1: int, u2: int, i: int): int {
    if i < 10 then u1 else u2
  }

  /** How many days before the run the `i`-th task of the batch is dated (`base - idx` in its loop). */
  function DiasAtras(i: int): int {
    if i < 5 then 30 - (i + 1)
    else if i < 10 then 20 - (i - 5 + 1)
    else if i < 15 then 12 - (i - 10 + 1)
    else 6 - (i - 15 + 1)
  }

  /** Both description lists of a user fit their title lists. */
  ghost predicate DescripcionesEncajan(d1: seq<string>, d2: seq<string>, d3: seq<string>, d4: seq<string>) {
    |d1| == 5 && |d2| == 5 && |d3| == 5 && |d4| == 5
  }

  /**
   * The batch the four loops of `main` build when the lists carry the
   * descriptions `d1` .. `d4`: the first user's pending and completed tasks,
   * then the second user's.
   */
  function LoteCon(u1: int, u2: int, ahora: Instante, d1: seq<string>, d2: seq<string>, d3: seq<string>,
                   d4: seq<string>): (r: seq<TareaSemilla>)
    requires DescripcionesEncajan(d1, d2, d3, d4)
    ensures |r| == 20
  {
    Grupo(u1, TitulosU1Pendientes, d1, false, 30, ahora) + Grupo(u1, TitulosU1Completadas, d2, true, 20, ahora)
    + Grupo(u2, TitulosU2Pendientes, d3, false, 12, ahora) + Grupo(u2, TitulosU2Completadas, d4, true, 6, ahora)
  }

  /** The batch of the script, with its own descriptions. */
  function Lote(u1: int, u2: int, ahora: Instante): seq<TareaSemilla> {
    LoteCon(u1, u2, ahora, DescripcionesU1Pendientes, DescripcionesU1Completadas,
            DescripcionesU2Pendientes, DescripcionesU2Completadas)
  }

  /** The four loops of `main` that build the batch, in order. */
  method ConstruirLote(u1: int, u2: int, ahora: Instante) returns (tareas: seq<TareaSemilla>)
    ensures tareas == Lote(u1, u2, ahora)
  {
    tareas := AgregarGrupo([], u1, TitulosU1Pendientes, DescripcionesU1Pendientes, false, 30, ahora);
    tareas := AgregarGrupo(tareas, u1, TitulosU1Completadas, DescripcionesU1Completadas, true, 20, ahora);
    tareas := AgregarGrupo(tareas, u2, TitulosU2Pendientes, DescripcionesU2Pendientes, false, 12, ahora);
    tareas := AgregarGrupo(tareas, u2, TitulosU2Completadas, DescripcionesU2Completadas, true, 6, ahora);
  }

  /**
   * The `i`-th task of the batch: the `i`-th title, the first user's for the
   * first ten, completed in the second half of each user's ten, dated
   * `DiasAtras(i)` days back.
   */
  lemma LoteEnPosicion(u1: int, u2: int, ahora: Instante, d1: seq<string>, d2: seq<string>, d3: seq<string>,
                       d4: seq<string>, i: int)
    requires DescripcionesEncajan(d1, d2, d3, d4)
    requires 0 <= i < 20
    ensures var t := LoteCon(u1, u2, ahora, d1, d2, d3, d4)[i];
      && t.titulo == Titulos()[i]
      && t.idUsuario == Propietario(u1, u2, i)
      && t.completada == (5 <= i < 10 || 15 <= i)
      && t.descripcion == (d1 + d2 + d3 + d4)[i]
      && t.creadaEn == FechaConOffset(ahora, DiasAtras(i))
  {
  }

  /** No user gets the same title twice in the batch. */
  lemma TitulosDistintosPorUsuario()
    ensures forall i, j :: 0 <= i < j < 20 && (i < 10 <==> j < 10) ==> Titulos()[i] != Titulos()[j]
  {
    var ts := Titulos();
    forall i, j | 0 <= i < j < 20 && (i < 10 <==> j < 10) ensures ts[i] != ts[j] {
      assert |ts[i]| != |ts[j]| || ts[i][0] != ts[j][0];
    }
  }

  /** No title of the batch is blank, so each passes the title CHECK: each ends in a letter. */
  lemma TitulosNoEnBlanco()
    ensures forall i :: 0 <= i < 20 ==> Strip(Titulos()[i]) != ""
  {
    assert
      && TitulosU1Pendientes[0][23] == 'l'
      && TitulosU1Pendientes[1][29] == 'I'
      && TitulosU1Pendientes[2][30] == 't'
      && TitulosU1Pendientes[3][32] == 'o'
      && TitulosU1Pendientes[4][29] == 'a';
    assert
      && TitulosU1Completadas[0][32] == 'o'
      && TitulosU1Completadas[1][27] == 'd'
      && TitulosU1Completadas[2][30] == 'e'
      && TitulosU1Completadas[3][30] == 'o'
      && TitulosU1Completadas[4][26] == 's';
    assert
      && TitulosU2Pendientes[0][28] == 's'
      && TitulosU2Pendientes[1][31] == 'e'
      && TitulosU2Pendientes[2][26] == 'o'
      && TitulosU2Pendientes[3][24] == 'o'
      && TitulosU2Pendientes[4][32] == 'o';
    assert
      && TitulosU2Completadas[0][37] == 't'
      && TitulosU2Completadas[1][46] == 'a'
      && TitulosU2Completadas[2][28] == 's'
      && TitulosU2Completadas[3][29] == 's'
      && TitulosU2Completadas[4][33] == 'o';
    var ts := Titulos();
    forall i | 0 <= i < 20 ensures Strip(ts[i]) != "" {
      if i < 5 {
        assert ts[i] == TitulosU1Pendientes[i];
      } else if i < 10 {
        assert ts[i] == TitulosU1Completadas[i - 5];
      } else if i < 15 {
        assert ts[i] == TitulosU2Pendientes[i - 10];
      } else {
        assert ts[i] == TitulosU2Completadas[i - 15];
      }
      assert ts[i] != [] && !EsEspacio(ts[i][|ts[i]| - 1]);
      assert !EnBlanco(ts[i]);
    }
  }

  /** For two different users that exist, the batch is one the commit accepts. */
  lemma LoteConValido(usuarios: map<int, Usuario>, u1: int, u2: int, ahora: Instante, d1: seq<string>,
                      d2: seq<string>, d3: seq<string>, d4: seq<string>)
    requires DescripcionesEncajan(d1, d2, d3, d4)
    requires u1 in usuarios && u2 in usuarios && u1 != u2
    ensures LoteValido(usuarios, LoteCon(u1, u2, ahora, d1, d2, d3, d4))
  {
    var lote := LoteCon(u1, u2, ahora, d1, d2, d3, d4);
    forall i | 0 <= i < 20 ensures lote[i].titulo == Titulos()[i] && lote[i].idUsuario == Propietario(u1, u2, i) {
      LoteEnPosicion(u1, u2, ahora, d1, d2, d3, d4, i);
    }
    TitulosDistintosPorUsuario();
    TitulosNoEnBlanco();
  }

  /** The batch holds every (owner, title) pair of the script exactly when the table holds all twenty. */
  lemma LotePresenteSiTitulos(tareas: map<int, Tarea>, u1: int, u2: int, ahora: Instante, d1: seq<string>,
                              d2: seq<string>, d3: seq<string>, d4: seq<string>)
    requires DescripcionesEncajan(d1, d2, d3, d4)
    ensures LotePresente(tareas, LoteCon(u1, u2, ahora, d1, d2, d3, d4)) <==>
      forall i :: 0 <= i < 20 ==> TituloOcupado(tareas, Propietario(u1, u2, i), Titulos()[i], None)
  {
    var lote := LoteCon(u1, u2, ahora, d1, d2, d3, d4);
    forall i | 0 <= i < 20 ensures lote[i].titulo == Titulos()[i] && lote[i].idUsuario == Propietario(u1, u2, i) {
      LoteEnPosicion(u1, u2, ahora, d1, d2, d3, d4, i);
    }
  }

  /** How many tasks of the batch have flag `cual` (and owner `quien`, when given): the sum over its four lists. */
  lemma ContarLote(u1: int, u2: int, ahora: Instante, d1: seq<string>, d2: seq<string>, d3: seq<string>,
                   d4: seq<string>, quien: Option<int>, cual: bool)
    requires DescripcionesEncajan(d1, d2, d3, d4)
    ensures Contar(LoteCon(u1, u2, ahora, d1, d2, d3, d4), quien, cual)
      == (if !cual && (quien.None? || quien.value == u1) then 5 else 0)
       + (if cual && (quien.None? || quien.value == u1) then 5 else 0)
       + (if !cual && (quien.None? || quien.value == u2) then 5 else 0)
       + (if cual && (quien.None? || quien.value == u2) then 5 else 0)
  {
    var g1 := Grupo(u1, TitulosU1Pendientes, d1, false, 30, ahora);
    var g2 := Grupo(u1, TitulosU1Completadas, d2, true, 20, ahora);
    var g3 := Grupo(u2, TitulosU2Pendientes, d3, false, 12, ahora);
    var g4 := Grupo(u2, TitulosU2Completadas, d4, true, 6, ahora);
    ContarConcatenacion(g1 + g2 + g3, g4, quien, cual);
    ContarConcatenacion(g1 + g2, g3, quien, cual);
    ContarConcatenacion(g1, g2, quien, cual);
    ContarGrupo(u1, TitulosU1Pendientes, d1, false, 30, ahora, quien, cual);
    ContarGrupo(u1, TitulosU1Completadas, d2, true, 20, ahora, quien, cual);
    ContarGrupo(u2, TitulosU2Pendientes, d3, false, 12, ahora, quien, cual);
    ContarGrupo(u2, TitulosU2Completadas, d4, true, 6, ahora, quien, cual);
  }

  /**
   * The batch has twenty tasks, ten pending and ten completed, and for two
   * different users five of each per user.
   */
  lemma LoteCuentas(u1: int, u2: int, ahora: Instante, d1: seq<string>, d2: seq<string>, d3: seq<string>,
                    d4: seq<string>)
    requires DescripcionesEncajan(d1, d2, d3, d4)
    requires u1 != u2
    ensures var lote := LoteCon(u1, u2, ahora, d1, d2, d3, d4);
      && |lote| == 20
      && Contar(lote, None, false) == 10 && Contar(lote, None, true) == 10
      && Contar(lote, Some(u1), false) == 5 && Contar(lote, Some(u1), true) == 5
      && Contar(lote, Some(u2), false) == 5 && Contar(lote, Some(u2), true) == 5
  {
    ContarLote(u1, u2, ahora, d1, d2, d3, d4, None, false);
    ContarLote(u1, u2, ahora, d1, d2, d3, d4, None, true);
    ContarLote(u1, u2, ahora, d1, d2, d3, d4, Some(u1), false);
    ContarLote(u1, u2, ahora, d1, d2, d3, d4, Some(u1), true);
    ContarLote(u1, u2, ahora, d1, d2, d3, d4, Some(u2), false);
    ContarLote(u1, u2, ahora, d1, d2, d3, d4, Some(u2), true);
  }

  /** The stamps are staggered: every task is dated before the run, each later than the one before it. */
  lemma LoteCronologico(u1: int, u2: int, ahora: Instante, d1: seq<string>, d2: seq<string>, d3: seq<string>,
                        d4: seq<string>)
    requires DescripcionesEncajan(d1, d2, d3, d4)
    ensures var lote := LoteCon(u1, u2, ahora, d1, d2, d3, d4);
      && (forall i :: 0 <= i < 20 ==> lote[i].creadaEn < ahora)
      && (forall i, j :: 0 <= i < j < 20 ==> lote[i].creadaEn < lote[j].creadaEn)
  {
    var lote := LoteCon(u1, u2, ahora, d1, d2, d3, d4);
    forall i | 0 <= i < 20 ensures lote[i].creadaEn == ahora - DiasAtras(i) * SegundosPorDia {
      LoteEnPosicion(u1, u2, ahora, d1, d2, d3, d4, i);
    }
  }

  /** Both users exist and the table holds all twenty (owner, title) pairs of the batch. */
  ghost predicate SemillaPresente(usuarios: map<int, Usuario>, tareas: map<int, Tarea>)
    requires UsuariosPorClave(usuarios) && UsernamesUnicos(usuarios)
  {
    var a := LoginLogica.BuscarPorUsername(usuarios, Usuario1);
    var b := LoginLogica.BuscarPorUsername(usuarios, Usuario2);
    && a.Some? && b.Some?
    && forall i :: 0 <= i < 20 ==>
         TituloOcupado(tareas, Propietario(a.value.idUsuario, b.value.idUsuario, i), Titulos()[i], None)
  }

  /** With both users stored, the seed is present exactly when the table holds every pair of their batch. */
  lemma SemillaPresenteSiLote(usuarios: map<int, Usuario>, tareas: map<int, Tarea>, u1: Usuario, u2: Usuario,
                              ahora: Instante, d1: seq<string>, d2: seq<string>, d3: seq<string>, d4: seq<string>)
    requires DescripcionesEncajan(d1, d2, d3, d4)
    requires UsuariosPorClave(usuarios) && UsernamesUnicos(usuarios)
    requires u1.idUsuario in usuarios && usuarios[u1.idUsuario] == u1 && u1.username == Usuario1
    requires u2.idUsuario in usuarios && usuarios[u2.idUsuario] == u2 && u2.username == Usuario2
    ensures SemillaPresente(usuarios, tareas) <==>
      LotePresente(tareas, LoteCon(u1.idUsuario, u2.idUsuario, ahora, d1, d2, d3, d4))
  {
    assert LoginLogica.BuscarPorUsername(usuarios, Usuario1) == Some(u1);
    assert LoginLogica.BuscarPorUsername(usuarios, Usuario2) == Some(u2);
    LotePresenteSiTitulos(tareas, u1.idUsuario, u2.idUsuario, ahora, d1, d2, d3, d4);
  }

  /**
   * The first block of `main`: both users are created unless present, then
   * committed. Users already there are kept, a new one carries the hash of
   * its password, and when the seed was already present nothing changes.
   */
  method CrearUsuariosDemo(bd: BaseDatos, generarHash: string -> string) returns (u1: Usuario, u2: Usuario)
    requires bd.Valid()
    modifies bd
    ensures bd.Valid()
    ensures bd.tareas == old(bd.tareas)
    ensures u1.username == Usuario1 && u1.idUsuario in bd.usuarios && bd.usuarios[u1.idUsuario] == u1
    ensures u2.username == Usuario2 && u2.idUsuario in bd.usuarios && bd.usuarios[u2.idUsuario] == u2
    ensures u1.idUsuario != u2.idUsuario
    ensures forall k :: k in old(bd.usuarios) ==> k in bd.usuarios && bd.usuarios[k] == old(bd.usuarios)[k]
    ensures u1.idUsuario !in old(bd.usuarios) ==> u1.passwordHash == generarHash(Password1)
    ensures u2.idUsuario !in old(bd.usuarios) ==> u2.passwordHash == generarHash(Password2)
    ensures old(SemillaPresente(bd.usuarios, bd.tareas)) ==> bd.usuarios == old(bd.usuarios)
  {
    ghost var usuariosAntes := bd.usuarios;
    ghost var presente := SemillaPresente(bd.usuarios, bd.tareas);
    u1 := CrearUsuarioSiNoExiste(bd, generarHash, Usuario1, Password1);
    ghost var usuariosMedio := bd.usuarios;
    u2 := CrearUsuarioSiNoExiste(bd, generarHash, Usuario2, Password2);
    assert u1.idUsuario in bd.usuarios && bd.usuarios[u1.idUsuario] == u1;
    assert forall k :: k in usuariosAntes ==> k in bd.usuarios && bd.usuarios[k] == usuariosAntes[k];
    assert presente ==> bd.usuarios == usuariosAntes by {
      if presente {
        assert LoginLogica.BuscarPorUsername(usuariosAntes, Usuario1).Some?;
        assert usuariosMedio == usuariosAntes;
        assert LoginLogica.BuscarPorUsername(usuariosMedio, Usuario2).Some?;
      }
    }
  }

  /**
   * `main`: creates both users unless present, builds the batch and inserts
   * the tasks whose (owner, title) is not stored yet. The users already there
   * and the tasks already there are kept, the counter equals the number of
   * tasks added, and afterwards the whole seed is present; when it already
   * was, nothing changes and the counter is 0.
   */
  method SembrarDemo(bd: BaseDatos, generarHash: string -> string, ahora: Instante)
    returns (u1: Usuario, u2: Usuario, insertadas: nat)
    requires bd.Valid()
    modifies bd
    ensures bd.Valid()
    ensures u1.username == Usuario1 && u1.idUsuario in bd.usuarios && bd.usuarios[u1.idUsuario] == u1
    ensures u2.username == Usuario2 && u2.idUsuario in bd.usuarios && bd.usuarios[u2.idUsuario] == u2
    ensures forall k :: k in old(bd.usuarios) ==> k in bd.usuarios && bd.usuarios[k] == old(bd.usuarios)[k]
    ensures u1.idUsuario !in old(bd.usuarios) ==> u1.passwordHash == generarHash(Password1)
    ensures u2.idUsuario !in old(bd.usuarios) ==> u2.passwordHash == generarHash(Password2)
    ensures bd.tareas == Sembrar(old(bd.tareas), old(bd.tareas), Lote(u1.idUsuario, u2.idUsuario, ahora))
    ensures insertadas == |bd.tareas| - |old(bd.tareas)|
    ensures Contiene(bd.tareas, old(bd.tareas))
    ensures SemillaPresente(bd.usuarios, bd.tareas)
    ensures old(SemillaPresente(bd.usuarios, bd.tareas)) ==>
      bd.usuarios == old(bd.usuarios) && bd.tareas == old(bd.tareas) && insertadas == 0
  {
    ghost var usuariosAntes, tareasAntes := bd.usuarios, bd.tareas;
    ghost var presente := SemillaPresente(bd.usuarios, bd.tareas);
    u1, u2 := CrearUsuariosDemo(bd, generarHash);
    var lote := ConstruirLote(u1.idUsuario, u2.idUsuario, ahora);
    assert LoteValido(bd.usuarios, lote) by {
      LoteConValido(bd.usuarios, u1.idUsuario, u2.idUsuario, ahora, DescripcionesU1Pendientes,
                    DescripcionesU1Completadas, DescripcionesU2Pendientes, DescripcionesU2Completadas);
    }
    insertadas := InsertarSiNoExisten(bd, lote);
    assert SemillaPresente(bd.usuarios, bd.tareas) by {
      SemillaPresenteSiLote(bd.usuarios, bd.tareas, u1, u2, ahora, DescripcionesU1Pendientes,
                            DescripcionesU1Completadas, DescripcionesU2Pendientes, DescripcionesU2Completadas);
    }
    if presente {
      assert LotePresente(tareasAntes, lote) by {
        SemillaPresenteSiLote(usuariosAntes, tareasAntes, u1, u2, ahora, DescripcionesU1Pendientes,
                              DescripcionesU1Completadas, DescripcionesU2Pendientes, DescripcionesU2Completadas);
      }
      SembrarSinNovedad(tareasAntes, tareasAntes, lote);
    }
  }
}
