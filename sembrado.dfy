/**
 * The steps of the demo seed script that do not depend on its data: create a
 * user unless the username is taken, build the tasks of one list, and insert a
 * batch of tasks skipping every (owner, title) pair already stored, counting
 * the inserts.
 *
 * The session runs with autoflush off, so the existence query inside the
 * insert loop sees the table as it was before the loop (`previas`), not the
 * rows added in earlier rounds; the pending rows reach the table at the
 * commit after the loop, in order, each under the next rowid.
 */
module Sembrado {
  import opened Comun
  import opened Texto
  import opened Esquema
  import Tabla
  import LoginLogica

  /** A task built by `_crear_tarea`, not yet given an id. */
  datatype TareaSemilla = TareaSemilla(
    idUsuario: int,
    titulo: string,
    descripcion: string,
    completada: bool,
    creadaEn: Instante)

  /** Stamps are in seconds; `timedelta(days=1)` is this many. */
  const SegundosPorDia := 86400

  /** `_fecha_con_offset`: the run's clock reading moved back `dias` days. */
  function FechaConOffset(ahora: Instante, dias: int): Instante {
    ahora - dias * SegundosPorDia
  }

  /**
   * The tasks one `for idx, (titulo, desc) in enumerate(lista, start=1)` loop
   * builds from a list whose titles are `titulos` and whose descriptions are
   * `descripciones`: one per entry, in order, the `idx`-th dated `base - idx`
   * days back.
   */
  function Grupo(idUsuario: int, titulos: seq<string>, descripciones: seq<string>, completada: bool,
                 base: int, ahora: Instante): (r: seq<TareaSemilla>)
    requires |descripciones| == |titulos|
    ensures |r| == |titulos|
  {
    seq(|titulos|, i requires 0 <= i < |titulos| =>
      TareaSemilla(idUsuario, titulos[i], descripciones[i], completada, FechaConOffset(ahora, base - (i + 1))))
  }

  /** One loop of `main`: the tasks of one list appended to `tareas`, in order. */
  method AgregarGrupo(tareas: seq<TareaSemilla>, idUsuario: int, titulos: seq<string>, descripciones: seq<string>,
                      completada: bool, base: int, ahora: Instante)
    returns (r: seq<TareaSemilla>)
    requires |descripciones| == |titulos|
    ensures r == tareas + Grupo(idUsuario, titulos, descripciones, completada, base, ahora)
  {
    r := tareas;
    var idx := 1;
    while idx <= |titulos|
      invariant 1 <= idx <= |titulos| + 1
      invariant |r| == |tareas| + idx - 1
      invariant r[..|tareas|] == tareas
      invariant forall j :: 0 <= j < idx - 1 ==>
        r[|tareas| + j] == Grupo(idUsuario, titulos, descripciones, completada, base, ahora)[j]
    {
      var titulo, desc := titulos[idx - 1], descripciones[idx - 1];
      r := r + [TareaSemilla(idUsuario, titulo, desc, completada, FechaConOffset(ahora, base - idx))];
      idx := idx + 1;
    }
  }

  /** How many tasks of `lote` have flag `completada`, and owner `idUsuario` when one is given. */
  function Contar(lote: seq<TareaSemilla>, idUsuario: Option<int>, completada: bool): nat {
    if lote == [] then 0
    else
      (if lote[0].completada == completada && (idUsuario.None? || lote[0].idUsuario == idUsuario.value) then 1 else 0)
      + Contar(lote[1..], idUsuario, completada)
  }

  /** Counting over two lists one after the other adds their counts. */
  lemma {:induction false} ContarConcatenacion(a: seq<TareaSemilla>, b: seq<TareaSemilla>, idUsuario: Option<int>,
                                               completada: bool)
    ensures Contar(a + b, idUsuario, completada) == Contar(a, idUsuario, completada) + Contar(b, idUsuario, completada)
    decreases |a|
  {
    if a != [] {
      assert (a + b)[0] == a[0];
      assert (a + b)[1..] == a[1..] + b;
      ContarConcatenacion(a[1..], b, idUsuario, completada);
    } else {
      assert a + b == b;
    }
  }

  /**
   * A list built by one loop counts whole for its own owner and flag and not
   * at all for another flag or another owner.
   */
  lemma {:induction false} ContarGrupo(idUsuario: int, titulos: seq<string>, descripciones: seq<string>,
                                       completada: bool, base: int, ahora: Instante, quien: Option<int>, cual: bool)
    requires |descripciones| == |titulos|
    ensures Contar(Grupo(idUsuario, titulos, descripciones, completada, base, ahora), quien, cual)
      == if cual == completada && (quien.None? || quien.value == idUsuario) then |titulos| else 0
    decreases |titulos|
  {
    var g := Grupo(idUsuario, titulos, descripciones, completada, base, ahora);
    if titulos != [] {
      assert g[1..] == Grupo(idUsuario, titulos[1..], descripciones[1..], completada, base - 1, ahora);
      ContarGrupo(idUsuario, titulos[1..], descripciones[1..], completada, base - 1, ahora, quien, cual);
    }
  }

  /** The row `session.add(t)` stores under rowid `id` once the batch is committed. */
  function AFila(t: TareaSemilla, id: int): Tarea {
    Tarea(id, t.idUsuario, t.titulo, Some(t.descripcion), t.completada, t.creadaEn)
  }

  /**
   * The `tareas` table once the insert loop's rows are committed: in order,
   * each task of `lote` whose (owner, title) the snapshot `previas` does not
   * hold is added under the next rowid; the others are skipped.
   */
  function Sembrar(tareas: map<int, Tarea>, previas: map<int, Tarea>, lote: seq<TareaSemilla>): map<int, Tarea>
    decreases |lote|
  {
    if lote == [] then tareas
    else if TituloOcupado(previas, lote[0].idUsuario, lote[0].titulo, None) then Sembrar(tareas, previas, lote[1..])
    else
      var id := Tabla.SiguienteClave(tareas);
      Sembrar(tareas[id := AFila(lote[0], id)], previas, lote[1..])
  }

  /** How many tasks of `lote` the snapshot `previas` lacks: the count `insertadas` ends with. */
  function Insertadas(previas: map<int, Tarea>, lote: seq<TareaSemilla>): nat {
    if lote == [] then 0
    else (if TituloOcupado(previas, lote[0].idUsuario, lote[0].titulo, None) then 0 else 1) + Insertadas(previas, lote[1..])
  }

  /** Every (owner, title) pair of `lote` is stored in `tareas`. */
  ghost predicate LotePresente(tareas: map<int, Tarea>, lote: seq<TareaSemilla>) {
    forall i :: 0 <= i < |lote| ==> TituloOcupado(tareas, lote[i].idUsuario, lote[i].titulo, None)
  }

  /**
   * What the commit needs of a batch: every owner exists, no title is blank,
   * and no (owner, title) pair comes twice.
   */
  ghost predicate LoteValido(usuarios: map<int, Usuario>, lote: seq<TareaSemilla>) {
    && (forall i :: 0 <= i < |lote| ==> lote[i].idUsuario in usuarios && Strip(lote[i].titulo) != "")
    && (forall i, j :: 0 <= i < j < |lote| && lote[i].idUsuario == lote[j].idUsuario ==> lote[i].titulo != lote[j].titulo)
  }

  /** `tareas` holds every row of `previas`, unchanged. */
  ghost predicate Contiene(tareas: map<int, Tarea>, previas: map<int, Tarea>) {
    forall k :: k in previas ==> k in tareas && tareas[k] == previas[k]
  }

  /** Seeding only adds rows: every row already there is kept as it was. */
  lemma {:induction false} SembrarConserva(tareas: map<int, Tarea>, previas: map<int, Tarea>, lote: seq<TareaSemilla>)
    ensures Contiene(Sembrar(tareas, previas, lote), tareas)
    decreases |lote|
  {
    if lote != [] {
      if TituloOcupado(previas, lote[0].idUsuario, lote[0].titulo, None) {
        SembrarConserva(tareas, previas, lote[1..]);
      } else {
        var id := Tabla.SiguienteClave(tareas);
        var siguiente := tareas[id := AFila(lote[0], id)];
        SembrarConserva(siguiente, previas, lote[1..]);
      }
    }
  }

  /** The table grows by exactly the number of inserts counted. */
  lemma {:induction false} SembrarCuenta(tareas: map<int, Tarea>, previas: map<int, Tarea>, lote: seq<TareaSemilla>)
    ensures |Sembrar(tareas, previas, lote)| == |tareas| + Insertadas(previas, lote)
    decreases |lote|
  {
    if lote != [] {
      if TituloOcupado(previas, lote[0].idUsuario, lote[0].titulo, None) {
        SembrarCuenta(tareas, previas, lote[1..]);
      } else {
        var id := Tabla.SiguienteClave(tareas);
        var siguiente := tareas[id := AFila(lote[0], id)];
        assert |siguiente| == |tareas| + 1;
        SembrarCuenta(siguiente, previas, lote[1..]);
      }
    }
  }

  /** After seeding over a table that holds the snapshot, every pair of the batch is stored. */
  lemma {:induction false} SembrarCubreLote(tareas: map<int, Tarea>, previas: map<int, Tarea>, lote: seq<TareaSemilla>)
    requires Contiene(tareas, previas)
    ensures LotePresente(Sembrar(tareas, previas, lote), lote)
    decreases |lote|
  {
    if lote != [] {
      var t := lote[0];
      var siguiente := if TituloOcupado(previas, t.idUsuario, t.titulo, None) then tareas
        else tareas[Tabla.SiguienteClave(tareas) := AFila(t, Tabla.SiguienteClave(tareas))];
      assert Sembrar(tareas, previas, lote) == Sembrar(siguiente, previas, lote[1..]);
      var despues := Sembrar(siguiente, previas, lote[1..]);
      assert Contiene(siguiente, previas);
      SembrarCubreLote(siguiente, previas, lote[1..]);
      SembrarConserva(siguiente, previas, lote[1..]);
      assert TituloOcupado(siguiente, t.idUsuario, t.titulo, None) by {
        if TituloOcupado(previas, t.idUsuario, t.titulo, None) {
          var k :| k in previas && previas[k].idUsuario == t.idUsuario && previas[k].titulo == t.titulo;
          assert k in siguiente && siguiente[k] == previas[k];
        } else {
          assert Tabla.SiguienteClave(tareas) in siguiente;
        }
      }
      forall i | 0 <= i < |lote| ensures TituloOcupado(despues, lote[i].idUsuario, lote[i].titulo, None) {
        if i == 0 {
          var k :| k in siguiente && siguiente[k].idUsuario == t.idUsuario && siguiente[k].titulo == t.titulo;
          assert k in despues && despues[k] == siguiente[k];
        } else {
          assert lote[i] == lote[1..][i - 1];
        }
      }
    }
  }

  /** When the snapshot already holds every pair of the batch, seeding adds nothing and counts nothing. */
  lemma {:induction false} SembrarSinNovedad(tareas: map<int, Tarea>, previas: map<int, Tarea>, lote: seq<TareaSemilla>)
    requires LotePresente(previas, lote)
    ensures Sembrar(tareas, previas, lote) == tareas
    ensures Insertadas(previas, lote) == 0
    decreases |lote|
  {
    if lote != [] {
      assert TituloOcupado(previas, lote[0].idUsuario, lote[0].titulo, None);
      assert LotePresente(previas, lote[1..]) by {
        forall i | 0 <= i < |lote[1..]| ensures TituloOcupado(previas, lote[1..][i].idUsuario, lote[1..][i].titulo, None) {
          assert lote[1..][i] == lote[i + 1];
        }
      }
      SembrarSinNovedad(tareas, previas, lote[1..]);
    }
  }

  /** Seeding the table a seeding left, with the same batch, changes nothing and counts nothing. */
  lemma SembrarDosVeces(tareas: map<int, Tarea>, lote: seq<TareaSemilla>)
    ensures var una := Sembrar(tareas, tareas, lote);
      Sembrar(una, una, lote) == una && Insertadas(una, lote) == 0
  {
    var una := Sembrar(tareas, tareas, lote);
    SembrarCubreLote(tareas, tareas, lote);
    SembrarSinNovedad(una, una, lote);
  }

  /** Each task of `lote` that the snapshot `previas` lacks is absent from `tareas` as well. */
  ghost predicate Libres(tareas: map<int, Tarea>, previas: map<int, Tarea>, lote: seq<TareaSemilla>) {
    forall i :: 0 <= i < |lote| && !TituloOcupado(previas, lote[i].idUsuario, lote[i].titulo, None) ==>
      !TituloOcupado(tareas, lote[i].idUsuario, lote[i].titulo, None)
  }

  /** The rest of a valid batch is valid. */
  lemma RestoValido(usuarios: map<int, Usuario>, lote: seq<TareaSemilla>)
    requires lote != [] && LoteValido(usuarios, lote)
    ensures LoteValido(usuarios, lote[1..])
  {
    assert forall i :: 0 <= i < |lote[1..]| ==> lote[1..][i] == lote[i + 1];
  }

  /** Skipping the first task of the batch keeps the rest free. */
  lemma RestoLibre(tareas: map<int, Tarea>, previas: map<int, Tarea>, lote: seq<TareaSemilla>)
    requires lote != [] && Libres(tareas, previas, lote)
    ensures Libres(tareas, previas, lote[1..])
  {
    assert forall i :: 0 <= i < |lote[1..]| ==> lote[1..][i] == lote[i + 1];
  }

  /** Adding the first task of a valid batch keeps the rest free: no later task has its pair. */
  lemma LibresTrasInsertar(usuarios: map<int, Usuario>, tareas: map<int, Tarea>, previas: map<int, Tarea>,
                           lote: seq<TareaSemilla>, id: int)
    requires lote != [] && LoteValido(usuarios, lote) && Libres(tareas, previas, lote)
    ensures Libres(tareas[id := AFila(lote[0], id)], previas, lote[1..])
  {
    var siguiente := tareas[id := AFila(lote[0], id)];
    var resto := lote[1..];
    forall i | 0 <= i < |resto| && !TituloOcupado(previas, resto[i].idUsuario, resto[i].titulo, None)
      ensures !TituloOcupado(siguiente, resto[i].idUsuario, resto[i].titulo, None)
    {
      var t := lote[i + 1];
      assert resto[i] == t;
      assert !TituloOcupado(tareas, t.idUsuario, t.titulo, None);
      assert lote[0].idUsuario != t.idUsuario || lote[0].titulo != t.titulo;
      forall k | k in siguiente ensures !(siguiente[k].idUsuario == t.idUsuario && siguiente[k].titulo == t.titulo) {
        if k != id {
          assert k in tareas && siguiente[k] == tareas[k];
        }
      }
    }
  }

  /**
   * A valid batch keeps every constraint of the tables, provided each task the
   * snapshot lacks is also absent from the table it is added to.
   */
  lemma {:induction false} SembrarPreservaValidez(usuarios: map<int, Usuario>, tareas: map<int, Tarea>,
                                                  previas: map<int, Tarea>, lote: seq<TareaSemilla>)
    requires TablasValidas(usuarios, tareas)
    requires LoteValido(usuarios, lote)
    requires Libres(tareas, previas, lote)
    ensures TablasValidas(usuarios, Sembrar(tareas, previas, lote))
    decreases |lote|
  {
    if lote != [] {
      var t := lote[0];
      RestoValido(usuarios, lote);
      if TituloOcupado(previas, t.idUsuario, t.titulo, None) {
        RestoLibre(tareas, previas, lote);
        SembrarPreservaValidez(usuarios, tareas, previas, lote[1..]);
      } else {
        var id := Tabla.SiguienteClave(tareas);
        var fila := AFila(t, id);
        assert !TituloOcupado(tareas, t.idUsuario, t.titulo, None);
        InsertarPreservaValidez(usuarios, tareas, fila);
        LibresTrasInsertar(usuarios, tareas, previas, lote, id);
        SembrarPreservaValidez(usuarios, tareas[id := fila], previas, lote[1..]);
      }
    }
  }

  /**
   * `_crear_usuario_si_no_existe`: when the username is taken, that user is
   * returned and nothing changes; otherwise one user is added under the next
   * rowid with that username and the hash of `password`, and returned.
   */
  method CrearUsuarioSiNoExiste(bd: BaseDatos, generarHash: string -> string, username: string, password: string)
    returns (usuario: Usuario)
    requires bd.Valid()
    modifies bd
    ensures bd.Valid()
    ensures bd.tareas == old(bd.tareas)
    ensures usuario.idUsuario in bd.usuarios && bd.usuarios[usuario.idUsuario] == usuario
    ensures usuario.username == username
    ensures forall k :: k in old(bd.usuarios) ==> k in bd.usuarios && bd.usuarios[k] == old(bd.usuarios)[k]
    ensures usuario.idUsuario !in old(bd.usuarios) ==> usuario.passwordHash == generarHash(password)
    ensures match LoginLogica.BuscarPorUsername(old(bd.usuarios), username)
      case Some(existente) => usuario == existente && bd.usuarios == old(bd.usuarios)
      case None =>
        && usuario.idUsuario !in old(bd.usuarios)
        && usuario.passwordHash == generarHash(password)
        && bd.usuarios == old(bd.usuarios)[usuario.idUsuario := usuario]
  {
    var existente := LoginLogica.BuscarPorUsername(bd.usuarios, username);
    if existente.Some? {
      return existente.value;
    }
    var id := Tabla.SiguienteClave(bd.usuarios);
    usuario := Usuario(id, username, generarHash(password));
    InsertarUsuarioPreservaValidez(bd.usuarios, bd.tareas, usuario);
    bd.usuarios := bd.usuarios[id := usuario];
  }

  /**
   * The insert loop of `main` and the commit after it: each task of `lote`
   * whose (owner, title) the table lacked before the loop is added and
   * counted. The counter ends equal to the number of rows added, the rows
   * already there are kept, and afterwards every pair of the batch is stored.
   */
  method InsertarSiNoExisten(bd: BaseDatos, lote: seq<TareaSemilla>) returns (insertadas: nat)
    requires bd.Valid()
    requires LoteValido(bd.usuarios, lote)
    modifies bd
    ensures bd.Valid()
    ensures bd.usuarios == old(bd.usuarios)
    ensures bd.tareas == Sembrar(old(bd.tareas), old(bd.tareas), lote)
    ensures insertadas == Insertadas(old(bd.tareas), lote)
    ensures insertadas == |bd.tareas| - |old(bd.tareas)|
    ensures Contiene(bd.tareas, old(bd.tareas))
    ensures LotePresente(bd.tareas, lote)
  {
    var previas := bd.tareas;
    var tareas := previas;
    insertadas := 0;
    var i := 0;
    while i < |lote|
      invariant 0 <= i <= |lote|
      invariant Sembrar(tareas, previas, lote[i..]) == Sembrar(previas, previas, lote)
      invariant insertadas + Insertadas(previas, lote[i..]) == Insertadas(previas, lote)
    {
      var t := lote[i];
      assert lote[i..][0] == t && lote[i..][1..] == lote[i + 1..];
      if !TituloOcupado(previas, t.idUsuario, t.titulo, None) {
        var id := Tabla.SiguienteClave(tareas);
        tareas := tareas[id := AFila(t, id)];
        insertadas := insertadas + 1;
      }
      i := i + 1;
    }
    assert lote[i..] == [];
    SembrarDesdeInstantanea(bd.usuarios, previas, lote, tareas);
    bd.tareas := tareas;
  }

  /**
   * Seeding a valid batch against the table as it stood before the loop: the
   * result keeps the constraints, grows by `Insertadas`, keeps every stored
   * row and holds every pair of the batch.
   */
  lemma SembrarDesdeInstantanea(usuarios: map<int, Usuario>, previas: map<int, Tarea>, lote: seq<TareaSemilla>,
                                tareas: map<int, Tarea>)
    requires TablasValidas(usuarios, previas) && LoteValido(usuarios, lote)
    requires tareas == Sembrar(previas, previas, lote)
    ensures TablasValidas(usuarios, tareas)
    ensures |tareas| == |previas| + Insertadas(previas, lote)
    ensures Contiene(tareas, previas) && LotePresente(tareas, lote)
  {
    SembrarPreservaValidez(usuarios, previas, previas, lote);
    SembrarCuenta(previas, previas, lote);
    SembrarConserva(previas, previas, lote);
    SembrarCubreLote(previas, previas, lote);
  }
}
