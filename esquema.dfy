/**
 * The `usuarios` and `tareas` tables and the constraints the schema declares on
 * them. The database itself is a `BaseDatos` object holding both tables; the
 * repository, the edit routine and the seed script all change it in place.
 */
module Esquema {
  import opened Comun
  import opened Texto

  /** A row of `usuarios`. */
  datatype Usuario = Usuario(idUsuario: int, username: string, passwordHash: string)

  /** A row of `tareas`; `completada` is a bool, so the 0/1 check holds by construction. */
  datatype Tarea = Tarea(
    idTarea: int,
    idUsuario: int,
    titulo: string,
    descripcion: Option<string>,
    completada: bool,
    creadaEn: Instante)

  /** Each row is stored under its own primary key. */
  ghost predicate UsuariosPorClave(usuarios: map<int, Usuario>) {
    forall k :: k in usuarios ==> usuarios[k].idUsuario == k
  }

  ghost predicate TareasPorClave(tareas: map<int, Tarea>) {
    forall k :: k in tareas ==> tareas[k].idTarea == k
  }

  /** `username` is declared `unique=True`. */
  ghost predicate UsernamesUnicos(usuarios: map<int, Usuario>) {
    forall a, b :: a in usuarios && b in usuarios && a != b ==> usuarios[a].username != usuarios[b].username
  }

  /** CHECK `ck_tareas_titulo_no_vacio`: no stored title is blank. */
  ghost predicate TitulosNoVacios(tareas: map<int, Tarea>) {
    forall k :: k in tareas ==> Strip(tareas[k].titulo) != ""
  }

  /** UNIQUE `uq_tareas_usuario_titulo`: one title per owner. */
  ghost predicate TitulosUnicosPorUsuario(tareas: map<int, Tarea>) {
    forall a, b :: a in tareas && b in tareas && a != b && tareas[a].idUsuario == tareas[b].idUsuario ==>
      tareas[a].titulo != tareas[b].titulo
  }

  /** FOREIGN KEY `id_usuario` REFERENCES `usuarios` (PRAGMA foreign_keys=ON). */
  ghost predicate PropietariosExisten(usuarios: map<int, Usuario>, tareas: map<int, Tarea>) {
    forall k :: k in tareas ==> tareas[k].idUsuario in usuarios
  }

  /** Every constraint of the schema. */
  ghost predicate TablasValidas(usuarios: map<int, Usuario>, tareas: map<int, Tarea>) {
    && UsuariosPorClave(usuarios)
    && TareasPorClave(tareas)
    && UsernamesUnicos(usuarios)
    && TitulosNoVacios(tareas)
    && TitulosUnicosPorUsuario(tareas)
    && PropietariosExisten(usuarios, tareas)
  }

  /** Some row other than `excepto` already holds `(idUsuario, titulo)`. */
  predicate TituloOcupado(tareas: map<int, Tarea>, idUsuario: int, titulo: string, excepto: Option<int>) {
    exists k :: k in tareas && Some(k) != excepto && tareas[k].idUsuario == idUsuario && tareas[k].titulo == titulo
  }

  /** Inserting a row under a new id, for an existing owner, with a non-blank title the owner does not use yet, keeps every constraint. */
  lemma InsertarPreservaValidez(usuarios: map<int, Usuario>, tareas: map<int, Tarea>, t: Tarea)
    requires TablasValidas(usuarios, tareas)
    requires t.idTarea !in tareas && t.idUsuario in usuarios && Strip(t.titulo) != ""
    requires !TituloOcupado(tareas, t.idUsuario, t.titulo, None)
    ensures TablasValidas(usuarios, tareas[t.idTarea := t])
  {
    var ts := tareas[t.idTarea := t];
    forall a, b | a in ts && b in ts && a != b && ts[a].idUsuario == ts[b].idUsuario
      ensures ts[a].titulo != ts[b].titulo
    {
      if a == t.idTarea {
        assert b in tareas;
      } else if b == t.idTarea {
        assert a in tareas;
      }
    }
  }

  /** Rewriting a row in place, same id and owner, with a non-blank title no other row of the owner uses, keeps every constraint. */
  lemma ReemplazarPreservaValidez(usuarios: map<int, Usuario>, tareas: map<int, Tarea>, t: Tarea)
    requires TablasValidas(usuarios, tareas)
    requires t.idTarea in tareas && t.idUsuario == tareas[t.idTarea].idUsuario && Strip(t.titulo) != ""
    requires !TituloOcupado(tareas, t.idUsuario, t.titulo, Some(t.idTarea))
    ensures TablasValidas(usuarios, tareas[t.idTarea := t])
  {
    var ts := tareas[t.idTarea := t];
    forall a, b | a in ts && b in ts && a != b && ts[a].idUsuario == ts[b].idUsuario
      ensures ts[a].titulo != ts[b].titulo
    {
      if a == t.idTarea {
        assert Some(b) != Some(t.idTarea);
      } else if b == t.idTarea {
        assert Some(a) != Some(t.idTarea);
      }
    }
  }

  /** Changing only the completed flag of a row keeps every constraint. */
  lemma MarcarPreservaValidez(usuarios: map<int, Usuario>, tareas: map<int, Tarea>, k: int, completada: bool)
    requires TablasValidas(usuarios, tareas)
    requires k in tareas
    ensures TablasValidas(usuarios, tareas[k := tareas[k].(completada := completada)])
  {
    var t := tareas[k].(completada := completada);
    if TituloOcupado(tareas, t.idUsuario, t.titulo, Some(k)) {
      assert false;
    }
    ReemplazarPreservaValidez(usuarios, tareas, t);
  }

  /** Inserting a user under a new id with a username no user has keeps every constraint. */
  lemma InsertarUsuarioPreservaValidez(usuarios: map<int, Usuario>, tareas: map<int, Tarea>, u: Usuario)
    requires TablasValidas(usuarios, tareas)
    requires u.idUsuario !in usuarios
    requires forall k :: k in usuarios ==> usuarios[k].username != u.username
    ensures TablasValidas(usuarios[u.idUsuario := u], tareas)
  {
  }

  /**
   * ON DELETE CASCADE: deleting a user deletes every task that references it.
   * The remaining tables still satisfy every constraint, and no task of that user survives.
   */
  function BorrarUsuarioEnCascada(usuarios: map<int, Usuario>, tareas: map<int, Tarea>, idUsuario: int)
    : (r: (map<int, Usuario>, map<int, Tarea>))
    ensures r.0.Keys == usuarios.Keys - {idUsuario}
    ensures forall k :: k in r.1 <==> k in tareas && tareas[k].idUsuario != idUsuario
    ensures forall k :: k in r.1 ==> r.1[k] == tareas[k]
    ensures TablasValidas(usuarios, tareas) ==> TablasValidas(r.0, r.1)
  {
    var us := usuarios - {idUsuario};
    var ts := map k | k in tareas && tareas[k].idUsuario != idUsuario :: tareas[k];
    (us, ts)
  }

  /** The database file: both tables, changed in place by every writer. */
  class BaseDatos {
    var usuarios: map<int, Usuario>
    var tareas: map<int, Tarea>

    ghost predicate Valid()
      reads this
    {
      TablasValidas(usuarios, tareas)
    }

    /** A freshly created database (`init_db()` on a new file). */
    constructor ()
      ensures Valid()
      ensures usuarios == map[] && tareas == map[]
    {
      usuarios := map[];
      tareas := map[];
    }

    /** A committed `INSERT INTO tareas` of a row every constraint accepts. */
    method InsertarTarea(t: Tarea)
      requires Valid()
      requires t.idTarea !in tareas && t.idUsuario in usuarios && Strip(t.titulo) != ""
      requires !TituloOcupado(tareas, t.idUsuario, t.titulo, None)
      modifies this
      ensures Valid()
      ensures usuarios == old(usuarios) && tareas == old(tareas)[t.idTarea := t]
    {
      InsertarPreservaValidez(usuarios, tareas, t);
      tareas := tareas[t.idTarea := t];
    }

    /** A committed `UPDATE tareas` of one row, same id and owner, that every constraint accepts. */
    method ReemplazarTarea(t: Tarea)
      requires Valid()
      requires t.idTarea in tareas && t.idUsuario == tareas[t.idTarea].idUsuario && Strip(t.titulo) != ""
      requires !TituloOcupado(tareas, t.idUsuario, t.titulo, Some(t.idTarea))
      modifies this
      ensures Valid()
      ensures usuarios == old(usuarios) && tareas == old(tareas)[t.idTarea := t]
    {
      ReemplazarPreservaValidez(usuarios, tareas, t);
      tareas := tareas[t.idTarea := t];
    }

    /** `DELETE FROM usuarios WHERE id_usuario = ?`, with the cascade the foreign key declares. */
    method EliminarUsuario(idUsuario: int)
      requires Valid()
      modifies this
      ensures Valid()
      ensures (usuarios, tareas) == BorrarUsuarioEnCascada(old(usuarios), old(tareas), idUsuario)
      ensures forall k :: k in tareas ==> tareas[k].idUsuario != idUsuario
    {
      usuarios, tareas := BorrarUsuarioEnCascada(usuarios, tareas, idUsuario).0,
                          BorrarUsuarioEnCascada(usuarios, tareas, idUsuario).1;
    }
  }
}
