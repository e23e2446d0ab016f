/**
 * The login check: look the user up by username and compare the stored
 * password hash with the hash of the given password. The hash function
 * (SHA-256 of the UTF-8 bytes, as hex) is a parameter `generarHash`; being a
 * function value, it gives the same hash for the same password by
 * construction. Login only reads the `usuarios` table.
 */
module LoginLogica {
  import opened Comun
  import opened Esquema

  /**
   * `filter_by(username=...).first()`: the user with that username, or None.
   * Usernames are unique, so there is at most one.
   */
  function BuscarPorUsername(usuarios: map<int, Usuario>, username: string): (r: Option<Usuario>)
    requires UsuariosPorClave(usuarios) && UsernamesUnicos(usuarios)
    ensures r.Some? <==> exists k :: k in usuarios && usuarios[k].username == username
    ensures forall k :: k in usuarios && usuarios[k].username == username ==> r == Some(usuarios[k])
  {
    if exists k :: k in usuarios && usuarios[k].username == username then
      var k :| k in usuarios && usuarios[k].username == username;
      Some(usuarios[k])
    else
      None
  }

  /**
   * `login`: False when no user has that username (the empty one included);
   * otherwise True exactly when that user's stored hash is the hash of
   * `password`.
   */
  function Login(usuarios: map<int, Usuario>, generarHash: string -> string, username: string, password: string): (ok: bool)
    requires UsuariosPorClave(usuarios) && UsernamesUnicos(usuarios)
    ensures ok <==> exists k :: k in usuarios && usuarios[k].username == username
                              && usuarios[k].passwordHash == generarHash(password)
  {
    var usuario := BuscarPorUsername(usuarios, username);
    if usuario.None? then false
    else usuario.value.passwordHash == generarHash(password)
  }

  /** With `usuario` stored, login succeeds with its username exactly when the password's hash is the stored one. */
  lemma LoginDeUsuarioRegistrado(usuarios: map<int, Usuario>, generarHash: string -> string,
                                 usuario: Usuario, password: string)
    requires UsuariosPorClave(usuarios) && UsernamesUnicos(usuarios)
    requires usuario.idUsuario in usuarios && usuarios[usuario.idUsuario] == usuario
    ensures Login(usuarios, generarHash, usuario.username, password) <==> usuario.passwordHash == generarHash(password)
  {
    assert BuscarPorUsername(usuarios, usuario.username) == Some(usuario);
  }
}
