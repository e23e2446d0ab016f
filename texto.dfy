/** Python's `str.strip()` with no argument, and the `(s or "")` idiom. */
module Texto {
  import opened Comun

  /** The characters for which Python's `str.isspace()` holds. */
  predicate EsEspacio(c: char) {
    || c == ' '
    || ('\t' <= c <= '\r')
    || ('\U{1C}' <= c <= '\U{1F}')
    || c == '\U{85}' || c == '\U{A0}' || c == '\U{1680}'
    || ('\U{2000}' <= c <= '\U{200A}')
    || c == '\U{2028}' || c == '\U{2029}' || c == '\U{202F}' || c == '\U{205F}' || c == '\U{3000}'
  }

  /** Every character of `s` is whitespace (this includes the empty string). */
  ghost predicate EnBlanco(s: string) {
    forall i :: 0 <= i < |s| ==> EsEspacio(s[i])
  }

  /** `s.lstrip()`: drops the leading whitespace and nothing else. */
  function QuitarInicio(s: string): (r: string)
    ensures |r| <= |s| && r == s[|s| - |r|..]
    ensures forall i :: 0 <= i < |s| - |r| ==> EsEspacio(s[i])
    ensures r == [] || !EsEspacio(r[0])
  {
    if |s| > 0 && EsEspacio(s[0]) then QuitarInicio(s[1..]) else s
  }

  /** `s.rstrip()`: drops the trailing whitespace and nothing else. */
  function QuitarFinal(s: string): (r: string)
    ensures |r| <= |s| && r == s[..|r|]
    ensures forall i :: |r| <= i < |s| ==> EsEspacio(s[i])
    ensures r == [] || !EsEspacio(r[|r| - 1])
  {
    if |s| > 0 && EsEspacio(s[|s| - 1]) then QuitarFinal(s[..|s| - 1]) else s
  }

  /**
   * `r` is the slice of `s` that starts at `a`, and everything of `s` before it and
   * after it is whitespace: `r` is `s` with some leading and trailing whitespace cut off.
   */
  ghost predicate EsTramoConBordesEnBlanco(s: string, r: string, a: nat) {
    && a + |r| <= |s|
    && r == s[a..a + |r|]
    && EnBlanco(s[..a]) && EnBlanco(s[a + |r|..])
  }

  /** Where `lstrip` leaves `s` to start: the number of leading whitespace characters. */
  function Inicio(s: string): nat {
    |s| - |QuitarInicio(s)|
  }

  /**
   * When `q` is `s` less a blank prefix and `r` is `q` less a blank suffix (what
   * `lstrip` and then `rstrip` promise), `r` is a slice of `s` with blank borders.
   */
  lemma {:induction false} RecorteEsTramo(s: string, q: string, r: string)
    requires |q| <= |s| && q == s[|s| - |q|..] && forall i :: 0 <= i < |s| - |q| ==> EsEspacio(s[i])
    requires |r| <= |q| && r == q[..|r|] && forall i :: |r| <= i < |q| ==> EsEspacio(q[i])
    ensures EsTramoConBordesEnBlanco(s, r, |s| - |q|)
  {
    var a := |s| - |q|;
    PrefijoEnBlanco(s, a);
    SufijoEnBlanco(q, |r|);
    TramoDeSufijo(s, a, |r|);
    SufijoDeSufijo(s, a, |r|);
  }

  /** The first `n` characters of the suffix from `a` are the slice from `a` to `a + n`. */
  lemma TramoDeSufijo(s: string, a: nat, n: nat)
    requires a + n <= |s|
    ensures s[a..][..n] == s[a..a + n]
  {
  }

  /** Dropping `a` characters and then `n` more drops `a + n`. */
  lemma SufijoDeSufijo(s: string, a: nat, n: nat)
    requires a + n <= |s|
    ensures s[a..][n..] == s[a + n..]
  {
  }

  /**
   * Under the same cuts, with `q` starting and `r` ending on non-whitespace, `r` is
   * empty exactly when `s` is blank, and otherwise starts and ends on non-whitespace.
   */
  lemma {:induction false} RecorteVacio(s: string, q: string, r: string)
    requires |q| <= |s| && q == s[|s| - |q|..] && forall i :: 0 <= i < |s| - |q| ==> EsEspacio(s[i])
    requires |r| <= |q| && r == q[..|r|] && forall i :: |r| <= i < |q| ==> EsEspacio(q[i])
    requires (q == [] || !EsEspacio(q[0])) && (r == [] || !EsEspacio(r[|r| - 1]))
    ensures r == [] <==> EnBlanco(s)
    ensures r != [] ==> !EsEspacio(r[0]) && !EsEspacio(r[|r| - 1])
  {
    if r != [] {
      assert r[0] == q[0];
    }
    assert EnBlanco(s) ==> r == [] by {
      if q != [] {
        assert q[0] == s[|s| - |q|];
      }
    }
    assert r == [] ==> EnBlanco(s) by {
      if r == [] {
        RecorteEsTramo(s, q, r);
        BordesEnBlanco(s, |s| - |q|, |s| - |q|);
      }
    }
  }

  /** `s.strip()`: empty exactly for blank input, otherwise framed by non-whitespace. */
  function Strip(s: string): (r: string)
    ensures r == [] <==> EnBlanco(s)
    ensures r != [] ==> !EsEspacio(r[0]) && !EsEspacio(r[|r| - 1])
    ensures |r| <= |s|
  {
    var q := QuitarInicio(s);
    var r := QuitarFinal(q);
    RecorteVacio(s, q, r);
    r
  }

  /**
   * `s.strip()` is `s` with its leading and its trailing whitespace cut off and
   * nothing else changed: the slice of `s` after the `Inicio(s)` leading whitespace
   * characters, with only whitespace after it.
   */
  lemma {:induction false} StripRecorta(s: string)
    ensures EsTramoConBordesEnBlanco(s, Strip(s), Inicio(s))
  {
    var q := QuitarInicio(s);
    RecorteEsTramo(s, q, QuitarFinal(q));
  }

  /**
   * The slice that `strip()` keeps is the only one with blank borders on both sides
   * that is empty or framed by non-whitespace: `Strip` agrees with that description.
   */
  lemma {:induction false} StripEsElUnicoRecorte(s: string, a: nat, b: nat)
    requires a <= b <= |s| && EnBlanco(s[..a]) && EnBlanco(s[b..])
    requires a < b ==> !EsEspacio(s[a]) && !EsEspacio(s[b - 1])
    ensures Strip(s) == s[a..b]
  {
    var r := Strip(s);
    var a', b' := Inicio(s), Inicio(s) + |r|;
    StripRecorta(s);
    if a == b {
      BordesEnBlanco(s, a, b);
      assert EnBlanco(s);
    } else {
      BordesEnBlanco(s, a, b);
      BordesEnBlanco(s, a', b');
      assert !EnBlanco(s) && r != [];
      assert r == s[a'..b'];
      ExtremosDeTramo(s, a', b');
      assert a' == a && b' == b;
    }
  }

  /** The first and the last character of a nonempty slice. */
  lemma ExtremosDeTramo(s: string, a: nat, b: nat)
    requires a < b <= |s|
    ensures s[a..b][0] == s[a] && s[a..b][b - a - 1] == s[b - 1]
  {
  }

  /** A blank prefix, read off from its characters one by one. */
  lemma PrefijoEnBlanco(s: string, a: nat)
    requires a <= |s| && forall i :: 0 <= i < a ==> EsEspacio(s[i])
    ensures EnBlanco(s[..a])
  {
    assert forall i :: 0 <= i < a ==> s[..a][i] == s[i];
  }

  /** A blank suffix, read off from its characters one by one. */
  lemma SufijoEnBlanco(s: string, b: nat)
    requires b <= |s| && forall i :: b <= i < |s| ==> EsEspacio(s[i])
    ensures EnBlanco(s[b..])
  {
    assert forall i :: 0 <= i < |s| - b ==> s[b..][i] == s[b + i];
  }

  /** The characters before `a` and from `b` on, one by one. */
  lemma BordesEnBlanco(s: string, a: nat, b: nat)
    requires a <= b <= |s| && EnBlanco(s[..a]) && EnBlanco(s[b..])
    ensures forall i :: 0 <= i < a ==> EsEspacio(s[i])
    ensures forall i :: b <= i < |s| ==> EsEspacio(s[i])
  {
    forall i | 0 <= i < a ensures EsEspacio(s[i]) {
      assert s[i] == s[..a][i];
    }
    forall i | b <= i < |s| ensures EsEspacio(s[i]) {
      assert s[i] == s[b..][i - b];
    }
  }

  /** `(s or "")`: a missing string reads as the empty one. */
  function OVacio(s: Option<string>): string {
    if s.Some? then s.value else ""
  }

  /** A string with no whitespace at either end is left as it is by `strip()`. */
  lemma {:induction false} StripSinBordes(s: string)
    requires s != [] ==> !EsEspacio(s[0]) && !EsEspacio(s[|s| - 1])
    ensures Strip(s) == s
  {
    assert QuitarInicio(s) == s;
    assert QuitarFinal(s) == s;
  }

  /** Stripping twice is stripping once, so an already-trimmed title is stored unchanged. */
  lemma {:induction false} StripIdempotente(s: string)
    ensures Strip(Strip(s)) == Strip(s)
  {
    StripSinBordes(Strip(s));
  }
}
