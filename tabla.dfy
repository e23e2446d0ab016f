/**
 * A table is a map from primary key to row. This module gives the three things
 * SQLite does with such a table that the core relies on: scan its rows in some
 * order, sort them by a timestamp column descending, and pick the rowid of a new
 * row (one more than the largest rowid present, because no table of the
 * repository declares AUTOINCREMENT).
 */
module Tabla {

  /** A nonempty set of keys has an element. */
  lemma HayClave(s: set<int>)
    requires |s| > 0
    ensures exists k :: k in s
  {
    if forall k :: k !in s {
      assert false;
    }
  }


  /** A nonempty table has a row whose stamp no other row exceeds. */
  lemma ExisteMayorSello<T>(m: map<int, T>, sello: T -> int)
    requires |m| > 0
    ensures exists k :: k in m && forall j :: j in m ==> sello(m[j]) <= sello(m[k])
  {
    ExisteMayorSelloEn(m, sello, m.Keys);
  }

  /** Among a nonempty set of keys of `m` there is one whose row's stamp no other key's row exceeds. */
  lemma {:induction false} ExisteMayorSelloEn<T>(m: map<int, T>, sello: T -> int, s: set<int>)
    requires s <= m.Keys && |s| > 0
    ensures exists k :: k in s && forall j :: j in s ==> sello(m[j]) <= sello(m[k])
    decreases |s|
  {
    HayClave(s);
    var k0 :| k0 in s;
    var resto := s - {k0};
    if resto == {} {
      forall j | j in s ensures sello(m[j]) <= sello(m[k0]) {
        assert j !in resto;
      }
    } else {
      ExisteMayorSelloEn(m, sello, resto);
      var k1 :| k1 in resto && forall j :: j in resto ==> sello(m[j]) <= sello(m[k1]);
      var k := if sello(m[k0]) >= sello(m[k1]) then k0 else k1;
      forall j | j in s ensures sello(m[j]) <= sello(m[k]) {
        if j != k0 { assert j in resto; }
      }
    }
  }

  /** A nonempty set of keys has a largest element. */
  lemma {:induction false} ExisteMayorClave(s: set<int>)
    requires |s| > 0
    ensures exists k :: k in s && forall j :: j in s ==> j <= k
    decreases |s|
  {
    HayClave(s);
    var k0 :| k0 in s;
    var resto := s - {k0};
    if |resto| == 0 {
      assert forall j :: j in s ==> j <= k0 by {
        forall j | j in s ensures j <= k0 {
          if j != k0 { assert false; }
        }
      }
    } else {
      ExisteMayorClave(resto);
      var k1 :| k1 in resto && forall j :: j in resto ==> j <= k1;
      var k := if k0 < k1 then k1 else k0;
      assert forall j :: j in s ==> j <= k by {
        forall j | j in s ensures j <= k {
          if j != k0 { assert j in resto; }
        }
      }
    }
  }

  /** The keys of `m`, each once, in the order a full scan returns them (unspecified). */
  ghost function Claves<T>(m: map<int, T>): (ks: seq<int>)
    ensures |ks| == |m|
    ensures forall k :: k in ks <==> k in m
    ensures forall i :: 0 <= i < |ks| ==> ks[i] in m
    ensures forall i, j :: 0 <= i < j < |ks| ==> ks[i] != ks[j]
    decreases |m|
  {
    if |m| == 0 then []
    else
      HayClave(m.Keys);
      var k :| k in m;
      var resto := m - {k};
      assert resto.Keys == m.Keys - {k};
      [k] + Claves(resto)
  }

  /**
   * The keys of `m`, each once, ordered as `ORDER BY sello DESC` returns them.
   * Rows with equal stamps come in an unspecified order.
   */
  ghost function ClavesPorSelloDesc<T>(m: map<int, T>, sello: T -> int): (ks: seq<int>)
    ensures |ks| == |m|
    ensures forall k :: k in ks <==> k in m
    ensures forall i, j :: 0 <= i < j < |ks| ==> ks[i] != ks[j]
    ensures forall i :: 0 <= i < |ks| ==> ks[i] in m
    ensures forall i, j :: 0 <= i < j < |ks| ==> sello(m[ks[i]]) >= sello(m[ks[j]])
    decreases |m|
  {
    if |m| == 0 then []
    else
      ExisteMayorSello(m, sello);
      var k :| k in m && forall j :: j in m ==> sello(m[j]) <= sello(m[k]);
      var resto := m - {k};
      assert resto.Keys == m.Keys - {k};
      var cola := ClavesPorSelloDesc(resto, sello);
      OrdenarConCabeza(m, sello, k, cola);
      [k] + cola
  }

  /** Putting a row of greatest stamp in front of the sorted other rows gives all rows sorted. */
  lemma OrdenarConCabeza<T>(m: map<int, T>, sello: T -> int, k: int, cola: seq<int>)
    requires k in m && forall j :: j in m ==> sello(m[j]) <= sello(m[k])
    requires forall x :: x in cola <==> x in m && x != k
    requires forall i, j :: 0 <= i < j < |cola| ==> cola[i] != cola[j]
    requires forall i :: 0 <= i < |cola| ==> cola[i] in m - {k}
    requires forall i, j :: 0 <= i < j < |cola| ==> sello((m - {k})[cola[i]]) >= sello((m - {k})[cola[j]])
    ensures var ks := [k] + cola;
      && (forall i, j :: 0 <= i < j < |ks| ==> ks[i] != ks[j])
      && (forall i :: 0 <= i < |ks| ==> ks[i] in m)
      && (forall i, j :: 0 <= i < j < |ks| ==> sello(m[ks[i]]) >= sello(m[ks[j]]))
  {
    var ks := [k] + cola;
    forall i | 0 <= i < |cola| ensures cola[i] in m && (m - {k})[cola[i]] == m[cola[i]] && cola[i] != k {
    }
    forall i, j | 0 <= i < j < |ks| ensures sello(m[ks[i]]) >= sello(m[ks[j]]) {
      if i > 0 {
        assert ks[i] == cola[i - 1] && ks[j] == cola[j - 1];
      }
    }
  }

  /** A row whose stamp is strictly the greatest is the first one `ORDER BY sello DESC` returns. */
  lemma MayorSelloPrimero<T>(m: map<int, T>, sello: T -> int, k: int)
    requires k in m
    requires forall j :: j in m && j != k ==> sello(m[j]) < sello(m[k])
    ensures ClavesPorSelloDesc(m, sello)[0] == k
  {
    var ks := ClavesPorSelloDesc(m, sello);
    var i :| 0 <= i < |ks| && ks[i] == k;
  }

  /**
   * The rows of `m`, each once, as `ORDER BY sello DESC` returns them; `clave`
   * reads a row's own primary key.
   */
  ghost function FilasPorSelloDesc<T>(m: map<int, T>, clave: T -> int, sello: T -> int): (r: seq<T>)
    requires forall k :: k in m ==> clave(m[k]) == k
    ensures |r| == |m|
    ensures forall i :: 0 <= i < |r| ==> clave(r[i]) in m && m[clave(r[i])] == r[i]
    ensures forall k :: k in m ==> m[k] in r
    ensures forall i, j :: 0 <= i < j < |r| ==> clave(r[i]) != clave(r[j])
    ensures forall i, j :: 0 <= i < j < |r| ==> sello(r[i]) >= sello(r[j])
  {
    var ks := ClavesPorSelloDesc(m, sello);
    FilasDeClavesOrdenadas(m, clave, sello, ks);
    FilasDe(m, ks)
  }

  /** The rows under keys listed once each are the rows of `m`, once each. */
  lemma FilasDeClavesDistintas<T>(m: map<int, T>, clave: T -> int, ks: seq<int>)
    requires forall k :: k in m ==> clave(m[k]) == k
    requires forall k :: k in ks <==> k in m
    requires forall i, j :: 0 <= i < j < |ks| ==> ks[i] != ks[j]
    requires forall i :: 0 <= i < |ks| ==> ks[i] in m
    ensures var r := FilasDe(m, ks);
      && (forall i :: 0 <= i < |r| ==> clave(r[i]) in m && m[clave(r[i])] == r[i])
      && (forall k :: k in m ==> m[k] in r)
      && (forall i, j :: 0 <= i < j < |r| ==> clave(r[i]) != clave(r[j]))
  {
    var r := FilasDe(m, ks);
    forall i | 0 <= i < |r| ensures clave(r[i]) == ks[i] && m[ks[i]] == r[i] {
      assert r[i] == m[ks[i]];
    }
    forall k | k in m ensures m[k] in r {
      var i :| 0 <= i < |ks| && ks[i] == k;
      assert r[i] == m[k];
    }
  }

  /** The rows under keys listed once each, by stamp, are the rows of `m`, once each, by stamp. */
  lemma FilasDeClavesOrdenadas<T>(m: map<int, T>, clave: T -> int, sello: T -> int, ks: seq<int>)
    requires forall k :: k in m ==> clave(m[k]) == k
    requires forall k :: k in ks <==> k in m
    requires forall i, j :: 0 <= i < j < |ks| ==> ks[i] != ks[j]
    requires forall i :: 0 <= i < |ks| ==> ks[i] in m
    requires forall i, j :: 0 <= i < j < |ks| ==> sello(m[ks[i]]) >= sello(m[ks[j]])
    ensures var r := FilasDe(m, ks);
      && (forall i :: 0 <= i < |r| ==> clave(r[i]) in m && m[clave(r[i])] == r[i])
      && (forall k :: k in m ==> m[k] in r)
      && (forall i, j :: 0 <= i < j < |r| ==> clave(r[i]) != clave(r[j]))
      && (forall i, j :: 0 <= i < j < |r| ==> sello(r[i]) >= sello(r[j]))
  {
    FilasDeClavesDistintas(m, clave, ks);
  }

  /** The rows of `m` under the keys `ks`, in that order. */
  ghost function FilasDe<T>(m: map<int, T>, ks: seq<int>): (r: seq<T>)
    requires forall i :: 0 <= i < |ks| ==> ks[i] in m
    ensures |r| == |ks|
    ensures forall i :: 0 <= i < |ks| ==> r[i] == m[ks[i]]
  {
    if ks == [] then [] else [m[ks[0]]] + FilasDe(m, ks[1..])
  }

  /** A row whose stamp is strictly the greatest is the first row `ORDER BY sello DESC` returns. */
  lemma FilaMayorSelloPrimera<T>(m: map<int, T>, clave: T -> int, sello: T -> int, k: int)
    requires forall j :: j in m ==> clave(m[j]) == j
    requires k in m
    requires forall j :: j in m && j != k ==> sello(m[j]) < sello(m[k])
    ensures |FilasPorSelloDesc(m, clave, sello)| > 0
    ensures FilasPorSelloDesc(m, clave, sello)[0] == m[k]
  {
    MayorSelloPrimero(m, sello, k);
  }

  /** The rowid SQLite gives a new row: one past the largest rowid in use, or 1 in an empty table. */
  function SiguienteClave<T>(m: map<int, T>): (k: int)
    ensures k !in m
    ensures forall j :: j in m ==> j < k
    ensures |m| == 0 ==> k == 1
  {
    if |m| == 0 then 1
    else
      ExisteMayorClave(m.Keys);
      var mayor :| mayor in m && forall j :: j in m ==> j <= mayor;
      mayor + 1
  }
}
