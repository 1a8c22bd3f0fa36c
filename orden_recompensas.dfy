/**
 * The rewards list is shown in ascending threshold order, sorting the
 * state's own reward array in place with a comparator on `umbralPuntos`.
 * The sort is stable, so the result is fully determined: it is the stable
 * insertion sort below, which the in-place method is proved to compute.
 */
module OrdenRecompensas {
  import opened Tipos
  import Listas

  predicate Ordenada(s: seq<Recompensa>)
  {
    forall i, j :: 0 <= i < j < |s| ==> s[i].umbralPuntos <= s[j].umbralPuntos
  }

  /**
   * Where `x` goes: scanning from the right, past every element with a larger
   * threshold. Elements with an equal threshold stay in front of `x`.
   */
  function Posicion(t: seq<Recompensa>, x: Recompensa): (p: nat)
    ensures p <= |t|
    ensures forall i :: p <= i < |t| ==> t[i].umbralPuntos > x.umbralPuntos
    ensures p > 0 ==> t[p - 1].umbralPuntos <= x.umbralPuntos
    decreases |t|
  {
    if t == [] then 0
    else if t[|t| - 1].umbralPuntos > x.umbralPuntos then Posicion(t[..|t| - 1], x)
    else |t|
  }

  function Insertar(x: Recompensa, t: seq<Recompensa>): seq<Recompensa>
  {
    t[..Posicion(t, x)] + [x] + t[Posicion(t, x)..]
  }

  /** Stable insertion sort by threshold, inserting the elements from first to last. */
  function OrdenarPorUmbral(s: seq<Recompensa>): seq<Recompensa>
    decreases |s|
  {
    if s == [] then [] else Insertar(s[|s| - 1], OrdenarPorUmbral(s[..|s| - 1]))
  }

  /** The rewards with a given threshold. */
  function ConUmbral(u: int): Recompensa -> bool
  {
    (r: Recompensa) => r.umbralPuntos == u
  }

  // ---------------------------------------------------------------------------
  // Properties of the specification
  // ---------------------------------------------------------------------------

  /** The scan stops at the only place fitting its two conditions. */
  lemma {:induction false} PosicionUnica(t: seq<Recompensa>, x: Recompensa, j: nat)
    requires j <= |t|
    requires forall i :: j <= i < |t| ==> t[i].umbralPuntos > x.umbralPuntos
    requires j > 0 ==> t[j - 1].umbralPuntos <= x.umbralPuntos
    ensures Posicion(t, x) == j
    decreases |t|
  {
    if j < |t| {
      PosicionUnica(t[..|t| - 1], x, j);
    }
  }

  /** Where every element of the insertion ends up. */
  lemma InsertarElementos(x: Recompensa, t: seq<Recompensa>)
    ensures |Insertar(x, t)| == |t| + 1
    ensures forall k :: 0 <= k < |t| + 1 ==>
              Insertar(x, t)[k] == (if k < Posicion(t, x) then t[k] else if k == Posicion(t, x) then x else t[k - 1])
  {
  }

  lemma InsertarPermuta(x: Recompensa, t: seq<Recompensa>)
    ensures multiset(Insertar(x, t)) == multiset(t) + multiset{x}
  {
    var p := Posicion(t, x);
    assert t == t[..p] + t[p..];
  }

  lemma InsertarOrdenada(x: Recompensa, t: seq<Recompensa>)
    requires Ordenada(t)
    ensures Ordenada(Insertar(x, t))
  {
    var p := Posicion(t, x);
    var r := Insertar(x, t);
    InsertarElementos(x, t);
    forall i, j | 0 <= i < j < |r| ensures r[i].umbralPuntos <= r[j].umbralPuntos {
      var ui := if i < p then t[i].umbralPuntos else if i == p then x.umbralPuntos else t[i - 1].umbralPuntos;
      var uj := if j < p then t[j].umbralPuntos else if j == p then x.umbralPuntos else t[j - 1].umbralPuntos;
      assert r[i].umbralPuntos == ui && r[j].umbralPuntos == uj;
    }
  }

  /** The result is sorted. */
  lemma {:induction false} OrdenarOrdena(s: seq<Recompensa>)
    ensures Ordenada(OrdenarPorUmbral(s))
    decreases |s|
  {
    if s != [] {
      var previo := s[..|s| - 1];
      OrdenarOrdena(previo);
      InsertarOrdenada(s[|s| - 1], OrdenarPorUmbral(previo));
    }
  }

  /** The result is a permutation of the input. */
  lemma {:induction false} OrdenarPermuta(s: seq<Recompensa>)
    ensures multiset(OrdenarPorUmbral(s)) == multiset(s)
    ensures |OrdenarPorUmbral(s)| == |s|
    decreases |s|
  {
    if s != [] {
      var previo := s[..|s| - 1];
      var x := s[|s| - 1];
      OrdenarPermuta(previo);
      InsertarPermuta(x, OrdenarPorUmbral(previo));
      InsertarElementos(x, OrdenarPorUmbral(previo));
      assert s == previo + [x];
      assert multiset(s) == multiset(previo) + multiset{x};
    }
  }

  /** Filtering an insertion filters the part before `x`, `x` itself and the part after. */
  lemma FiltrarInsertar(x: Recompensa, t: seq<Recompensa>, f: Recompensa -> bool)
    ensures Listas.Filtrar(Insertar(x, t), f) ==
            Listas.Filtrar(t[..Posicion(t, x)], f) + (Listas.Filtrar([x], f) + Listas.Filtrar(t[Posicion(t, x)..], f))
  {
    var p := Posicion(t, x);
    var a, b := t[..p], t[p..];
    assert Insertar(x, t) == a + ([x] + b);
    Listas.FiltrarConcat(a, [x] + b, f);
    Listas.FiltrarConcat([x], b, f);
  }

  /** When one of the two is empty, the middle piece may move to the end. */
  lemma AlFinal<T>(a: seq<T>, m: seq<T>, b: seq<T>)
    requires m == [] || b == []
    ensures a + (m + b) == (a + b) + m
  {
    if m == [] {
      assert m + b == b;
      assert (a + b) + m == a + b;
    } else {
      assert m + b == m;
      assert a + b == a;
    }
  }

  /** Inserting into a sorted list puts `x` after every element with its threshold. */
  lemma InsertarEstable(x: Recompensa, t: seq<Recompensa>, u: int)
    ensures Listas.Filtrar(Insertar(x, t), ConUmbral(u)) ==
            Listas.Filtrar(t, ConUmbral(u)) + (if x.umbralPuntos == u then [x] else [])
  {
    var f := ConUmbral(u);
    var p := Posicion(t, x);
    var a, b := t[..p], t[p..];
    var fa, fb := Listas.Filtrar(a, f), Listas.Filtrar(b, f);
    var fx := if x.umbralPuntos == u then [x] else [];
    assert Listas.Filtrar(Insertar(x, t), f) == fa + (fx + fb) by {
      FiltrarInsertar(x, t, f);
      Listas.FiltrarUno(x, f);
    }
    assert Listas.Filtrar(t, f) == fa + fb by {
      assert t == a + b;
      Listas.FiltrarConcat(a, b, f);
    }
    if x.umbralPuntos == u {
      DetrasMayores(x, t);
    }
    AlFinal(fa, fx, fb);
  }

  /** Nothing behind the insertion point shares the threshold of `x`. */
  lemma DetrasMayores(x: Recompensa, t: seq<Recompensa>)
    ensures Listas.Filtrar(t[Posicion(t, x)..], ConUmbral(x.umbralPuntos)) == []
  {
    var p := Posicion(t, x);
    var b := t[p..];
    var f := ConUmbral(x.umbralPuntos);
    forall i | 0 <= i < |b| ensures !f(b[i]) {
      assert b[i] == t[p + i];
    }
    Listas.FiltrarNinguno(b, f);
  }

  /**
   * Stability: the rewards sharing any one threshold appear in the result in
   * the order they had in the input.
   */
  lemma {:induction false} OrdenarEstable(s: seq<Recompensa>, u: int)
    ensures Listas.Filtrar(OrdenarPorUmbral(s), ConUmbral(u)) == Listas.Filtrar(s, ConUmbral(u))
    decreases |s|
  {
    if s != [] {
      var f := ConUmbral(u);
      var previo := s[..|s| - 1];
      var x := s[|s| - 1];
      var fx := if x.umbralPuntos == u then [x] else [];
      OrdenarEstable(previo, u);
      InsertarEstable(x, OrdenarPorUmbral(previo), u);
      assert OrdenarPorUmbral(s) == Insertar(x, OrdenarPorUmbral(previo));
      Listas.FiltrarUltimo(s, f);
      assert f(x) <==> x.umbralPuntos == u;
    }
  }

  /** A prefix of a sorted list is sorted. */
  lemma OrdenadaPrefijo(s: seq<Recompensa>, n: nat)
    requires Ordenada(s) && n <= |s|
    ensures Ordenada(s[..n])
  {
    var r := s[..n];
    forall i, j | 0 <= i < j < |r| ensures r[i].umbralPuntos <= r[j].umbralPuntos {
      assert r[i] == s[i] && r[j] == s[j];
    }
  }

  /** Inserting an element at least as large as the last one appends it. */
  lemma InsertarAlFinal(x: Recompensa, t: seq<Recompensa>)
    requires t == [] || t[|t| - 1].umbralPuntos <= x.umbralPuntos
    ensures Insertar(x, t) == t + [x]
  {
    PosicionUnica(t, x, |t|);
    assert t[..|t|] == t;
    assert t[|t|..] == [];
  }

  /** Sorting an already sorted list leaves it as it is. */
  lemma {:induction false} OrdenarOrdenada(s: seq<Recompensa>)
    requires Ordenada(s)
    ensures OrdenarPorUmbral(s) == s
    decreases |s|
  {
    if s != [] {
      var previo := s[..|s| - 1];
      var x := s[|s| - 1];
      OrdenadaPrefijo(s, |s| - 1);
      OrdenarOrdenada(previo);
      assert previo == [] || previo[|previo| - 1].umbralPuntos <= x.umbralPuntos by {
        if previo != [] {
          assert previo[|previo| - 1] == s[|s| - 2];
        }
      }
      InsertarAlFinal(x, previo);
      assert s == previo + [x];
    }
  }

  /** One more step of the sort: the element at `i` is inserted into the sorted prefix. */
  lemma OrdenarPaso(s: seq<Recompensa>, i: nat)
    requires i < |s|
    ensures OrdenarPorUmbral(s[..i + 1]) == Insertar(s[i], OrdenarPorUmbral(s[..i]))
  {
    var t := s[..i + 1];
    assert t[..|t| - 1] == s[..i];
    assert t[|t| - 1] == s[i];
  }

  // ---------------------------------------------------------------------------
  // The in-place sort
  // ---------------------------------------------------------------------------

  /**
   * The array during the insertion of the element at `i`: the elements in front
   * of `j`, a vacant slot at `j` (holding `h`), and the shifted run `s[j..i]`.
   */
  function Desplazada<T>(s: seq<T>, i: nat, j: nat, h: T): seq<T>
    requires j <= i < |s|
  {
    s[..j] + [h] + s[j..i] + s[i + 1..]
  }

  /** Where each element of the shifted array comes from. */
  lemma DesplazadaEn<T>(s: seq<T>, i: nat, j: nat, h: T, k: nat)
    requires j <= i < |s| && k < |s|
    ensures Desplazada(s, i, j, h)[k] == if k < j || k > i then s[k] else if k == j then h else s[k - 1]
  {
  }

  /**
   * Once the slot at `j` is filled with `x`, and `j` is where `x` belongs, the
   * first `i + 1` elements are the insertion of `x` into `s[..i]` and the rest is
   * untouched.
   */
  lemma DesplazadaInsercion(s: seq<Recompensa>, i: nat, j: nat, x: Recompensa)
    requires j <= i < |s|
    requires forall k :: j <= k < i ==> s[k].umbralPuntos > x.umbralPuntos
    requires j > 0 ==> s[j - 1].umbralPuntos <= x.umbralPuntos
    ensures Desplazada(s, i, j, x)[..i + 1] == Insertar(x, s[..i])
    ensures Desplazada(s, i, j, x)[i + 1..] == s[i + 1..]
  {
    var t := s[..i];
    var p := t[..j] + [x] + t[j..];
    assert t[..j] == s[..j] && t[j..] == s[j..i];
    assert Desplazada(s, i, j, x) == p + s[i + 1..];
    assert |p| == i + 1;
    forall k | j <= k < |t| ensures t[k].umbralPuntos > x.umbralPuntos {
      assert t[k] == s[k];
    }
    assert j > 0 ==> t[j - 1] == s[j - 1];
    PosicionUnica(t, x, j);
  }

  /** Moves `a[i]` left past the larger thresholds in front of it. */
  method InsertarEnSitio(a: array<Recompensa>, i: int)
    requires 0 <= i < a.Length
    modifies a
    ensures a[..i + 1] == Insertar(old(a[i]), old(a[..i]))
    ensures a[i + 1..] == old(a[i + 1..])
  {
    ghost var s := a[..];
    var x := a[i];
    var j := i;
    while j > 0 && a[j - 1].umbralPuntos > x.umbralPuntos
      invariant 0 <= j <= i
      invariant forall k :: 0 <= k < j ==> a[k] == s[k]
      invariant forall k :: j < k <= i ==> a[k] == s[k - 1]
      invariant forall k :: i < k < a.Length ==> a[k] == s[k]
      invariant forall k :: j <= k < i ==> s[k].umbralPuntos > x.umbralPuntos
    {
      a[j] := a[j - 1];
      j := j - 1;
    }
    a[j] := x;
    forall k | 0 <= k < a.Length ensures a[k] == Desplazada(s, i, j, x)[k] {
      DesplazadaEn(s, i, j, x, k);
    }
    assert a[..] == Desplazada(s, i, j, x);
    DesplazadaInsercion(s, i, j, x);
  }

  /** `state.recompensas.sort((a, b) => a.umbralPuntos - b.umbralPuntos)`. */
  method OrdenarEnSitio(a: array<Recompensa>)
    modifies a
    ensures a[..] == OrdenarPorUmbral(old(a[..]))
  {
    ghost var s := a[..];
    var i := 0;
    while i < a.Length
      invariant 0 <= i <= a.Length
      invariant a[..i] == OrdenarPorUmbral(s[..i])
      invariant a[i..] == s[i..]
    {
      ghost var antes := a[..];
      assert antes[..i] == a[..i] && antes[i] == s[i];
      InsertarEnSitio(a, i);
      OrdenarPaso(s, i);
      assert a[i + 1..] == antes[i + 1..];
      assert antes[i + 1..] == s[i + 1..];
      i := i + 1;
    }
    assert a[..] == a[..i];
    assert s == s[..i];
  }
}
