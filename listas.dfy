/**
 * The array operations the application uses on lists of ids and entities:
 * `filter`, `findIndex`-style lookup, removal of every copy of an id and
 * counting copies.
 */
module Listas {

  /** `s.filter(p)`: the elements satisfying `p`, in their original order. */
  function Filtrar<T>(s: seq<T>, p: T -> bool): (r: seq<T>)
    ensures |r| <= |s|
    ensures forall i :: 0 <= i < |r| ==> r[i] in s && p(r[i])
    ensures forall i :: 0 <= i < |s| && p(s[i]) ==> s[i] in r
  {
    if s == [] then [] else (if p(s[0]) then [s[0]] else []) + Filtrar(s[1..], p)
  }

  /** `a` occurs in `b` in the same order, possibly with gaps. */
  ghost predicate Subsecuencia<T>(a: seq<T>, b: seq<T>)
    decreases |b|
  {
    if a == [] then true
    else if b == [] then false
    else (a[0] == b[0] && Subsecuencia(a[1..], b[1..])) || Subsecuencia(a, b[1..])
  }

  /** Filtering keeps the order of what it keeps. */
  lemma {:induction false} FiltrarEsSubsecuencia<T>(s: seq<T>, p: T -> bool)
    ensures Subsecuencia(Filtrar(s, p), s)
  {
    if s != [] {
      FiltrarEsSubsecuencia(s[1..], p);
      var r := Filtrar(s, p);
      if p(s[0]) {
        assert r == [s[0]] + Filtrar(s[1..], p);
        assert r[1..] == Filtrar(s[1..], p);
      } else {
        assert r == Filtrar(s[1..], p);
        SubsecuenciaSalta(r, s);
      }
    }
  }

  /** Filtering keeps every copy of what it keeps and no copy of what it drops. */
  lemma {:induction false} FiltrarCuenta<T>(s: seq<T>, p: T -> bool, x: T)
    ensures multiset(Filtrar(s, p))[x] == if p(x) then multiset(s)[x] else 0
  {
    if s != [] {
      FiltrarCuenta(s[1..], p, x);
      assert s == [s[0]] + s[1..];
    }
  }

  /** What `filter` keeps: no dropped element, every copy of each kept one, in order. */
  lemma FiltrarConserva<T>(s: seq<T>, p: T -> bool)
    ensures forall i :: 0 <= i < |Filtrar(s, p)| ==> p(Filtrar(s, p)[i])
    ensures forall x :: p(x) ==> multiset(Filtrar(s, p))[x] == multiset(s)[x]
    ensures Subsecuencia(Filtrar(s, p), s)
  {
    FiltrarEsSubsecuencia(s, p);
    forall x | p(x)
      ensures multiset(Filtrar(s, p))[x] == multiset(s)[x]
    {
      FiltrarCuenta(s, p, x);
    }
  }

  lemma SubsecuenciaSalta<T>(a: seq<T>, b: seq<T>)
    requires b != [] && Subsecuencia(a, b[1..])
    ensures Subsecuencia(a, b)
  {
  }

  /** Splitting by a predicate and by its negation puts every element in exactly one part. */
  lemma {:induction false} FiltrarParticion<T>(s: seq<T>, p: T -> bool, q: T -> bool)
    requires forall i :: 0 <= i < |s| ==> (q(s[i]) <==> !p(s[i]))
    ensures |Filtrar(s, p)| + |Filtrar(s, q)| == |s|
  {
    if s != [] {
      FiltrarParticion(s[1..], p, q);
    }
  }

  /** Filtering distributes over concatenation. */
  lemma {:induction false} FiltrarConcat<T>(a: seq<T>, b: seq<T>, p: T -> bool)
    ensures Filtrar(a + b, p) == Filtrar(a, p) + Filtrar(b, p)
  {
    if a == [] {
      assert a + b == b;
    } else {
      assert (a + b)[0] == a[0];
      assert (a + b)[1..] == a[1..] + b;
      FiltrarConcat(a[1..], b, p);
    }
  }

  /** A one-element list is kept exactly when its element passes. */
  lemma FiltrarUno<T>(x: T, p: T -> bool)
    ensures Filtrar([x], p) == if p(x) then [x] else []
  {
    assert [x][1..] == [];
  }

  /** Filtering a non-empty list filters all but the last element, then the last one. */
  lemma FiltrarUltimo<T>(s: seq<T>, p: T -> bool)
    requires s != []
    ensures Filtrar(s, p) == Filtrar(s[..|s| - 1], p) + (if p(s[|s| - 1]) then [s[|s| - 1]] else [])
  {
    var a, x := s[..|s| - 1], s[|s| - 1];
    assert s == a + [x];
    FiltrarConcat(a, [x], p);
    FiltrarUno(x, p);
  }

  /** Filtering a list whose every element passes returns it unchanged. */
  lemma {:induction false} FiltrarTodos<T>(s: seq<T>, p: T -> bool)
    requires forall i :: 0 <= i < |s| ==> p(s[i])
    ensures Filtrar(s, p) == s
  {
    if s != [] {
      FiltrarTodos(s[1..], p);
    }
  }

  /** Filtering a list whose every element fails gives the empty list. */
  lemma {:induction false} FiltrarNinguno<T>(s: seq<T>, p: T -> bool)
    requires forall i :: 0 <= i < |s| ==> !p(s[i])
    ensures Filtrar(s, p) == []
  {
    if s != [] {
      FiltrarNinguno(s[1..], p);
    }
  }

  /** `s.findIndex(x => x == id)`, reported as `|s|` when there is no such element. */
  function Indice(s: seq<string>, id: string): (k: nat)
    ensures k <= |s|
    ensures k < |s| ==> s[k] == id
    ensures forall i :: 0 <= i < k ==> s[i] != id
  {
    if s == [] then 0 else if s[0] == id then 0 else 1 + Indice(s[1..], id)
  }

  /** `Indice` misses exactly when the id does not occur. */
  lemma IndiceFalla(s: seq<string>, id: string)
    ensures Indice(s, id) == |s| <==> id !in s
  {
  }

  /** `ids.filter(x => x !== id)`: every copy of `id` removed. */
  function Sin(s: seq<string>, id: string): (r: seq<string>)
    ensures |r| <= |s|
    ensures id !in r
    ensures forall x :: x in r <==> x in s && x != id
  {
    if s == [] then [] else (if s[0] != id then [s[0]] else []) + Sin(s[1..], id)
  }

  /** Removing an id that is not there changes nothing. */
  lemma {:induction false} SinAusente(s: seq<string>, id: string)
    requires id !in s
    ensures Sin(s, id) == s
  {
    if s != [] {
      SinAusente(s[1..], id);
    }
  }

  /** Removing every copy after appending one is removing every copy. */
  lemma {:induction false} SinTrasAgregar(s: seq<string>, id: string)
    ensures Sin(s + [id], id) == Sin(s, id)
  {
    if s == [] {
      assert [] + [id] == [id];
    } else {
      assert (s + [id])[0] == s[0];
      assert (s + [id])[1..] == s[1..] + [id];
      SinTrasAgregar(s[1..], id);
    }
  }

  /** How many copies of `id` the list holds. */
  function Copias(s: seq<string>, id: string): nat
  {
    if s == [] then 0 else (if s[0] == id then 1 else 0) + Copias(s[1..], id)
  }

  lemma {:induction false} CopiasAgregar(s: seq<string>, x: string, id: string)
    ensures Copias(s + [x], id) == Copias(s, id) + (if x == id then 1 else 0)
  {
    if s == [] {
      assert [] + [x] == [x];
    } else {
      assert (s + [x])[0] == s[0];
      assert (s + [x])[1..] == s[1..] + [x];
      CopiasAgregar(s[1..], x, id);
    }
  }

  /** A list holds no copy of `id` exactly when `id` is not in it. */
  lemma {:induction false} CopiasCero(s: seq<string>, id: string)
    ensures Copias(s, id) == 0 <==> id !in s
  {
    if s != [] {
      CopiasCero(s[1..], id);
      assert id in s <==> s[0] == id || id in s[1..];
    }
  }
}
