/** The array operations the screens use, on sequences: `filter`, counting with
    `filter(...).length`, first-seen deduplication (`[...new Set(xs)]`) and
    removing one index (`filter((_, i) => i !== index)`). */
module Secuencias {

  predicate SinRepetidos<T(==)>(s: seq<T>) {
    forall i, j :: 0 <= i < j < |s| ==> s[i] != s[j]
  }

  /** One more element of a prefix; a separate fact so that loops over long
      invariants need not rediscover it. */
  lemma PrefijoSiguiente<T>(s: seq<T>, i: nat)
    requires i < |s|
    ensures s[..i + 1] == s[..i] + [s[i]]
  {
  }

  /** `s.filter(p)`: the elements satisfying `p`, in their original order. */
  function Filtrar<T>(s: seq<T>, p: T -> bool): (r: seq<T>)
    ensures |r| <= |s|
    ensures forall i :: 0 <= i < |r| ==> p(r[i]) && r[i] in s
    ensures forall i :: 0 <= i < |s| && p(s[i]) ==> s[i] in r
  {
    if s == [] then [] else (if p(s[0]) then [s[0]] else []) + Filtrar(s[1..], p)
  }

  lemma {:induction false} FiltrarConcatenado<T>(a: seq<T>, b: seq<T>, p: T -> bool)
    ensures Filtrar(a + b, p) == Filtrar(a, p) + Filtrar(b, p)
    decreases |a|
  {
    if a == [] {
      assert a + b == b;
    } else {
      assert (a + b)[1..] == a[1..] + b;
      FiltrarConcatenado(a[1..], b, p);
    }
  }

  /** Two tests that agree on every element select the same elements. */
  lemma {:induction false} FiltrarIguales<T>(s: seq<T>, p: T -> bool, q: T -> bool)
    requires forall i :: 0 <= i < |s| ==> p(s[i]) == q(s[i])
    ensures Filtrar(s, p) == Filtrar(s, q)
    decreases |s|
  {
    if s != [] {
      FiltrarIguales(s[1..], p, q);
    }
  }

  /** A filter every element passes keeps the whole sequence. */
  lemma {:induction false} FiltrarTodos<T>(s: seq<T>, p: T -> bool)
    requires forall i :: 0 <= i < |s| ==> p(s[i])
    ensures Filtrar(s, p) == s
    decreases |s|
  {
    if s != [] {
      FiltrarTodos(s[1..], p);
    }
  }

  /** A filter no element passes keeps nothing. */
  lemma {:induction false} FiltrarNinguno<T>(s: seq<T>, p: T -> bool)
    requires forall i :: 0 <= i < |s| ==> !p(s[i])
    ensures Filtrar(s, p) == []
    decreases |s|
  {
    if s != [] {
      FiltrarNinguno(s[1..], p);
    }
  }

  /** Filtering by `q` and then by `p` is filtering by both at once. */
  lemma {:induction false} FiltrarDosVeces<T>(s: seq<T>, p: T -> bool, q: T -> bool, pq: T -> bool)
    requires forall x :: pq(x) == (p(x) && q(x))
    ensures Filtrar(Filtrar(s, q), p) == Filtrar(s, pq)
    decreases |s|
  {
    if s != [] {
      FiltrarDosVeces(s[1..], p, q, pq);
      var cabeza := if q(s[0]) then [s[0]] else [];
      FiltrarConcatenado(cabeza, Filtrar(s[1..], q), p);
      if q(s[0]) {
        assert cabeza[1..] == [];
      }
    }
  }

  /** A filter that keeps something was passed by some element. */
  lemma HayEnUno<T>(s: seq<T>, p: T -> bool)
    requires Filtrar(s, p) != []
    ensures exists i :: 0 <= i < |s| && p(s[i])
  {
    var r := Filtrar(s, p);
    assert p(r[0]) && r[0] in s;
  }

  /** A filter that keeps nothing was passed by no element. */
  lemma NingunoEnUno<T>(s: seq<T>, p: T -> bool)
    requires Filtrar(s, p) == []
    ensures forall i :: 0 <= i < |s| ==> !p(s[i])
  {
  }

  /** Two successive filters keep something exactly when some element passes
      both; `pq` is the two tests at once. */
  lemma HayEnAmbos<T>(s: seq<T>, p: T -> bool, q: T -> bool, pq: T -> bool)
    requires forall x :: pq(x) == (q(x) && p(x))
    requires Filtrar(Filtrar(s, p), q) != []
    ensures exists i :: 0 <= i < |s| && p(s[i]) && q(s[i])
  {
    FiltrarDosVeces(s, q, p, pq);
    HayEnUno(s, pq);
  }

  lemma NingunoEnAmbos<T>(s: seq<T>, p: T -> bool, q: T -> bool, pq: T -> bool)
    requires forall x :: pq(x) == (q(x) && p(x))
    requires Filtrar(Filtrar(s, p), q) == []
    ensures forall i :: 0 <= i < |s| && p(s[i]) ==> !q(s[i])
  {
    FiltrarDosVeces(s, q, p, pq);
    NingunoEnUno(s, pq);
  }

  /** `s.filter(p).length`. */
  function Contar<T>(s: seq<T>, p: T -> bool): nat {
    |Filtrar(s, p)|
  }

  lemma {:induction false} ContarUltimo<T>(s: seq<T>, p: T -> bool)
    requires s != []
    ensures Contar(s, p) == Contar(s[..|s| - 1], p) + (if p(s[|s| - 1]) then 1 else 0)
  {
    assert s == s[..|s| - 1] + [s[|s| - 1]];
    FiltrarConcatenado(s[..|s| - 1], [s[|s| - 1]], p);
  }

  /** Some element passes exactly when the count is positive. */
  lemma ContarPositivo<T>(s: seq<T>, p: T -> bool)
    ensures Contar(s, p) > 0 <==> exists i :: 0 <= i < |s| && p(s[i])
  {
    var r := Filtrar(s, p);
    if r != [] {
      assert r[0] in r;
    }
  }

  lemma DosImplicanContar<T>(s: seq<T>, p: T -> bool, i: nat, j: nat)
    requires i < j < |s| && p(s[i]) && p(s[j])
    ensures Contar(s, p) >= 2
  {
    assert s == s[..j] + s[j..];
    FiltrarConcatenado(s[..j], s[j..], p);
    assert s[..j][i] == s[i];
    ContarPositivo(s[..j], p);
    assert s[j..][0] == s[j];
    ContarPositivo(s[j..], p);
  }

  lemma ContarCabeza<T>(s: seq<T>, p: T -> bool)
    requires s != []
    ensures Contar(s, p) == Contar(s[1..], p) + (if p(s[0]) then 1 else 0)
  {
    assert Filtrar(s, p) == (if p(s[0]) then [s[0]] else []) + Filtrar(s[1..], p);
  }

  lemma {:induction false} ContarImplicaDos<T>(s: seq<T>, p: T -> bool)
    requires Contar(s, p) >= 2
    ensures exists i, j :: 0 <= i < j < |s| && p(s[i]) && p(s[j])
    decreases |s|
  {
    var t := s[1..];
    ContarCabeza(s, p);
    if p(s[0]) {
      ContarPositivo(t, p);
      var k :| 0 <= k < |t| && p(t[k]);
      assert p(s[0]) && p(s[k + 1]);
    } else {
      ContarImplicaDos(t, p);
      var i, j :| 0 <= i < j < |t| && p(t[i]) && p(t[j]);
      assert p(s[i + 1]) && p(s[j + 1]);
    }
  }

  /** At least two elements (at different positions) pass exactly when the count is
      at least two. */
  lemma ContarAlMenosDos<T>(s: seq<T>, p: T -> bool)
    ensures Contar(s, p) >= 2 <==> exists i, j :: 0 <= i < j < |s| && p(s[i]) && p(s[j])
  {
    if Contar(s, p) >= 2 {
      ContarImplicaDos(s, p);
    }
    if exists i, j :: 0 <= i < j < |s| && p(s[i]) && p(s[j]) {
      var i, j :| 0 <= i < j < |s| && p(s[i]) && p(s[j]);
      DosImplicanContar(s, p, i, j);
    }
  }

  lemma ContarQuitando<T>(t: seq<T>, j: nat, p: T -> bool)
    requires j < |t|
    ensures Contar(t, p) == Contar(t[..j] + t[j + 1..], p) + (if p(t[j]) then 1 else 0)
  {
    assert t == t[..j] + ([t[j]] + t[j + 1..]);
    FiltrarConcatenado(t[..j], [t[j]] + t[j + 1..], p);
    FiltrarConcatenado([t[j]], t[j + 1..], p);
    FiltrarConcatenado(t[..j], t[j + 1..], p);
  }

  lemma MultisetQuitando<T>(t: seq<T>, j: nat)
    requires j < |t|
    ensures multiset(t[..j] + t[j + 1..]) == multiset(t) - multiset{t[j]}
  {
    assert t == t[..j] + [t[j]] + t[j + 1..];
  }

  /** Where the first element of `s` sits in a permutation `t` of it. */
  lemma IndiceEnPermutacion<T>(s: seq<T>, t: seq<T>) returns (j: nat)
    requires s != [] && multiset(s) == multiset(t)
    ensures j < |t| && t[j] == s[0]
  {
    assert s[0] in multiset(t);
    j :| j < |t| && t[j] == s[0];
  }

  /** Taking the same element out of two permutations leaves two permutations. */
  lemma RestoPermutado<T>(s: seq<T>, t: seq<T>, j: nat)
    requires s != [] && j < |t| && t[j] == s[0] && multiset(s) == multiset(t)
    ensures multiset(s[1..]) == multiset(t[..j] + t[j + 1..])
  {
    MultisetQuitando(t, j);
    assert s == [s[0]] + s[1..];
    assert multiset(s[1..]) == multiset(s) - multiset{s[0]};
  }

  /** A count depends only on the multiset of elements, never on their order. */
  lemma {:induction false} ContarPermutacion<T>(s: seq<T>, t: seq<T>, p: T -> bool)
    requires multiset(s) == multiset(t)
    ensures Contar(s, p) == Contar(t, p)
    decreases |s|
  {
    if s == [] {
      assert |t| == |multiset(t)| == 0;
    } else {
      var j := IndiceEnPermutacion(s, t);
      RestoPermutado(s, t, j);
      ContarPermutacion(s[1..], t[..j] + t[j + 1..], p);
      ContarQuitando(t, j, p);
      ContarCabeza(s, p);
    }
  }

  /** Elements passing `p` and elements passing a disjoint `q` together number at
      most the whole sequence. */
  lemma {:induction false} ContarDisjuntos<T>(s: seq<T>, p: T -> bool, q: T -> bool)
    requires forall x :: !(p(x) && q(x))
    ensures Contar(s, p) + Contar(s, q) <= |s|
    decreases |s|
  {
    if s != [] {
      ContarDisjuntos(s[1..], p, q);
    }
  }

  /** Three tests no element passes twice count at most the whole sequence. */
  lemma {:induction false} ContarTresDisjuntos<T>(s: seq<T>, p: T -> bool, q: T -> bool, r: T -> bool)
    requires forall x :: (if p(x) then 1 else 0) + (if q(x) then 1 else 0) + (if r(x) then 1 else 0) <= 1
    ensures Contar(s, p) + Contar(s, q) + Contar(s, r) <= |s|
    decreases |s|
  {
    if s != [] {
      ContarTresDisjuntos(s[1..], p, q, r);
      assert (if p(s[0]) then 1 else 0) + (if q(s[0]) then 1 else 0) + (if r(s[0]) then 1 else 0) <= 1;
    }
  }

  /** Three predicates that between them take every element exactly once split
      the sequence: their counts add up to its length. */
  lemma {:induction false} ContarParticion<T>(s: seq<T>, p: T -> bool, q: T -> bool, r: T -> bool)
    requires forall x :: (if p(x) then 1 else 0) + (if q(x) then 1 else 0) + (if r(x) then 1 else 0) == 1
    ensures Contar(s, p) + Contar(s, q) + Contar(s, r) == |s|
    decreases |s|
  {
    if s != [] {
      ContarParticion(s[1..], p, q, r);
      assert (if p(s[0]) then 1 else 0) + (if q(s[0]) then 1 else 0) + (if r(s[0]) then 1 else 0) == 1;
    }
  }

  /** `[...new Set(s)]`: every element once, in the order of first appearance. */
  function Distintos<T(==)>(s: seq<T>): (r: seq<T>)
    ensures SinRepetidos(r)
    ensures forall i :: 0 <= i < |r| ==> r[i] in s
    ensures forall i :: 0 <= i < |s| ==> s[i] in r
  {
    if s == [] then []
    else
      var d := Distintos(s[..|s| - 1]);
      if s[|s| - 1] in d then d else d + [s[|s| - 1]]
  }

  /** One more element adds it at the end unless it was already there. */
  lemma DistintosAgregando<T>(s: seq<T>, x: T)
    ensures Distintos(s + [x]) == if x in s then Distintos(s) else Distintos(s) + [x]
  {
    assert (s + [x])[..|s|] == s;
  }

  /** Extending the input only appends to the deduplicated list, so earlier
      first appearances keep their places. */
  lemma {:induction false} DistintosPrefijo<T>(s: seq<T>, n: nat)
    requires n <= |s|
    ensures Distintos(s[..n]) <= Distintos(s)
    decreases |s| - n
  {
    if n < |s| {
      DistintosPrefijo(s, n + 1);
      assert s[..n + 1][..n] == s[..n];
    } else {
      assert s[..n] == s;
    }
  }

  // Order: a result read off its input at increasing positions.

  /** `r` is `s` read at the strictly increasing positions `idx`, so `r` keeps
      the relative order its elements have in `s`. */
  ghost predicate Incrustado<T>(r: seq<T>, s: seq<T>, idx: seq<nat>) {
    |idx| == |r|
    && (forall k :: 0 <= k < |idx| ==> idx[k] < |s| && r[k] == s[idx[k]])
    && (forall k, l :: 0 <= k < l < |idx| ==> idx[k] < idx[l])
  }

  /** Every position one further on. */
  function Desplazados(idx: seq<nat>): (d: seq<nat>)
    ensures |d| == |idx| && forall k :: 0 <= k < |d| ==> d[k] == idx[k] + 1
  {
    seq(|idx|, k requires 0 <= k < |idx| => idx[k] + 1)
  }

  /** Positions into `s[1..]` shifted by one are positions into `s`. */
  lemma IncrustadoEnCola<T>(r: seq<T>, s: seq<T>, idx: seq<nat>)
    requires s != [] && Incrustado(r, s[1..], idx)
    ensures Incrustado(r, s, Desplazados(idx))
    ensures forall i :: 0 <= i < |s| - 1 ==> (i + 1 in Desplazados(idx) <==> i in idx)
    ensures 0 !in Desplazados(idx)
  {
    var d := Desplazados(idx);
    forall k | 0 <= k < |d|
      ensures d[k] < |s| && r[k] == s[d[k]]
    {
      assert s[1..][idx[k]] == s[idx[k] + 1];
    }
    forall i | 0 <= i < |s| - 1
      ensures i + 1 in d <==> i in idx
    {
      if i in idx {
        var k :| 0 <= k < |idx| && idx[k] == i;
        assert d[k] == i + 1;
      }
    }
  }

  /** The head goes in front of an embedding that avoids position 0. */
  lemma IncrustadoConCabeza<T>(r: seq<T>, s: seq<T>, d: seq<nat>)
    requires s != [] && Incrustado(r, s, d)
    requires forall k :: 0 <= k < |d| ==> d[k] > 0
    ensures Incrustado([s[0]] + r, s, [0] + d)
  {
    var e := [0] + d;
    forall k | 0 <= k < |e|
      ensures e[k] < |s| && ([s[0]] + r)[k] == s[e[k]]
    {
      if k > 0 {
        assert e[k] == d[k - 1];
      }
    }
    forall k, l | 0 <= k < l < |e|
      ensures e[k] < e[l]
    {
      if k > 0 {
        assert e[k] == d[k - 1] && e[l] == d[l - 1];
      }
    }
  }

  /** Every sequence embeds in itself at every position. */
  lemma IncrustadoEnSiMismo<T>(s: seq<T>) returns (idx: seq<nat>)
    ensures Incrustado(s, s, idx)
    ensures forall i :: 0 <= i < |s| ==> i in idx
  {
    idx := seq(|s|, i requires 0 <= i < |s| => i);
    forall i | 0 <= i < |s|
      ensures i in idx
    {
      assert idx[i] == i;
    }
  }

  /** `filter` keeps the passing elements in their original order: the result
      is the input read at exactly the positions whose element passes. */
  lemma {:induction false} FiltrarEnOrden<T>(s: seq<T>, p: T -> bool) returns (idx: seq<nat>)
    ensures Incrustado(Filtrar(s, p), s, idx)
    ensures forall i :: 0 <= i < |s| ==> (i in idx <==> p(s[i]))
    decreases |s|
  {
    if s == [] {
      idx := [];
    } else {
      var resto := FiltrarEnOrden(s[1..], p);
      assert Filtrar(s, p) == (if p(s[0]) then [s[0]] else []) + Filtrar(s[1..], p);
      idx := PasosEnOrden(s, p, Filtrar(s[1..], p), resto);
    }
  }

  /** One step of `FiltrarEnOrden`: the head goes in front exactly when it
      passes. */
  lemma PasosEnOrden<T>(s: seq<T>, p: T -> bool, r: seq<T>, resto: seq<nat>) returns (idx: seq<nat>)
    requires s != [] && Incrustado(r, s[1..], resto)
    requires forall i :: 0 <= i < |s| - 1 ==> (i in resto <==> p(s[1..][i]))
    ensures Incrustado((if p(s[0]) then [s[0]] else []) + r, s, idx)
    ensures forall i :: 0 <= i < |s| ==> (i in idx <==> p(s[i]))
  {
    IncrustadoEnCola(r, s, resto);
    var d := Desplazados(resto);
    if p(s[0]) {
      assert forall k :: 0 <= k < |d| ==> d[k] in d;
      IncrustadoConCabeza(r, s, d);
      idx := [0] + d;
    } else {
      idx := d;
      assert [] + r == r;
    }
    forall i | 0 <= i < |s|
      ensures i in idx <==> p(s[i])
    {
      if i > 0 {
        assert s[1..][i - 1] == s[i];
        assert i in idx <==> i in d;
      }
    }
  }

  /** `[...new Set(s)]` keeps first appearances in their original order: the
      result is the input read at exactly the positions where an element occurs
      for the first time. */
  lemma {:induction false} DistintosEnOrden<T>(s: seq<T>) returns (idx: seq<nat>)
    ensures Incrustado(Distintos(s), s, idx)
    ensures forall i :: 0 <= i < |s| ==> (i in idx <==> s[i] !in s[..i])
    decreases |s|
  {
    if s == [] {
      idx := [];
    } else {
      var t := s[..|s| - 1];
      var resto := DistintosEnOrden(t);
      DistintosMismos(t);
      idx := PrimerasEnOrden(s, Distintos(t), resto);
    }
  }

  lemma DistintosMismos<T>(s: seq<T>)
    ensures forall x :: x in Distintos(s) <==> x in s
  {
    var d := Distintos(s);
    forall x
      ensures x in d <==> x in s
    {
      if x in d {
        var k :| 0 <= k < |d| && d[k] == x;
      }
      if x in s {
        var k :| 0 <= k < |s| && s[k] == x;
      }
    }
  }

  /** One step of `DistintosEnOrden`: the last element is a new position exactly
      when it did not occur before. */
  lemma PrimerasEnOrden<T>(s: seq<T>, d: seq<T>, resto: seq<nat>) returns (idx: seq<nat>)
    requires s != [] && Incrustado(d, s[..|s| - 1], resto)
    requires forall i :: 0 <= i < |s| - 1 ==> (i in resto <==> s[..|s| - 1][i] !in s[..|s| - 1][..i])
    requires forall x :: x in d <==> x in s[..|s| - 1]
    ensures Incrustado(if s[|s| - 1] in d then d else d + [s[|s| - 1]], s, idx)
    ensures forall i :: 0 <= i < |s| ==> (i in idx <==> s[i] !in s[..i])
  {
    var n := |s| - 1;
    var t := s[..n];
    IncrustadoEnPrefijo(d, s, resto, n);
    if s[n] in d {
      idx := resto;
    } else {
      idx := resto + [n];
    }
    forall i | 0 <= i < |s|
      ensures i in idx <==> s[i] !in s[..i]
    {
      if i < n {
        assert t[i] == s[i] && t[..i] == s[..i];
        assert i in idx <==> i in resto;
      } else {
        assert s[..i] == t;
        assert n !in resto;
      }
    }
  }

  /** Positions into a prefix are positions into the whole, all below the
      prefix's end, and the next position may follow them. */
  lemma IncrustadoEnPrefijo<T>(r: seq<T>, s: seq<T>, idx: seq<nat>, n: nat)
    requires n < |s| && Incrustado(r, s[..n], idx)
    ensures Incrustado(r, s, idx)
    ensures forall k :: 0 <= k < |idx| ==> idx[k] < n
    ensures Incrustado(r + [s[n]], s, idx + [n])
  {
    forall k | 0 <= k < |idx|
      ensures idx[k] < |s| && r[k] == s[idx[k]]
    {
      assert s[..n][idx[k]] == s[idx[k]];
    }
    var e := idx + [n];
    forall k | 0 <= k < |e|
      ensures e[k] < |s| && (r + [s[n]])[k] == s[e[k]]
    {
      if k < |idx| {
        assert e[k] == idx[k];
      }
    }
  }

  /** `s.filter((_, k) => k !== i)`: the element at `i` is gone and the others keep
      their order; an index outside the sequence removes nothing. */
  function EliminarEn<T>(s: seq<T>, i: int): (r: seq<T>)
    ensures 0 <= i < |s| ==>
              |r| == |s| - 1
              && (forall k :: 0 <= k < i ==> r[k] == s[k])
              && (forall k :: i <= k < |r| ==> r[k] == s[k + 1])
    ensures !(0 <= i < |s|) ==> r == s
  {
    if 0 <= i < |s| then s[..i] + s[i + 1..] else s
  }

  /** Occurrences of `x` in `s`. */
  function Ocurrencias<T(==)>(s: seq<T>, x: T): nat {
    if s == [] then 0 else Ocurrencias(s[..|s| - 1], x) + (if s[|s| - 1] == x then 1 else 0)
  }

  /** The sum of `Ocurrencias(s, k)` over the keys `ks`. */
  function SumaOcurrencias<T(==)>(ks: seq<T>, s: seq<T>): nat {
    if ks == [] then 0 else Ocurrencias(s, ks[0]) + SumaOcurrencias(ks[1..], s)
  }

  lemma {:induction false} SumaOcurrenciasUltimo<T>(ks: seq<T>, s: seq<T>)
    requires s != [] && SinRepetidos(ks)
    ensures SumaOcurrencias(ks, s) == SumaOcurrencias(ks, s[..|s| - 1]) + (if s[|s| - 1] in ks then 1 else 0)
    decreases |ks|
  {
    if ks != [] {
      SumaOcurrenciasUltimo(ks[1..], s);
      assert s[|s| - 1] in ks <==> s[|s| - 1] == ks[0] || s[|s| - 1] in ks[1..];
      assert s[|s| - 1] == ks[0] ==> ks[0] !in ks[1..];
    }
  }

  /** Counting each distinct key once accounts for every element: when the keys
      are distinct and cover `s`, the per-key counts add up to `|s|`. */
  lemma {:induction false} SumaOcurrenciasTotal<T>(ks: seq<T>, s: seq<T>)
    requires SinRepetidos(ks)
    requires forall x :: x in s ==> x in ks
    ensures SumaOcurrencias(ks, s) == |s|
    decreases |s|
  {
    if s == [] {
      SumaOcurrenciasVacio(ks);
    } else {
      SumaOcurrenciasUltimo(ks, s);
      SumaOcurrenciasTotal(ks, s[..|s| - 1]);
    }
  }

  lemma {:induction false} SumaOcurrenciasVacio<T>(ks: seq<T>)
    ensures SumaOcurrencias(ks, []) == 0
    decreases |ks|
  {
    if ks != [] {
      SumaOcurrenciasVacio(ks[1..]);
    }
  }

  /** A sequence without repeats is its own deduplication. */
  lemma {:induction false} DistintosSinRepetidos<T>(s: seq<T>)
    requires SinRepetidos(s)
    ensures Distintos(s) == s
    decreases |s|
  {
    if s != [] {
      var u := s[..|s| - 1];
      assert SinRepetidos(u);
      DistintosSinRepetidos(u);
      assert s[|s| - 1] !in u;
      assert u + [s[|s| - 1]] == s;
    }
  }

  lemma {:induction false} OcurrenciasAusente<T>(s: seq<T>, x: T)
    requires x !in s
    ensures Ocurrencias(s, x) == 0
    decreases |s|
  {
    if s != [] {
      OcurrenciasAusente(s[..|s| - 1], x);
    }
  }

  /** Distinct keys never count an element twice: their counts add up to at most
      `|s|`. */
  lemma {:induction false} SumaOcurrenciasCota<T>(ks: seq<T>, s: seq<T>)
    requires SinRepetidos(ks)
    ensures SumaOcurrencias(ks, s) <= |s|
    decreases |s|
  {
    if s == [] {
      SumaOcurrenciasVacio(ks);
    } else {
      SumaOcurrenciasUltimo(ks, s);
      SumaOcurrenciasCota(ks, s[..|s| - 1]);
    }
  }

  lemma {:induction false} UnaVezComoMucho<T>(s: seq<T>, x: T)
    requires SinRepetidos(s)
    ensures multiset(s)[x] <= 1
    decreases |s|
  {
    if s != [] {
      var u := s[1..];
      UnaVezComoMucho(u, x);
      assert s == [s[0]] + u;
      assert s[0] !in u;
    }
  }

  /** A permutation of a sequence without repeats has none either. */
  lemma PermutacionSinRepetidos<T>(s: seq<T>, t: seq<T>)
    requires multiset(s) == multiset(t) && SinRepetidos(s)
    ensures SinRepetidos(t)
  {
    forall i, j | 0 <= i < j < |t|
      ensures t[i] != t[j]
    {
      UnaVezComoMucho(s, t[j]);
      var a, b := t[..j], t[j..];
      assert t == a + b;
      assert a[i] == t[i] && b[0] == t[j];
      assert multiset(t) == multiset(a) + multiset(b);
    }
  }
}
