/** `Array.prototype.sort` with a comparator, on sequences. The comparator follows
    the JavaScript convention: a negative or zero answer keeps the first argument
    in front. The order is a stable insertion sort; what the callers rely on is
    that the result is a permutation of the input and is ordered by the
    comparator whenever the comparator is a total preorder on the elements. */
module Orden {

  /** `cmp` is a total preorder on the values satisfying `dom`: any two of them are
      comparable, and "not after" is transitive. */
  ghost predicate Preorden<T(!new)>(cmp: (T, T) -> int, dom: T -> bool) {
    (forall x, y :: dom(x) && dom(y) ==> cmp(x, y) <= 0 || cmp(y, x) <= 0)
    && (forall x, y, z :: dom(x) && dom(y) && dom(z) && cmp(x, y) <= 0 && cmp(y, z) <= 0 ==> cmp(x, z) <= 0)
  }

  /** No element is placed after one the comparator puts behind it. */
  predicate Ordenado<T>(s: seq<T>, cmp: (T, T) -> int) {
    forall i, j :: 0 <= i < j < |s| ==> cmp(s[i], s[j]) <= 0
  }

  /** Places `x` in front of the first element it does not go after. */
  function Insertar<T>(x: T, s: seq<T>, cmp: (T, T) -> int): (r: seq<T>)
    ensures |r| == |s| + 1
    ensures multiset(r) == multiset(s) + multiset{x}
    ensures forall i :: 0 <= i < |r| ==> r[i] == x || r[i] in s
  {
    if s == [] || cmp(x, s[0]) <= 0 then [x] + s
    else
      assert s == [s[0]] + s[1..];
      [s[0]] + Insertar(x, s[1..], cmp)
  }

  /** `s.slice().sort(cmp)`. */
  function Ordenar<T>(s: seq<T>, cmp: (T, T) -> int): (r: seq<T>)
    ensures |r| == |s|
    ensures multiset(r) == multiset(s)
  {
    if s == [] then []
    else
      assert s == [s[0]] + s[1..];
      Insertar(s[0], Ordenar(s[1..], cmp), cmp)
  }

  lemma EnDominio<T>(s: seq<T>, t: seq<T>, dom: T -> bool)
    requires forall i :: 0 <= i < |s| ==> dom(s[i])
    requires multiset(t) <= multiset(s)
    ensures forall i :: 0 <= i < |t| ==> dom(t[i])
  {
    forall i | 0 <= i < |t|
      ensures dom(t[i])
    {
      assert t[i] in multiset(t);
      assert t[i] in s;
    }
  }

  lemma {:induction false} InsertarOrdenado<T(!new)>(x: T, s: seq<T>, cmp: (T, T) -> int, dom: T -> bool)
    requires Preorden(cmp, dom) && dom(x)
    requires forall i :: 0 <= i < |s| ==> dom(s[i])
    requires Ordenado(s, cmp)
    ensures Ordenado(Insertar(x, s, cmp), cmp)
    decreases |s|
  {
    if s == [] || cmp(x, s[0]) <= 0 {
      DelanteOrdenado(x, s, cmp, dom);
    } else {
      InsertarOrdenado(x, s[1..], cmp, dom);
      CabezaAntes(x, s, cmp, dom);
      ConsOrdenado(s[0], Insertar(x, s[1..], cmp), cmp);
    }
  }

  lemma ConsOrdenado<T>(h: T, u: seq<T>, cmp: (T, T) -> int)
    requires Ordenado(u, cmp)
    requires forall j :: 0 <= j < |u| ==> cmp(h, u[j]) <= 0
    ensures Ordenado([h] + u, cmp)
  {
    var r := [h] + u;
    forall i, j | 0 <= i < j < |r|
      ensures cmp(r[i], r[j]) <= 0
    {
      if i > 0 {
        assert r[i] == u[i - 1] && r[j] == u[j - 1];
      }
    }
  }

  lemma DelanteOrdenado<T(!new)>(x: T, s: seq<T>, cmp: (T, T) -> int, dom: T -> bool)
    requires Preorden(cmp, dom) && dom(x)
    requires forall i :: 0 <= i < |s| ==> dom(s[i])
    requires Ordenado(s, cmp)
    requires s == [] || cmp(x, s[0]) <= 0
    ensures Ordenado([x] + s, cmp)
  {
    var r := [x] + s;
    forall i, j | 0 <= i < j < |r|
      ensures cmp(r[i], r[j]) <= 0
    {
      if i == 0 && j > 1 {
        assert r[j] == s[j - 1];
        assert cmp(x, s[0]) <= 0 && cmp(s[0], s[j - 1]) <= 0;
      } else if i > 0 {
        assert r[i] == s[i - 1] && r[j] == s[j - 1];
      }
    }
  }

  lemma CabezaAntes<T(!new)>(x: T, s: seq<T>, cmp: (T, T) -> int, dom: T -> bool)
    requires Preorden(cmp, dom) && dom(x)
    requires forall i :: 0 <= i < |s| ==> dom(s[i])
    requires Ordenado(s, cmp)
    requires s != [] && cmp(x, s[0]) > 0
    ensures forall j :: 0 <= j < |s| ==> cmp(s[0], Insertar(x, s[1..], cmp)[j]) <= 0
  {
    var t := s[1..];
    var u := Insertar(x, t, cmp);
    assert cmp(s[0], x) <= 0;
    forall j | 0 <= j < |u|
      ensures cmp(s[0], u[j]) <= 0
    {
      if u[j] != x {
        var k :| 0 <= k < |t| && t[k] == u[j];
        assert s[k + 1] == u[j];
      }
    }
  }

  /** Under a total preorder the sorted sequence is ordered. */
  lemma {:induction false} OrdenarOrdenado<T(!new)>(s: seq<T>, cmp: (T, T) -> int, dom: T -> bool)
    requires Preorden(cmp, dom)
    requires forall i :: 0 <= i < |s| ==> dom(s[i])
    ensures Ordenado(Ordenar(s, cmp), cmp)
    decreases |s|
  {
    if s != [] {
      OrdenarOrdenado(s[1..], cmp, dom);
      assert s == [s[0]] + s[1..];
      EnDominio(s, Ordenar(s[1..], cmp), dom);
      InsertarOrdenado(s[0], Ordenar(s[1..], cmp), cmp, dom);
    }
  }

  /** A comparator that subtracts integer keys, `(a, b) => key(a) - key(b)`, is a
      total preorder on every value. */
  lemma PreordenPorClave<T(!new)>(cmp: (T, T) -> int, key: T -> int)
    requires forall x, y :: cmp(x, y) == key(x) - key(y)
    ensures Preorden(cmp, Cualquiera)
  {
  }

  /** The domain of a comparator defined on every value. */
  predicate Cualquiera<T>(x: T) { true }

  /** Sorting by a subtracted key puts the keys in ascending order. */
  lemma OrdenarPorClave<T(!new)>(s: seq<T>, cmp: (T, T) -> int, key: T -> int)
    requires forall x, y :: cmp(x, y) == key(x) - key(y)
    ensures forall i, j :: 0 <= i < j < |s| ==> key(Ordenar(s, cmp)[i]) <= key(Ordenar(s, cmp)[j])
  {
    PreordenPorClave(cmp, key);
    OrdenarOrdenado(s, cmp, Cualquiera);
    var r := Ordenar(s, cmp);
    forall i, j | 0 <= i < j < |s|
      ensures key(r[i]) <= key(r[j])
    {
      assert cmp(r[i], r[j]) <= 0;
    }
  }

  /** Code-point lexicographic order, returning -1, 0 or 1 like `localeCompare`. */
  function CompararTexto(a: string, b: string): (c: int)
    ensures -1 <= c <= 1
    ensures c == 0 <==> a == b
  {
    if a == [] && b == [] then 0
    else if a == [] then -1
    else if b == [] then 1
    else if a[0] < b[0] then -1
    else if a[0] > b[0] then 1
    else
      assert a == [a[0]] + a[1..] && b == [b[0]] + b[1..];
      CompararTexto(a[1..], b[1..])
  }

  lemma {:induction false} CompararTextoAntisimetrico(a: string, b: string)
    ensures CompararTexto(a, b) == -CompararTexto(b, a)
    decreases |a|
  {
    if a != [] && b != [] && a[0] == b[0] {
      CompararTextoAntisimetrico(a[1..], b[1..]);
    }
  }

  lemma {:induction false} CompararTextoTransitivo(a: string, b: string, c: string)
    requires CompararTexto(a, b) <= 0 && CompararTexto(b, c) <= 0
    ensures CompararTexto(a, c) <= 0
    decreases |a|
  {
    if a != [] && b != [] && c != [] && a[0] == b[0] && b[0] == c[0] {
      CompararTextoTransitivo(a[1..], b[1..], c[1..]);
    }
  }
}
