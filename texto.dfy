/** The few JavaScript string operations the screens use: `trim`, `toLowerCase`,
    `includes`, `padStart(2, '0')`, integer-to-text, `split(c)[0]` and
    `parseInt(s, 10)`. */
module Texto {
  import opened Opciones
  import Secuencias

  /** The characters `String.prototype.trim` removes: ECMAScript WhiteSpace and
      LineTerminator. */
  predicate EsEspacio(c: char) {
    c == ' ' || c == '\t' || c == '\n' || c == '\r' || c == '\U{B}' || c == '\U{C}'
    || c == '\U{A0}' || c == '\U{FEFF}' || c == '\U{1680}' || ('\U{2000}' <= c <= '\U{200A}')
    || c == '\U{2028}' || c == '\U{2029}' || c == '\U{202F}' || c == '\U{205F}' || c == '\U{3000}'
  }

  function RecortarInicio(s: string): (r: string)
    ensures |r| <= |s| && r == s[|s| - |r|..]
    ensures forall i :: 0 <= i < |s| - |r| ==> EsEspacio(s[i])
    ensures r == [] || !EsEspacio(r[0])
  {
    if s != [] && EsEspacio(s[0]) then RecortarInicio(s[1..]) else s
  }

  function RecortarFin(s: string): (r: string)
    ensures |r| <= |s| && r == s[..|r|]
    ensures forall i :: |r| <= i < |s| ==> EsEspacio(s[i])
    ensures r == [] || !EsEspacio(r[|r| - 1])
  {
    if s != [] && EsEspacio(s[|s| - 1]) then RecortarFin(s[..|s| - 1]) else s
  }

  /** `s.trim()`: no whitespace is left at either end, and the result is empty
      exactly when `s` is nothing but whitespace. */
  function Recortar(s: string): (r: string)
    ensures r == [] || (!EsEspacio(r[0]) && !EsEspacio(r[|r| - 1]))
    ensures r == [] <==> forall i :: 0 <= i < |s| ==> EsEspacio(s[i])
  {
    var a := RecortarInicio(s);
    var r := RecortarFin(a);
    r
  }

  /** A blank field: `!s.trim()`. */
  predicate EsBlanco(s: string) {
    Recortar(s) == []
  }

  /** Trimming is idempotent, so every value stored trimmed is left unchanged by
      trimming it again. */
  lemma RecortarIdempotente(s: string)
    ensures Recortar(Recortar(s)) == Recortar(s)
  {
    var r := Recortar(s);
    if r != [] {
      assert RecortarInicio(r) == r;
      assert RecortarFin(r) == r;
    }
  }

  /** `x || null` on a text value: the empty string is falsy. */
  function NuloSiVacio(s: string): (r: Option<string>)
    ensures r.None? <==> s == []
    ensures r.Some? ==> r.value == s
  {
    if s == [] then None else Some(s)
  }

  /** `x || d` on a column that may be null: null and the empty string fall back
      to `d`. */
  function ODefecto(x: Option<string>, d: string): (r: string)
    ensures x.Some? && x.value != [] ==> r == x.value
    ensures x.None? || x.value == [] ==> r == d
  {
    if x.Some? && x.value != [] then x.value else d
  }

  /** Storing `x || null` and reading it back with `|| ''` gives the text back. */
  lemma NuloSiVacioIdaVuelta(s: string)
    ensures ODefecto(NuloSiVacio(s), "") == s
    ensures NuloSiVacio(ODefecto(NuloSiVacio(s), "")) == NuloSiVacio(s)
  {
  }

  /** `toLowerCase` on ASCII and the Latin-1 capitals (À..Þ without ×). */
  function MinusculaChar(c: char): char {
    if 'A' <= c <= 'Z' || ('\U{C0}' <= c <= '\U{DE}' && c != '\U{D7}') then (c as int + 32) as char else c
  }

  function Minusculas(s: string): (r: string)
    ensures |r| == |s| && forall i :: 0 <= i < |s| ==> r[i] == MinusculaChar(s[i])
  {
    seq(|s|, i requires 0 <= i < |s| => MinusculaChar(s[i]))
  }

  /** `s.includes(q)`: `q` occurs in `s` at some position. */
  function Contiene(s: string, q: string): (r: bool)
    ensures r <==> exists k :: 0 <= k <= |s| && q <= s[k..]
    ensures q == [] ==> r
    ensures r ==> |q| <= |s|
    decreases |s|
  {
    if q <= s then
      assert s[0..] == s;
      true
    else if s == [] then
      assert forall k :: 0 <= k <= |s| ==> s[k..] == s;
      false
    else
      assert s[0..] == s;
      assert forall k :: 1 <= k <= |s| ==> s[1..][k - 1..] == s[k..];
      Contiene(s[1..], q)
  }

  /** How a search box matches a field: both lowercased, then `includes`. */
  predicate CoincideBusqueda(campo: string, busqueda: string) {
    Contiene(Minusculas(campo), Minusculas(busqueda))
  }

  /** An empty search matches every field. */
  lemma BusquedaVaciaCoincide(campo: string)
    ensures CoincideBusqueda(campo, "")
  {
  }

  predicate EsDigito(c: char) {
    '0' <= c <= '9'
  }

  predicate SoloDigitos(s: string) {
    forall i :: 0 <= i < |s| ==> EsDigito(s[i])
  }

  function Digito(d: nat): (c: char)
    requires d < 10
    ensures EsDigito(c) && c as int - '0' as int == d
  {
    ('0' as int + d) as char
  }

  /** `n.toString()` for a non-negative integer. */
  function NatATexto(n: nat): (r: string)
    ensures |r| >= 1 && SoloDigitos(r)
    decreases n
  {
    if n < 10 then [Digito(n)] else NatATexto(n / 10) + [Digito(n % 10)]
  }

  /** `String(i)` for any integer: a minus sign before the digits when negative. */
  function EnteroATexto(i: int): (r: string)
    ensures i >= 0 ==> r == NatATexto(i)
    ensures i < 0 ==> r == "-" + NatATexto(-i)
  {
    if i < 0 then "-" + NatATexto(-i) else NatATexto(i)
  }

  /** `xs.filter(Boolean)` on optional texts: the non-empty values, in order. */
  function Presentes(xs: seq<Option<string>>): (r: seq<string>)
    ensures forall i :: 0 <= i < |r| ==> r[i] != [] && Some(r[i]) in xs
    ensures forall i :: 0 <= i < |xs| && xs[i].Some? && xs[i].value != [] ==> xs[i].value in r
  {
    if xs == [] then []
    else
      (if xs[0].Some? && xs[0].value != [] then [xs[0].value] else []) + Presentes(xs[1..])
  }

  /** `[...new Set(xs.filter(Boolean))]`: every non-empty present value, each
      once, in order of first appearance. */
  function DistintosPresentes(xs: seq<Option<string>>): (r: seq<string>)
    ensures Secuencias.SinRepetidos(r)
    ensures forall i :: 0 <= i < |r| ==> r[i] != [] && Some(r[i]) in xs
    ensures forall j :: 0 <= j < |xs| && xs[j].Some? && xs[j].value != [] ==> xs[j].value in r
    ensures var p := Presentes(xs);
            exists idx: seq<nat> :: Secuencias.Incrustado(r, p, idx) && forall i :: 0 <= i < |p| ==> (i in idx <==> p[i] !in p[..i])
  {
    PresentesDistintos(xs);
    PrimerasPresentes(xs);
    Secuencias.Distintos(Presentes(xs))
  }

  lemma PrimerasPresentes(xs: seq<Option<string>>)
    ensures exists idx: seq<nat> :: Secuencias.Incrustado(Secuencias.Distintos(Presentes(xs)), Presentes(xs), idx)
              && forall i :: 0 <= i < |Presentes(xs)| ==> (i in idx <==> Presentes(xs)[i] !in Presentes(xs)[..i])
  {
    var p := Presentes(xs);
    var idx := Secuencias.DistintosEnOrden(p);
    assert Secuencias.Incrustado(Secuencias.Distintos(p), p, idx)
           && forall i :: 0 <= i < |p| ==> (i in idx <==> p[i] !in p[..i]);
  }

  /** What `filter(Boolean)` keeps of an optional text. */
  predicate Presente(x: Option<string>) {
    x.Some? && x.value != []
  }

  function Envueltos(r: seq<string>): (e: seq<Option<string>>)
    ensures |e| == |r| && forall k :: 0 <= k < |r| ==> e[k] == Some(r[k])
  {
    seq(|r|, k requires 0 <= k < |r| => Some(r[k]))
  }

  /** The present values, put back as options, are the filter itself. */
  lemma {:induction false} PresentesSonFiltrar(xs: seq<Option<string>>)
    ensures Envueltos(Presentes(xs)) == Secuencias.Filtrar(xs, Presente)
    decreases |xs|
  {
    if xs != [] {
      PresentesSonFiltrar(xs[1..]);
      var c := if Presente(xs[0]) then [xs[0].value] else [];
      var e := Envueltos(c + Presentes(xs[1..]));
      assert e == Envueltos(c) + Envueltos(Presentes(xs[1..]));
      assert Envueltos(c) == if Presente(xs[0]) then [xs[0]] else [];
    }
  }

  /** `filter(Boolean)` keeps the present values in their order: the result is
      the input read at exactly the positions holding a present value. */
  lemma PresentesEnOrden(xs: seq<Option<string>>) returns (idx: seq<nat>)
    ensures Secuencias.Incrustado(Envueltos(Presentes(xs)), xs, idx)
    ensures forall i :: 0 <= i < |xs| ==> (i in idx <==> Presente(xs[i]))
  {
    PresentesSonFiltrar(xs);
    idx := Secuencias.FiltrarEnOrden(xs, Presente);
  }

  lemma PresentesDistintos(xs: seq<Option<string>>)
    ensures forall i :: 0 <= i < |Secuencias.Distintos(Presentes(xs))| ==>
              Secuencias.Distintos(Presentes(xs))[i] != [] && Some(Secuencias.Distintos(Presentes(xs))[i]) in xs
    ensures forall j :: 0 <= j < |xs| && xs[j].Some? && xs[j].value != [] ==> xs[j].value in Secuencias.Distintos(Presentes(xs))
  {
    var p := Presentes(xs);
    var d := Secuencias.Distintos(p);
    forall i | 0 <= i < |d|
      ensures d[i] != [] && Some(d[i]) in xs
    {
      var m :| 0 <= m < |p| && p[m] == d[i];
    }
    forall j | 0 <= j < |xs| && xs[j].Some? && xs[j].value != []
      ensures xs[j].value in d
    {
      var m :| 0 <= m < |p| && p[m] == xs[j].value;
    }
  }

  /** The value of a run of decimal digits. */
  function ValorDigitos(d: string): nat
    requires SoloDigitos(d)
  {
    if d == [] then 0 else ValorDigitos(d[..|d| - 1]) * 10 + (d[|d| - 1] as int - '0' as int)
  }

  lemma {:induction false} ValorDeNatATexto(n: nat)
    ensures ValorDigitos(NatATexto(n)) == n
    decreases n
  {
    if n >= 10 {
      var t := NatATexto(n);
      assert t[..|t| - 1] == NatATexto(n / 10);
      ValorDeNatATexto(n / 10);
    }
  }

  lemma {:induction false} CeroInicialNoCuenta(d: string)
    requires SoloDigitos(d)
    ensures SoloDigitos(['0'] + d) && ValorDigitos(['0'] + d) == ValorDigitos(d)
    decreases |d|
  {
    if d != [] {
      var z := ['0'] + d;
      assert z[..|z| - 1] == ['0'] + d[..|d| - 1];
      CeroInicialNoCuenta(d[..|d| - 1]);
    }
  }

  /** The longest prefix of `s` made of decimal digits. */
  function DigitosIniciales(s: string): (r: string)
    ensures r <= s && SoloDigitos(r) && (|r| < |s| ==> !EsDigito(s[|r|]))
  {
    if s != [] && EsDigito(s[0]) then [s[0]] + DigitosIniciales(s[1..]) else []
  }

  lemma {:induction false} DigitosInicialesDe(d: string, resto: string)
    requires SoloDigitos(d)
    requires resto == [] || !EsDigito(resto[0])
    ensures DigitosIniciales(d + resto) == d
    decreases |d|
  {
    if d != [] {
      assert (d + resto)[1..] == d[1..] + resto;
      DigitosInicialesDe(d[1..], resto);
    }
  }

  /** The unsigned part of `parseInt(s, 10)`: the value of the leading digits, or
      `None` when `s` does not start with a digit. */
  function ParsearEntero(s: string): (r: Option<nat>)
    ensures r.None? <==> (s == [] || !EsDigito(s[0]))
  {
    var d := DigitosIniciales(s);
    if d == [] then None else Some(ValorDigitos(d))
  }

  /** `parseInt(s, 10)`: leading blanks are skipped, then an optional sign and the
      leading digits are read; `None` stands for NaN, when no digit follows. */
  function ParsearEnteroConSigno(s: string): Option<int> {
    var t := RecortarInicio(s);
    if t != [] && (t[0] == '-' || t[0] == '+') then
      match ParsearEntero(t[1..])
      case None => None
      case Some(n) => Some(if t[0] == '-' then 0 - n as int else n as int)
    else
      match ParsearEntero(t)
      case None => None
      case Some(n) => Some(n as int)
  }

  /** A number printed by `toString()` and followed by a non-digit reads back as
      itself. */
  lemma LeerNatATexto(n: nat, resto: string)
    requires resto == [] || !EsDigito(resto[0])
    ensures ParsearEntero(NatATexto(n) + resto) == Some(n)
  {
    ValorDeNatATexto(n);
    DigitosInicialesDe(NatATexto(n), resto);
  }

  /** A text that starts with a digit is read without blanks or sign. */
  lemma ParsearDesdeDigito(s: string)
    requires s != [] && EsDigito(s[0])
    ensures ParsearEnteroConSigno(s) == ParsearEntero(s)
  {
    DigitoNoEsEspacio(s[0]);
    assert RecortarInicio(s) == s;
    assert s[0] != '-' && s[0] != '+';
    assert ParsearEntero(s).Some?;
  }

  lemma DigitoNoEsEspacio(c: char)
    requires EsDigito(c)
    ensures !EsEspacio(c)
  {
  }

  /** Every integer printed by `String(i)` and followed by a non-digit reads back as
      itself. */
  lemma ParsearEnteroATexto(i: int, resto: string)
    requires resto == [] || !EsDigito(resto[0])
    ensures ParsearEnteroConSigno(EnteroATexto(i) + resto) == Some(i)
  {
    if i < 0 {
      var m: nat := -i;
      assert EnteroATexto(i) + resto == "-" + NatATexto(m) + resto;
      LeerNegativo(m, resto);
    } else {
      assert EnteroATexto(i) + resto == NatATexto(i) + resto;
      LeerPositivo(i, resto);
    }
  }

  lemma LeerPositivo(m: nat, resto: string)
    requires resto == [] || !EsDigito(resto[0])
    ensures ParsearEnteroConSigno(NatATexto(m) + resto) == Some(m)
  {
    var d := NatATexto(m);
    LeerNatATexto(m, resto);
    assert EsDigito((d + resto)[0]);
    ParsearDesdeDigito(d + resto);
  }

  lemma LeerNegativo(m: nat, resto: string)
    requires resto == [] || !EsDigito(resto[0])
    ensures ParsearEnteroConSigno("-" + NatATexto(m) + resto) == Some(0 - m)
  {
    var d := NatATexto(m);
    var x := d + resto;
    assert ParsearEntero(x) == Some(m) by {
      LeerNatATexto(m, resto);
    }
    assert "-" + d + resto == "-" + x;
    ParsearNegativo(x, m);
  }

  /** A minus sign before a readable number negates it. */
  lemma ParsearNegativo(x: string, n: nat)
    requires ParsearEntero(x) == Some(n)
    ensures ParsearEnteroConSigno("-" + x) == Some(0 - n)
  {
    var t := "-" + x;
    assert t[0] == '-' && t[1..] == x;
    assert RecortarInicio(t) == t;
  }

  /** `s.padStart(2, '0')`. */
  function RellenarDos(s: string): (r: string)
    ensures |r| == if |s| < 2 then 2 else |s|
    ensures r[|r| - |s|..] == s
    ensures forall i :: 0 <= i < |r| - |s| ==> r[i] == '0'
  {
    if |s| < 2 then seq(2 - |s|, _ => '0') + s else s
  }

  /** A number padded to two digits and followed by a non-digit reads back as the
      same number. */
  lemma {:induction false} ParsearRellenado(n: nat, resto: string)
    requires resto == [] || !EsDigito(resto[0])
    ensures ParsearEntero(RellenarDos(NatATexto(n)) + resto) == Some(n)
  {
    var t := NatATexto(n);
    var p := RellenarDos(t);
    ValorDeNatATexto(n);
    if |t| < 2 {
      assert p == ['0'] + t;
      CeroInicialNoCuenta(t);
    }
    assert SoloDigitos(p);
    DigitosInicialesDe(p, resto);
  }

  /** A number padded to two places is still all digits. */
  lemma RellenadoSoloDigitos(n: nat)
    ensures SoloDigitos(RellenarDos(NatATexto(n)))
  {
    var t := NatATexto(n);
    if |t| < 2 {
      assert RellenarDos(t) == ['0'] + t;
    }
  }

  /** `String(k).padStart(2, '0')` reads back as `k` and holds no '/'. */
  lemma RellenadoSeLee(k: int)
    ensures ParsearEnteroConSigno(RellenarDos(EnteroATexto(k))) == Some(k)
    ensures '/' !in RellenarDos(EnteroATexto(k))
  {
    if k >= 0 {
      RellenadoNoNegativo(k);
    } else {
      RellenadoNegativo(k);
    }
  }

  lemma RellenadoNoNegativo(k: nat)
    ensures ParsearEnteroConSigno(RellenarDos(EnteroATexto(k))) == Some(k)
    ensures '/' !in RellenarDos(EnteroATexto(k))
  {
    var p := RellenarDos(NatATexto(k));
    RellenadoSoloDigitos(k);
    ParsearRellenado(k, []);
    assert p + [] == p;
    ParsearDesdeDigito(p);
    assert forall i :: 0 <= i < |p| ==> EsDigito(p[i]);
  }

  lemma RellenadoNegativo(k: int)
    requires k < 0
    ensures ParsearEnteroConSigno(RellenarDos(EnteroATexto(k))) == Some(k)
    ensures '/' !in RellenarDos(EnteroATexto(k))
  {
    var p := EnteroATexto(k);
    assert RellenarDos(p) == p;
    assert ParsearEnteroConSigno(p) == Some(k) by {
      ParsearEnteroATexto(k, []);
      assert p + [] == p;
    }
    assert '/' !in p by {
      SignoYDigitos(NatATexto(-k));
    }
  }

  lemma SignoYDigitos(d: string)
    requires SoloDigitos(d)
    ensures '/' !in "-" + d
  {
    assert forall i :: 1 <= i < |"-" + d| ==> ("-" + d)[i] == d[i - 1];
  }

  /** `s.split(c)[0]`: the text before the first `c`, or all of `s`. */
  function AntesDe(s: string, c: char): (r: string)
    ensures r <= s && c !in r && (|r| < |s| ==> s[|r|] == c)
  {
    if s == [] || s[0] == c then [] else [s[0]] + AntesDe(s[1..], c)
  }

  lemma {:induction false} AntesDeConcatenado(d: string, resto: string, c: char)
    requires c !in d && (resto == [] || resto[0] == c)
    ensures AntesDe(d + resto, c) == d
    decreases |d|
  {
    if d != [] {
      assert (d + resto)[1..] == d[1..] + resto;
      AntesDeConcatenado(d[1..], resto, c);
    } else {
      assert d + resto == resto;
    }
  }
}
