/** The fleet dashboard (`Dashboard.jsx`, `cargarEstadisticas`): equipments
    counted per location, per operational state and per type, each count kept in a
    dictionary that a loop increments, and the location and type tables sorted by
    count, largest first.

    A dictionary is modelled as the sequence of its entries in insertion order,
    which is the order `Object.entries` lists them in for keys that are not array
    indices. */
module Dashboard {
  import opened Opciones
  import opened Texto
  import opened Secuencias
  import opened Orden

  /** The three columns the dashboard reads from each row of `equipos`. */
  datatype FilaEquipo = FilaEquipo(ubicacion: Option<string>, tipo: Option<string>, estado_operativo: Option<string>)

  /** A dictionary entry, and a row of the location and type tables. */
  datatype Conteo = Conteo(nombre: string, cantidad: nat)

  const SIN_UBICACION := "Sin ubicación"
  const SIN_TIPO := "Sin tipo"

  /** The keys `estadosOp` starts with, each at 0. */
  const ESTADOS_INICIALES: seq<string> := ["operativo", "operativo_restricciones", "fuera_servicio"]

  function Claves(cs: seq<Conteo>): (r: seq<string>)
    ensures |r| == |cs| && forall i :: 0 <= i < |cs| ==> r[i] == cs[i].nombre
  {
    seq(|cs|, i requires 0 <= i < |cs| => cs[i].nombre)
  }

  function Total(cs: seq<Conteo>): nat {
    if cs == [] then 0 else cs[0].cantidad + Total(cs[1..])
  }

  /** `cs` is the dictionary a counting loop over `claves` builds from the zeroed
      keys `previas`: the keys in order of first appearance, each with the number
      of times it occurs in `claves`. */
  ghost predicate Cuenta(cs: seq<Conteo>, previas: seq<string>, claves: seq<string>) {
    Claves(cs) == Distintos(previas + claves)
    && forall i :: 0 <= i < |cs| ==> cs[i].cantidad == Ocurrencias(claves, cs[i].nombre)
  }

  /** The key looked up in the dictionary, or -1 when it is not there yet. */
  method Buscar(cs: seq<Conteo>, k: string) returns (j: int)
    ensures -1 <= j < |cs|
    ensures j >= 0 ==> cs[j].nombre == k
    ensures j < 0 ==> k !in Claves(cs)
  {
    j := 0;
    while j < |cs|
      invariant 0 <= j <= |cs|
      invariant forall m :: 0 <= m < j ==> cs[m].nombre != k
    {
      if cs[j].nombre == k {
        return;
      }
      j := j + 1;
    }
    j := -1;
  }

  /** `claves.forEach(k => d[k] = (d[k] || 0) + 1)` on a dictionary holding the
      keys `previas` at 0. */
  method ContarPorClave(previas: seq<string>, claves: seq<string>) returns (cs: seq<Conteo>)
    requires SinRepetidos(previas)
    ensures Cuenta(cs, previas, claves)
  {
    cs := Ceros(previas);
    CuentaInicial(previas);
    assert claves[..0] == [];
    var i := 0;
    while i < |claves|
      invariant 0 <= i <= |claves|
      invariant Cuenta(cs, previas, claves[..i])
    {
      var k := claves[i];
      var j := Buscar(cs, k);
      var nuevo: seq<Conteo>;
      if j >= 0 {
        nuevo := cs[j := Conteo(k, cs[j].cantidad + 1)];
        CuentaExistente(cs, previas, claves[..i], j);
      } else {
        nuevo := cs + [Conteo(k, 1)];
        CuentaNueva(cs, previas, claves[..i], k);
      }
      assert Cuenta(nuevo, previas, claves[..i + 1]) by {
        PrefijoSiguiente(claves, i);
      }
      cs := nuevo;
      i := i + 1;
    }
    assert claves[..i] == claves;
  }

  /** The dictionary before the loop: each preset key at 0. */
  function Ceros(previas: seq<string>): (cs: seq<Conteo>)
    ensures Claves(cs) == previas
  {
    seq(|previas|, i requires 0 <= i < |previas| => Conteo(previas[i], 0))
  }

  lemma CuentaInicial(previas: seq<string>)
    requires SinRepetidos(previas)
    ensures Cuenta(Ceros(previas), previas, [])
  {
    DistintosSinRepetidos(previas);
    assert previas + [] == previas;
  }

  lemma OcurrenciasAgregando(pre: seq<string>, k: string, x: string)
    ensures Ocurrencias(pre + [k], x) == Ocurrencias(pre, x) + (if k == x then 1 else 0)
  {
    assert (pre + [k])[..|pre|] == pre;
  }

  /** Incrementing an existing key keeps the dictionary a count. */
  lemma CuentaExistente(cs: seq<Conteo>, previas: seq<string>, pre: seq<string>, j: nat)
    requires Cuenta(cs, previas, pre) && j < |cs|
    ensures Cuenta(cs[j := Conteo(cs[j].nombre, cs[j].cantidad + 1)], previas, pre + [cs[j].nombre])
  {
    var k := cs[j].nombre;
    assert Claves(cs[j := Conteo(k, cs[j].cantidad + 1)]) == Distintos(previas + (pre + [k])) by {
      assert k in previas + pre by {
        assert Claves(cs)[j] == k;
      }
      ClavesIncrementando(cs, j);
      ClavesAgregando(previas, pre, k);
    }
    CantidadesTrasExistente(cs, pre, j);
  }

  /** The counts after incrementing key `j` for one more occurrence of it. */
  lemma CantidadesTrasExistente(cs: seq<Conteo>, pre: seq<string>, j: nat)
    requires j < |cs| && SinRepetidos(Claves(cs))
    requires forall i :: 0 <= i < |cs| ==> cs[i].cantidad == Ocurrencias(pre, cs[i].nombre)
    ensures var nuevo := cs[j := Conteo(cs[j].nombre, cs[j].cantidad + 1)];
            forall i :: 0 <= i < |nuevo| ==> nuevo[i].cantidad == Ocurrencias(pre + [cs[j].nombre], nuevo[i].nombre)
  {
    forall i | 0 <= i < |cs|
      ensures cs[j := Conteo(cs[j].nombre, cs[j].cantidad + 1)][i].cantidad == Ocurrencias(pre + [cs[j].nombre], cs[i].nombre)
    {
      OcurrenciasAgregando(pre, cs[j].nombre, cs[i].nombre);
      assert i != j ==> Claves(cs)[i] != Claves(cs)[j];
    }
  }

  lemma ClavesIncrementando(cs: seq<Conteo>, j: nat)
    requires j < |cs|
    ensures Claves(cs[j := Conteo(cs[j].nombre, cs[j].cantidad + 1)]) == Claves(cs)
  {
  }

  lemma ClavesAgregando(previas: seq<string>, pre: seq<string>, k: string)
    ensures Distintos(previas + (pre + [k])) == if k in previas + pre then Distintos(previas + pre) else Distintos(previas + pre) + [k]
  {
    assert previas + (pre + [k]) == (previas + pre) + [k];
    DistintosAgregando(previas + pre, k);
  }

  /** A first occurrence appends its key with count 1. */
  lemma CuentaNueva(cs: seq<Conteo>, previas: seq<string>, pre: seq<string>, k: string)
    requires Cuenta(cs, previas, pre) && k !in Claves(cs)
    ensures Cuenta(cs + [Conteo(k, 1)], previas, pre + [k])
  {
    assert Claves(cs + [Conteo(k, 1)]) == Distintos(previas + (pre + [k])) by {
      assert k !in previas + pre;
      ClavesAgregando(previas, pre, k);
      ClavesConcatenadas(cs, Conteo(k, 1));
    }
    assert k !in pre by {
      assert k !in previas + pre;
      NoEnSufijo(previas, pre, k);
    }
    CantidadesTrasNueva(cs, pre, k);
  }

  /** The counts after appending the new key `k` for its first occurrence. */
  lemma CantidadesTrasNueva(cs: seq<Conteo>, pre: seq<string>, k: string)
    requires k !in pre && k !in Claves(cs)
    requires forall i :: 0 <= i < |cs| ==> cs[i].cantidad == Ocurrencias(pre, cs[i].nombre)
    ensures var nuevo := cs + [Conteo(k, 1)];
            forall i :: 0 <= i < |nuevo| ==> nuevo[i].cantidad == Ocurrencias(pre + [k], nuevo[i].nombre)
  {
    OcurrenciasAusente(pre, k);
    forall i | 0 <= i < |cs| + 1
      ensures (cs + [Conteo(k, 1)])[i].cantidad == Ocurrencias(pre + [k], (cs + [Conteo(k, 1)])[i].nombre)
    {
      OcurrenciasAgregando(pre, k, (cs + [Conteo(k, 1)])[i].nombre);
      if i < |cs| {
        assert Claves(cs)[i] == cs[i].nombre;
      }
    }
  }

  lemma ClavesConcatenadas(cs: seq<Conteo>, c: Conteo)
    ensures Claves(cs + [c]) == Claves(cs) + [c.nombre]
  {
  }

  lemma NoEnSufijo(a: seq<string>, b: seq<string>, k: string)
    requires k !in a + b
    ensures k !in b
  {
    forall m | 0 <= m < |b|
      ensures b[m] != k
    {
      assert b[m] == (a + b)[|a| + m];
    }
  }

  /** The counts of a dictionary with distinct keys add up to the sum of the
      occurrences of those keys. */
  lemma {:induction false} TotalEsSuma(cs: seq<Conteo>, claves: seq<string>)
    requires forall i :: 0 <= i < |cs| ==> cs[i].cantidad == Ocurrencias(claves, cs[i].nombre)
    ensures Total(cs) == SumaOcurrencias(Claves(cs), claves)
    decreases |cs|
  {
    if cs != [] {
      assert Claves(cs)[1..] == Claves(cs[1..]);
      TotalEsSuma(cs[1..], claves);
    }
  }

  /** Every key counted: the entries of a count of `claves` add up to `|claves|`. */
  lemma TotalCuenta(cs: seq<Conteo>, previas: seq<string>, claves: seq<string>)
    requires Cuenta(cs, previas, claves)
    ensures Total(cs) == |claves|
  {
    TotalEsSuma(cs, claves);
    forall x | x in claves
      ensures x in Claves(cs)
    {
      var m :| 0 <= m < |claves| && claves[m] == x;
      assert (previas + claves)[|previas| + m] == x;
    }
    SumaOcurrenciasTotal(Claves(cs), claves);
  }

  /** `(a, b) => b.cantidad - a.cantidad`. */
  function MasFrecuente(a: Conteo, b: Conteo): int {
    b.cantidad - a.cantidad
  }

  /** A table as the dashboard shows it: one row per distinct key of `claves`,
      each with its number of occurrences, adding up to `|claves|`, largest count
      first. */
  ghost predicate Tabla(cs: seq<Conteo>, claves: seq<string>) {
    SinRepetidos(Claves(cs))
    && (forall i :: 0 <= i < |cs| ==> cs[i].nombre in claves && cs[i].cantidad == Ocurrencias(claves, cs[i].nombre))
    && (forall x :: x in claves ==> x in Claves(cs))
    && Total(cs) == |claves|
    && (forall i, j :: 0 <= i < j < |cs| ==> cs[i].cantidad >= cs[j].cantidad)
  }

  /** Sorting a count of `claves` started from no keys gives its table. */
  lemma OrdenarCuenta(cs: seq<Conteo>, claves: seq<string>)
    requires Cuenta(cs, [], claves)
    ensures Tabla(Ordenar(cs, MasFrecuente), claves)
  {
    var r := Ordenar(cs, MasFrecuente);
    assert [] + claves == claves;
    forall i | 0 <= i < |cs|
      ensures cs[i].nombre in claves
    {
      assert cs[i].nombre in Distintos(claves);
    }
    TotalCuenta(cs, [], claves);
    PermutarConteos(cs, r, claves);
    TotalEsSuma(r, claves);
    SumaOcurrenciasTotal(Claves(r), claves);
    OrdenadoPorCantidad(cs);
  }

  lemma OrdenadoPorCantidad(cs: seq<Conteo>)
    ensures forall i, j :: 0 <= i < j < |Ordenar(cs, MasFrecuente)| ==>
              Ordenar(cs, MasFrecuente)[i].cantidad >= Ordenar(cs, MasFrecuente)[j].cantidad
  {
    var r := Ordenar(cs, MasFrecuente);
    PreordenPorClave(MasFrecuente, (c: Conteo) => 0 - c.cantidad as int);
    OrdenarOrdenado(cs, MasFrecuente, Cualquiera);
    assert forall i, j :: 0 <= i < j < |r| ==> MasFrecuente(r[i], r[j]) <= 0;
  }

  /** Reordering the entries of a dictionary keeps its keys distinct, its counts
      and the keys it covers. */
  lemma PermutarConteos(cs: seq<Conteo>, r: seq<Conteo>, claves: seq<string>)
    requires multiset(r) == multiset(cs)
    requires SinRepetidos(Claves(cs))
    requires forall i :: 0 <= i < |cs| ==> cs[i].nombre in claves && cs[i].cantidad == Ocurrencias(claves, cs[i].nombre)
    requires forall x :: x in claves ==> x in Claves(cs)
    ensures SinRepetidos(Claves(r))
    ensures forall i :: 0 <= i < |r| ==> r[i].nombre in claves && r[i].cantidad == Ocurrencias(claves, r[i].nombre)
    ensures forall x :: x in claves ==> x in Claves(r)
  {
    assert forall i :: 0 <= i < |r| ==> r[i] in multiset(cs);
    SinRepetidosDeClaves(cs);
    PermutacionSinRepetidos(cs, r);
    forall i, j | 0 <= i < j < |r|
      ensures r[i].nombre != r[j].nombre
    {
      var a :| 0 <= a < |cs| && cs[a] == r[i];
      var b :| 0 <= b < |cs| && cs[b] == r[j];
      assert Claves(cs)[a] == r[i].nombre && Claves(cs)[b] == r[j].nombre;
    }
    forall x | x in claves
      ensures x in Claves(r)
    {
      var a :| 0 <= a < |cs| && Claves(cs)[a] == x;
      assert cs[a] in multiset(r);
      var i :| 0 <= i < |r| && r[i] == cs[a];
      assert Claves(r)[i] == x;
    }
  }

  /** Distinct keys make distinct entries. */
  lemma SinRepetidosDeClaves(cs: seq<Conteo>)
    requires SinRepetidos(Claves(cs))
    ensures SinRepetidos(cs)
  {
    forall i, j | 0 <= i < j < |cs|
      ensures cs[i] != cs[j]
    {
      assert Claves(cs)[i] != Claves(cs)[j];
    }
  }

  /** The dictionary keys of each equipment: `x || 'Sin ubicación'`,
      `x || 'operativo'` and `x || 'Sin tipo'`. */
  function Ubicaciones(equipos: seq<FilaEquipo>): (r: seq<string>)
    ensures |r| == |equipos| && forall i :: 0 <= i < |r| ==> r[i] == ODefecto(equipos[i].ubicacion, SIN_UBICACION)
  {
    seq(|equipos|, i requires 0 <= i < |equipos| => ODefecto(equipos[i].ubicacion, SIN_UBICACION))
  }

  function Estados(equipos: seq<FilaEquipo>): (r: seq<string>)
    ensures |r| == |equipos| && forall i :: 0 <= i < |r| ==> r[i] == ODefecto(equipos[i].estado_operativo, "operativo")
  {
    seq(|equipos|, i requires 0 <= i < |equipos| => ODefecto(equipos[i].estado_operativo, "operativo"))
  }

  function Tipos(equipos: seq<FilaEquipo>): (r: seq<string>)
    ensures |r| == |equipos| && forall i :: 0 <= i < |r| ==> r[i] == ODefecto(equipos[i].tipo, SIN_TIPO)
  {
    seq(|equipos|, i requires 0 <= i < |equipos| => ODefecto(equipos[i].tipo, SIN_TIPO))
  }

  datatype Estadisticas = Estadisticas(
    porUbicacion: seq<Conteo>,
    porEstadoOperativo: seq<Conteo>,
    porTipo: seq<Conteo>,
    totalEquipos: nat,
    equiposOperativos: nat,
    equiposConRestriccion: nat,
    equiposFueraServicio: nat)

  /** `cargarEstadisticas` on the loaded rows. */
  method CargarEstadisticas(equipos: seq<FilaEquipo>) returns (st: Estadisticas)
    ensures st.totalEquipos == |equipos|
    ensures Tabla(st.porUbicacion, Ubicaciones(equipos))
    ensures Tabla(st.porTipo, Tipos(equipos))
    ensures st.equiposOperativos == Ocurrencias(Estados(equipos), "operativo")
    ensures st.equiposConRestriccion == Ocurrencias(Estados(equipos), "operativo_restricciones")
    ensures st.equiposFueraServicio == Ocurrencias(Estados(equipos), "fuera_servicio")
    ensures st.porEstadoOperativo == [Conteo("Operativo", st.equiposOperativos),
                                      Conteo("Con restricciones", st.equiposConRestriccion),
                                      Conteo("Fuera de servicio", st.equiposFueraServicio)]
  {
    var ubicaciones := ContarPorClave([], Ubicaciones(equipos));
    var estadosOp := ContarPorClave(ESTADOS_INICIALES, Estados(equipos));
    var tipos := ContarPorClave([], Tipos(equipos));
    EstadosInicialesPrimero(estadosOp, Estados(equipos));
    OrdenarCuenta(ubicaciones, Ubicaciones(equipos));
    OrdenarCuenta(tipos, Tipos(equipos));
    st := Estadisticas(
      Ordenar(ubicaciones, MasFrecuente),
      [Conteo("Operativo", estadosOp[0].cantidad),
       Conteo("Con restricciones", estadosOp[1].cantidad),
       Conteo("Fuera de servicio", estadosOp[2].cantidad)],
      Ordenar(tipos, MasFrecuente),
      |equipos|, estadosOp[0].cantidad, estadosOp[1].cantidad, estadosOp[2].cantidad);
  }

  /** The preset keys keep the first three places of `estadosOp`, whatever states
      the loop then meets. */
  lemma EstadosInicialesPrimero(cs: seq<Conteo>, estados: seq<string>)
    requires Cuenta(cs, ESTADOS_INICIALES, estados)
    ensures |cs| >= 3
    ensures cs[0].nombre == "operativo" && cs[1].nombre == "operativo_restricciones" && cs[2].nombre == "fuera_servicio"
  {
    var todo := ESTADOS_INICIALES + estados;
    assert Distintos(todo[..3]) == ESTADOS_INICIALES by {
      assert todo[..3] == ESTADOS_INICIALES;
      EstadosInicialesDistintos();
      DistintosSinRepetidos(ESTADOS_INICIALES);
    }
    DistintosPrefijo(todo, 3);
    assert ESTADOS_INICIALES <= Claves(cs);
    assert forall i :: 0 <= i < 3 ==> cs[i].nombre == ESTADOS_INICIALES[i];
  }

  lemma EstadosInicialesDistintos()
    ensures SinRepetidos(ESTADOS_INICIALES)
  {
  }

  /** The three reported counts leave out the equipments in a state the dialog
      does not offer, so they add up to at most the total, and to the total when
      every equipment is in one of the three states. */
  lemma EstadosReportados(equipos: seq<FilaEquipo>)
    ensures Ocurrencias(Estados(equipos), "operativo") + Ocurrencias(Estados(equipos), "operativo_restricciones")
            + Ocurrencias(Estados(equipos), "fuera_servicio") <= |equipos|
    ensures (forall i :: 0 <= i < |equipos| ==> Estados(equipos)[i] in ESTADOS_INICIALES) ==>
              Ocurrencias(Estados(equipos), "operativo") + Ocurrencias(Estados(equipos), "operativo_restricciones")
              + Ocurrencias(Estados(equipos), "fuera_servicio") == |equipos|
  {
    var ks := ESTADOS_INICIALES;
    var s := Estados(equipos);
    assert ks[1..] == ["operativo_restricciones", "fuera_servicio"];
    assert ks[1..][1..] == ["fuera_servicio"];
    assert ks[1..][1..][1..] == [];
    assert SumaOcurrencias(ks[1..][1..], s) == Ocurrencias(s, "fuera_servicio") + SumaOcurrencias([], s);
    assert SumaOcurrencias(ks, s) == Ocurrencias(s, "operativo") + Ocurrencias(s, "operativo_restricciones") + Ocurrencias(s, "fuera_servicio");
    SumaOcurrenciasCota(ks, s);
    if forall i :: 0 <= i < |equipos| ==> s[i] in ks {
      SumaOcurrenciasTotal(ks, s);
    }
  }

  /** An equipment with no location, or an empty one, is counted under
      'Sin ubicación', and likewise for the type. */
  lemma SinDatoSeCuentaAparte(equipos: seq<FilaEquipo>, i: nat)
    requires i < |equipos|
    requires equipos[i].ubicacion.None? && equipos[i].tipo.None?
    ensures Ocurrencias(Ubicaciones(equipos), SIN_UBICACION) >= 1
    ensures Ocurrencias(Tipos(equipos), SIN_TIPO) >= 1
  {
    OcurrenciaPositiva(Ubicaciones(equipos), i);
    OcurrenciaPositiva(Tipos(equipos), i);
  }

  lemma {:induction false} OcurrenciaPositiva(s: seq<string>, i: nat)
    requires i < |s|
    ensures Ocurrencias(s, s[i]) >= 1
    decreases |s|
  {
    if i < |s| - 1 {
      OcurrenciaPositiva(s[..|s| - 1], i);
    }
  }
}
