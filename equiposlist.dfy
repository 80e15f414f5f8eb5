/** The fleet list (`EquiposList.jsx`): days since each equipment's last
    inspection, the filters, the five sort orders, the grouping by location and
    the inspection counters. "Now" is an input. */
module EquiposList {
  import opened Opciones
  import opened Texto
  import opened Fechas
  import opened Secuencias
  import opened Orden
  import opened Dominio

  /** An equipment row with its last inspection date and the whole days since. */
  datatype EquipoVista = EquipoVista(equipo: Equipo, ultima_inspeccion: Option<int>, dias_sin_inspeccion: Option<int>)

  /** The first inspection of the equipment in the list, which the query sorts by
      date, newest first. */
  function UltimaInspeccion(inspecciones: seq<Inspeccion>, equipoId: string): (r: Option<int>)
    ensures r.None? <==> forall j :: 0 <= j < |inspecciones| ==> inspecciones[j].equipo_id != equipoId
    ensures r.Some? ==> exists j :: 0 <= j < |inspecciones| && inspecciones[j].equipo_id == equipoId && inspecciones[j].fecha_hora == r.value
  {
    if inspecciones == [] then None
    else if inspecciones[0].equipo_id == equipoId then Some(inspecciones[0].fecha_hora)
    else
      var r := UltimaInspeccion(inspecciones[1..], equipoId);
      assert r.Some? ==> exists j :: 0 <= j < |inspecciones[1..]| && inspecciones[1..][j].equipo_id == equipoId
                                     && inspecciones[1..][j].fecha_hora == r.value;
      r
  }

  predicate FechaDescendente(inspecciones: seq<Inspeccion>) {
    forall i, j :: 0 <= i < j < |inspecciones| ==> inspecciones[i].fecha_hora >= inspecciones[j].fecha_hora
  }

  /** With the list newest first, the first match is the most recent inspection
      of that equipment. */
  lemma {:induction false} UltimaEsLaMasReciente(inspecciones: seq<Inspeccion>, equipoId: string)
    requires FechaDescendente(inspecciones)
    requires UltimaInspeccion(inspecciones, equipoId).Some?
    ensures forall j :: 0 <= j < |inspecciones| && inspecciones[j].equipo_id == equipoId ==>
              inspecciones[j].fecha_hora <= UltimaInspeccion(inspecciones, equipoId).value
    decreases |inspecciones|
  {
    if inspecciones[0].equipo_id != equipoId {
      UltimaEsLaMasReciente(inspecciones[1..], equipoId);
      forall j | 0 <= j < |inspecciones| && inspecciones[j].equipo_id == equipoId
        ensures inspecciones[j].fecha_hora <= UltimaInspeccion(inspecciones, equipoId).value
      {
        assert inspecciones[1..][j - 1] == inspecciones[j];
      }
    }
  }

  /** One row of the list: the equipment, the date of its last inspection, and
      the whole days from that date to now, both null without inspections. */
  function Vista(e: Equipo, inspecciones: seq<Inspeccion>, ahora: int): (v: EquipoVista)
    ensures v.equipo == e
    ensures v.ultima_inspeccion == UltimaInspeccion(inspecciones, e.id)
    ensures v.dias_sin_inspeccion.None? <==> v.ultima_inspeccion.None?
    ensures v.dias_sin_inspeccion.None? <==> forall j :: 0 <= j < |inspecciones| ==> inspecciones[j].equipo_id != e.id
    ensures v.ultima_inspeccion.Some? ==>
              v.dias_sin_inspeccion == Some(DiasEntre(ahora, v.ultima_inspeccion.value))
              && v.dias_sin_inspeccion.value * MS_POR_DIA <= ahora - v.ultima_inspeccion.value
              && ahora - v.ultima_inspeccion.value < (v.dias_sin_inspeccion.value + 1) * MS_POR_DIA
  {
    var u := UltimaInspeccion(inspecciones, e.id);
    EquipoVista(e, u, match u case Some(f) => Some(DiasEntre(ahora, f)) case None => None)
  }

  /** `getEquipos`: every equipment, in order, with its days since inspection. */
  function ConInspeccion(equipos: seq<Equipo>, inspecciones: seq<Inspeccion>, ahora: int): (r: seq<EquipoVista>)
    ensures |r| == |equipos|
    ensures forall i :: 0 <= i < |equipos| ==> r[i] == Vista(equipos[i], inspecciones, ahora)
  {
    seq(|equipos|, i requires 0 <= i < |equipos| => Vista(equipos[i], inspecciones, ahora))
  }

  // Inspection buckets.

  predicate EsUrgente(d: Option<int>) { d.None? || d.value > 30 }
  predicate EsProximo(d: Option<int>) { d.Some? && 20 <= d.value <= 30 }
  predicate EsAlDia(d: Option<int>) { d.Some? && d.value < 20 }

  /** The inspection filter; any other value lets everything through. */
  predicate PasaFiltroInspeccion(filtro: string, d: Option<int>) {
    if filtro == "Urgente" then EsUrgente(d)
    else if filtro == "Próximo" then EsProximo(d)
    else if filtro == "Al día" then EsAlDia(d)
    else if filtro == "Sin inspecciones" then d.None?
    else true
  }

  datatype FiltrosEquipos = FiltrosEquipos(tipo: string, ubicacion: string, semaforo: string, inspeccion: string, busqueda: string)

  const FILTROS_INICIALES := FiltrosEquipos("Todos", "Todos", "Todos", "Todos", "")

  predicate CoincideCodigoODenominacion(e: Equipo, busqueda: string) {
    CoincideBusqueda(e.numero_identificacion, busqueda)
    || (e.denominacion.Some? && e.denominacion.value != [] && CoincideBusqueda(e.denominacion.value, busqueda))
  }

  predicate PasaFiltros(f: FiltrosEquipos, v: EquipoVista) {
    (f.tipo == "Todos" || v.equipo.tipo_equipo == Some(f.tipo))
    && (f.ubicacion == "Todos" || v.equipo.ubicacion_actual == Some(f.ubicacion))
    && (f.semaforo == "Todos" || v.equipo.semaforo_actual == Some(f.semaforo))
    && CoincideCodigoODenominacion(v.equipo, f.busqueda)
    && PasaFiltroInspeccion(f.inspeccion, v.dias_sin_inspeccion)
  }

  /** `equiposFiltrados`: the equipment passing every filter, in list order. */
  function Filtrados(f: FiltrosEquipos, vs: seq<EquipoVista>): (r: seq<EquipoVista>)
    ensures |r| <= |vs|
    ensures forall i :: 0 <= i < |r| ==> r[i] in vs && PasaFiltros(f, r[i])
    ensures forall i :: 0 <= i < |vs| && PasaFiltros(f, vs[i]) ==> vs[i] in r
  {
    Filtrar(vs, Criterio(f))
  }

  function Criterio(f: FiltrosEquipos): EquipoVista -> bool {
    (v: EquipoVista) => PasaFiltros(f, v)
  }

  /** The filtered list keeps the list's order, each passing equipment once. */
  lemma FiltradosEnOrden(f: FiltrosEquipos, vs: seq<EquipoVista>) returns (idx: seq<nat>)
    ensures Incrustado(Filtrados(f, vs), vs, idx)
    ensures forall i :: 0 <= i < |vs| ==> (i in idx <==> PasaFiltros(f, vs[i]))
  {
    idx := FiltrarEnOrden(vs, Criterio(f));
  }

  /** With the initial filters nothing is filtered out. */
  lemma FiltrosInicialesNoFiltran(vs: seq<EquipoVista>)
    ensures Filtrados(FILTROS_INICIALES, vs) == vs
  {
    forall i | 0 <= i < |vs|
      ensures PasaFiltros(FILTROS_INICIALES, vs[i])
    {
      BusquedaVaciaCoincide(vs[i].equipo.numero_identificacion);
    }
    FiltrarTodos(vs, Criterio(FILTROS_INICIALES));
  }

  // The badge.

  datatype Nivel = NuncaInspeccionado | Urgente | Proximo | AlDia

  datatype Insignia = Insignia(nivel: Nivel, emoji: string, texto: string, color: string, bgColor: string)

  /** `getEstadoInspeccion(dias)`. */
  function EstadoInspeccion(dias: Option<int>): (b: Insignia)
    ensures b.nivel == NuncaInspeccionado <==> dias.None?
    ensures b.nivel == Urgente <==> dias.Some? && dias.value > 30
    ensures b.nivel == Proximo <==> dias.Some? && 20 <= dias.value <= 30
    ensures b.nivel == AlDia <==> dias.Some? && dias.value < 20
  {
    match dias
    case None => Insignia(NuncaInspeccionado, "⚪", "Sin inspecciones", "#9ca3af", "#f3f4f6")
    case Some(d) =>
      if d > 30 then Insignia(Urgente, "🔴", EnteroATexto(d) + " días - URGENTE", "#ef4444", "#fee2e2")
      else if d >= 20 then Insignia(Proximo, "🟡", EnteroATexto(d) + " días - Próximo", "#f59e0b", "#fef3c7")
      else Insignia(AlDia, "🟢", EnteroATexto(d) + " días - Al día", "#10b981", "#d1fae5")
  }

  /** The badge and the filter buckets agree for every number of days. The
      'Urgente' filter also takes never-inspected equipment, which has its own
      badge. */
  lemma InsigniaCoincideConFiltro(d: Option<int>)
    ensures EstadoInspeccion(d).nivel == NuncaInspeccionado <==> PasaFiltroInspeccion("Sin inspecciones", d)
    ensures PasaFiltroInspeccion("Urgente", d) <==> EstadoInspeccion(d).nivel in {NuncaInspeccionado, Urgente}
    ensures PasaFiltroInspeccion("Próximo", d) <==> EstadoInspeccion(d).nivel == Proximo
    ensures PasaFiltroInspeccion("Al día", d) <==> EstadoInspeccion(d).nivel == AlDia
  {
  }

  // Counters.

  function Urgentes(vs: seq<EquipoVista>): nat { Contar(vs, (v: EquipoVista) => EsUrgente(v.dias_sin_inspeccion)) }
  function Proximos(vs: seq<EquipoVista>): nat { Contar(vs, (v: EquipoVista) => EsProximo(v.dias_sin_inspeccion)) }
  function AlDiaTotal(vs: seq<EquipoVista>): nat { Contar(vs, (v: EquipoVista) => EsAlDia(v.dias_sin_inspeccion)) }

  /** The three counters split the fleet: every equipment is in exactly one. */
  lemma ContadoresParticionan(vs: seq<EquipoVista>)
    ensures Urgentes(vs) + Proximos(vs) + AlDiaTotal(vs) == |vs|
  {
    ContarParticion(vs, (v: EquipoVista) => EsUrgente(v.dias_sin_inspeccion),
                    (v: EquipoVista) => EsProximo(v.dias_sin_inspeccion),
                    (v: EquipoVista) => EsAlDia(v.dias_sin_inspeccion));
  }

  // Sorting.

  /** `semaforoOrden[x] ?? 3`. */
  function RangoSemaforo(s: Option<string>): (r: int)
    ensures 0 <= r <= 3
    ensures r == 0 <==> s == Some("rojo")
    ensures r == 1 <==> s == Some("amarillo")
    ensures r == 2 <==> s == Some("verde")
  {
    if s == Some("rojo") then 0
    else if s == Some("amarillo") then 1
    else if s == Some("verde") then 2
    else 3
  }

  function ClaveDiasDesc(v: EquipoVista): int { -v.dias_sin_inspeccion.GetOr(9999) }
  function ClaveDiasAsc(v: EquipoVista): int { v.dias_sin_inspeccion.GetOr(-1) }
  function ClaveSemaforo(v: EquipoVista): int { RangoSemaforo(v.equipo.semaforo_actual) }

  /** `ubicacion_actual || 'ZZZ'`. */
  function UbicacionOrden(v: EquipoVista): string {
    match v.equipo.ubicacion_actual
    case Some(u) => if u == [] then "ZZZ" else u
    case None => "ZZZ"
  }

  function CompararUbicacion(a: EquipoVista, b: EquipoVista): int {
    if a.equipo.ubicacion_actual == b.equipo.ubicacion_actual then
      CompararTexto(a.equipo.numero_identificacion, b.equipo.numero_identificacion)
    else CompararTexto(UbicacionOrden(a), UbicacionOrden(b))
  }

  /** The comparator chosen by `ordenarPor`; any other value sorts by location. */
  function Comparador(ordenarPor: string): (EquipoVista, EquipoVista) -> int {
    if ordenarPor == "nombre" then
      (a: EquipoVista, b: EquipoVista) => CompararTexto(a.equipo.numero_identificacion, b.equipo.numero_identificacion)
    else if ordenarPor == "dias_desc" then
      (a: EquipoVista, b: EquipoVista) => b.dias_sin_inspeccion.GetOr(9999) - a.dias_sin_inspeccion.GetOr(9999)
    else if ordenarPor == "dias_asc" then
      (a: EquipoVista, b: EquipoVista) => a.dias_sin_inspeccion.GetOr(-1) - b.dias_sin_inspeccion.GetOr(-1)
    else if ordenarPor == "semaforo" then
      (a: EquipoVista, b: EquipoVista) => ClaveSemaforo(a) - ClaveSemaforo(b)
    else CompararUbicacion
  }

  function Ordenados(ordenarPor: string, vs: seq<EquipoVista>): (r: seq<EquipoVista>)
    ensures multiset(r) == multiset(vs)
  {
    Ordenar(vs, Comparador(ordenarPor))
  }

  /** The semáforo order puts rojo, then amarillo, then verde, then everything
      else, a missing light included. */
  lemma OrdenSemaforo(vs: seq<EquipoVista>)
    ensures forall i, j :: 0 <= i < j < |vs| ==>
              ClaveSemaforo(Ordenados("semaforo", vs)[i]) <= ClaveSemaforo(Ordenados("semaforo", vs)[j])
  {
    OrdenarPorClave(vs, Comparador("semaforo"), ClaveSemaforo);
  }

  /** Most days first, a never-inspected equipment counting as 9999 days; so it
      comes before every equipment inspected fewer than 9999 days ago. */
  lemma OrdenDiasDesc(vs: seq<EquipoVista>)
    ensures forall i, j :: 0 <= i < j < |vs| ==>
              Ordenados("dias_desc", vs)[i].dias_sin_inspeccion.GetOr(9999)
              >= Ordenados("dias_desc", vs)[j].dias_sin_inspeccion.GetOr(9999)
    ensures forall i, j :: 0 <= i < j < |vs| && Ordenados("dias_desc", vs)[j].dias_sin_inspeccion.None? ==>
              Ordenados("dias_desc", vs)[i].dias_sin_inspeccion.GetOr(9999) >= 9999
  {
    OrdenarPorClave(vs, Comparador("dias_desc"), ClaveDiasDesc);
  }

  /** Fewest days first, a never-inspected equipment counting as -1; so it comes
      before every equipment inspected in the past. */
  lemma OrdenDiasAsc(vs: seq<EquipoVista>)
    ensures forall i, j :: 0 <= i < j < |vs| ==>
              Ordenados("dias_asc", vs)[i].dias_sin_inspeccion.GetOr(-1)
              <= Ordenados("dias_asc", vs)[j].dias_sin_inspeccion.GetOr(-1)
    ensures forall i, j :: 0 <= i < j < |vs| && Ordenados("dias_asc", vs)[j].dias_sin_inspeccion.None? ==>
              Ordenados("dias_asc", vs)[i].dias_sin_inspeccion.GetOr(-1) <= -1
  {
    OrdenarPorClave(vs, Comparador("dias_asc"), ClaveDiasAsc);
  }

  /** By code, in code-point order. */
  lemma OrdenNombre(vs: seq<EquipoVista>)
    ensures forall i, j :: 0 <= i < j < |vs| ==>
              CompararTexto(Ordenados("nombre", vs)[i].equipo.numero_identificacion,
                            Ordenados("nombre", vs)[j].equipo.numero_identificacion) <= 0
  {
    var cmp := Comparador("nombre");
    forall x: EquipoVista, y: EquipoVista
      ensures cmp(x, y) <= 0 || cmp(y, x) <= 0
    {
      CompararTextoAntisimetrico(x.equipo.numero_identificacion, y.equipo.numero_identificacion);
    }
    forall x: EquipoVista, y: EquipoVista, z: EquipoVista | cmp(x, y) <= 0 && cmp(y, z) <= 0
      ensures cmp(x, z) <= 0
    {
      CompararTextoTransitivo(x.equipo.numero_identificacion, y.equipo.numero_identificacion, z.equipo.numero_identificacion);
    }
    OrdenarOrdenado(vs, cmp, Cualquiera);
  }

  /** A location the 'ZZZ' fallback cannot be confused with. */
  predicate UbicacionDistinguible(v: EquipoVista) {
    v.equipo.ubicacion_actual != Some([]) && v.equipo.ubicacion_actual != Some("ZZZ")
  }

  lemma UbicacionOrdenInyectiva(a: EquipoVista, b: EquipoVista)
    requires UbicacionDistinguible(a) && UbicacionDistinguible(b)
    ensures UbicacionOrden(a) == UbicacionOrden(b) <==> a.equipo.ubicacion_actual == b.equipo.ubicacion_actual
  {
  }

  /** On distinguishable locations the location comparator is the lexicographic
      order on (location or 'ZZZ', code), hence a total preorder. */
  lemma PreordenUbicacion()
    ensures Preorden(CompararUbicacion, UbicacionDistinguible)
  {
    forall x: EquipoVista, y: EquipoVista | UbicacionDistinguible(x) && UbicacionDistinguible(y)
      ensures CompararUbicacion(x, y) <= 0 || CompararUbicacion(y, x) <= 0
    {
      CompararTextoAntisimetrico(x.equipo.numero_identificacion, y.equipo.numero_identificacion);
      CompararTextoAntisimetrico(UbicacionOrden(x), UbicacionOrden(y));
    }
    forall x: EquipoVista, y: EquipoVista, z: EquipoVista |
      UbicacionDistinguible(x) && UbicacionDistinguible(y) && UbicacionDistinguible(z)
      && CompararUbicacion(x, y) <= 0 && CompararUbicacion(y, z) <= 0
      ensures CompararUbicacion(x, z) <= 0
    {
      UbicacionTransitiva(x, y, z);
    }
  }

  lemma UbicacionTransitiva(x: EquipoVista, y: EquipoVista, z: EquipoVista)
    requires UbicacionDistinguible(x) && UbicacionDistinguible(y) && UbicacionDistinguible(z)
    requires CompararUbicacion(x, y) <= 0 && CompararUbicacion(y, z) <= 0
    ensures CompararUbicacion(x, z) <= 0
  {
    var ux, uy, uz := x.equipo.ubicacion_actual, y.equipo.ubicacion_actual, z.equipo.ubicacion_actual;
    var lx, ly, lz := UbicacionOrden(x), UbicacionOrden(y), UbicacionOrden(z);
    UbicacionOrdenInyectiva(x, y);
    UbicacionOrdenInyectiva(y, z);
    UbicacionOrdenInyectiva(x, z);
    if ux == uy && uy == uz {
      CompararTextoTransitivo(x.equipo.numero_identificacion, y.equipo.numero_identificacion, z.equipo.numero_identificacion);
    } else if ux == uy {
      assert lx == ly;
    } else if uy == uz {
      assert ly == lz;
    } else {
      CompararTextoTransitivo(lx, ly, lz);
      if lx == lz {
        CompararTextoAntisimetrico(lx, ly);
      }
    }
  }

  /** The default order: by location, a missing one last as 'ZZZ', and by code
      within a location. The comparator is only a preorder when no location is
      literally '' or 'ZZZ', so the lemma assumes that. */
  lemma OrdenUbicacion(vs: seq<EquipoVista>)
    requires forall i :: 0 <= i < |vs| ==> UbicacionDistinguible(vs[i])
    ensures forall i, j :: 0 <= i < j < |vs| ==> CompararUbicacion(Ordenados("ubicacion", vs)[i], Ordenados("ubicacion", vs)[j]) <= 0
  {
    PreordenUbicacion();
    OrdenarOrdenado(vs, CompararUbicacion, UbicacionDistinguible);
  }

  // Grouping.

  /** `ubicacion_actual || 'Sin ubicación'`. */
  function ClaveGrupo(v: EquipoVista): (k: string)
    ensures k != []
  {
    match v.equipo.ubicacion_actual
    case Some(u) => if u == [] then "Sin ubicación" else u
    case None => "Sin ubicación"
  }

  function ClavesGrupo(vs: seq<EquipoVista>): (r: seq<string>)
    ensures |r| == |vs| && forall i :: 0 <= i < |vs| ==> r[i] == ClaveGrupo(vs[i])
  {
    seq(|vs|, i requires 0 <= i < |vs| => ClaveGrupo(vs[i]))
  }

  type Grupos = seq<(string, seq<EquipoVista>)>

  function Nombres(g: Grupos): (r: seq<string>)
    ensures |r| == |g| && forall i :: 0 <= i < |g| ==> r[i] == g[i].0
  {
    seq(|g|, i requires 0 <= i < |g| => g[i].0)
  }

  /** The test that picks the equipment whose group is `k`. */
  function DeUbicacion(k: string): EquipoVista -> bool {
    (v: EquipoVista) => ClaveGrupo(v) == k
  }

  /** `grupos` is the grouping of `s` by location: one group per location in
      order of first appearance, each holding exactly the equipment with that
      location in list order. */
  predicate AgrupaA(grupos: Grupos, s: seq<EquipoVista>) {
    Nombres(grupos) == Distintos(ClavesGrupo(s))
    && forall g :: 0 <= g < |grupos| ==>
         grupos[g].1 == Filtrar(s, DeUbicacion(grupos[g].0))
  }

  /** The grouping `reduce` when the list is sorted by location; otherwise a
      single group with the whole list. */
  method Agrupar(ordenarPor: string, ordenados: seq<EquipoVista>) returns (grupos: Grupos)
    ensures ordenarPor != "ubicacion" ==> grupos == [("Todos los equipos", ordenados)]
    ensures ordenarPor == "ubicacion" ==> AgrupaA(grupos, ordenados)
  {
    if ordenarPor != "ubicacion" {
      grupos := [("Todos los equipos", ordenados)];
    } else {
      grupos := AgruparPorUbicacion(ordenados);
    }
  }

  /** The `reduce` over a list sorted by location. */
  method AgruparPorUbicacion(ordenados: seq<EquipoVista>) returns (grupos: Grupos)
    ensures AgrupaA(grupos, ordenados)
  {
    grupos := [];
    var i := 0;
    while i < |ordenados|
      invariant 0 <= i <= |ordenados|
      invariant AgrupaA(grupos, ordenados[..i])
    {
      PrefijoSiguiente(ordenados, i);
      grupos := AgregarAGrupo(ordenados[..i], grupos, ordenados[i]);
      i := i + 1;
    }
    assert ordenados[..i] == ordenados;
  }

  /** One step of the `reduce`: the equipment joins the group of its location,
      which is opened at the end when it is the first with that location. */
  method AgregarAGrupo(previos: seq<EquipoVista>, grupos: Grupos, v: EquipoVista) returns (nuevos: Grupos)
    requires AgrupaA(grupos, previos)
    ensures AgrupaA(nuevos, previos + [v])
  {
    var k := ClaveGrupo(v);
    var g := BuscarGrupo(grupos, k);
    if g < |grupos| {
      nuevos := grupos[g := (k, grupos[g].1 + [v])];
      AgregarExistente(previos, grupos, v, g);
    } else {
      nuevos := grupos + [(k, [v])];
      AgregarNuevo(previos, grupos, v);
    }
  }

  lemma AgregarExistente(previos: seq<EquipoVista>, grupos: Grupos, v: EquipoVista, g: nat)
    requires AgrupaA(grupos, previos)
    requires g < |grupos| && grupos[g].0 == ClaveGrupo(v)
    ensures AgrupaA(grupos[g := (ClaveGrupo(v), grupos[g].1 + [v])], previos + [v])
  {
    NombresTrasExistente(previos, grupos, v, g);
    GruposTrasExistente(previos, grupos, v, g);
  }

  /** The group names do not change when `v` joins the existing group `g`. */
  lemma NombresTrasExistente(previos: seq<EquipoVista>, grupos: Grupos, v: EquipoVista, g: nat)
    requires Nombres(grupos) == Distintos(ClavesGrupo(previos))
    requires g < |grupos| && grupos[g].0 == ClaveGrupo(v)
    ensures Nombres(grupos[g := (ClaveGrupo(v), grupos[g].1 + [v])]) == Distintos(ClavesGrupo(previos + [v]))
  {
    assert ClaveGrupo(v) in Distintos(ClavesGrupo(previos)) by {
      assert Nombres(grupos)[g] == ClaveGrupo(v);
    }
    NombresPaso(previos, v);
    NombresActualizados(grupos, g, (ClaveGrupo(v), grupos[g].1 + [v]));
  }

  /** Replacing a group's members keeps the names. */
  lemma NombresActualizados(grupos: Grupos, g: nat, x: (string, seq<EquipoVista>))
    requires g < |grupos| && x.0 == grupos[g].0
    ensures Nombres(grupos[g := x]) == Nombres(grupos)
  {
  }

  /** Every group after `v` joined the existing group `g`. */
  lemma GruposTrasExistente(previos: seq<EquipoVista>, grupos: Grupos, v: EquipoVista, g: nat)
    requires g < |grupos| && grupos[g].0 == ClaveGrupo(v)
    requires forall h :: 0 <= h < |grupos| ==> grupos[h].1 == Filtrar(previos, DeUbicacion(grupos[h].0))
    requires SinRepetidos(Nombres(grupos))
    ensures var nuevos := grupos[g := (ClaveGrupo(v), grupos[g].1 + [v])];
            forall h :: 0 <= h < |nuevos| ==> nuevos[h].1 == Filtrar(previos + [v], DeUbicacion(nuevos[h].0))
  {
    forall h | 0 <= h < |grupos|
      ensures grupos[g := (ClaveGrupo(v), grupos[g].1 + [v])][h].1 == Filtrar(previos + [v], DeUbicacion(grupos[h].0))
    {
      assert h != g ==> Nombres(grupos)[h] != Nombres(grupos)[g];
      GrupoExtendido(previos, v, grupos[h].0, grupos[h].1);
    }
  }

  lemma AgregarNuevo(previos: seq<EquipoVista>, grupos: Grupos, v: EquipoVista)
    requires AgrupaA(grupos, previos)
    requires ClaveGrupo(v) !in Nombres(grupos)
    ensures AgrupaA(grupos + [(ClaveGrupo(v), [v])], previos + [v])
  {
    NombresTrasNuevo(previos, grupos, v);
    GruposTrasNuevo(previos, grupos, v);
  }

  /** A new group's name goes at the end of the names. */
  lemma NombresTrasNuevo(previos: seq<EquipoVista>, grupos: Grupos, v: EquipoVista)
    requires Nombres(grupos) == Distintos(ClavesGrupo(previos))
    requires ClaveGrupo(v) !in Nombres(grupos)
    ensures Nombres(grupos + [(ClaveGrupo(v), [v])]) == Distintos(ClavesGrupo(previos + [v]))
  {
    NombresPaso(previos, v);
    NombresAgregados(grupos, (ClaveGrupo(v), [v]));
  }

  lemma NombresAgregados(grupos: Grupos, x: (string, seq<EquipoVista>))
    ensures Nombres(grupos + [x]) == Nombres(grupos) + [x.0]
  {
  }

  /** Every group after `v` opened a new group at the end. */
  lemma GruposTrasNuevo(previos: seq<EquipoVista>, grupos: Grupos, v: EquipoVista)
    requires forall h :: 0 <= h < |grupos| ==> grupos[h].1 == Filtrar(previos, DeUbicacion(grupos[h].0))
    requires Nombres(grupos) == Distintos(ClavesGrupo(previos))
    requires ClaveGrupo(v) !in Nombres(grupos)
    ensures var nuevos := grupos + [(ClaveGrupo(v), [v])];
            forall h :: 0 <= h < |nuevos| ==> nuevos[h].1 == Filtrar(previos + [v], DeUbicacion(nuevos[h].0))
  {
    assert Filtrar(previos, DeUbicacion(ClaveGrupo(v))) == [] by {
      GrupoNuevoVacio(previos, ClaveGrupo(v));
    }
    forall h | 0 <= h < |grupos| + 1
      ensures (grupos + [(ClaveGrupo(v), [v])])[h].1 == Filtrar(previos + [v], DeUbicacion((grupos + [(ClaveGrupo(v), [v])])[h].0))
    {
      assert h < |grupos| ==> Nombres(grupos)[h] != ClaveGrupo(v);
      GrupoTrasNuevo(previos, grupos, v, h);
    }
  }

  /** Group `h` after `v` opened a new group at the end. */
  lemma GrupoTrasNuevo(previos: seq<EquipoVista>, grupos: Grupos, v: EquipoVista, h: nat)
    requires h <= |grupos|
    requires h < |grupos| ==> grupos[h].1 == Filtrar(previos, DeUbicacion(grupos[h].0)) && grupos[h].0 != ClaveGrupo(v)
    requires Filtrar(previos, DeUbicacion(ClaveGrupo(v))) == []
    ensures (grupos + [(ClaveGrupo(v), [v])])[h].1 == Filtrar(previos + [v], DeUbicacion((grupos + [(ClaveGrupo(v), [v])])[h].0))
  {
    if h < |grupos| {
      GrupoExtendido(previos, v, grupos[h].0, grupos[h].1);
    } else {
      GrupoExtendido(previos, v, ClaveGrupo(v), []);
    }
  }

  lemma NombresPaso(previos: seq<EquipoVista>, v: EquipoVista)
    ensures var d := Distintos(ClavesGrupo(previos));
            Distintos(ClavesGrupo(previos + [v])) == if ClaveGrupo(v) in d then d else d + [ClaveGrupo(v)]
  {
    var s := previos + [v];
    assert ClavesGrupo(s)[..|s| - 1] == ClavesGrupo(previos);
  }

  /** A location not yet among the group names has no equipment so far. */
  lemma GrupoNuevoVacio(previos: seq<EquipoVista>, k: string)
    requires k !in Distintos(ClavesGrupo(previos))
    ensures Filtrar(previos, DeUbicacion(k)) == []
  {
    forall j | 0 <= j < |previos|
      ensures ClaveGrupo(previos[j]) != k
    {
      assert ClavesGrupo(previos)[j] == ClaveGrupo(previos[j]);
    }
    FiltrarNinguno(previos, DeUbicacion(k));
  }

  lemma GrupoExtendido(previos: seq<EquipoVista>, v: EquipoVista, nombre: string, grupo: seq<EquipoVista>)
    requires grupo == Filtrar(previos, DeUbicacion(nombre))
    ensures Filtrar(previos + [v], DeUbicacion(nombre))
            == if ClaveGrupo(v) == nombre then grupo + [v] else grupo
  {
    FiltrarConcatenado(previos, [v], DeUbicacion(nombre));
    assert [v][1..] == [];
  }

  /** The position of the group named `k`, or `|grupos|` when there is none. */
  method BuscarGrupo(grupos: Grupos, k: string) returns (g: nat)
    ensures g <= |grupos|
    ensures g < |grupos| ==> grupos[g].0 == k
    ensures g == |grupos| ==> k !in Nombres(grupos)
  {
    g := 0;
    while g < |grupos| && grupos[g].0 != k
      invariant g <= |grupos|
      invariant forall h :: 0 <= h < g ==> grupos[h].0 != k
    {
      g := g + 1;
    }
  }

  /** Every equipment lands in exactly one group: the one named by its location. */
  lemma UnGrupoPorEquipo(ordenados: seq<EquipoVista>, grupos: Grupos, i: nat)
    requires i < |ordenados|
    requires AgrupaA(grupos, ordenados)
    ensures exists g :: 0 <= g < |grupos| && grupos[g].0 == ClaveGrupo(ordenados[i]) && ordenados[i] in grupos[g].1
    ensures forall g :: 0 <= g < |grupos| && grupos[g].0 != ClaveGrupo(ordenados[i]) ==> ordenados[i] !in grupos[g].1
  {
    var k := ClaveGrupo(ordenados[i]);
    assert ClavesGrupo(ordenados)[i] == k;
    assert k in Nombres(grupos);
    var g :| 0 <= g < |grupos| && Nombres(grupos)[g] == k;
    assert ordenados[i] in grupos[g].1;
  }

  /** `equipos.map(e => e.ubicacion_actual)`. */
  function Ubicaciones(vs: seq<EquipoVista>): (xs: seq<Option<string>>)
    ensures |xs| == |vs| && forall j :: 0 <= j < |vs| ==> xs[j] == vs[j].equipo.ubicacion_actual
  {
    seq(|vs|, j requires 0 <= j < |vs| => vs[j].equipo.ubicacion_actual)
  }

  /** `['Todos', ...new Set(locations.filter(Boolean))]`. */
  function UbicacionesUnicas(vs: seq<EquipoVista>): (r: seq<string>)
    ensures r == ["Todos"] + DistintosPresentes(Ubicaciones(vs))
    ensures |r| >= 1 && r[0] == "Todos" && SinRepetidos(r[1..])
    ensures forall i :: 1 <= i < |r| ==> exists j :: 0 <= j < |vs| && vs[j].equipo.ubicacion_actual == Some(r[i]) && r[i] != []
    ensures forall j :: 0 <= j < |vs| && vs[j].equipo.ubicacion_actual.Some? && vs[j].equipo.ubicacion_actual.value != [] ==>
              vs[j].equipo.ubicacion_actual.value in r[1..]
  {
    var xs := Ubicaciones(vs);
    var d := DistintosPresentes(xs);
    assert (["Todos"] + d)[1..] == d;
    ["Todos"] + d
  }
}
