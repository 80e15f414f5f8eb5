/** The maintenance dashboard (`DashboardMantenimientos.jsx`): the outstanding
    tickets sorted by priority, the counts by state and by kind, the rounded
    mean downtime and the days each ticket spends in the workshop. */
module DashboardMantenimientos {
  import opened Opciones
  import opened Fechas
  import opened Secuencias
  import opened Orden
  import opened Dominio

  /** `prioridadOrden[p] || 5`: the four known priorities rank 1 to 4 and any
      other value ranks last. */
  function RangoPrioridad(p: string): (r: int)
    ensures 1 <= r <= 5
    ensures r == 5 <==> PrioridadDeCodigo(p).None?
    ensures PrioridadDeCodigo(p) == Some(MuyElevado) <==> r == 1
    ensures PrioridadDeCodigo(p) == Some(Alto) <==> r == 2
    ensures PrioridadDeCodigo(p) == Some(Medio) <==> r == 3
    ensures PrioridadDeCodigo(p) == Some(Bajo) <==> r == 4
  {
    match PrioridadDeCodigo(p)
    case Some(MuyElevado) => 1
    case Some(Alto) => 2
    case Some(Medio) => 3
    case Some(Bajo) => 4
    case None => 5
  }

  function ClavePrioridad(m: Mantenimiento): int { RangoPrioridad(m.prioridad) }

  function CompararPrioridad(a: Mantenimiento, b: Mantenimiento): int {
    RangoPrioridad(a.prioridad) - RangoPrioridad(b.prioridad)
  }

  /** `equiposDebidos`: the outstanding tickets, sorted by priority rank. */
  function Debidos(ms: seq<Mantenimiento>): (r: seq<Mantenimiento>)
    ensures multiset(r) == multiset(Filtrar(ms, EsDebido))
  {
    Ordenar(Filtrar(ms, EsDebido), CompararPrioridad)
  }

  /** A ticket is listed as outstanding exactly when it is outstanding, and the
      list holds each one as often as the tickets do. */
  lemma DebidosSonLosPendientes(ms: seq<Mantenimiento>)
    ensures forall m :: m in Debidos(ms) <==> m in ms && EsDebido(m)
    ensures |Debidos(ms)| == Contar(ms, EsDebido)
  {
    var f := Filtrar(ms, EsDebido);
    assert |multiset(Debidos(ms))| == |multiset(f)|;
    forall m
      ensures m in Debidos(ms) <==> m in ms && EsDebido(m)
    {
      assert m in Debidos(ms) <==> m in multiset(Debidos(ms));
      assert m in f <==> m in multiset(f);
    }
  }

  /** Outstanding tickets come most urgent first; unknown priorities last. */
  lemma DebidosPorPrioridad(ms: seq<Mantenimiento>)
    ensures forall i, j :: 0 <= i < j < |Debidos(ms)| ==>
              RangoPrioridad(Debidos(ms)[i].prioridad) <= RangoPrioridad(Debidos(ms)[j].prioridad)
  {
    PreordenPorClave(CompararPrioridad, ClavePrioridad);
    OrdenarOrdenado(Filtrar(ms, EsDebido), CompararPrioridad, Cualquiera);
  }

  /** `porEstado` and `porTipo`: exact matches of the stored strings. */
  datatype Estadisticas = Estadisticas(
    total: nat, espera: nat, entrada: nat, salida: nat,
    correctivos: nat, preventivos: nat, totalDebidos: nat)

  /** `estadisticas`: the total, one exact-match count per workshop state and
      per kind, and the number of outstanding tickets. The three states, and
      the two kinds, exclude each other, so neither group exceeds the total. */
  function EstadisticasDe(ms: seq<Mantenimiento>): (e: Estadisticas)
    ensures e.total == |ms|
    ensures e.espera == Contar(ms, EnEstado(TALLER_ESPERA))
    ensures e.entrada == Contar(ms, EnEstado(TALLER_ENTRADA))
    ensures e.salida == Contar(ms, EnEstado(TALLER_SALIDA))
    ensures e.correctivos == Contar(ms, DeTipo("Correctivo"))
    ensures e.preventivos == Contar(ms, DeTipo("Preventivo"))
    ensures e.espera + e.entrada + e.salida <= e.total
    ensures e.correctivos + e.preventivos <= e.total
    ensures e.totalDebidos == |Debidos(ms)|
  {
    ContarTresDisjuntos(ms, EnEstado(TALLER_ESPERA), EnEstado(TALLER_ENTRADA), EnEstado(TALLER_SALIDA));
    ContarDisjuntos(ms, DeTipo("Correctivo"), DeTipo("Preventivo"));
    Estadisticas(|ms|, Contar(ms, EnEstado(TALLER_ESPERA)), Contar(ms, EnEstado(TALLER_ENTRADA)),
                 Contar(ms, EnEstado(TALLER_SALIDA)), Contar(ms, DeTipo("Correctivo")),
                 Contar(ms, DeTipo("Preventivo")), |Debidos(ms)|)
  }

  /** One more ticket raises the count of its own state and its own kind by one
      and leaves every other count as it was. */
  lemma EstadisticasAlAgregar(ms: seq<Mantenimiento>, m: Mantenimiento)
    ensures var antes, despues := EstadisticasDe(ms), EstadisticasDe(ms + [m]);
            despues.total == antes.total + 1
            && despues.espera == antes.espera + (if m.estado == TALLER_ESPERA then 1 else 0)
            && despues.entrada == antes.entrada + (if m.estado == TALLER_ENTRADA then 1 else 0)
            && despues.salida == antes.salida + (if m.estado == TALLER_SALIDA then 1 else 0)
            && despues.correctivos == antes.correctivos + (if m.tipo_mantenimiento == "Correctivo" then 1 else 0)
            && despues.preventivos == antes.preventivos + (if m.tipo_mantenimiento == "Preventivo" then 1 else 0)
  {
    var t := ms + [m];
    assert t[..|t| - 1] == ms;
    ContarUltimo(t, EnEstado(TALLER_ESPERA));
    ContarUltimo(t, EnEstado(TALLER_ENTRADA));
    ContarUltimo(t, EnEstado(TALLER_SALIDA));
    ContarUltimo(t, DeTipo("Correctivo"));
    ContarUltimo(t, DeTipo("Preventivo"));
  }

  /** Every outstanding ticket is still waiting or inside the workshop, or carries
      a state the screen does not count. None has left. */
  lemma DebidosNoSalidos(ms: seq<Mantenimiento>)
    ensures EstadisticasDe(ms).totalDebidos + EstadisticasDe(ms).salida <= |ms|
  {
    DebidosSonLosPendientes(ms);
    ContarDisjuntos(ms, EsDebido, EnEstado(TALLER_SALIDA));
  }

  // Mean downtime.

  /** A ticket whose downtime the mean includes. */
  predicate ConTiempo(m: Mantenimiento) {
    m.fecha_inicio_averia.Some? && m.fecha_liberacion.Some?
  }

  function DiasParada(m: Mantenimiento): int
    requires ConTiempo(m)
  {
    DiasEntre(m.fecha_liberacion.value, m.fecha_inicio_averia.value)
  }

  function SumaDias(ms: seq<Mantenimiento>): int
    requires forall i :: 0 <= i < |ms| ==> ConTiempo(ms[i])
  {
    if ms == [] then 0 else DiasParada(ms[0]) + SumaDias(ms[1..])
  }

  /** `Math.round(s / n)` for a positive `n`: the nearest integer, halves upward. */
  function Redondear(s: int, n: int): (r: int)
    requires n > 0
    ensures (2 * r - 1) * n <= 2 * s < (2 * r + 1) * n
  {
    (2 * s + n) / (2 * n)
  }

  /** An exact quotient rounds to itself. */
  lemma RedondearExacto(d: int, n: int)
    requires n > 0
    ensures Redondear(d * n, n) == d
  {
    var r := Redondear(d * n, n);
    MenorPorFactor(2 * r - 1, 2 * d + 1, n);
    MenorPorFactor(2 * d, 2 * r + 1, n);
  }

  /** `tiempoPromedio`: 0 when no ticket has both dates; otherwise the rounded mean
      of the whole days between failure and release over those tickets only. */
  function TiempoPromedio(ms: seq<Mantenimiento>): (r: int)
    ensures ConTiempos(ms) == [] ==> r == 0
    ensures var c := ConTiempos(ms);
            c != [] ==> (2 * r - 1) * |c| <= 2 * SumaDias(c) < (2 * r + 1) * |c|
  {
    var c := ConTiempos(ms);
    if c == [] then 0 else Redondear(SumaDias(c), |c|)
  }

  /** The tickets with both dates. */
  function ConTiempos(ms: seq<Mantenimiento>): (c: seq<Mantenimiento>)
    ensures forall i :: 0 <= i < |c| ==> ConTiempo(c[i]) && c[i] in ms
    ensures forall i :: 0 <= i < |ms| && ConTiempo(ms[i]) ==> ms[i] in c
  {
    Filtrar(ms, ConTiempo)
  }

  /** The mean runs over the dated tickets in list order, each exactly once. */
  lemma ConTiemposEnOrden(ms: seq<Mantenimiento>) returns (idx: seq<nat>)
    ensures Incrustado(ConTiempos(ms), ms, idx)
    ensures forall i :: 0 <= i < |ms| ==> (i in idx <==> ConTiempo(ms[i]))
  {
    idx := FiltrarEnOrden(ms, ConTiempo);
  }

  /** Tickets missing either date do not move the mean. */
  lemma PromedioIgnoraSinTiempo(ms: seq<Mantenimiento>, otros: seq<Mantenimiento>)
    requires forall i :: 0 <= i < |otros| ==> !ConTiempo(otros[i])
    ensures TiempoPromedio(ms + otros) == TiempoPromedio(ms)
    ensures TiempoPromedio(otros + ms) == TiempoPromedio(ms)
  {
    FiltrarConcatenado(ms, otros, ConTiempo);
    FiltrarConcatenado(otros, ms, ConTiempo);
    FiltrarNinguno(otros, ConTiempo);
    assert Filtrar(ms, ConTiempo) + [] == Filtrar(ms, ConTiempo);
    assert [] + Filtrar(ms, ConTiempo) == Filtrar(ms, ConTiempo);
  }

  lemma {:induction false} SumaDiasIguales(c: seq<Mantenimiento>, d: int)
    requires forall i :: 0 <= i < |c| ==> ConTiempo(c[i]) && DiasParada(c[i]) == d
    ensures SumaDias(c) == d * |c|
    decreases |c|
  {
    if c != [] {
      SumaDiasIguales(c[1..], d);
    }
  }

  /** When every counted ticket was down the same number of days, that is the
      mean. */
  lemma PromedioDeIguales(ms: seq<Mantenimiento>, d: int)
    requires Filtrar(ms, ConTiempo) != []
    requires forall i :: 0 <= i < |ms| && ConTiempo(ms[i]) ==> DiasParada(ms[i]) == d
    ensures TiempoPromedio(ms) == d
  {
    var c := Filtrar(ms, ConTiempo);
    forall i | 0 <= i < |c|
      ensures ConTiempo(c[i]) && DiasParada(c[i]) == d
    {
      var j :| 0 <= j < |ms| && ms[j] == c[i];
    }
    SumaDiasIguales(c, d);
    RedondearExacto(d, |c|);
  }

  /** `calcularDiasEnTaller`: whole days from workshop entry to release, or to
      `ahora` when there is none. A missing entry date reads as the epoch, which
      is what `new Date(null)` gives. */
  function DiasEnTaller(m: Mantenimiento, ahora: int): (d: int)
    ensures var inicio := m.fecha_ingreso_taller.GetOr(0);
            var fin := if m.fecha_liberacion.Some? then m.fecha_liberacion.value else ahora;
            d * MS_POR_DIA <= fin - inicio < (d + 1) * MS_POR_DIA
  {
    var inicio := m.fecha_ingreso_taller.GetOr(0);
    var fin := match m.fecha_liberacion case Some(l) => l case None => ahora;
    DiasEntre(fin, inicio)
  }

  /** A released ticket's workshop days no longer depend on the clock, and a
      ticket still inside accrues them as time passes. */
  lemma DiasEnTallerReloj(m: Mantenimiento, ahora: int, despues: int)
    requires ahora <= despues
    ensures m.fecha_liberacion.Some? ==> DiasEnTaller(m, ahora) == DiasEnTaller(m, despues)
    ensures DiasEnTaller(m, ahora) <= DiasEnTaller(m, despues)
  {
    var inicio := m.fecha_ingreso_taller.GetOr(0);
    if m.fecha_liberacion.None? {
      DiasEntreMonotono(ahora, despues, inicio);
    }
  }
}
