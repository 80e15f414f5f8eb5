/** The ticket list (`ListaMantenimientos.jsx`): its filters, the downtime of each
    ticket, the state totals and the highlight of outstanding tickets. */
module ListaMantenimientos {
  import opened Opciones
  import opened Texto
  import opened Fechas
  import opened Secuencias
  import opened Dominio
  import DashboardMantenimientos

  datatype FiltrosTickets = FiltrosTickets(tipo: string, estado: string, pedido: string, prioridad: string, busqueda: string)

  const FILTROS_INICIALES := FiltrosTickets("Todos", "Todos", "Todos", "Todos", "")

  /** `matchPedido`: 'Si' and 'No' select on the flag, 'Todos' lets everything
      through and any other value lets nothing through. */
  predicate PasaPedido(filtro: string, pedido: bool) {
    filtro == "Todos" || (filtro == "Si" && pedido) || (filtro == "No" && !pedido)
  }

  /** `matchBusqueda`: the search, lower-cased, inside the equipment code, the
      notice number, the order number or the description, a missing one read as
      the empty string. */
  predicate CoincideTicket(m: Mantenimiento, busqueda: string) {
    CoincideBusqueda(m.equipo_codigo.GetOr(""), busqueda)
    || CoincideBusqueda(m.numero_aviso.GetOr(""), busqueda)
    || CoincideBusqueda(m.numero_orden.GetOr(""), busqueda)
    || CoincideBusqueda(m.descripcion_averia.GetOr(""), busqueda)
  }

  predicate PasaFiltros(f: FiltrosTickets, m: Mantenimiento) {
    (f.tipo == "Todos" || m.tipo_mantenimiento == f.tipo)
    && (f.estado == "Todos" || m.estado == f.estado)
    && PasaPedido(f.pedido, m.pedido)
    && (f.prioridad == "Todos" || m.prioridad == f.prioridad)
    && CoincideTicket(m, f.busqueda)
  }

  /** `mantenimientosFiltrados`: the tickets passing all five tests, in order. */
  function Filtrados(f: FiltrosTickets, ms: seq<Mantenimiento>): (r: seq<Mantenimiento>)
    ensures |r| <= |ms|
    ensures forall i :: 0 <= i < |r| ==> r[i] in ms && PasaFiltros(f, r[i])
    ensures forall i :: 0 <= i < |ms| && PasaFiltros(f, ms[i]) ==> ms[i] in r
  {
    Filtrar(ms, Criterio(f))
  }

  function Criterio(f: FiltrosTickets): Mantenimiento -> bool {
    (m: Mantenimiento) => PasaFiltros(f, m)
  }

  /** The listed tickets keep the list's order, each passing ticket once. */
  lemma FiltradosEnOrden(f: FiltrosTickets, ms: seq<Mantenimiento>) returns (idx: seq<nat>)
    ensures Incrustado(Filtrados(f, ms), ms, idx)
    ensures forall i :: 0 <= i < |ms| ==> (i in idx <==> PasaFiltros(f, ms[i]))
  {
    idx := FiltrarEnOrden(ms, Criterio(f));
  }

  /** With the initial filters every ticket is listed. */
  lemma FiltrosInicialesNoFiltran(ms: seq<Mantenimiento>)
    ensures Filtrados(FILTROS_INICIALES, ms) == ms
  {
    forall i | 0 <= i < |ms|
      ensures PasaFiltros(FILTROS_INICIALES, ms[i])
    {
      BusquedaVaciaCoincide(ms[i].equipo_codigo.GetOr(""));
    }
    FiltrarTodos(ms, Criterio(FILTROS_INICIALES));
  }

  /** 'Si' keeps exactly the tickets with parts ordered, 'No' exactly the others,
      all other filters being open. */
  lemma FiltroPedido(ms: seq<Mantenimiento>, i: nat)
    requires i < |ms|
    ensures ms[i] in Filtrados(FILTROS_INICIALES.(pedido := "Si"), ms) <==> ms[i].pedido
    ensures ms[i] in Filtrados(FILTROS_INICIALES.(pedido := "No"), ms) <==> !ms[i].pedido
  {
    BusquedaVaciaCoincide(ms[i].equipo_codigo.GetOr(""));
  }

  /** A search hit on any one of the four fields lists the ticket, whatever the
      other fields hold, when the other filters are open. */
  lemma BusquedaEnCualquierCampo(m: Mantenimiento, busqueda: string)
    requires CoincideBusqueda(m.numero_aviso.GetOr(""), busqueda)
             || CoincideBusqueda(m.numero_orden.GetOr(""), busqueda)
             || CoincideBusqueda(m.descripcion_averia.GetOr(""), busqueda)
             || CoincideBusqueda(m.equipo_codigo.GetOr(""), busqueda)
    ensures Filtrados(FILTROS_INICIALES.(busqueda := busqueda), [m]) == [m]
  {
    assert PasaFiltros(FILTROS_INICIALES.(busqueda := busqueda), m);
    assert [m][1..] == [];
  }

  /** `calcularTiempoParada`: no downtime without a failure date; otherwise the
      whole days from the failure to the release, or to `ahora`. */
  function TiempoParada(m: Mantenimiento, ahora: int): (r: Option<int>)
    ensures r.None? <==> m.fecha_inicio_averia.None?
    ensures r.Some? ==>
              var fin := if m.fecha_liberacion.Some? then m.fecha_liberacion.value else ahora;
              r.value * MS_POR_DIA <= fin - m.fecha_inicio_averia.value < (r.value + 1) * MS_POR_DIA
  {
    match m.fecha_inicio_averia
    case None => None
    case Some(inicio) =>
      var fin := match m.fecha_liberacion case Some(l) => l case None => ahora;
      Some(DiasEntre(fin, inicio))
  }

  /** For a released ticket the list's downtime is the day gap the dashboard
      averages. */
  lemma TiempoParadaEsDiasParada(m: Mantenimiento, ahora: int)
    requires DashboardMantenimientos.ConTiempo(m)
    ensures TiempoParada(m, ahora) == Some(DashboardMantenimientos.DiasParada(m))
  {
  }

  datatype Totales = Totales(espera: nat, entrada: nat, salida: nat, debidos: nat)

  /** The three state totals and the outstanding total. A card gets the red
      border under the same test as the outstanding total, so `debidos` is also
      the number of red cards. */
  function TotalesDe(ms: seq<Mantenimiento>): (t: Totales)
    ensures t.espera == Contar(ms, EnEstado(TALLER_ESPERA))
    ensures t.entrada == Contar(ms, EnEstado(TALLER_ENTRADA))
    ensures t.salida == Contar(ms, EnEstado(TALLER_SALIDA))
    ensures t.espera + t.entrada + t.salida <= |ms|
    ensures t.debidos == Contar(ms, EsDebido)
  {
    ContarTresDisjuntos(ms, EnEstado(TALLER_ESPERA), EnEstado(TALLER_ENTRADA), EnEstado(TALLER_SALIDA));
    Totales(Contar(ms, EnEstado(TALLER_ESPERA)), Contar(ms, EnEstado(TALLER_ENTRADA)),
            Contar(ms, EnEstado(TALLER_SALIDA)), Contar(ms, EsDebido))
  }

  /** The list and the dashboard agree on every count of the same tickets. */
  lemma TotalesComoDashboard(ms: seq<Mantenimiento>)
    ensures TotalesDe(ms).espera == DashboardMantenimientos.EstadisticasDe(ms).espera
    ensures TotalesDe(ms).entrada == DashboardMantenimientos.EstadisticasDe(ms).entrada
    ensures TotalesDe(ms).salida == DashboardMantenimientos.EstadisticasDe(ms).salida
    ensures TotalesDe(ms).debidos == DashboardMantenimientos.EstadisticasDe(ms).totalDebidos
  {
    DashboardMantenimientos.DebidosSonLosPendientes(ms);
  }
}
