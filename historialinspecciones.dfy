/** The inspection history of one equipment (`HistorialInspecciones.jsx`): the
    inspector list, the four filters with their inclusive date range, the kind
    labels, the checklist grouped by category and the clear-filters button.
    Date bounds are the timestamps of the chosen days' start. */
module HistorialInspecciones {
  import opened Opciones
  import opened Texto
  import opened Secuencias
  import opened Dominio
  import NuevaInspeccion

  /** The last millisecond of a day after its start: 23:59:59. */
  const FIN_DEL_DIA: int := 86399000

  datatype FiltrosHistorial = FiltrosHistorial(inspector: string, tipo: string, desde: Option<int>, hasta: Option<int>)

  const FILTROS_INICIALES := FiltrosHistorial("Todos", "Todos", None, None)

  /** `inspecciones.map(i => i.inspector?.nombre_completo)`. */
  function Inspectores(inspecciones: seq<Inspeccion>): (xs: seq<Option<string>>)
    ensures |xs| == |inspecciones| && forall j :: 0 <= j < |inspecciones| ==> xs[j] == inspecciones[j].inspector
  {
    seq(|inspecciones|, j requires 0 <= j < |inspecciones| => inspecciones[j].inspector)
  }

  /** `inspectoresUnicos`: 'Todos', then each non-empty inspector name once, in
      order of first appearance. */
  function InspectoresUnicos(inspecciones: seq<Inspeccion>): (r: seq<string>)
    ensures r == ["Todos"] + DistintosPresentes(Inspectores(inspecciones))
    ensures |r| >= 1 && r[0] == "Todos" && SinRepetidos(r[1..])
    ensures forall i :: 1 <= i < |r| ==> r[i] != [] && exists j :: 0 <= j < |inspecciones| && inspecciones[j].inspector == Some(r[i])
    ensures forall j :: 0 <= j < |inspecciones| && inspecciones[j].inspector.Some? && inspecciones[j].inspector.value != [] ==>
              inspecciones[j].inspector.value in r[1..]
  {
    var xs := Inspectores(inspecciones);
    var d := DistintosPresentes(xs);
    assert (["Todos"] + d)[1..] == d;
    ["Todos"] + d
  }

  /** The four tests of `inspeccionesFiltradas`. */
  predicate PasaFiltros(f: FiltrosHistorial, x: Inspeccion) {
    (f.inspector == "Todos" || x.inspector == Some(f.inspector))
    && (f.tipo == "Todos" || x.tipo_inspeccion == f.tipo)
    && (f.desde.None? || x.fecha_hora >= f.desde.value)
    && (f.hasta.None? || x.fecha_hora <= f.hasta.value + FIN_DEL_DIA)
  }

  function Filtradas(f: FiltrosHistorial, inspecciones: seq<Inspeccion>): (r: seq<Inspeccion>)
    ensures |r| <= |inspecciones|
    ensures forall i :: 0 <= i < |r| ==> r[i] in inspecciones && PasaFiltros(f, r[i])
    ensures forall i :: 0 <= i < |inspecciones| && PasaFiltros(f, inspecciones[i]) ==> inspecciones[i] in r
  {
    Filtrar(inspecciones, Criterio(f))
  }

  function Criterio(f: FiltrosHistorial): Inspeccion -> bool {
    (x: Inspeccion) => PasaFiltros(f, x)
  }

  /** The filtered list keeps the history's order: it is the history with exactly
      the inspections that fail a filter taken out. */
  lemma FiltradasEnOrden(f: FiltrosHistorial, inspecciones: seq<Inspeccion>) returns (idx: seq<nat>)
    ensures Incrustado(Filtradas(f, inspecciones), inspecciones, idx)
    ensures forall i :: 0 <= i < |inspecciones| ==> (i in idx <==> PasaFiltros(f, inspecciones[i]))
  {
    idx := FiltrarEnOrden(inspecciones, Criterio(f));
  }

  /** With the initial filters every inspection is shown. */
  lemma FiltrosInicialesNoFiltran(inspecciones: seq<Inspeccion>)
    ensures Filtradas(FILTROS_INICIALES, inspecciones) == inspecciones
  {
    FiltrarTodos(inspecciones, Criterio(FILTROS_INICIALES));
  }

  /** The range is inclusive at both ends: an inspection at the very start of the
      first day or at 23:59:59.000 of the last day is shown, one millisecond
      before or after is not. */
  lemma RangoInclusivo(x: Inspeccion, desde: int, hasta: int)
    ensures PasaFiltros(FiltrosHistorial("Todos", "Todos", Some(desde), Some(hasta)), x) <==>
              desde <= x.fecha_hora <= hasta + FIN_DEL_DIA
    ensures x.fecha_hora == desde && desde <= hasta + FIN_DEL_DIA ==>
              PasaFiltros(FiltrosHistorial("Todos", "Todos", Some(desde), Some(hasta)), x)
    ensures x.fecha_hora == hasta + FIN_DEL_DIA && desde <= x.fecha_hora ==>
              PasaFiltros(FiltrosHistorial("Todos", "Todos", Some(desde), Some(hasta)), x)
  {
  }

  /** The filters combine by conjunction: filtering by all of them is filtering by
      each in turn. */
  lemma FiltrosSeCombinan(f: FiltrosHistorial, inspecciones: seq<Inspeccion>)
    ensures Filtradas(f, inspecciones)
            == Filtradas(FILTROS_INICIALES.(inspector := f.inspector),
                 Filtradas(FILTROS_INICIALES.(tipo := f.tipo),
                   Filtradas(FILTROS_INICIALES.(desde := f.desde, hasta := f.hasta), inspecciones)))
  {
    var porInspector := Criterio(FILTROS_INICIALES.(inspector := f.inspector));
    var porTipo := Criterio(FILTROS_INICIALES.(tipo := f.tipo));
    var porFecha := Criterio(FILTROS_INICIALES.(desde := f.desde, hasta := f.hasta));
    var tipoYFecha := (x: Inspeccion) => porTipo(x) && porFecha(x);
    FiltrarDosVeces(inspecciones, porTipo, porFecha, tipoYFecha);
    assert forall x :: Criterio(f)(x) == (porInspector(x) && tipoYFecha(x));
    FiltrarDosVeces(inspecciones, porInspector, tipoYFecha, Criterio(f));
  }

  /** `getTipoLabel`: the five kinds by their stored code; any other text is shown
      as it is. */
  function EtiquetaTipo(tipo: string): (r: string)
    ensures TipoDeCodigo(tipo).None? ==> r == tipo
    ensures TipoDeCodigo(tipo).Some? ==> r == EtiquetaDe(TipoDeCodigo(tipo).value)
  {
    match TipoDeCodigo(tipo)
    case Some(t) => EtiquetaDe(t)
    case None => tipo
  }

  /** The kind's icon, a space, then its name, as in `🔍 Inspección Periódica`. */
  function EtiquetaDe(t: TipoInspeccion): string {
    [t.Icono(), ' '] + t.Nombre()
  }

  /** Every kind has its own label, and none is a stored code. */
  lemma EtiquetasDistintas(t: TipoInspeccion, u: TipoInspeccion)
    ensures EtiquetaTipo(t.Codigo()) == EtiquetaDe(t)
    ensures EtiquetaDe(t) == EtiquetaDe(u) ==> t == u
    ensures TipoDeCodigo(EtiquetaDe(t)).None?
  {
    TipoIdaVuelta(t);
    assert EtiquetaDe(t)[0] == t.Icono() && EtiquetaDe(u)[0] == u.Icono();
    var c := EtiquetaDe(t);
    assert c[0] !in {'p', 'e', 'r', 't', 'a'};
    assert c != "periodica" && c != "envio" && c != "recepcion" && c != "taller" && c != "almacenamiento";
  }

  // Checklist detail.

  /** `checklist.map(i => i.categoria)`. */
  function CategoriasDe(items: seq<NuevaInspeccion.FilaChecklist>): (cs: seq<string>)
    ensures |cs| == |items| && forall i :: 0 <= i < |items| ==> cs[i] == items[i].categoria
  {
    seq(|items|, i requires 0 <= i < |items| => items[i].categoria)
  }

  /** `[...new Set(checklist.map(i => i.categoria))]`: each category once. */
  function Categorias(items: seq<NuevaInspeccion.FilaChecklist>): (r: seq<string>)
    ensures r == Distintos(CategoriasDe(items))
    ensures SinRepetidos(r)
    ensures forall i :: 0 <= i < |items| ==> items[i].categoria in r
    ensures forall k :: 0 <= k < |r| ==> exists i :: 0 <= i < |items| && items[i].categoria == r[k]
  {
    Distintos(CategoriasDe(items))
  }

  /** The sections come in order of each category's first item, as a `Set`
      iterates in insertion order. */
  lemma CategoriasEnOrden(items: seq<NuevaInspeccion.FilaChecklist>) returns (idx: seq<nat>)
    ensures Incrustado(Categorias(items), CategoriasDe(items), idx)
    ensures forall i :: 0 <= i < |items| ==>
              (i in idx <==> CategoriasDe(items)[i] !in CategoriasDe(items)[..i])
  {
    idx := DistintosEnOrden(CategoriasDe(items));
  }

  function ItemsDeCategoria(items: seq<NuevaInspeccion.FilaChecklist>, c: string): (r: seq<NuevaInspeccion.FilaChecklist>)
    ensures forall i :: 0 <= i < |r| ==> r[i] in items && r[i].categoria == c
    ensures forall i :: 0 <= i < |items| && items[i].categoria == c ==> items[i] in r
  {
    Filtrar(items, DeCategoria(c))
  }

  function DeCategoria(c: string): NuevaInspeccion.FilaChecklist -> bool {
    (x: NuevaInspeccion.FilaChecklist) => x.categoria == c
  }

  /** A section lists its items in checklist order. */
  lemma ItemsDeCategoriaEnOrden(items: seq<NuevaInspeccion.FilaChecklist>, c: string) returns (idx: seq<nat>)
    ensures Incrustado(ItemsDeCategoria(items, c), items, idx)
    ensures forall i :: 0 <= i < |items| ==> (i in idx <==> items[i].categoria == c)
  {
    idx := FiltrarEnOrden(items, DeCategoria(c));
  }

  /** Each checklist item is shown once, under its own category: that category is
      listed, its section holds the item, and no other section does. */
  lemma UnaSeccionPorItem(items: seq<NuevaInspeccion.FilaChecklist>, i: nat)
    requires i < |items|
    ensures items[i].categoria in Categorias(items)
    ensures items[i] in ItemsDeCategoria(items, items[i].categoria)
    ensures forall c :: c != items[i].categoria ==> items[i] !in ItemsDeCategoria(items, c)
  {
    forall c | c != items[i].categoria
      ensures items[i] !in ItemsDeCategoria(items, c)
    {
      var r := ItemsDeCategoria(items, c);
      assert forall k :: 0 <= k < |r| ==> r[k].categoria == c;
    }
  }

  // Clearing the filters.

  /** The clear button shows while any filter is set. */
  predicate HayFiltros(f: FiltrosHistorial) {
    f.inspector != "Todos" || f.tipo != "Todos" || f.desde.Some? || f.hasta.Some?
  }

  /** The button is shown exactly when the filters differ from the initial ones,
      and pressing it shows every inspection again and hides the button. */
  lemma LimpiarFiltros(f: FiltrosHistorial, inspecciones: seq<Inspeccion>)
    ensures HayFiltros(f) <==> f != FILTROS_INICIALES
    ensures !HayFiltros(FILTROS_INICIALES)
    ensures Filtradas(FILTROS_INICIALES, inspecciones) == inspecciones
  {
    FiltrosInicialesNoFiltran(inspecciones);
  }
}
