/** The comparison helpers of the inspection report (`utils/pdfGenerator.js`,
    `generarPDFInspeccion`): whether the report compares a reception with its
    dispatch, the days on site, the hour-meter difference, the state ranking, the
    item pairing and the answer labels of the checklist tables. */
module PdfGenerador {
  import opened Opciones
  import opened Texto
  import opened Fechas
  import opened Dominio
  import NuevaInspeccion
  import HistorialInspecciones

  type Fila = NuevaInspeccion.FilaChecklist

  /** `esComparativo`: a dispatch inspection was given and its checklist is not
      empty. */
  function EsComparativo(envio: Option<Inspeccion>, checklistEnvio: seq<Fila>): (r: bool)
    ensures r <==> envio.Some? && |checklistEnvio| > 0
  {
    envio.Some? && |checklistEnvio| > 0
  }

  /** `getTipoLabel` of the report: the five stored kind codes by name, with no
      icon, and any other text as it is. */
  function EtiquetaTipoPdf(tipo: string): (r: string)
    ensures TipoDeCodigo(tipo).None? ==> r == tipo
    ensures TipoDeCodigo(tipo).Some? ==> r == TipoDeCodigo(tipo).value.Nombre()
  {
    match TipoDeCodigo(tipo)
    case Some(t) => t.Nombre()
    case None => tipo
  }

  /** Every kind has its own report label, and none is a stored code. */
  lemma EtiquetasPdfDistintas(t: TipoInspeccion, u: TipoInspeccion)
    ensures EtiquetaTipoPdf(t.Codigo()) == t.Nombre()
    ensures t.Nombre() == u.Nombre() ==> t == u
    ensures TipoDeCodigo(t.Nombre()).None?
  {
    TipoIdaVuelta(t);
  }

  /** The report and the history screen read the same table: a known code gets
      the history's label without its icon and the space after it, and any other
      text is shown as it is by both. */
  lemma MismaTablaSinIcono(tipo: string)
    ensures TipoDeCodigo(tipo).None? ==> EtiquetaTipoPdf(tipo) == HistorialInspecciones.EtiquetaTipo(tipo) == tipo
    ensures TipoDeCodigo(tipo).Some? ==>
              HistorialInspecciones.EtiquetaTipo(tipo) == [TipoDeCodigo(tipo).value.Icono(), ' '] + EtiquetaTipoPdf(tipo)
  {
  }

  /** `diasEnObra`: whole days from the dispatch to the reception, rounded down. */
  function DiasEnObra(envio: Inspeccion, recepcion: Inspeccion): (d: int)
    ensures d * MS_POR_DIA <= recepcion.fecha_hora - envio.fecha_hora < (d + 1) * MS_POR_DIA
  {
    DiasEntre(recepcion.fecha_hora, envio.fecha_hora)
  }

  /** A reception made after its dispatch is never a negative number of days, and
      one made within a day of it is 0. */
  lemma DiasEnObraNoNegativos(envio: Inspeccion, recepcion: Inspeccion)
    requires envio.fecha_hora <= recepcion.fecha_hora
    ensures DiasEnObra(envio, recepcion) >= 0
    ensures recepcion.fecha_hora - envio.fecha_hora < MS_POR_DIA ==> DiasEnObra(envio, recepcion) == 0
  {
    DiasEntreMonotono(envio.fecha_hora, recepcion.fecha_hora, envio.fecha_hora);
    if recepcion.fecha_hora - envio.fecha_hora < MS_POR_DIA {
      MenorPorFactor(DiasEnObra(envio, recepcion), 1, MS_POR_DIA);
    }
  }

  /** `parseInt(x) || 0` on a meter reading: NaN, like 0, reads as 0. */
  function Lectura(texto: string): int {
    ParsearEnteroConSigno(texto).GetOr(0)
  }

  const CONTADOR_CAMBIADO := "⚠ Contador cambiado"
  const SIN_CAMBIO := "Sin cambio"

  /** The hour-meter cell for two readings. */
  function TextoDiferencia(envio: int, recepcion: int): (r: string)
    ensures recepcion > envio ==> r == "+" + NatATexto(recepcion - envio) + " hrs"
    ensures recepcion < envio ==> r == CONTADOR_CAMBIADO
    ensures recepcion == envio ==> r == SIN_CAMBIO
  {
    var d := recepcion - envio;
    if d > 0 then "+" + NatATexto(d) + " hrs" else if d < 0 then CONTADOR_CAMBIADO else SIN_CAMBIO
  }

  /** `horometroTexto`: the readings are parsed, then compared. */
  function TextoHorometro(envio: string, recepcion: string): (r: string)
    ensures Lectura(recepcion) > Lectura(envio) ==> r == "+" + NatATexto(Lectura(recepcion) - Lectura(envio)) + " hrs"
    ensures Lectura(recepcion) < Lectura(envio) ==> r == CONTADOR_CAMBIADO
    ensures Lectura(recepcion) == Lectura(envio) ==> r == SIN_CAMBIO
  {
    TextoDiferencia(Lectura(envio), Lectura(recepcion))
  }

  /** The number after '+' reads back as the difference. */
  lemma DiferenciaLegible(envio: int, recepcion: int)
    requires recepcion > envio
    ensures var r := TextoDiferencia(envio, recepcion);
            r[0] == '+' && ParsearEntero(r[1..]) == Some(recepcion - envio)
  {
    var d: nat := recepcion - envio;
    var t := NatATexto(d);
    var r := TextoDiferencia(envio, recepcion);
    assert r[1..] == t + " hrs";
    LeerNatATexto(d, " hrs");
  }

  /** The report states the hours worked on site exactly: the number after '+'
      reads back as the difference of the two readings. A reading that is not a
      number counts as 0. */
  lemma HorometroLegible(envio: string, recepcion: string)
    requires Lectura(recepcion) > Lectura(envio)
    ensures var r := TextoHorometro(envio, recepcion);
            r[0] == '+' && ParsearEntero(r[1..]) == Some(Lectura(recepcion) - Lectura(envio))
  {
    DiferenciaLegible(Lectura(envio), Lectura(recepcion));
  }

  /** A recorded reading against a missing or unreadable one is read as a change
      from or to 0. */
  lemma LecturaIlegibleEsCero(texto: string)
    requires RecortarInicio(texto) == [] || !(EsDigito(RecortarInicio(texto)[0]) || RecortarInicio(texto)[0] == '-' || RecortarInicio(texto)[0] == '+')
    ensures Lectura(texto) == 0
  {
  }

  /** `valores[estado] || 0`: ok 3, warning 2, fail 1, anything else 0. */
  function Valor(estado: string): (v: int)
    ensures 0 <= v <= 3
    ensures v == 0 <==> RespuestaDeCodigo(estado).None?
  {
    match RespuestaDeCodigo(estado)
    case Some(Bien) => 3
    case Some(Aviso) => 2
    case Some(Falla) => 1
    case None => 0
  }

  const MEJORO := "Mejoró"
  const EMPEORO := "Empeoró"
  const IGUAL := "="

  /** `compararEstados(estadoEnvio, estadoRecepcion)`. */
  function CompararEstados(envio: string, recepcion: string): (r: string)
    ensures r == MEJORO <==> Valor(recepcion) > Valor(envio)
    ensures r == EMPEORO <==> Valor(recepcion) < Valor(envio)
    ensures r == IGUAL <==> Valor(recepcion) == Valor(envio)
  {
    if Valor(recepcion) > Valor(envio) then MEJORO
    else if Valor(recepcion) < Valor(envio) then EMPEORO
    else IGUAL
  }

  /** Swapping dispatch and reception swaps the two verdicts and keeps '='. */
  lemma CompararIntercambiado(a: string, b: string)
    ensures CompararEstados(a, b) == MEJORO <==> CompararEstados(b, a) == EMPEORO
    ensures CompararEstados(a, b) == IGUAL <==> CompararEstados(b, a) == IGUAL
  {
  }

  /** The comparison follows the order fail < warning < ok, an unknown state
      ranking below all three. */
  lemma CompararOrden(a: Respuesta, b: Respuesta, desconocido: string)
    requires RespuestaDeCodigo(desconocido).None?
    ensures CompararEstados(Falla.Codigo(), Aviso.Codigo()) == MEJORO
    ensures CompararEstados(Aviso.Codigo(), Bien.Codigo()) == MEJORO
    ensures CompararEstados(a.Codigo(), b.Codigo()) == IGUAL <==> a == b
    ensures CompararEstados(desconocido, a.Codigo()) == MEJORO
  {
    RespuestaIdaVuelta(a);
    RespuestaIdaVuelta(b);
  }

  /** The answer columns: 'ok' is OK, 'warning' is Aviso and anything else,
      an unanswered item included, is Falla. */
  function Etiqueta(estado: Option<Respuesta>): (r: string)
    ensures estado == Some(Bien) ==> r == "OK"
    ensures estado == Some(Aviso) ==> r == "Aviso"
    ensures estado != Some(Bien) && estado != Some(Aviso) ==> r == "Falla"
  {
    if estado == Some(Bien) then "OK" else if estado == Some(Aviso) then "Aviso" else "Falla"
  }

  /** The single-inspection table prefixes a mark to the same three labels. */
  function EtiquetaConMarca(estado: Option<Respuesta>): (r: string)
    ensures r == (if Etiqueta(estado) == "OK" then "✓ " else if Etiqueta(estado) == "Aviso" then "⚠ " else "✗ ") + Etiqueta(estado)
  {
    if estado == Some(Bien) then "✓ OK" else if estado == Some(Aviso) then "⚠ Aviso" else "✗ Falla"
  }

  /** The position of the first dispatch item named `nombre`, or -1. */
  function PrimerIndice(checklistEnvio: seq<Fila>, nombre: string): (j: int)
    ensures -1 <= j < |checklistEnvio|
    ensures j >= 0 ==> checklistEnvio[j].item_nombre == nombre
                       && forall m :: 0 <= m < j ==> checklistEnvio[m].item_nombre != nombre
    ensures j < 0 ==> forall m :: 0 <= m < |checklistEnvio| ==> checklistEnvio[m].item_nombre != nombre
  {
    if checklistEnvio == [] then -1
    else if checklistEnvio[0].item_nombre == nombre then 0
    else
      var k := PrimerIndice(checklistEnvio[1..], nombre);
      if k < 0 then -1 else k + 1
  }

  /** `checklistEnvio.find(e => e.item_nombre === nombre)`. */
  function ItemEnvio(checklistEnvio: seq<Fila>, nombre: string): (r: Option<Fila>)
    ensures r.None? <==> forall j :: 0 <= j < |checklistEnvio| ==> checklistEnvio[j].item_nombre != nombre
    ensures r.Some? ==> PrimerIndice(checklistEnvio, nombre) >= 0 && r.value == checklistEnvio[PrimerIndice(checklistEnvio, nombre)]
  {
    var j := PrimerIndice(checklistEnvio, nombre);
    if j < 0 then None else Some(checklistEnvio[j])
  }

  /** One row of a comparative table. */
  datatype FilaComparativa = FilaComparativa(
    item: string, estadoEnvio: string, obsEnvio: string, estadoRecepcion: string, obsRecepcion: string)

  /** A reception item against the dispatch item of the same name; '-' in the
      dispatch columns when the dispatch has none, and for a missing observation. */
  function Comparar(itemRec: Fila, checklistEnvio: seq<Fila>): (f: FilaComparativa)
    ensures f.item == itemRec.item_nombre
    ensures f.estadoRecepcion == Etiqueta(itemRec.estado) && f.obsRecepcion == ODefecto(itemRec.observacion, "-")
    ensures ItemEnvio(checklistEnvio, itemRec.item_nombre).None? ==> f.estadoEnvio == "-" && f.obsEnvio == "-"
    ensures ItemEnvio(checklistEnvio, itemRec.item_nombre).Some? ==>
              var e := ItemEnvio(checklistEnvio, itemRec.item_nombre).value;
              f.estadoEnvio == Etiqueta(e.estado) && f.obsEnvio == ODefecto(e.observacion, "-")
  {
    var e := ItemEnvio(checklistEnvio, itemRec.item_nombre);
    FilaComparativa(
      itemRec.item_nombre,
      if e.Some? then Etiqueta(e.value.estado) else "-",
      if e.Some? then ODefecto(e.value.observacion, "-") else "-",
      Etiqueta(itemRec.estado),
      ODefecto(itemRec.observacion, "-"))
  }

  /** The table of one category: its reception items in order, each compared. */
  function TablaComparativa(checklistItems: seq<Fila>, checklistEnvio: seq<Fila>, categoria: string): (t: seq<FilaComparativa>)
    ensures var items := HistorialInspecciones.ItemsDeCategoria(checklistItems, categoria);
            |t| == |items| && forall i :: 0 <= i < |t| ==> t[i] == Comparar(items[i], checklistEnvio)
  {
    var items := HistorialInspecciones.ItemsDeCategoria(checklistItems, categoria);
    seq(|items|, i requires 0 <= i < |items| => Comparar(items[i], checklistEnvio))
  }

  /** A dispatch item with a repeated name is never shown: every row pairs with the
      first of them. */
  lemma PrimeroGana(itemRec: Fila, checklistEnvio: seq<Fila>, j: nat, k: nat)
    requires j < k < |checklistEnvio|
    requires checklistEnvio[j].item_nombre == itemRec.item_nombre == checklistEnvio[k].item_nombre
    requires (forall m :: 0 <= m < j ==> checklistEnvio[m].item_nombre != itemRec.item_nombre)
    ensures Comparar(itemRec, checklistEnvio).estadoEnvio == Etiqueta(checklistEnvio[j].estado)
    ensures Comparar(itemRec, checklistEnvio).obsEnvio == ODefecto(checklistEnvio[j].observacion, "-")
  {
    var a := PrimerIndice(checklistEnvio, itemRec.item_nombre);
    assert !(a < j) && !(j < a);
  }

  /** The checklist part of the report: nothing comparative unless
      `esComparativo`; then, for each category in order of first appearance
      among the reception items, that category's comparison table. */
  function ChecklistComparativo(envio: Option<Inspeccion>, checklistItems: seq<Fila>, checklistEnvio: seq<Fila>): (s: Option<seq<seq<FilaComparativa>>>)
    ensures s.Some? <==> EsComparativo(envio, checklistEnvio)
    ensures s.Some? ==>
              var cs := HistorialInspecciones.Categorias(checklistItems);
              |s.value| == |cs| && forall k :: 0 <= k < |cs| ==> s.value[k] == TablaComparativa(checklistItems, checklistEnvio, cs[k])
  {
    if EsComparativo(envio, checklistEnvio) then
      var cs := HistorialInspecciones.Categorias(checklistItems);
      Some(seq(|cs|, k requires 0 <= k < |cs| => TablaComparativa(checklistItems, checklistEnvio, cs[k])))
    else None
  }

  /** In a comparative report every reception item is compared in some table. */
  lemma CadaItemSeCompara(envio: Option<Inspeccion>, checklistItems: seq<Fila>, checklistEnvio: seq<Fila>, i: nat)
    requires EsComparativo(envio, checklistEnvio) && i < |checklistItems|
    ensures var t := ChecklistComparativo(envio, checklistItems, checklistEnvio).value;
            exists k, j :: 0 <= k < |t| && 0 <= j < |t[k]| && t[k][j] == Comparar(checklistItems[i], checklistEnvio)
  {
    var t := ChecklistComparativo(envio, checklistItems, checklistEnvio).value;
    var cs := HistorialInspecciones.Categorias(checklistItems);
    var c := checklistItems[i].categoria;
    HistorialInspecciones.UnaSeccionPorItem(checklistItems, i);
    var k :| 0 <= k < |cs| && cs[k] == c;
    var items := HistorialInspecciones.ItemsDeCategoria(checklistItems, c);
    var j :| 0 <= j < |items| && items[j] == checklistItems[i];
    assert t[k] == TablaComparativa(checklistItems, checklistEnvio, c);
    assert t[k][j] == Comparar(checklistItems[i], checklistEnvio);
  }
}
