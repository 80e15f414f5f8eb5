/** The purchase request list (`ListaPedidosCompra.jsx`): the state filter, the
    state colours and labels with their fallbacks, the status change, the PDF
    guard and the item preview of each card. */
module ListaPedidosCompra {
  import opened Opciones
  import opened Texto
  import opened Secuencias
  import opened Dominio
  import NuevoPedidoCompra

  /** A loaded request with its joined `pedido_items`, which may be null. */
  datatype Pedido = Pedido(id: string, numero_pedido: string, estado: string, items: Option<seq<NuevoPedidoCompra.FilaItem>>)

  /** The states the status dialog offers, in order. */
  const ESTADOS_OFRECIDOS: seq<string> := [PEDIDO_EN_PROCESO, PEDIDO_RECIBIDO]

  /** `pedidosFiltrados`: 'Todos' keeps every request, any other value the
      requests in exactly that state. */
  function Filtrados(filtro: string, pedidos: seq<Pedido>): (r: seq<Pedido>)
    ensures filtro == "Todos" ==> r == pedidos
    ensures filtro != "Todos" ==>
              (forall i :: 0 <= i < |r| ==> r[i] in pedidos && r[i].estado == filtro)
              && (forall i :: 0 <= i < |pedidos| && pedidos[i].estado == filtro ==> pedidos[i] in r)
  {
    if filtro == "Todos" then pedidos else Filtrar(pedidos, EnEstadoPedido(filtro))
  }

  function EnEstadoPedido(filtro: string): Pedido -> bool {
    (p: Pedido) => p.estado == filtro
  }

  /** The filtered list keeps the list's order, each request shown once. */
  lemma FiltradosEnOrden(filtro: string, pedidos: seq<Pedido>) returns (idx: seq<nat>)
    ensures Incrustado(Filtrados(filtro, pedidos), pedidos, idx)
    ensures forall i :: 0 <= i < |pedidos| ==> (i in idx <==> filtro == "Todos" || pedidos[i].estado == filtro)
  {
    if filtro == "Todos" {
      idx := IncrustadoEnSiMismo(pedidos);
    } else {
      idx := FiltrarEnOrden(pedidos, EnEstadoPedido(filtro));
    }
  }

  /** The two filters on the offered states split the list between them when
      every request is in an offered state. */
  lemma FiltrosParticionan(pedidos: seq<Pedido>)
    requires forall i :: 0 <= i < |pedidos| ==> pedidos[i].estado in ESTADOS_OFRECIDOS
    ensures |Filtrados(PEDIDO_EN_PROCESO, pedidos)| + |Filtrados(PEDIDO_RECIBIDO, pedidos)| == |pedidos|
  {
    var ep := (p: Pedido) => p.estado == PEDIDO_EN_PROCESO;
    var re := (p: Pedido) => p.estado == PEDIDO_RECIBIDO;
    var otro := (p: Pedido) => p.estado != PEDIDO_EN_PROCESO && p.estado != PEDIDO_RECIBIDO;
    ContarParticion(pedidos, ep, re, otro);
    FiltrarNinguno(pedidos, otro);
  }

  datatype Estilo = Estilo(fondo: string, texto: string, emoji: string)

  const ESTILO_EN_PROCESO := Estilo("#fef3c7", "#92400e", "⏳")
  const ESTILO_RECIBIDO := Estilo("#d1fae5", "#065f46", "✅")

  /** `getEstadoColor`: an unknown state is drawn as 'en_proceso'. */
  function EstiloEstado(estado: string): (e: Estilo)
    ensures estado == PEDIDO_RECIBIDO ==> e == ESTILO_RECIBIDO
    ensures estado != PEDIDO_RECIBIDO ==> e == ESTILO_EN_PROCESO
  {
    if estado == PEDIDO_RECIBIDO then ESTILO_RECIBIDO else ESTILO_EN_PROCESO
  }

  /** `getEstadoLabel`: an unknown state is shown as it is. */
  function Etiqueta(estado: string): (r: string)
    ensures estado == PEDIDO_EN_PROCESO ==> r == "En Proceso"
    ensures estado == PEDIDO_RECIBIDO ==> r == "Recibido"
    ensures estado !in ESTADOS_OFRECIDOS ==> r == estado
  {
    if estado == PEDIDO_EN_PROCESO then "En Proceso"
    else if estado == PEDIDO_RECIBIDO then "Recibido"
    else estado
  }

  /** The two states look different and read different, and no label is mistaken
      for a stored state. */
  lemma EstadosDistinguibles(a: string, b: string)
    requires a in ESTADOS_OFRECIDOS && b in ESTADOS_OFRECIDOS && a != b
    ensures EstiloEstado(a) != EstiloEstado(b)
    ensures Etiqueta(a) != Etiqueta(b)
    ensures Etiqueta(a) !in ESTADOS_OFRECIDOS
  {
  }

  /** `cambiarEstado`: the update writes the chosen state and nothing else. */
  function CambiarEstado(p: Pedido, nuevo: string): (r: Pedido)
    ensures r.estado == nuevo
    ensures r.(estado := p.estado) == p
  {
    p.(estado := nuevo)
  }

  /** After a change of state the request shows under the filter of its new state
      and not under the other one. */
  lemma CambioMueveDeFiltro(p: Pedido, i: nat)
    requires i < |ESTADOS_OFRECIDOS|
    ensures CambiarEstado(p, ESTADOS_OFRECIDOS[i]) in Filtrados(ESTADOS_OFRECIDOS[i], [CambiarEstado(p, ESTADOS_OFRECIDOS[i])])
    ensures Filtrados(ESTADOS_OFRECIDOS[1 - i], [CambiarEstado(p, ESTADOS_OFRECIDOS[i])]) == []
  {
    var q := CambiarEstado(p, ESTADOS_OFRECIDOS[i]);
    assert [q][0] == q;
    FiltrarNinguno([q], (x: Pedido) => x.estado == ESTADOS_OFRECIDOS[1 - i]);
  }

  const SIN_ITEMS := "❌ Este pedido no tiene ítems para generar PDF"

  /** `generarPDF`: the items handed to the PDF, or the message shown when the
      request has none. */
  function ItemsParaPdf(p: Pedido): (r: Result<seq<NuevoPedidoCompra.FilaItem>, string>)
    ensures r.Err? <==> p.items.None? || p.items.value == []
    ensures r.Err? ==> r.error == SIN_ITEMS
    ensures r.Ok? ==> r.value == p.items.value && |r.value| >= 1
  {
    if p.items.None? || p.items.value == [] then Err(SIN_ITEMS) else Ok(p.items.value)
  }

  /** The item preview of a card: the first three items and, for a longer list,
      the line counting the rest. */
  datatype Vista = Vista(primeros: seq<NuevoPedidoCompra.FilaItem>, mas: Option<string>)

  /** `None` when the card shows no preview. */
  function VistaPrevia(p: Pedido): (r: Option<Vista>)
    ensures r.None? <==> p.items.None? || p.items.value == []
    ensures r.Some? ==>
              var n := |p.items.value|;
              r.value.primeros == p.items.value[..if n < 3 then n else 3]
              && (r.value.mas.Some? <==> n > 3)
              && (n > 3 ==> r.value.mas.value == "... y " + NatATexto(n - 3) + " más")
  {
    match p.items
    case None => None
    case Some(its) =>
      if its == [] then None
      else
        var n := |its|;
        Some(Vista(its[..if n < 3 then n else 3], if n > 3 then Some("... y " + NatATexto(n - 3) + " más") else None))
  }

  /** The preview never hides an item without saying so: the items listed and
      the number in the 'más' line account for the whole list. */
  lemma VistaPreviaCuentaTodo(p: Pedido)
    requires VistaPrevia(p).Some?
    ensures var v := VistaPrevia(p).value;
            |v.primeros| + (if v.mas.Some? then |p.items.value| - 3 else 0) == |p.items.value|
    ensures VistaPrevia(p).value.primeros <= p.items.value
  {
  }
}
