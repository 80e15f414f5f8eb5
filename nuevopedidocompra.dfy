/** The purchase request form (`NuevoPedidoCompra.jsx`): the editable list of
    items, the request number `NN/yyyy`, the validation and the rows `guardarPedido`
    writes. Quantities are taken as already parsed (`None` is an empty field);
    database results are inputs. */
module NuevoPedidoCompra {
  import opened Opciones
  import opened Texto
  import opened Secuencias
  import Dominio

  datatype Item = Item(
    descripcion: string,
    especificaciones: string,
    unidad_medida: string,
    cantidad: Option<real>,
    fecha_lugar_entrega: string,
    observacion: string)

  const ITEM_VACIO := Item("", "", "", None, "", "")

  /** The text fields an input can change. */
  datatype CampoTexto = Descripcion | Especificaciones | UnidadMedida | FechaLugarEntrega | Observacion

  /** One edit: a text field, or the quantity. */
  datatype Cambio = CambiarTexto(campo: CampoTexto, valor: string) | CambiarCantidad(cantidad: Option<real>)

  /** `item[campo] = valor`: the named field takes the value, the others stay. */
  function Aplicar(it: Item, c: Cambio): (r: Item)
    ensures c.CambiarCantidad? ==> r == it.(cantidad := c.cantidad)
    ensures c.CambiarTexto? ==> r.cantidad == it.cantidad
    ensures c.CambiarTexto? && c.campo == Descripcion ==> r == it.(descripcion := c.valor)
    ensures c.CambiarTexto? && c.campo == Especificaciones ==> r == it.(especificaciones := c.valor)
    ensures c.CambiarTexto? && c.campo == UnidadMedida ==> r == it.(unidad_medida := c.valor)
    ensures c.CambiarTexto? && c.campo == FechaLugarEntrega ==> r == it.(fecha_lugar_entrega := c.valor)
    ensures c.CambiarTexto? && c.campo == Observacion ==> r == it.(observacion := c.valor)
  {
    match c
    case CambiarCantidad(q) => it.(cantidad := q)
    case CambiarTexto(campo, v) =>
      match campo
      case Descripcion => it.(descripcion := v)
      case Especificaciones => it.(especificaciones := v)
      case UnidadMedida => it.(unidad_medida := v)
      case FechaLugarEntrega => it.(fecha_lugar_entrega := v)
      case Observacion => it.(observacion := v)
  }

  /** A later edit of the same field overrides an earlier one, and edits of two
      different fields commute. */
  lemma AplicarSucesivo(it: Item, c: Cambio, d: Cambio)
    ensures MismoCampo(c, d) ==> Aplicar(Aplicar(it, c), d) == Aplicar(it, d)
    ensures !MismoCampo(c, d) ==> Aplicar(Aplicar(it, c), d) == Aplicar(Aplicar(it, d), c)
  {
  }

  predicate MismoCampo(c: Cambio, d: Cambio) {
    (c.CambiarCantidad? && d.CambiarCantidad?) || (c.CambiarTexto? && d.CambiarTexto? && c.campo == d.campo)
  }

  /** The list being edited. The delete button only appears while there is more
      than one item, so the list never becomes empty. */
  class FormularioPedido {
    var items: seq<Item>

    ghost predicate Valid()
      reads this
    {
      |items| >= 1
    }

    /** A new request starts with one empty item. */
    constructor ()
      ensures Valid() && items == [ITEM_VACIO]
    {
      items := [ITEM_VACIO];
    }

    /** Whether the delete button of each item is shown. */
    function PuedeEliminar(): (r: bool)
      reads this
      ensures r <==> |items| > 1
    {
      |items| > 1
    }

    /** `agregarItem`: one empty item at the end. */
    method AgregarItem()
      requires Valid()
      modifies this
      ensures Valid()
      ensures items == old(items) + [ITEM_VACIO]
    {
      items := items + [ITEM_VACIO];
    }

    /** `eliminarItem(index)`: exactly the item at `index` goes and the others keep
      their order; an index outside the list removes nothing. When the button was
      shown the list is still not empty. */
    method EliminarItem(index: int)
      modifies this
      ensures items == EliminarEn(old(items), index)
      ensures old(PuedeEliminar()) ==> Valid()
    {
      items := EliminarEn(items, index);
    }

    /** `actualizarItem(index, campo, valor)`: only that field of that item
      changes. Writing through an index outside the list throws in the source,
      so the model requires it to be in range. */
    method ActualizarItem(index: nat, c: Cambio)
      requires index < |items|
      modifies this
      ensures |items| == |old(items)|
      ensures items[index] == Aplicar(old(items[index]), c)
      ensures forall k :: 0 <= k < |items| && k != index ==> items[k] == old(items[k])
    {
      items := items[index := Aplicar(items[index], c)];
    }
  }

  // Number.

  /** `obtenerNumeroConsecutivo`. `ultimo` is the latest number of the year, if
      the query found one (`None` also stands for a failed query). The first number
      of a year, and the fallback, is `01/yyyy`. Otherwise `parseInt` of the text
      before the '/', plus one, padded to two characters; a prefix that is not a
      number gives `NaN`. */
  function NumeroConsecutivo(ultimo: Option<string>, anio: nat): (r: string)
    ensures ultimo.None? ==> r == "01/" + NatATexto(anio)
    ensures ultimo.Some? && ParsearEnteroConSigno(AntesDe(ultimo.value, '/')).Some? ==>
              r == RellenarDos(EnteroATexto(ParsearEnteroConSigno(AntesDe(ultimo.value, '/')).value + 1)) + "/" + NatATexto(anio)
    ensures ultimo.Some? && ParsearEnteroConSigno(AntesDe(ultimo.value, '/')).None? ==> r == "NaN/" + NatATexto(anio)
  {
    match ultimo
    case None => "01/" + NatATexto(anio)
    case Some(u) =>
      match ParsearEnteroConSigno(AntesDe(u, '/'))
      case Some(n) => RellenarDos(EnteroATexto(n + 1)) + "/" + NatATexto(anio)
      case None => "NaN/" + NatATexto(anio)
  }

  /** The prefix of a number this function produced reads back as its sequence
      value. */
  lemma PrefijoDeNumero(k: int, anio: nat)
    ensures ParsearEnteroConSigno(AntesDe(RellenarDos(EnteroATexto(k)) + "/" + NatATexto(anio), '/')) == Some(k)
  {
    RellenadoSeLee(k);
    PrefijoAntesDeBarra(RellenarDos(EnteroATexto(k)), NatATexto(anio));
  }

  lemma PrefijoAntesDeBarra(p: string, anio: string)
    requires '/' !in p
    ensures AntesDe(p + "/" + anio, '/') == p
  {
    assert p + "/" + anio == p + ("/" + anio);
    AntesDeConcatenado(p, "/" + anio, '/');
  }

  /** Numbers advance by one: the number after a request numbered `n` is
      `n + 1`, so two requests in a row get consecutive numbers. */
  lemma NumeroSiguiente(u: string, anio: nat)
    requires ParsearEnteroConSigno(AntesDe(u, '/')).Some?
    ensures ParsearEnteroConSigno(AntesDe(NumeroConsecutivo(Some(u), anio), '/')) == Some(ParsearEnteroConSigno(AntesDe(u, '/')).value + 1)
  {
    var n := ParsearEnteroConSigno(AntesDe(u, '/')).value;
    assert NumeroConsecutivo(Some(u), anio) == RellenarDos(EnteroATexto(n + 1)) + "/" + NatATexto(anio);
    PrefijoDeNumero(n + 1, anio);
  }

  /** The first number of a year, and the fallback, is 1. */
  lemma PrimerNumero(anio: nat)
    ensures ParsearEnteroConSigno(AntesDe(NumeroConsecutivo(None, anio), '/')) == Some(1)
  {
    assert NumeroConsecutivo(None, anio) == RellenarDos(EnteroATexto(1)) + "/" + NatATexto(anio) by {
      assert EnteroATexto(1) == "1";
      assert RellenarDos("1") == "01";
    }
    PrefijoDeNumero(1, anio);
  }

  // Saving.

  /** `item.descripcion.trim() !== ''`. */
  predicate ConDescripcion(it: Item) {
    !EsBlanco(it.descripcion)
  }

  /** `!item.cantidad || item.cantidad <= 0`. */
  predicate SinCantidad(it: Item) {
    it.cantidad.None? || it.cantidad.value <= 0.0
  }

  /** A described item without a positive quantity. */
  predicate Incompleto(it: Item) {
    ConDescripcion(it) && SinCantidad(it)
  }

  datatype ErrorPedido = SinItems | CantidadInvalida

  /** The two checks of `guardarPedido`: some item has a description, and every
      such item has a positive quantity. Items without a description are
      ignored, whatever their quantity. */
  function ValidarPedido(items: seq<Item>): (r: Option<ErrorPedido>)
    ensures r == Some(SinItems) <==> forall i :: 0 <= i < |items| ==> !ConDescripcion(items[i])
    ensures r == Some(CantidadInvalida) <==>
              (exists i :: 0 <= i < |items| && ConDescripcion(items[i]))
              && exists i :: 0 <= i < |items| && ConDescripcion(items[i]) && SinCantidad(items[i])
    ensures r.None? ==> forall i :: 0 <= i < |items| && ConDescripcion(items[i]) ==> !SinCantidad(items[i])
  {
    var validos := Filtrar(items, ConDescripcion);
    if validos == [] then
      NingunoEnUno(items, ConDescripcion);
      Some(SinItems)
    else
      HayEnUno(items, ConDescripcion);
      if Filtrar(validos, SinCantidad) != [] then
        HayEnAmbos(items, ConDescripcion, SinCantidad, Incompleto);
        Some(CantidadInvalida)
      else
        NingunoEnAmbos(items, ConDescripcion, SinCantidad, Incompleto);
        None
  }

  /** A row of `pedido_items`. */
  datatype FilaItem = FilaItem(
    pedido_id: string,
    item_numero: nat,
    descripcion: string,
    especificaciones: Option<string>,
    unidad_medida: Option<string>,
    cantidad: Option<real>,
    fecha_lugar_entrega: Option<string>,
    observacion: Option<string>)

  function FilaDe(pedidoId: string, numero: nat, it: Item): FilaItem {
    FilaItem(pedidoId, numero, it.descripcion, NuloSiVacio(it.especificaciones), NuloSiVacio(it.unidad_medida),
             it.cantidad, NuloSiVacio(it.fecha_lugar_entrega), NuloSiVacio(it.observacion))
  }

  /** `itemsConNumero`: the kept items in their order, numbered 1 to n. */
  function Numerar(pedidoId: string, validos: seq<Item>): (r: seq<FilaItem>)
    ensures |r| == |validos|
    ensures forall i :: 0 <= i < |r| ==> r[i] == FilaDe(pedidoId, i + 1, validos[i])
  {
    seq(|validos|, i requires 0 <= i < |validos| => FilaDe(pedidoId, i + 1, validos[i]))
  }

  /** The numbers run from 1 to n without a gap or a repeat (n values, strictly
      increasing, all within 1..n), and each row keeps its item's description
      and quantity. */
  lemma NumeracionConsecutiva(pedidoId: string, validos: seq<Item>)
    ensures var r := Numerar(pedidoId, validos);
            (forall i :: 0 <= i < |r| ==> 1 <= r[i].item_numero <= |validos|)
            && (forall i, j :: 0 <= i < j < |r| ==> r[i].item_numero < r[j].item_numero)
            && (r != [] ==> r[0].item_numero == 1 && r[|r| - 1].item_numero == |validos|)
            && (forall i :: 0 <= i < |r| ==> r[i].descripcion == validos[i].descripcion && r[i].cantidad == validos[i].cantidad)
  {
  }

  datatype FilaPedido = FilaPedido(numero_pedido: string, usuario_id: string, solicitado_por: string, estado: string)

  datatype EscrituraPedido = InsertarPedido(fila: FilaPedido) | InsertarItems(filas: seq<FilaItem>)

  /** `guardarPedido`. `ultimo` and `anio` feed the number; `insercion` is how the
      request insert ends (the new id on success). A rejected form writes nothing;
      a failed request insert writes no items. The request starts 'en_proceso',
      requested by the user's name, and its items are the described ones,
      numbered in order. */
  method GuardarPedido(items: seq<Item>, usuarioId: string, nombreUsuario: string,
                       ultimo: Option<string>, anio: nat, insercion: Result<string, string>)
    returns (error: Option<ErrorPedido>, escrituras: seq<EscrituraPedido>)
    ensures error == ValidarPedido(items)
    ensures error.Some? ==> escrituras == []
    ensures error.None? ==>
              |escrituras| >= 1
              && escrituras[0] == InsertarPedido(FilaPedido(NumeroConsecutivo(ultimo, anio), usuarioId, nombreUsuario, Dominio.PEDIDO_EN_PROCESO))
    ensures error.None? && insercion.Err? ==> |escrituras| == 1
    ensures error.None? && insercion.Ok? ==>
              escrituras == [escrituras[0], InsertarItems(Numerar(insercion.value, Filtrar(items, ConDescripcion)))]
  {
    error := ValidarPedido(items);
    if error.Some? {
      return error, [];
    }
    var numeroPedido := NumeroConsecutivo(ultimo, anio);
    var w0 := InsertarPedido(FilaPedido(numeroPedido, usuarioId, nombreUsuario, Dominio.PEDIDO_EN_PROCESO));
    if insercion.Err? {
      return None, [w0];
    }
    var validos := Filtrar(items, ConDescripcion);
    return None, [w0, InsertarItems(Numerar(insercion.value, validos))];
  }

  /** The saved items are exactly the described items: every one of them, in
      order, and nothing else. */
  lemma ItemsGuardados(items: seq<Item>, pedidoId: string)
    ensures var r := Numerar(pedidoId, Filtrar(items, ConDescripcion));
            (forall i :: 0 <= i < |r| ==> !EsBlanco(r[i].descripcion))
            && |r| == Contar(items, ConDescripcion)
  {
  }
}
