/** The ticket form (`NuevoMantenimiento.jsx`): the equipment search, the choice
    of the workshop inspection, the validation and normalisation done by
    `guardar`, its sequence of writes, and the notification sent to the
    workshop. Database results and the webhook's answer are inputs. */
module NuevoMantenimiento {
  import opened Opciones
  import opened Texto
  import opened Secuencias
  import opened Dominio

  /** The form fields, as the inputs hold them; dates are the raw date-input text. */
  datatype FormularioTicket = FormularioTicket(
    equipo: string,
    inspeccion: string,
    tipo: string,
    aviso: string,
    orden: string,
    descripcion: string,
    prioridad: string,
    fechaInicio: string,
    fechaIngreso: string,
    fechaLiberacion: string,
    pedido: bool,
    ingresaTaller: bool,
    estado: string)

  /** A new form: corrective, medium priority, waiting for the workshop, entering
      it today, no parts ordered. */
  function FormularioInicial(hoy: string): (f: FormularioTicket)
    ensures f.tipo == "Correctivo" && PrioridadDeCodigo(f.prioridad) == Some(Medio)
    ensures EstadoTicketDeCodigo(f.estado) == Some(EnEspera)
    ensures f.ingresaTaller && !f.pedido && f.fechaIngreso == hoy
    ensures f.equipo == [] && f.inspeccion == [] && f.descripcion == []
  {
    FormularioTicket("", "", "Correctivo", "", "", "", Medio.Codigo(), "", hoy, "", false, true, EnEspera.Codigo())
  }

  // Equipment search.

  /** `equiposFiltrados`: with a blank query every equipment; otherwise those
      whose code or name contains the trimmed query, ignoring case. */
  function EquiposFiltrados(equipos: seq<Equipo>, busqueda: string): (r: seq<Equipo>)
    ensures Recortar(busqueda) == [] ==> r == equipos
    ensures forall i :: 0 <= i < |r| ==> r[i] in equipos
    ensures Recortar(busqueda) != [] ==>
              forall e :: e in r <==>
                e in equipos && (CoincideBusqueda(e.numero_identificacion, Recortar(busqueda))
                                 || CoincideBusqueda(e.denominacion.GetOr(""), Recortar(busqueda)))
  {
    var q := Recortar(busqueda);
    if q == [] then equipos
    else
      var r := Filtrar(equipos, Coincide(q));
      assert forall e :: e in equipos ==> exists i :: 0 <= i < |equipos| && equipos[i] == e;
      assert forall e :: e in r ==> exists i :: 0 <= i < |r| && r[i] == e;
      r
  }

  /** The equipment a trimmed, non-empty search matches by code or by name. */
  predicate CoincideEquipo(e: Equipo, q: string) {
    CoincideBusqueda(e.numero_identificacion, q) || CoincideBusqueda(e.denominacion.GetOr(""), q)
  }

  function Coincide(q: string): Equipo -> bool {
    (e: Equipo) => CoincideEquipo(e, q)
  }

  /** The matches of a search keep the list's order, each matching equipment once. */
  lemma EquiposFiltradosEnOrden(equipos: seq<Equipo>, busqueda: string) returns (idx: seq<nat>)
    ensures Incrustado(EquiposFiltrados(equipos, busqueda), equipos, idx)
    ensures forall i :: 0 <= i < |equipos| ==>
              (i in idx <==> Recortar(busqueda) == [] || CoincideEquipo(equipos[i], Recortar(busqueda)))
  {
    if Recortar(busqueda) == [] {
      idx := IncrustadoEnSiMismo(equipos);
    } else {
      idx := FiltrarEnOrden(equipos, Coincide(Recortar(busqueda)));
    }
  }

  // Workshop inspection.

  /** The text the ticket form looks for in `tipo_inspeccion`. */
  const TIPO_TALLER_BUSCADO := "Entrada a Taller"

  /** `cargarInspeccionesEquipo` as written: the inspections of the equipment whose
      kind is 'Entrada a Taller'. */
  function InspeccionesTallerTalCual(inspecciones: seq<Inspeccion>, equipoId: string): (r: seq<Inspeccion>)
    ensures forall i :: 0 <= i < |r| ==> r[i] in inspecciones && r[i].equipo_id == equipoId && r[i].tipo_inspeccion == TIPO_TALLER_BUSCADO
  {
    Filtrar(inspecciones, (x: Inspeccion) => x.equipo_id == equipoId && x.tipo_inspeccion == TIPO_TALLER_BUSCADO)
  }

  /** The inspection form stores a kind's code ('taller' for a workshop entry),
      never the label, so no inspection it saves is ever offered here. */
  lemma NingunaInspeccionDeLaAppSeOfrece(inspecciones: seq<Inspeccion>, equipoId: string)
    requires forall i :: 0 <= i < |inspecciones| ==> exists t: TipoInspeccion :: inspecciones[i].tipo_inspeccion == t.Codigo()
    ensures InspeccionesTallerTalCual(inspecciones, equipoId) == []
  {
    forall i | 0 <= i < |inspecciones|
      ensures inspecciones[i].tipo_inspeccion != TIPO_TALLER_BUSCADO
    {
      var t: TipoInspeccion :| inspecciones[i].tipo_inspeccion == t.Codigo();
      TipoIdaVuelta(t);
    }
    FiltrarNinguno(inspecciones, (x: Inspeccion) => x.equipo_id == equipoId && x.tipo_inspeccion == TIPO_TALLER_BUSCADO);
  }

  /** `if (data.length === 1) setInspeccionSeleccionada(data[0].id)`: the only
      inspection found is chosen; otherwise the choice stays as it was. */
  function SeleccionTrasCarga(previa: string, disponibles: seq<Inspeccion>): (r: string)
    ensures |disponibles| == 1 ==> r == disponibles[0].id
    ensures |disponibles| != 1 ==> r == previa
  {
    if |disponibles| == 1 then disponibles[0].id else previa
  }

  /** A concrete equipment with one workshop inspection saved by the inspection
      form: the query finds nothing and the inspection is not auto-selected. */
  lemma TallerNoSeAutoselecciona()
    ensures var x := Inspeccion("i1", "e1", Taller.Codigo(), 0, None, "100", "Ypané", "verde", None);
            InspeccionesTallerTalCual([x], "e1") == []
            && SeleccionTrasCarga("", InspeccionesTallerTalCual([x], "e1")) == ""
  {
    var x := Inspeccion("i1", "e1", Taller.Codigo(), 0, None, "100", "Ypané", "verde", None);
    assert [x][1..] == [];
    assert x.tipo_inspeccion == "taller";
  }

  /** The workshop inspections of the equipment by the code the inspection form
      stores. */
  function InspeccionesTaller(inspecciones: seq<Inspeccion>, equipoId: string): (r: seq<Inspeccion>)
    ensures forall i :: 0 <= i < |r| ==> r[i] in inspecciones && r[i].equipo_id == equipoId && r[i].tipo_inspeccion == Taller.Codigo()
    ensures forall i :: (0 <= i < |inspecciones| && inspecciones[i].equipo_id == equipoId
                         && inspecciones[i].tipo_inspeccion == Taller.Codigo()) ==> inspecciones[i] in r
  {
    Filtrar(inspecciones, (x: Inspeccion) => x.equipo_id == equipoId && x.tipo_inspeccion == Taller.Codigo())
  }

  /** With the code matched, a single workshop inspection of the equipment is
      selected, and nothing else ever is: the selection changes only to a
      workshop inspection of that equipment. */
  lemma AutoseleccionCorregida(inspecciones: seq<Inspeccion>, equipoId: string, previa: string, j: nat)
    requires j < |inspecciones| && inspecciones[j].equipo_id == equipoId && inspecciones[j].tipo_inspeccion == Taller.Codigo()
    requires forall k :: 0 <= k < |inspecciones| && k != j && inspecciones[k].equipo_id == equipoId ==>
               inspecciones[k].tipo_inspeccion != Taller.Codigo()
    ensures SeleccionTrasCarga(previa, InspeccionesTaller(inspecciones, equipoId)) == inspecciones[j].id
  {
    var p := (x: Inspeccion) => x.equipo_id == equipoId && x.tipo_inspeccion == Taller.Codigo();
    assert inspecciones == inspecciones[..j] + [inspecciones[j]] + inspecciones[j + 1..];
    FiltrarConcatenado(inspecciones[..j] + [inspecciones[j]], inspecciones[j + 1..], p);
    FiltrarConcatenado(inspecciones[..j], [inspecciones[j]], p);
    forall k | 0 <= k < |inspecciones[..j]|
      ensures !p(inspecciones[..j][k])
    {
      assert inspecciones[..j][k] == inspecciones[k];
    }
    var resto := inspecciones[j + 1..];
    forall k | 0 <= k < |resto|
      ensures !p(resto[k])
    {
      assert resto[k] == inspecciones[j + 1 + k];
    }
    FiltrarNinguno(inspecciones[..j], p);
    FiltrarNinguno(inspecciones[j + 1..], p);
    assert [inspecciones[j]][1..] == [];
  }

  // Validation and the stored row.

  datatype ErrorValidacion = SinEquipo | SinAviso | SinOrden | SinDescripcion

  /** The checks of `guardar`, in order, each stopping the save. */
  function Validar(f: FormularioTicket): (r: Option<ErrorValidacion>)
    ensures r.None? <==>
              f.equipo != [] && !(f.tipo == "Correctivo" && EsBlanco(f.aviso))
              && !(f.tipo == "Preventivo" && EsBlanco(f.orden)) && !EsBlanco(f.descripcion)
    ensures r == Some(SinEquipo) <==> f.equipo == []
    ensures r == Some(SinAviso) <==> f.equipo != [] && f.tipo == "Correctivo" && EsBlanco(f.aviso)
    ensures r == Some(SinOrden) <==> f.equipo != [] && f.tipo == "Preventivo" && EsBlanco(f.orden)
    ensures r == Some(SinDescripcion) <==>
              f.equipo != [] && !(f.tipo == "Correctivo" && EsBlanco(f.aviso))
              && !(f.tipo == "Preventivo" && EsBlanco(f.orden)) && EsBlanco(f.descripcion)
  {
    if f.equipo == [] then Some(SinEquipo)
    else if f.tipo == "Correctivo" && EsBlanco(f.aviso) then Some(SinAviso)
    else if f.tipo == "Preventivo" && EsBlanco(f.orden) then Some(SinOrden)
    else if EsBlanco(f.descripcion) then Some(SinDescripcion)
    else None
  }

  /** `datosMantenimiento`, the row written to `mantenimientos`. */
  datatype DatosTicket = DatosTicket(
    inspeccion_id: Option<string>,
    equipo_id: string,
    tipo_mantenimiento: string,
    numero_aviso: Option<string>,
    numero_orden: Option<string>,
    descripcion_averia: string,
    prioridad: string,
    fecha_inicio_averia: Option<string>,
    fecha_ingreso_taller: string,
    fecha_liberacion: Option<string>,
    pedido: bool,
    ingresa_taller_ypane: bool,
    estado: string)

  function DatosDe(f: FormularioTicket): (d: DatosTicket)
    ensures d.numero_aviso.Some? <==> f.tipo == "Correctivo"
    ensures d.numero_aviso.Some? ==> d.numero_aviso.value == Recortar(f.aviso)
    ensures d.numero_orden.None? <==> EsBlanco(f.orden)
    ensures d.numero_orden.Some? ==> d.numero_orden.value == Recortar(f.orden)
    ensures d.descripcion_averia == Recortar(f.descripcion)
    ensures d.inspeccion_id.None? <==> f.inspeccion == []
    ensures f.inspeccion != [] ==> d.inspeccion_id == Some(f.inspeccion)
    ensures d.fecha_inicio_averia.None? <==> f.fechaInicio == []
    ensures f.fechaInicio != [] ==> d.fecha_inicio_averia == Some(f.fechaInicio)
    ensures d.fecha_liberacion.None? <==> f.fechaLiberacion == []
    ensures f.fechaLiberacion != [] ==> d.fecha_liberacion == Some(f.fechaLiberacion)
    ensures d.equipo_id == f.equipo && d.tipo_mantenimiento == f.tipo && d.prioridad == f.prioridad
    ensures d.fecha_ingreso_taller == f.fechaIngreso && d.pedido == f.pedido
    ensures d.ingresa_taller_ypane == f.ingresaTaller && d.estado == f.estado
  {
    DatosTicket(
      NuloSiVacio(f.inspeccion), f.equipo, f.tipo,
      if f.tipo == "Correctivo" then Some(Recortar(f.aviso)) else None,
      NuloSiVacio(Recortar(f.orden)),
      Recortar(f.descripcion), f.prioridad,
      NuloSiVacio(f.fechaInicio), f.fechaIngreso, NuloSiVacio(f.fechaLiberacion),
      f.pedido, f.ingresaTaller, f.estado)
  }

  /** A row from a form that passed validation names an equipment and has a
      non-empty trimmed description, which saving again leaves as it is. */
  lemma DatosValidados(f: FormularioTicket)
    requires Validar(f).None?
    ensures var d := DatosDe(f);
            d.equipo_id != [] && d.descripcion_averia != [] && Recortar(d.descripcion_averia) == d.descripcion_averia
  {
    RecortarIdempotente(f.descripcion);
  }

  lemma AvisoGuardado(f: FormularioTicket)
    requires f.tipo == "Correctivo" && !EsBlanco(f.aviso)
    ensures DatosDe(f).numero_aviso.Some? && DatosDe(f).numero_aviso.value != []
  {
  }

  lemma OrdenGuardada(f: FormularioTicket)
    requires !EsBlanco(f.orden)
    ensures DatosDe(f).numero_orden.Some? && DatosDe(f).numero_orden.value != []
  {
  }

  lemma OrdenRecortada(f: FormularioTicket)
    ensures DatosDe(f).numero_orden.Some? ==> Recortar(DatosDe(f).numero_orden.value) == DatosDe(f).numero_orden.value
  {
    RecortarIdempotente(f.orden);
  }

  /** A validated corrective ticket stores a non-empty trimmed notice and a
      validated preventive one a non-empty trimmed order. */
  lemma NumerosValidados(f: FormularioTicket)
    requires Validar(f).None?
    ensures var d := DatosDe(f);
            (f.tipo == "Correctivo" ==> d.numero_aviso.Some? && d.numero_aviso.value != [])
            && (f.tipo == "Preventivo" ==> d.numero_orden.Some? && d.numero_orden.value != [])
            && (d.numero_orden.Some? ==> Recortar(d.numero_orden.value) == d.numero_orden.value)
  {
    OrdenRecortada(f);
    if f.tipo == "Correctivo" {
      AvisoGuardado(f);
    }
    if f.tipo == "Preventivo" {
      OrdenGuardada(f);
    }
  }

  // Notification.

  /** The body posted to the webhook; every field is a string. */
  datatype PayloadEmail = PayloadEmail(tipo: string, numero_aviso_orden: string, equipo: string, descripcion: string, prioridad: string)

  /** What `guardar` hands to `enviarEmailPowerAutomate`. */
  datatype DatosEmail = DatosEmail(
    tipo_mantenimiento: string,
    numero_aviso: Option<string>,
    numero_orden: Option<string>,
    equipo_codigo: Option<string>,
    descripcion_averia: string,
    prioridad: string)

  /** The notification for corrective work quotes the notice, any other the order;
      a missing value is sent as ''. */
  function Payload(d: DatosEmail): (p: PayloadEmail)
    ensures d.tipo_mantenimiento == "Correctivo" ==> p.numero_aviso_orden == d.numero_aviso.GetOr("")
    ensures d.tipo_mantenimiento != "Correctivo" ==> p.numero_aviso_orden == d.numero_orden.GetOr("")
    ensures p.equipo == d.equipo_codigo.GetOr("")
    ensures p.tipo == d.tipo_mantenimiento && p.descripcion == d.descripcion_averia && p.prioridad == d.prioridad
  {
    PayloadEmail(
      d.tipo_mantenimiento,
      if d.tipo_mantenimiento == "Correctivo" then d.numero_aviso.GetOr("") else d.numero_orden.GetOr(""),
      d.equipo_codigo.GetOr(""),
      d.descripcion_averia,
      d.prioridad)
  }

  const URL_SIN_CONFIGURAR := "TU_URL_DE_POWER_AUTOMATE_AQUI"

  /** `VITE_POWER_AUTOMATE_URL || placeholder`, compared with the placeholder. */
  predicate UrlConfigurada(entorno: Option<string>) {
    entorno.Some? && entorno.value != [] && entorno.value != URL_SIN_CONFIGURAR
  }

  /** `enviarEmailPowerAutomate`: with no usable address nothing is posted and the
      answer is false; otherwise the payload is posted and the answer is whether
      the webhook replied with success (a network failure counts as no success). */
  function EnviarEmail(entorno: Option<string>, d: DatosEmail, respuestaOk: bool): (r: (bool, Option<PayloadEmail>))
    ensures r.1.None? <==> !UrlConfigurada(entorno)
    ensures r.1.Some? ==> r.1.value == Payload(d)
    ensures r.0 <==> UrlConfigurada(entorno) && respuestaOk
  {
    if !UrlConfigurada(entorno) then (false, None) else (respuestaOk, Some(Payload(d)))
  }

  /** The equipment searched by id, for its code. */
  function CodigoEquipo(equipos: seq<Equipo>, id: string): (r: Option<string>)
    ensures r.None? <==> forall i :: 0 <= i < |equipos| ==> equipos[i].id != id
    ensures r.Some? ==> exists i :: 0 <= i < |equipos| && equipos[i].id == id && equipos[i].numero_identificacion == r.value
  {
    if equipos == [] then None
    else if equipos[0].id == id then Some(equipos[0].numero_identificacion)
    else
      var r := CodigoEquipo(equipos[1..], id);
      assert r.Some? ==> exists i :: 0 <= i < |equipos[1..]| && equipos[1..][i].id == id
                                     && equipos[1..][i].numero_identificacion == r.value;
      r
  }

  function DatosEmailDe(f: FormularioTicket, equipos: seq<Equipo>): DatosEmail {
    DatosEmail(f.tipo, NuloSiVacio(Recortar(f.aviso)), NuloSiVacio(Recortar(f.orden)),
               CodigoEquipo(equipos, f.equipo), Recortar(f.descripcion), f.prioridad)
  }

  /** For a validated corrective or preventive ticket the notification quotes a
      non-blank number. */
  lemma NumeroEnEmail(f: FormularioTicket, equipos: seq<Equipo>)
    requires Validar(f).None? && (f.tipo == "Correctivo" || f.tipo == "Preventivo")
    ensures Payload(DatosEmailDe(f, equipos)).numero_aviso_orden != []
  {
  }

  // Saving.

  datatype EscrituraTicket =
    | ActualizarTicket(id: string, datos: DatosTicket)
    | InsertarTicket(datos: DatosTicket)
    | MarcarEmailEnviado(id: string)

  /** `guardar`. `editando` is the id of the ticket being edited; `escritura` is
      how the update or insert ends (the new row's id on success); `respuestaEmail`
      is how the webhook answers. Validation failures write nothing. An edit is one
      update and never notifies. A new ticket is inserted; only then, and only
      when it enters the workshop, the notification is attempted, and only a
      successful one marks the row as notified. */
  method Guardar(f: FormularioTicket, editando: Option<string>, equipos: seq<Equipo>, entorno: Option<string>,
                 escritura: Result<string, string>, respuestaEmail: bool)
    returns (error: Option<ErrorValidacion>, escrituras: seq<EscrituraTicket>, email: Option<PayloadEmail>)
    ensures error == Validar(f)
    ensures error.Some? ==> escrituras == [] && email.None?
    ensures error.None? && editando.Some? ==> escrituras == [ActualizarTicket(editando.value, DatosDe(f))] && email.None?
    ensures error.None? && editando.None? ==> |escrituras| >= 1 && escrituras[0] == InsertarTicket(DatosDe(f))
    ensures email.Some? <==> error.None? && editando.None? && escritura.Ok? && f.ingresaTaller && UrlConfigurada(entorno)
    ensures email.Some? ==> email.value == Payload(DatosEmailDe(f, equipos))
    ensures |escrituras| == 2 <==>
              error.None? && editando.None? && escritura.Ok? && f.ingresaTaller && UrlConfigurada(entorno) && respuestaEmail
    ensures |escrituras| == 2 ==> escrituras[1] == MarcarEmailEnviado(escritura.value)
    ensures |escrituras| <= 2
  {
    error := Validar(f);
    if error.Some? {
      return error, [], None;
    }
    var datos := DatosDe(f);
    if editando.Some? {
      return None, [ActualizarTicket(editando.value, datos)], None;
    }
    if escritura.Err? || !f.ingresaTaller {
      return None, [InsertarTicket(datos)], None;
    }
    var (enviado, enviadoPayload) := EnviarEmail(entorno, DatosEmailDe(f, equipos), respuestaEmail);
    if enviado {
      return None, [InsertarTicket(datos), MarcarEmailEnviado(escritura.value)], enviadoPayload;
    }
    return None, [InsertarTicket(datos)], enviadoPayload;
  }
}
