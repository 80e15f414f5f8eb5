/** The stored vocabulary of the fleet application and the rows the screens read.
    Codes are the exact strings the database holds; a row keeps a string where a
    screen has a fallback for values outside the known codes. Dates are integer
    millisecond timestamps and an absent or empty column is `None`. */
module Dominio {
  import opened Opciones

  /** The traffic light of an inspection and of an equipment. */
  datatype Semaforo = Verde | Amarillo | Rojo {
    function Codigo(): (c: string)
      ensures c != []
    {
      match this
      case Verde => "verde"
      case Amarillo => "amarillo"
      case Rojo => "rojo"
    }
  }

  function SemaforoDeCodigo(c: string): (r: Option<Semaforo>)
    ensures r.Some? ==> r.value.Codigo() == c
  {
    if c == "verde" then Some(Verde)
    else if c == "amarillo" then Some(Amarillo)
    else if c == "rojo" then Some(Rojo)
    else None
  }

  /** Reading a stored traffic light back gives the one that was written. */
  lemma SemaforoIdaVuelta(s: Semaforo)
    ensures SemaforoDeCodigo(s.Codigo()) == Some(s)
  {
    match s
    case Verde =>
    case Amarillo =>
    case Rojo =>
  }

  /** An answer to one checklist item. */
  datatype Respuesta = Bien | Aviso | Falla {
    function Codigo(): (c: string)
      ensures c != []
    {
      match this
      case Bien => "ok"
      case Aviso => "warning"
      case Falla => "fail"
    }
  }

  function RespuestaDeCodigo(c: string): (r: Option<Respuesta>)
    ensures r.Some? ==> r.value.Codigo() == c
  {
    if c == "ok" then Some(Bien)
    else if c == "warning" then Some(Aviso)
    else if c == "fail" then Some(Falla)
    else None
  }

  lemma RespuestaIdaVuelta(a: Respuesta)
    ensures RespuestaDeCodigo(a.Codigo()) == Some(a)
  {
    match a
    case Bien =>
    case Aviso =>
    case Falla =>
  }

  /** The five kinds of inspection the inspection form offers. */
  datatype TipoInspeccion = Periodica | Envio | Recepcion | Taller | Almacenamiento {
    function Codigo(): (c: string)
      ensures c != []
    {
      match this
      case Periodica => "periodica"
      case Envio => "envio"
      case Recepcion => "recepcion"
      case Taller => "taller"
      case Almacenamiento => "almacenamiento"
    }

    /** The name the history screen and the report show for the kind. */
    function Nombre(): string {
      match this
      case Periodica => "Inspección Periódica"
      case Envio => "Envío a Obra"
      case Recepcion => "Recepción de Obra"
      case Taller => "Entrada a Taller"
      case Almacenamiento => "Almacenamiento"
    }

    /** The icon the history screen puts before the name. */
    function Icono(): char {
      match this
      case Periodica => '\U{1F50D}'
      case Envio => '\U{1F4E4}'
      case Recepcion => '\U{1F4E5}'
      case Taller => '\U{1F527}'
      case Almacenamiento => '\U{1F4E6}'
    }
  }

  function TipoDeCodigo(c: string): (r: Option<TipoInspeccion>)
    ensures r.Some? ==> r.value.Codigo() == c
  {
    if c == "periodica" then Some(Periodica)
    else if c == "envio" then Some(Envio)
    else if c == "recepcion" then Some(Recepcion)
    else if c == "taller" then Some(Taller)
    else if c == "almacenamiento" then Some(Almacenamiento)
    else None
  }

  lemma TipoIdaVuelta(t: TipoInspeccion)
    ensures TipoDeCodigo(t.Codigo()) == Some(t)
  {
    match t
    case Periodica =>
    case Envio =>
    case Recepcion =>
    case Taller =>
    case Almacenamiento =>
  }

  /** The four ticket priorities of the maintenance screens. */
  datatype Prioridad = MuyElevado | Alto | Medio | Bajo {
    function Codigo(): (c: string)
      ensures c != []
    {
      match this
      case MuyElevado => "1- Muy Elevado"
      case Alto => "2- Alto"
      case Medio => "3- Medio"
      case Bajo => "4- Bajo"
    }
  }

  function PrioridadDeCodigo(c: string): (r: Option<Prioridad>)
    ensures r.Some? ==> r.value.Codigo() == c
  {
    if c == "1- Muy Elevado" then Some(MuyElevado)
    else if c == "2- Alto" then Some(Alto)
    else if c == "3- Medio" then Some(Medio)
    else if c == "4- Bajo" then Some(Bajo)
    else None
  }

  lemma PrioridadIdaVuelta(p: Prioridad)
    ensures PrioridadDeCodigo(p.Codigo()) == Some(p)
  {
    match p
    case MuyElevado =>
    case Alto =>
    case Medio =>
    case Bajo =>
  }

  /** The three workshop states of a ticket. */
  datatype EstadoTicket = EnEspera | EnTaller | Liberado {
    function Codigo(): (c: string)
      ensures c != []
    {
      match this
      case EnEspera => TALLER_ESPERA
      case EnTaller => TALLER_ENTRADA
      case Liberado => TALLER_SALIDA
    }
  }

  function EstadoTicketDeCodigo(c: string): (r: Option<EstadoTicket>)
    ensures r.Some? ==> r.value.Codigo() == c
  {
    if c == TALLER_ESPERA then Some(EnEspera)
    else if c == TALLER_ENTRADA then Some(EnTaller)
    else if c == TALLER_SALIDA then Some(Liberado)
    else None
  }

  lemma EstadoTicketIdaVuelta(e: EstadoTicket)
    ensures EstadoTicketDeCodigo(e.Codigo()) == Some(e)
  {
    match e
    case EnEspera =>
    case EnTaller =>
    case Liberado =>
  }

  /** A row of `equipos`. */
  datatype Equipo = Equipo(
    id: string,
    numero_identificacion: string,
    denominacion: Option<string>,
    tipo_equipo: Option<string>,
    ubicacion_actual: Option<string>,
    semaforo_actual: Option<string>,
    estado_operativo: Option<string>,
    observaciones_operativo: Option<string>)

  /** A row of `inspecciones`, with the inspector's name from the joined user. */
  datatype Inspeccion = Inspeccion(
    id: string,
    equipo_id: string,
    tipo_inspeccion: string,
    fecha_hora: int,
    inspector: Option<string>,
    horometro_odometro: string,
    ubicacion: string,
    semaforo: string,
    inspeccion_envio_relacionada: Option<string>)

  /** A row of `mantenimientos`, with the code of the joined equipment. */
  datatype Mantenimiento = Mantenimiento(
    id: string,
    equipo_codigo: Option<string>,
    tipo_mantenimiento: string,
    estado: string,
    prioridad: string,
    pedido: bool,
    numero_aviso: Option<string>,
    numero_orden: Option<string>,
    descripcion_averia: Option<string>,
    fecha_inicio_averia: Option<int>,
    fecha_ingreso_taller: Option<int>,
    fecha_liberacion: Option<int>)

  /** The ticket states and what the screens compare them against. */
  const TALLER_ESPERA := "Taller Espera"
  const TALLER_ENTRADA := "Taller Entrada"
  const TALLER_SALIDA := "Taller Salida"

  /** The two states of a purchase request. */
  const PEDIDO_EN_PROCESO := "en_proceso"
  const PEDIDO_RECIBIDO := "recibido"

  /** Outstanding ticket: parts were ordered and the equipment has not left the
      workshop. Both the maintenance dashboard and the ticket list use it. */
  predicate EsDebido(m: Mantenimiento) {
    m.pedido && m.estado != TALLER_SALIDA
  }

  /** `m.estado === c`, the test each state card counts with. */
  function EnEstado(c: string): Mantenimiento -> bool {
    (m: Mantenimiento) => m.estado == c
  }

  /** `m.tipo_mantenimiento === t`. */
  function DeTipo(t: string): Mantenimiento -> bool {
    (m: Mantenimiento) => m.tipo_mantenimiento == t
  }
}
