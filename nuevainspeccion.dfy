/** The inspection form (`NuevaInspeccion.jsx`): the checklist the inspector
    answers, the traffic light computed from it, the gate on the save button, and
    the sequence of database writes that saving performs. Database calls are
    inputs: each step's success or failure is given, and the writes issued are
    returned in order. */
module NuevaInspeccion {
  import opened Opciones
  import opened Texto
  import opened Secuencias
  import opened Dominio
  import opened SubidaFotos

  /** A row of `checklist_templates` for the equipment's type. */
  datatype Plantilla = Plantilla(id: string, item_nombre: string, categoria: string, es_critico: bool)

  /** One key of the checklist object: a template id and its answer, `None` while
      unanswered (the form starts every key at `null`). */
  datatype Entrada = Entrada(plantilla_id: string, valor: Option<Respuesta>)

  function Claves(c: seq<Entrada>): (r: seq<string>)
    ensures |r| == |c| && forall i :: 0 <= i < |c| ==> r[i] == c[i].plantilla_id
  {
    if c == [] then [] else [c[0].plantilla_id] + Claves(c[1..])
  }

  /** A JavaScript object never holds a key twice. */
  predicate ClavesUnicas(c: seq<Entrada>) {
    SinRepetidos(Claves(c))
  }

  /** `checklist[k]`: `None` when the key is absent, otherwise its value. */
  function Valor(c: seq<Entrada>, k: string): (r: Option<Option<Respuesta>>)
    ensures r.None? <==> forall i :: 0 <= i < |c| ==> c[i].plantilla_id != k
    ensures r.Some? ==> exists i :: 0 <= i < |c| && c[i] == Entrada(k, r.value)
  {
    if c == [] then None
    else if c[0].plantilla_id == k then Some(c[0].valor)
    else
      var r := Valor(c[1..], k);
      assert r.Some? ==> exists i :: 0 <= i < |c[1..]| && c[1..][i] == Entrada(k, r.value);
      r
  }

  /** `{ ...prev, [k]: v }`. */
  function Asignar(c: seq<Entrada>, k: string, v: Option<Respuesta>): seq<Entrada> {
    if c == [] then [Entrada(k, v)]
    else if c[0].plantilla_id == k then [Entrada(k, v)] + c[1..]
    else [c[0]] + Asignar(c[1..], k, v)
  }

  /** After the assignment the key holds `v` and every other key keeps its value. */
  lemma {:induction false} ValorAsignar(c: seq<Entrada>, k: string, v: Option<Respuesta>)
    ensures Valor(Asignar(c, k, v), k) == Some(v)
    ensures forall k2 :: k2 != k ==> Valor(Asignar(c, k, v), k2) == Valor(c, k2)
    decreases |c|
  {
    if c != [] && c[0].plantilla_id != k {
      ValorAsignar(c[1..], k, v);
      var r := Asignar(c, k, v);
      assert r[1..] == Asignar(c[1..], k, v);
    }
  }

  /** A new key goes to the end and an existing one keeps its place. */
  lemma {:induction false} ClavesAsignar(c: seq<Entrada>, k: string, v: Option<Respuesta>)
    ensures Claves(Asignar(c, k, v)) == if k in Claves(c) then Claves(c) else Claves(c) + [k]
    decreases |c|
  {
    if c != [] {
      if c[0].plantilla_id != k {
        ClavesAsignar(c[1..], k, v);
        assert k in Claves(c) <==> k in Claves(c[1..]);
      } else {
        assert Asignar(c, k, v)[1..] == c[1..];
        assert Claves(c)[0] == k;
      }
    }
  }

  /** The assignment introduces no entry but the assigned one. */
  lemma {:induction false} EntradasAsignar(c: seq<Entrada>, k: string, v: Option<Respuesta>)
    ensures forall i :: 0 <= i < |Asignar(c, k, v)| ==> Asignar(c, k, v)[i] == Entrada(k, v) || Asignar(c, k, v)[i] in c
    decreases |c|
  {
    if c != [] && c[0].plantilla_id != k {
      EntradasAsignar(c[1..], k, v);
    }
  }

  /** Assigning keeps the keys unique. */
  lemma AsignarClavesUnicas(c: seq<Entrada>, k: string, v: Option<Respuesta>)
    requires ClavesUnicas(c)
    ensures ClavesUnicas(Asignar(c, k, v))
  {
    ClavesAsignar(c, k, v);
  }

  function IdsDe(ps: seq<Plantilla>): (r: seq<string>)
    ensures |r| == |ps| && forall i :: 0 <= i < |ps| ==> r[i] == ps[i].id
  {
    seq(|ps|, i requires 0 <= i < |ps| => ps[i].id)
  }

  lemma IdsDeSiguiente(ps: seq<Plantilla>, i: nat)
    requires i < |ps|
    ensures IdsDe(ps[..i + 1]) == IdsDe(ps[..i]) + [ps[i].id]
  {
  }

  /** `getChecklistTemplate` after the query: one key per template id, in the
      order the ids first appear, every one unanswered. */
  method ChecklistInicial(ps: seq<Plantilla>) returns (c: seq<Entrada>)
    ensures Claves(c) == Distintos(IdsDe(ps))
    ensures ClavesUnicas(c)
    ensures forall i :: 0 <= i < |c| ==> c[i].valor == None
  {
    c := [];
    var i := 0;
    while i < |ps|
      invariant 0 <= i <= |ps|
      invariant Claves(c) == Distintos(IdsDe(ps[..i]))
      invariant forall j :: 0 <= j < |c| ==> c[j].valor == None
    {
      PasoChecklist(ps, i, c);
      c := Asignar(c, ps[i].id, None);
      i := i + 1;
    }
    assert ps[..i] == ps;
  }

  /** One template more: its id is assigned `None`. */
  lemma PasoChecklist(ps: seq<Plantilla>, i: nat, c: seq<Entrada>)
    requires i < |ps|
    requires Claves(c) == Distintos(IdsDe(ps[..i]))
    requires forall j :: 0 <= j < |c| ==> c[j].valor == None
    ensures Claves(Asignar(c, ps[i].id, None)) == Distintos(IdsDe(ps[..i + 1]))
    ensures forall j :: 0 <= j < |Asignar(c, ps[i].id, None)| ==> Asignar(c, ps[i].id, None)[j].valor == None
  {
    var k := ps[i].id;
    var pre := IdsDe(ps[..i]);
    assert Distintos(IdsDe(ps[..i + 1])) == if k in pre then Distintos(pre) else Distintos(pre) + [k] by {
      IdsDeSiguiente(ps, i);
      DistintosAgregando(pre, k);
    }
    assert k in pre <==> k in Claves(c);
    ClavesAsignar(c, k, None);
    EntradasAsignar(c, k, None);
  }

  /** `checklistTemplates.find(t => t.id === id)`. */
  function BuscarPlantilla(ps: seq<Plantilla>, id: string): (r: Option<Plantilla>)
    ensures r.None? <==> forall i :: 0 <= i < |ps| ==> ps[i].id != id
    ensures r.Some? ==> r.value.id == id && r.value in ps
  {
    if ps == [] then None
    else if ps[0].id == id then Some(ps[0])
    else BuscarPlantilla(ps[1..], id)
  }

  /** `template?.es_critico || false`: an entry with no template counts as not
      critical. */
  function EsCritico(ps: seq<Plantilla>, id: string): (r: bool)
    ensures r <==> BuscarPlantilla(ps, id).Some? && BuscarPlantilla(ps, id).value.es_critico
    ensures (forall i :: 0 <= i < |ps| ==> ps[i].id != id) ==> !r
  {
    match BuscarPlantilla(ps, id)
    case Some(t) => t.es_critico
    case None => false
  }

  predicate FallaCritica(ps: seq<Plantilla>, e: Entrada) {
    EsCritico(ps, e.plantilla_id) && e.valor == Some(Falla)
  }

  predicate AvisoCritico(ps: seq<Plantilla>, e: Entrada) {
    EsCritico(ps, e.plantilla_id) && e.valor == Some(Aviso)
  }

  predicate ProblemaNoCritico(ps: seq<Plantilla>, e: Entrada) {
    !EsCritico(ps, e.plantilla_id) && (e.valor == Some(Falla) || e.valor == Some(Aviso))
  }

  /** The thresholds of the traffic light, applied to the three counts. */
  function Clasificar(criticosFalla: nat, criticosAviso: nat, noCriticosProblemas: nat): Semaforo {
    if criticosFalla > 0 then Rojo
    else if criticosAviso > 0 || noCriticosProblemas >= 2 then Amarillo
    else Verde
  }

  /** `calcularSemaforo`: rojo exactly when some critical item failed; amarillo
      exactly when none did and some critical item has a warning or two
      non-critical items have a problem; verde otherwise. An unanswered item
      counts for nothing. */
  function CalcularSemaforo(c: seq<Entrada>, ps: seq<Plantilla>): (s: Semaforo)
    ensures s == Rojo <==> exists i :: 0 <= i < |c| && FallaCritica(ps, c[i])
    ensures s == Amarillo <==>
              (forall i :: 0 <= i < |c| ==> !FallaCritica(ps, c[i]))
              && ((exists i :: 0 <= i < |c| && AvisoCritico(ps, c[i]))
                  || exists i, j :: 0 <= i < j < |c| && ProblemaNoCritico(ps, c[i]) && ProblemaNoCritico(ps, c[j]))
  {
    var pf := (e: Entrada) => FallaCritica(ps, e);
    var pa := (e: Entrada) => AvisoCritico(ps, e);
    var pn := (e: Entrada) => ProblemaNoCritico(ps, e);
    ContarPositivo(c, pf);
    ContarPositivo(c, pa);
    ContarAlMenosDos(c, pn);
    Clasificar(Contar(c, pf), Contar(c, pa), Contar(c, pn))
  }

  /** With no critical problem and at most one non-critical one the light is
      verde: all answers ok, none given, or a single non-critical issue. */
  lemma {:induction false} UnProblemaNoCriticoEsVerde(c: seq<Entrada>, ps: seq<Plantilla>, k: nat)
    requires k < |c|
    requires forall i :: 0 <= i < |c| && i != k ==> c[i].valor == None || c[i].valor == Some(Bien)
    requires !EsCritico(ps, c[k].plantilla_id)
    ensures CalcularSemaforo(c, ps) == Verde
  {
  }

  /** The light depends only on which answers were given, never on the order of
      the entries. */
  lemma SemaforoPermutacion(c: seq<Entrada>, d: seq<Entrada>, ps: seq<Plantilla>)
    requires multiset(c) == multiset(d)
    ensures CalcularSemaforo(c, ps) == CalcularSemaforo(d, ps)
  {
    ContarPermutacion(c, d, (e: Entrada) => FallaCritica(ps, e));
    ContarPermutacion(c, d, (e: Entrada) => AvisoCritico(ps, e));
    ContarPermutacion(c, d, (e: Entrada) => ProblemaNoCritico(ps, e));
  }

  /** `checklist[k]` is truthy: the key exists and holds an answer. */
  predicate Respondido(c: seq<Entrada>, k: string) {
    Valor(c, k).Some? && Valor(c, k).value.Some?
  }

  /** `puedeGuardar`: kind, horómetro and ubicación filled in, and every critical
      template answered. */
  function PuedeGuardar(tipo: string, horometro: string, ubicacion: string, ps: seq<Plantilla>, c: seq<Entrada>): (r: bool)
    ensures r <==>
              tipo != [] && horometro != [] && ubicacion != []
              && forall i :: 0 <= i < |ps| && ps[i].es_critico ==> Respondido(c, ps[i].id)
  {
    if tipo == [] || horometro == [] || ubicacion == [] then false
    else
      var criticos := Filtrar(ps, (t: Plantilla) => t.es_critico);
      assert forall i :: 0 <= i < |ps| && ps[i].es_critico ==> ps[i] in criticos;
      forall t | t in criticos :: Respondido(c, t.id)
  }

  /** Only critical items gate the save: answering, unanswering or re-answering
      a key that no critical template has leaves `puedeGuardar` as it was. */
  lemma NoCriticoNoBloquea(tipo: string, horometro: string, ubicacion: string, ps: seq<Plantilla>,
                           c: seq<Entrada>, k: string, v: Option<Respuesta>)
    requires forall i :: 0 <= i < |ps| && ps[i].id == k ==> !ps[i].es_critico
    ensures PuedeGuardar(tipo, horometro, ubicacion, ps, Asignar(c, k, v)) == PuedeGuardar(tipo, horometro, ubicacion, ps, c)
  {
    var d := Asignar(c, k, v);
    ValorAsignar(c, k, v);
    forall i | 0 <= i < |ps| && ps[i].es_critico
      ensures Respondido(d, ps[i].id) == Respondido(c, ps[i].id)
    {
      assert ps[i].id != k;
    }
  }

  /** `inspeccion_envio_relacionada`: the chosen envío, only for a recepción with
      one chosen. */
  function EnvioRelacionado(tipo: string, envioSeleccionado: string): (r: Option<string>)
    ensures r.Some? <==> tipo == TipoInspeccion.Recepcion.Codigo() && envioSeleccionado != []
    ensures r.Some? ==> r.value == envioSeleccionado
  {
    if tipo == "recepcion" && envioSeleccionado != [] then Some(envioSeleccionado) else None
  }

  /** The inspection row inserted first. */
  datatype FilaInspeccion = FilaInspeccion(
    equipo_id: string,
    inspector_id: string,
    tipo_inspeccion: string,
    horometro_odometro: string,
    ubicacion: string,
    observaciones_generales: string,
    semaforo: Semaforo,
    estado: string,
    inspeccion_envio_relacionada: Option<string>)

  /** A row of `checklist_items`. */
  datatype FilaChecklist = FilaChecklist(
    inspeccion_id: string,
    item_nombre: string,
    categoria: string,
    estado: Option<Respuesta>,
    es_critico: bool,
    observacion: Option<string>)

  /** A row of `inspeccion_fotos`. */
  datatype FilaFoto = FilaFoto(inspeccion_id: string, url: string, public_id: string, descripcion: Option<string>, tipo: string)

  /** `updateData` for the equipment: the light, and the location only when set. */
  datatype CambiosEquipo = CambiosEquipo(semaforo_actual: Semaforo, ubicacion_actual: Option<string>)

  datatype Escritura =
    | InsertarInspeccion(fila: FilaInspeccion)
    | InsertarChecklist(filas: seq<FilaChecklist>)
    | InsertarFotos(fotos: seq<FilaFoto>)
    | ActualizarEquipo(equipo_id: string, cambios: CambiosEquipo)

  /** Where a write sits in the save sequence. */
  function Etapa(w: Escritura): nat {
    match w
    case InsertarInspeccion(_) => 0
    case InsertarChecklist(_) => 1
    case InsertarFotos(_) => 2
    case ActualizarEquipo(_, _) => 3
  }

  /** The writes follow the save sequence, none repeated. */
  predicate EnOrden(ws: seq<Escritura>) {
    forall i, j :: 0 <= i < j < |ws| ==> Etapa(ws[i]) < Etapa(ws[j])
  }

  /** The write issued last. */
  function Ultima(ws: seq<Escritura>): Escritura
    requires ws != []
  {
    ws[|ws| - 1]
  }

  /** Why a save stopped: the step whose error was thrown. A checklist key with
      no template makes building the rows throw. */
  datatype Fallo = FalloInspeccion | PlantillaFaltante | FalloChecklist | FalloFotos | FalloEquipo

  /** The checklist rows, one per key in key order; `None` when some key has no
      template, since reading `template.item_nombre` then throws. */
  function FilasChecklist(inspeccionId: string, c: seq<Entrada>, ps: seq<Plantilla>, obs: map<string, string>): (r: Option<seq<FilaChecklist>>)
    ensures r.None? <==> exists i :: 0 <= i < |c| && BuscarPlantilla(ps, c[i].plantilla_id).None?
    ensures r.Some? ==> |r.value| == |c| && forall i :: 0 <= i < |c| ==> FilaDe(r.value[i], inspeccionId, c[i], ps, obs)
  {
    if c == [] then Some([])
    else
      var t := BuscarPlantilla(ps, c[0].plantilla_id);
      var resto := FilasChecklist(inspeccionId, c[1..], ps, obs);
      if t.None? || resto.None? then
        assert resto.None? ==> exists i :: 0 <= i < |c[1..]| && BuscarPlantilla(ps, c[1..][i].plantilla_id).None?;
        None
      else
        var o := if c[0].plantilla_id in obs then NuloSiVacio(obs[c[0].plantilla_id]) else None;
        Some([FilaChecklist(inspeccionId, t.value.item_nombre, t.value.categoria, c[0].valor, t.value.es_critico, o)] + resto.value)
  }

  /** Row `f` records entry `e`: its answer, and the name, category and
      criticality of its template, with the item's note or `null`. */
  predicate FilaDe(f: FilaChecklist, inspeccionId: string, e: Entrada, ps: seq<Plantilla>, obs: map<string, string>) {
    var t := BuscarPlantilla(ps, e.plantilla_id);
    t.Some?
    && f == FilaChecklist(inspeccionId, t.value.item_nombre, t.value.categoria, e.valor, t.value.es_critico,
                          if e.plantilla_id in obs then NuloSiVacio(obs[e.plantilla_id]) else None)
  }

  /** The traffic light recomputed from saved rows alone. */
  function SemaforoDeFilas(filas: seq<FilaChecklist>): Semaforo {
    Clasificar(
      Contar(filas, (f: FilaChecklist) => f.es_critico && f.estado == Some(Falla)),
      Contar(filas, (f: FilaChecklist) => f.es_critico && f.estado == Some(Aviso)),
      Contar(filas, (f: FilaChecklist) => !f.es_critico && (f.estado == Some(Falla) || f.estado == Some(Aviso))))
  }

  lemma {:induction false} ContarFilas(filas: seq<FilaChecklist>, inspeccionId: string, c: seq<Entrada>, ps: seq<Plantilla>,
                                       obs: map<string, string>, p: FilaChecklist -> bool, q: Entrada -> bool)
    requires |filas| == |c| && forall i :: 0 <= i < |c| ==> FilaDe(filas[i], inspeccionId, c[i], ps, obs)
    requires forall i :: 0 <= i < |c| ==> p(filas[i]) == q(c[i])
    ensures Contar(filas, p) == Contar(c, q)
    decreases |c|
  {
    if c != [] {
      ContarFilas(filas[1..], inspeccionId, c[1..], ps, obs, p, q);
    }
  }

  /** What the inspection row stores as `semaforo` is what the saved checklist
      rows give when classified again. */
  lemma SemaforoGuardadoReproducible(inspeccionId: string, c: seq<Entrada>, ps: seq<Plantilla>, obs: map<string, string>)
    requires FilasChecklist(inspeccionId, c, ps, obs).Some?
    ensures SemaforoDeFilas(FilasChecklist(inspeccionId, c, ps, obs).value) == CalcularSemaforo(c, ps)
  {
    var filas := FilasChecklist(inspeccionId, c, ps, obs).value;
    ContarFilas(filas, inspeccionId, c, ps, obs,
                (f: FilaChecklist) => f.es_critico && f.estado == Some(Falla), (e: Entrada) => FallaCritica(ps, e));
    ContarFilas(filas, inspeccionId, c, ps, obs,
                (f: FilaChecklist) => f.es_critico && f.estado == Some(Aviso), (e: Entrada) => AvisoCritico(ps, e));
    ContarFilas(filas, inspeccionId, c, ps, obs,
                (f: FilaChecklist) => !f.es_critico && (f.estado == Some(Falla) || f.estado == Some(Aviso)),
                (e: Entrada) => ProblemaNoCritico(ps, e));
  }

  function FilasFotos(inspeccionId: string, fotos: seq<Foto>): (r: seq<FilaFoto>)
    ensures |r| == |fotos|
    ensures forall i :: 0 <= i < |fotos| ==>
              r[i] == FilaFoto(inspeccionId, fotos[i].url, fotos[i].public_id, NuloSiVacio(fotos[i].descripcion), "general")
  {
    seq(|fotos|, i requires 0 <= i < |fotos| =>
      FilaFoto(inspeccionId, fotos[i].url, fotos[i].public_id, NuloSiVacio(fotos[i].descripcion), "general"))
  }

  /** The form as it stands when the inspector presses save. */
  datatype Formulario = Formulario(
    tipo: string,
    horometro: string,
    ubicacion: string,
    observaciones: string,
    checklist: seq<Entrada>,
    observacionesItems: map<string, string>,
    fotos: seq<Foto>,
    envioSeleccionado: string)

  /** How each database call ends: the new inspection's id or an error, then
      whether each later statement succeeds. */
  datatype Respuestas = Respuestas(insercion: Option<string>, checklistOk: bool, fotosOk: bool, equipoOk: bool)

  function CambiosDe(f: Formulario, ps: seq<Plantilla>): (u: CambiosEquipo)
    ensures u.semaforo_actual == CalcularSemaforo(f.checklist, ps)
    ensures u.ubicacion_actual.Some? <==> f.tipo == TipoInspeccion.Envio.Codigo()
    ensures u.ubicacion_actual.Some? ==> u.ubicacion_actual.value == f.ubicacion
  {
    var u := CambiosEquipo(CalcularSemaforo(f.checklist, ps), None);
    if f.tipo == "envio" then u.(ubicacion_actual := Some(f.ubicacion)) else u
  }

  /** The inspection insert returns a row and every checklist key has its
      template, so the checklist rows exist and are written. */
  predicate FilasListas(f: Formulario, ps: seq<Plantilla>, resp: Respuestas) {
    resp.insercion.Some? && FilasChecklist(resp.insercion.value, f.checklist, ps, f.observacionesItems).Some?
  }

  /** Every step before the equipment update succeeds: the inspection insert
      returns a row, every checklist key has its template, the checklist insert
      succeeds, and the photo insert does too unless there are no photos. */
  predicate PreviosOk(f: Formulario, ps: seq<Plantilla>, resp: Respuestas) {
    FilasListas(f, ps, resp) && resp.checklistOk && (f.fotos == [] || resp.fotosOk)
  }

  /** Some write of `ws` is the photo insert. */
  predicate EscribeFotos(ws: seq<Escritura>) {
    exists i :: 0 <= i < |ws| && ws[i].InsertarFotos?
  }

  /** `guardarInspeccion`. The writes go out in the fixed order inspection,
      checklist, photos (only when there are any), equipment; the first error
      stops the rest and is the one reported. The equipment update is issued,
      last, exactly when every earlier step succeeded, and it sets the computed
      light and, for an envío only, the location. */
  method GuardarInspeccion(equipoId: string, inspectorId: string, f: Formulario, ps: seq<Plantilla>, resp: Respuestas)
    returns (escrituras: seq<Escritura>, fallo: Option<Fallo>)
    ensures |escrituras| >= 1
    ensures escrituras[0] == InsertarInspeccion(FilaInspeccion(
              equipoId, inspectorId, f.tipo, f.horometro, f.ubicacion, f.observaciones,
              CalcularSemaforo(f.checklist, ps), "completa", EnvioRelacionado(f.tipo, f.envioSeleccionado)))
    ensures EnOrden(escrituras)
    ensures resp.insercion.None? ==> |escrituras| == 1 && fallo == Some(FalloInspeccion)
    ensures resp.insercion.Some? && !FilasListas(f, ps, resp) ==> |escrituras| == 1 && fallo == Some(PlantillaFaltante)
    ensures FilasListas(f, ps, resp) ==>
              |escrituras| >= 2
              && escrituras[1] == InsertarChecklist(FilasChecklist(resp.insercion.value, f.checklist, ps, f.observacionesItems).value)
    ensures FilasListas(f, ps, resp) && !resp.checklistOk ==> |escrituras| == 2 && fallo == Some(FalloChecklist)
    ensures EscribeFotos(escrituras) <==> FilasListas(f, ps, resp) && resp.checklistOk && f.fotos != []
    ensures forall i :: 0 <= i < |escrituras| && escrituras[i].InsertarFotos? ==>
              resp.insercion.Some? && escrituras[i] == InsertarFotos(FilasFotos(resp.insercion.value, f.fotos))
    ensures FilasListas(f, ps, resp) && resp.checklistOk && f.fotos != [] && !resp.fotosOk ==>
              |escrituras| == 3 && fallo == Some(FalloFotos)
    ensures Ultima(escrituras).ActualizarEquipo? <==> PreviosOk(f, ps, resp)
    ensures Ultima(escrituras).ActualizarEquipo? ==> Ultima(escrituras) == ActualizarEquipo(equipoId, CambiosDe(f, ps))
    ensures PreviosOk(f, ps, resp) ==> fallo == if resp.equipoOk then None else Some(FalloEquipo)
    ensures fallo.None? <==> PreviosOk(f, ps, resp) && resp.equipoOk
  {
    var semaforo := CalcularSemaforo(f.checklist, ps);
    var w0 := InsertarInspeccion(FilaInspeccion(equipoId, inspectorId, f.tipo, f.horometro, f.ubicacion,
                                                f.observaciones, semaforo, "completa",
                                                EnvioRelacionado(f.tipo, f.envioSeleccionado)));
    if resp.insercion.None? {
      escrituras, fallo := [w0], Some(FalloInspeccion);
    } else {
      var id := resp.insercion.value;
      var filas := FilasChecklist(id, f.checklist, ps, f.observacionesItems);
      if filas.None? {
        escrituras, fallo := [w0], Some(PlantillaFaltante);
      } else {
        var w1 := InsertarChecklist(filas.value);
        var w2 := InsertarFotos(FilasFotos(id, f.fotos));
        var w3 := ActualizarEquipo(equipoId, CambiosDe(f, ps));
        escrituras, fallo := GuardarFilas(w0, w1, w2, w3, f.fotos != [], resp);
      }
    }
  }

  /** The steps after the inspection row: the checklist insert `w1`, the photo
      insert `w2` when there are photos, and the equipment update `w3`, each
      issued only when the step before it succeeded. */
  method GuardarFilas(w0: Escritura, w1: Escritura, w2: Escritura, w3: Escritura, hayFotos: bool, resp: Respuestas)
    returns (escrituras: seq<Escritura>, fallo: Option<Fallo>)
    requires w0.InsertarInspeccion? && w1.InsertarChecklist? && w2.InsertarFotos? && w3.ActualizarEquipo?
    ensures !resp.checklistOk ==> escrituras == [w0, w1] && fallo == Some(FalloChecklist)
    ensures resp.checklistOk && hayFotos && !resp.fotosOk ==> escrituras == [w0, w1, w2] && fallo == Some(FalloFotos)
    ensures resp.checklistOk && !hayFotos ==> escrituras == [w0, w1, w3]
    ensures resp.checklistOk && hayFotos && resp.fotosOk ==> escrituras == [w0, w1, w2, w3]
    ensures resp.checklistOk && (!hayFotos || resp.fotosOk) ==> fallo == if resp.equipoOk then None else Some(FalloEquipo)
    ensures EnOrden(escrituras)
    ensures EscribeFotos(escrituras) <==> resp.checklistOk && hayFotos
    ensures forall i :: 0 <= i < |escrituras| && escrituras[i].InsertarFotos? ==> escrituras[i] == w2
    ensures Ultima(escrituras).ActualizarEquipo? <==> resp.checklistOk && (!hayFotos || resp.fotosOk)
  {
    if !resp.checklistOk {
      return [w0, w1], Some(FalloChecklist);
    }
    fallo := if resp.equipoOk then None else Some(FalloEquipo);
    if !hayFotos {
      escrituras := [w0, w1, w3];
    } else if !resp.fotosOk {
      escrituras, fallo := [w0, w1, w2], Some(FalloFotos);
      assert escrituras[2].InsertarFotos?;
    } else {
      escrituras := [w0, w1, w2, w3];
      assert escrituras[2].InsertarFotos?;
    }
  }

  /** What the equipment update does to the row: the light is replaced, the
      location only when the update carries one, and no other column changes. */
  function AplicarCambios(e: Equipo, u: CambiosEquipo): (r: Equipo)
    ensures r.semaforo_actual == Some(u.semaforo_actual.Codigo())
    ensures r.ubicacion_actual == if u.ubicacion_actual.Some? then u.ubicacion_actual else e.ubicacion_actual
    ensures r.(semaforo_actual := e.semaforo_actual, ubicacion_actual := e.ubicacion_actual) == e
  {
    var r := e.(semaforo_actual := Some(u.semaforo_actual.Codigo()));
    match u.ubicacion_actual
    case Some(l) => r.(ubicacion_actual := Some(l))
    case None => r
  }

  /** After saving, an envío moves the equipment to the form's location while
      every other kind leaves the location where it was. */
  lemma SoloEnvioMueveEquipo(e: Equipo, f: Formulario, ps: seq<Plantilla>)
    ensures f.tipo == "envio" ==> AplicarCambios(e, CambiosDe(f, ps)).ubicacion_actual == Some(f.ubicacion)
    ensures f.tipo != "envio" ==> AplicarCambios(e, CambiosDe(f, ps)).ubicacion_actual == e.ubicacion_actual
    ensures AplicarCambios(e, CambiosDe(f, ps)).semaforo_actual == Some(CalcularSemaforo(f.checklist, ps).Codigo())
  {
  }

  // The envíos offered to a recepción.

  /** `getInspeccionesEnvio` as written: the equipment's envíos whose own
      `inspeccion_envio_relacionada` is null (the database's date order is not
      modelled). */
  function EnviosOfrecidos(inspecciones: seq<Inspeccion>, equipoId: string): (r: seq<Inspeccion>)
    ensures forall i :: 0 <= i < |r| ==> r[i] in inspecciones && EnvioSinEnlace(equipoId, r[i])
    ensures forall i :: 0 <= i < |inspecciones| && EnvioSinEnlace(equipoId, inspecciones[i]) ==> inspecciones[i] in r
  {
    Filtrar(inspecciones, EnvioLibre(equipoId))
  }

  /** The three conditions of the query: this equipment, an envío, no link of its own. */
  predicate EnvioSinEnlace(equipoId: string, x: Inspeccion) {
    x.equipo_id == equipoId && x.tipo_inspeccion == "envio" && x.inspeccion_envio_relacionada.None?
  }

  function EnvioLibre(equipoId: string): Inspeccion -> bool {
    (x: Inspeccion) => EnvioSinEnlace(equipoId, x)
  }

  /** The offered envíos keep the rows' order, each matching row exactly once. */
  lemma EnviosOfrecidosEnOrden(inspecciones: seq<Inspeccion>, equipoId: string) returns (idx: seq<nat>)
    ensures Incrustado(EnviosOfrecidos(inspecciones, equipoId), inspecciones, idx)
    ensures forall i :: 0 <= i < |inspecciones| ==> (i in idx <==> EnvioSinEnlace(equipoId, inspecciones[i]))
  {
    idx := FiltrarEnOrden(inspecciones, EnvioLibre(equipoId));
  }

  /** Rows written by this form link to an envío only from a recepción. */
  predicate SoloRecepcionesEnlazan(inspecciones: seq<Inspeccion>) {
    forall i :: 0 <= i < |inspecciones| && inspecciones[i].inspeccion_envio_relacionada.Some? ==>
      inspecciones[i].tipo_inspeccion == "recepcion"
  }

  /** Because the link lives on the recepción, the null test on the envío removes
      nothing: every envío of the equipment is offered, received or not. */
  lemma EnviosOfrecidosSonTodos(inspecciones: seq<Inspeccion>, equipoId: string)
    requires SoloRecepcionesEnlazan(inspecciones)
    ensures EnviosOfrecidos(inspecciones, equipoId)
            == Filtrar(inspecciones, (x: Inspeccion) => x.equipo_id == equipoId && x.tipo_inspeccion == "envio")
  {
    FiltrarIguales(inspecciones,
                   EnvioLibre(equipoId),
                   (x: Inspeccion) => x.equipo_id == equipoId && x.tipo_inspeccion == "envio");
  }

  /** A concrete pair: an envío already answered by a recepción is still offered. */
  lemma EnvioRecibidoSigueOfrecido()
    ensures var envio := Inspeccion("e1", "q1", "envio", 0, None, "100", "Obra", "verde", None);
            var recepcion := Inspeccion("r1", "q1", "recepcion", 1, None, "120", "Taller Central", "verde", Some("e1"));
            envio in EnviosOfrecidos([envio, recepcion], "q1")
  {
    var envio := Inspeccion("e1", "q1", "envio", 0, None, "100", "Obra", "verde", None);
    var recepcion := Inspeccion("r1", "q1", "recepcion", 1, None, "120", "Taller Central", "verde", Some("e1"));
    assert [envio, recepcion][0] == envio;
  }

  /** Some row links to the envío `id`. */
  predicate Recibido(inspecciones: seq<Inspeccion>, id: string) {
    exists j :: 0 <= j < |inspecciones| && inspecciones[j].inspeccion_envio_relacionada == Some(id)
  }

  /** The intended list: the equipment's envíos that no recepción points to. */
  function EnviosSinRecepcion(inspecciones: seq<Inspeccion>, equipoId: string): (r: seq<Inspeccion>)
    ensures forall i :: 0 <= i < |r| ==>
              r[i] in inspecciones && r[i].equipo_id == equipoId && r[i].tipo_inspeccion == "envio"
              && !Recibido(inspecciones, r[i].id)
    ensures forall i :: 0 <= i < |inspecciones| && inspecciones[i].equipo_id == equipoId
              && inspecciones[i].tipo_inspeccion == "envio" && !Recibido(inspecciones, inspecciones[i].id)
              ==> inspecciones[i] in r
  {
    Filtrar(inspecciones, (x: Inspeccion) => x.equipo_id == equipoId && x.tipo_inspeccion == "envio" && !Recibido(inspecciones, x.id))
  }

  /** The same pair under the intended list: the received envío is no longer
      offered, and an envío nobody answered still is. */
  lemma EnvioRecibidoYaNoSeOfrece()
    ensures var envio := Inspeccion("e1", "q1", "envio", 0, None, "100", "Obra", "verde", None);
            var recepcion := Inspeccion("r1", "q1", "recepcion", 1, None, "120", "Taller Central", "verde", Some("e1"));
            var otro := Inspeccion("e2", "q1", "envio", 2, None, "130", "Obra", "verde", None);
            envio !in EnviosSinRecepcion([envio, recepcion, otro], "q1")
            && otro in EnviosSinRecepcion([envio, recepcion, otro], "q1")
  {
    var envio := Inspeccion("e1", "q1", "envio", 0, None, "100", "Obra", "verde", None);
    var recepcion := Inspeccion("r1", "q1", "recepcion", 1, None, "120", "Taller Central", "verde", Some("e1"));
    var otro := Inspeccion("e2", "q1", "envio", 2, None, "130", "Obra", "verde", None);
    var xs := [envio, recepcion, otro];
    assert xs[1].inspeccion_envio_relacionada == Some("e1");
    assert Recibido(xs, envio.id);
    assert !Recibido(xs, otro.id);
    assert xs[2] == otro;
  }
}
