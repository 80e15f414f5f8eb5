/** The operational-state dialog of one equipment (`EstadoOperativoModal.jsx`):
    the two form fields its handlers update, the save gate and the row update it
    writes. */
module EstadoOperativoModal {
  import opened Opciones
  import opened Texto
  import opened Dominio

  const OPERATIVO := "operativo"
  const OPERATIVO_RESTRICCIONES := "operativo_restricciones"
  const FUERA_SERVICIO := "fuera_servicio"

  /** The three buttons of the dialog, in order. */
  const ESTADOS: seq<string> := [OPERATIVO, OPERATIVO_RESTRICCIONES, FUERA_SERVICIO]

  /** The two columns the save writes. */
  datatype Actualizacion = Actualizacion(estado_operativo: string, observaciones_operativo: Option<string>)

  /** The update written for a selection and an observation text: the state as
      selected, the observation trimmed or null when blank. */
  function ActualizacionDe(estado: string, observaciones: string): (u: Actualizacion)
    ensures u.estado_operativo == estado
    ensures u.observaciones_operativo.None? <==> EsBlanco(observaciones)
    ensures u.observaciones_operativo.Some? ==> u.observaciones_operativo.value == Recortar(observaciones)
  {
    Actualizacion(estado, NuloSiVacio(Recortar(observaciones)))
  }

  /** The equipment row after the update: only the two columns change. */
  function Aplicada(e: Equipo, u: Actualizacion): (r: Equipo)
    ensures r.estado_operativo == Some(u.estado_operativo)
    ensures r.observaciones_operativo == u.observaciones_operativo
    ensures r.(estado_operativo := e.estado_operativo, observaciones_operativo := e.observaciones_operativo) == e
  {
    e.(estado_operativo := Some(u.estado_operativo), observaciones_operativo := u.observaciones_operativo)
  }

  /** The value of the two fields when the dialog opens on `e`. */
  function EstadoInicial(e: Equipo): (r: (string, string))
    ensures e.estado_operativo.None? || e.estado_operativo.value == [] ==> r.0 == OPERATIVO
    ensures e.estado_operativo.Some? && e.estado_operativo.value != [] ==> r.0 == e.estado_operativo.value
    ensures e.observaciones_operativo.None? ==> r.1 == []
    ensures e.observaciones_operativo.Some? ==> r.1 == e.observaciones_operativo.value
  {
    (ODefecto(e.estado_operativo, OPERATIVO), ODefecto(e.observaciones_operativo, ""))
  }

  class Dialogo {
    var estadoSeleccionado: string
    var observaciones: string
    var guardando: bool

    /** Opening the dialog on an equipment. */
    constructor (e: Equipo)
      ensures (estadoSeleccionado, observaciones) == EstadoInicial(e)
      ensures !guardando
    {
      estadoSeleccionado := ODefecto(e.estado_operativo, OPERATIVO);
      observaciones := ODefecto(e.observaciones_operativo, "");
      guardando := false;
    }

    /** Whether the observation box is shown, and whether it is marked required. */
    function ObservacionVisible(): (r: bool)
      reads this
      ensures r <==> estadoSeleccionado != OPERATIVO
    {
      estadoSeleccionado != OPERATIVO
    }

    function ObservacionObligatoria(): (r: bool)
      reads this
      ensures r <==> estadoSeleccionado == OPERATIVO_RESTRICCIONES
    {
      estadoSeleccionado == OPERATIVO_RESTRICCIONES
    }

    /** The `disabled` of the save button. */
    function GuardarDeshabilitado(): (r: bool)
      reads this
      ensures r <==> guardando || (ObservacionObligatoria() && EsBlanco(observaciones))
    {
      guardando || (estadoSeleccionado == OPERATIVO_RESTRICCIONES && Recortar(observaciones) == [])
    }

    /** A state button's `onClick`. */
    method Seleccionar(i: nat)
      requires i < |ESTADOS|
      modifies this
      ensures estadoSeleccionado == ESTADOS[i]
      ensures observaciones == old(observaciones) && guardando == old(guardando)
    {
      estadoSeleccionado := ESTADOS[i];
    }

    /** The text area's `onChange`. */
    method Escribir(texto: string)
      modifies this
      ensures observaciones == texto
      ensures estadoSeleccionado == old(estadoSeleccionado) && guardando == old(guardando)
    {
      observaciones := texto;
    }

    /** A click on the save button. A disabled button writes nothing. Otherwise
        the update is written; `fallo` is the store's answer, and only a
        successful write closes the dialog. `guardando` is back to false when
        the click is over, so the fields are as before. */
    method PulsarGuardar(fallo: bool) returns (escritura: Option<Actualizacion>, cerrar: bool)
      requires !guardando
      ensures GuardarDeshabilitado() ==> escritura.None? && !cerrar
      ensures !GuardarDeshabilitado() ==> escritura == Some(ActualizacionDe(estadoSeleccionado, observaciones))
      ensures cerrar <==> !GuardarDeshabilitado() && !fallo
    {
      if GuardarDeshabilitado() {
        return None, false;
      }
      escritura := Some(ActualizacionDe(estadoSeleccionado, observaciones));
      cerrar := !fallo;
    }
  }

  /** Only 'operativo con restricciones' asks for a text: with any other state the
      button is enabled whenever no save is running, even with a blank text. */
  lemma SoloRestriccionesExigeTexto(d: Dialogo)
    ensures d.estadoSeleccionado != OPERATIVO_RESTRICCIONES ==> (d.GuardarDeshabilitado() <==> d.guardando)
    ensures d.estadoSeleccionado == OPERATIVO_RESTRICCIONES ==>
              (d.GuardarDeshabilitado() <==> d.guardando || EsBlanco(d.observaciones))
    ensures d.estadoSeleccionado == FUERA_SERVICIO && !d.guardando ==> !d.GuardarDeshabilitado()
  {
  }

  /** A saved update with restrictions always carries a non-blank observation. */
  lemma RestriccionesGuardanObservacion(d: Dialogo)
    requires !d.GuardarDeshabilitado() && d.estadoSeleccionado == OPERATIVO_RESTRICCIONES
    ensures ActualizacionDe(d.estadoSeleccionado, d.observaciones).observaciones_operativo.Some?
  {
  }

  /** Reopening the dialog after a save shows the saved state and the trimmed
      observation; the hidden text is kept when 'operativo' is chosen after typing
      one, because the update writes it whatever the state. */
  lemma ReabrirMuestraLoGuardado(e: Equipo, estado: string, observaciones: string)
    requires estado in ESTADOS
    ensures EstadoInicial(Aplicada(e, ActualizacionDe(estado, observaciones))) == (estado, Recortar(observaciones))
  {
    NuloSiVacioIdaVuelta(Recortar(observaciones));
  }
}
