# Fleet inspection rules, in Dafny

This is a model of the rules in a fleet-management web application for
construction equipment. The rules cover:

- the equipment list, with days since the last inspection, filters, sort orders and groups by location;
- the inspection form, with its checklist, its traffic light (semáforo), the save sequence and the envío/recepción link;
- the inspection history;
- the operational-state dialog;
- the maintenance tickets, with their form, list and dashboard;
- the purchase requests, with their form, consecutive numbering and list;
- the photo picker and the image helpers;
- the comparison helpers of the inspection report.

Each screen is one Dafny module, named after its source file. Modules whose
screens change state step by step (the photo picker, the item list of a
purchase request, the operational-state dialog) are classes with `modifies`
clauses. Loops in the source are methods with loop invariants. The rest is
functions and lemmas.

Several helper modules are shared:

- `Texto`: `trim`, `toLowerCase`, `includes`, `parseInt`, `padStart`, `split`, `x || null` and `x || d`;
- `Fechas`: millisecond timestamps and whole days;
- `Secuencias`: filter, count, distinct values and removal at an index;
- `Orden`: `Array.prototype.sort` as a stable insertion sort, and `localeCompare` as code-point order;
- `Dominio`: the stored codes of the traffic light, the answers, the inspection kinds, the priorities and the ticket states, with the rows the screens read;
- `Opciones`: `Option` and `Result`.

Database, Cloudinary and webhook calls are not modelled as calls. Their
outcomes are parameters: the rows a query returns, whether an insert
succeeded, the id it produced. Dates are integer millisecond timestamps, and
"now" is a parameter.

## Model

| member | source | states |
|---|---|---|
| EquiposList.UltimaInspeccion | src/EquiposList.jsx:32-42 | No date when the equipment has no inspection; otherwise the date of one of its inspections |
| EquiposList.UltimaEsLaMasReciente | src/EquiposList.jsx:32-42 | With the query sorted newest first, the chosen date is no earlier than any inspection of that equipment |
| EquiposList.Vista | src/EquiposList.jsx:32-51 | The row carries the date of the equipment's last inspection; its days are missing exactly when that date is, and otherwise are the floor of the day difference from it |
| EquiposList.ConInspeccion | src/EquiposList.jsx:40-51 | One view per equipment, in order, each built from that equipment |
| EquiposList.Filtrados | src/EquiposList.jsx:67-87 | The result holds exactly the equipment that pass every filter, and nothing else |
| EquiposList.FiltradosEnOrden | src/EquiposList.jsx:67-87 | The shown equipment keep the list's order: the list with exactly the equipment failing a filter taken out |
| EquiposList.FiltrosInicialesNoFiltran | src/EquiposList.jsx:8-12 | The initial filter state shows the whole fleet |
| EquiposList.EstadoInspeccion | src/EquiposList.jsx:151-156 | The badge is never-inspected, urgent (over 30 days), upcoming (20 to 30) or up to date (under 20), each if and only if its range holds |
| EquiposList.InsigniaCoincideConFiltro | src/EquiposList.jsx:76-84 | Each inspection filter selects exactly the equipment whose badge it names; 'Urgente' also takes the never-inspected ones |
| EquiposList.ContadoresParticionan | src/EquiposList.jsx:169-171 | The urgent, upcoming and up-to-date counters add up to the fleet size |
| EquiposList.RangoSemaforo | src/EquiposList.jsx:109-110 | rojo ranks 0, amarillo 1, verde 2 and anything else 3, each if and only if |
| EquiposList.Ordenados | src/EquiposList.jsx:90-120 | Every sort order is a permutation of the list |
| EquiposList.OrdenSemaforo | src/EquiposList.jsx:107-110 | The traffic-light order puts rojo first, then amarillo, then verde, then the rest |
| EquiposList.OrdenDiasDesc | src/EquiposList.jsx:95-99 | Most days first; a never-inspected equipment counts as 9999 days, so anything placed before it also counts 9999 days or more |
| EquiposList.OrdenDiasAsc | src/EquiposList.jsx:101-105 | Fewest days first; a never-inspected equipment counts as -1, so it comes before every inspected one |
| EquiposList.OrdenNombre | src/EquiposList.jsx:92-93 | The name order sorts by code |
| EquiposList.PreordenUbicacion | src/EquiposList.jsx:115-118 | The location comparator is a total preorder on equipment whose location is neither the empty text nor the literal 'ZZZ' |
| EquiposList.OrdenUbicacion | src/EquiposList.jsx:112-118 | The default order sorts by location, a missing one last, then by code |
| EquiposList.ClaveGrupo | src/EquiposList.jsx:127 | A group name is never empty |
| EquiposList.Agrupar | src/EquiposList.jsx:122-132 | One 'Todos los equipos' group holding the whole list, unless the list is sorted by location, in which case it returns the location grouping |
| EquiposList.AgruparPorUbicacion | src/EquiposList.jsx:126-131 | The groups are the distinct locations in first-seen order, each holding exactly its equipment in list order |
| EquiposList.AgregarAGrupo | src/EquiposList.jsx:127-129 | One step of the grouping keeps it a grouping of the list seen so far |
| EquiposList.BuscarGrupo | src/EquiposList.jsx:128 | Finds the group with that name, or reports that none exists |
| EquiposList.UnGrupoPorEquipo | src/EquiposList.jsx:126-131 | Each equipment is in the group named by its location and in no other group |
| EquiposList.UbicacionesUnicas | src/EquiposList.jsx:135 | 'Todos' first, then the distinct non-empty locations in order of first appearance (Texto.DistintosPresentes of the rows' locations): each exactly once, and nothing else |
| Cloudinary.ValidarImagen | src/utils/cloudinary.js:88-108 | Valid if and only if the MIME type is allowed and the size is within the limit; a bad type reports the type error before any size error |
| Cloudinary.LimiteInclusivo | src/utils/cloudinary.js:99-100 | An image of exactly the limit passes and one byte more fails; the default limit is 5 MB |
| Cloudinary.SubirMultiplesImagenes | src/utils/cloudinary.js:51-80 | One result per file, in order, failures included; progress is reported once per successful upload, in increasing order, and never for a failed one |
| SubidaFotos.FotosSubidas | src/SubidaFotos.jsx:30-52 | At most one photo per valid file, each with an empty caption |
| SubidaFotos.FotosSubidasSonExitosas | src/SubidaFotos.jsx:30-52 | The batch adds exactly one photo per successful upload, in selection order, carrying that upload's url and id, an empty caption and the file name; a failed upload adds nothing |
| SubidaFotos.FotosSubidasVacias | src/SubidaFotos.jsx:30-52 | A batch adds no photo if and only if every upload failed |
| SubidaFotos.SepararValidos | src/SubidaFotos.jsx:15-23 | Keeps exactly the files that pass the type and size checks, in order; the alerts are exactly the rejected files' names, in order |
| SubidaFotos.SubirValidos | src/SubidaFotos.jsx:30-52 | The new photos are the successful uploads; the progress counter stops at the last success; the alerts are exactly the failed files' names, in order |
| SubidaFotos.NombresSiSonFiltrar | src/SubidaFotos.jsx:15-23 | The alert names a loop collects are the names of exactly the files its test selects, in order |
| SubidaFotos.NombresSiMiembros | src/SubidaFotos.jsx:30-52 | A name is alerted if and only if it names a file the test selects |
| SubidaFotos.SelectorFotos.constructor | src/SubidaFotos.jsx:4-7 | Starts from the existing photos with progress at zero |
| SubidaFotos.SelectorFotos.SeleccionarArchivos | src/SubidaFotos.jsx:9-63 | Appends the successful uploads of the valid files to the photo list and alerts every rejected file |
| SubidaFotos.SelectorFotos.EliminarFoto | src/SubidaFotos.jsx:65-69 | Removes exactly the photo at the index; the others keep their order |
| SubidaFotos.SelectorFotos.ActualizarDescripcion | src/SubidaFotos.jsx:71-76 | Changes only the caption of that photo |
| DashboardMantenimientos.RangoPrioridad | src/DashboardMantenimientos.jsx:41-47 | The four known priorities rank 1 to 4 from most urgent; any other text ranks 5 |
| DashboardMantenimientos.Debidos | src/DashboardMantenimientos.jsx:36-48 | The outstanding tickets are a permutation of the filtered outstanding ones |
| DashboardMantenimientos.DebidosSonLosPendientes | src/DashboardMantenimientos.jsx:36-38 | A ticket is listed as outstanding if and only if it has parts ordered and is not in the 'Taller Salida' state; the total is their count |
| DashboardMantenimientos.DebidosPorPrioridad | src/DashboardMantenimientos.jsx:39-48 | Outstanding tickets come most urgent first |
| DashboardMantenimientos.EstadisticasDe | src/DashboardMantenimientos.jsx:68-80 | Each state count is the number of tickets in that state, each kind count the number of tickets of that kind, all bounded by the total; the outstanding total is the length of the outstanding list |
| DashboardMantenimientos.EstadisticasAlAgregar | src/DashboardMantenimientos.jsx:68-80 | Adding one ticket raises the total, its own state's count and its own kind's count by one and leaves every other count unchanged |
| DashboardMantenimientos.DebidosNoSalidos | src/DashboardMantenimientos.jsx:36-38 | No ticket is both outstanding and in the 'Taller Salida' state, so the two totals share no ticket |
| DashboardMantenimientos.Redondear | src/DashboardMantenimientos.jsx:87-93 | Gives the integer nearest to the quotient, halves rounded up |
| DashboardMantenimientos.RedondearExacto | src/DashboardMantenimientos.jsx:87-93 | An exact quotient is returned unchanged |
| DashboardMantenimientos.TiempoPromedio | src/DashboardMantenimientos.jsx:83-95 | 0 without dated tickets; otherwise the rounded mean downtime of the tickets with both dates |
| DashboardMantenimientos.ConTiempos | src/DashboardMantenimientos.jsx:83-85 | Exactly the tickets with both dates are kept |
| DashboardMantenimientos.ConTiemposEnOrden | src/DashboardMantenimientos.jsx:83-85 | The dated tickets in list order, each exactly once |
| DashboardMantenimientos.PromedioIgnoraSinTiempo | src/DashboardMantenimientos.jsx:83-85 | Tickets missing a date do not move the mean, on either side of the list |
| DashboardMantenimientos.PromedioDeIguales | src/DashboardMantenimientos.jsx:86-95 | When every dated ticket was down d days, the mean is d |
| DashboardMantenimientos.DiasEnTaller | src/DashboardMantenimientos.jsx:112-116 | Whole days from workshop entry to release, or to now if not yet released |
| DashboardMantenimientos.DiasEnTallerReloj | src/DashboardMantenimientos.jsx:112-116 | A released ticket's days do not depend on the clock, and no ticket's days go down as time passes |
| Dashboard.ContarPorClave | src/Dashboard.jsx:36-40 | The dictionary holds the preset keys, then each new key in first-seen order, each with its number of occurrences |
| Dashboard.TotalCuenta | src/Dashboard.jsx:33-40 | The counts of a dictionary add up to the number of keys counted |
| Dashboard.TotalEsSuma | src/Dashboard.jsx:36-40 | The counts add up to the occurrences of the dictionary's keys |
| Dashboard.OrdenarCuenta | src/Dashboard.jsx:75-78 | The sorted table has one row per distinct key, with its exact count |
| Dashboard.OrdenadoPorCantidad | src/Dashboard.jsx:76 | Table rows come in non-increasing count order |
| Dashboard.PermutarConteos | src/Dashboard.jsx:76-78 | Reordering a dictionary keeps its keys distinct, its counts exact and every key present |
| Dashboard.CargarEstadisticas | src/Dashboard.jsx:20-83 | The location and type tables are exact tables of the rows; the three state counts are the occurrences of those states; the total is the number of rows |
| Dashboard.EstadosInicialesPrimero | src/Dashboard.jsx:48-56 | The three preset states keep the first three places whatever states occur |
| Dashboard.EstadosReportados | src/Dashboard.jsx:53-61 | The three state counts never exceed the fleet size, and they add up to it when every state is one the dialog offers |
| Dashboard.SinDatoSeCuentaAparte | src/Dashboard.jsx:38 | An equipment with no location and no type is counted under 'Sin ubicación' and 'Sin tipo' |
| ListaMantenimientos.Filtrados | src/ListaMantenimientos.jsx:51-67 | The result holds exactly the tickets that pass all five filters |
| ListaMantenimientos.FiltradosEnOrden | src/ListaMantenimientos.jsx:51-67 | The listed tickets keep the list's order: the list with exactly the tickets failing a filter taken out |
| ListaMantenimientos.FiltrosInicialesNoFiltran | src/ListaMantenimientos.jsx:7-11 | The initial filters list every ticket |
| ListaMantenimientos.FiltroPedido | src/ListaMantenimientos.jsx:54-56 | 'Si' lists a ticket if and only if it has parts ordered; 'No' if and only if it does not |
| ListaMantenimientos.BusquedaEnCualquierCampo | src/ListaMantenimientos.jsx:59-64 | A search hit on any of the four fields lists the ticket |
| ListaMantenimientos.TiempoParada | src/ListaMantenimientos.jsx:84-92 | No downtime without a failure date; otherwise whole days from the failure to release or now |
| ListaMantenimientos.TiempoParadaEsDiasParada | src/ListaMantenimientos.jsx:84-92 | For a released ticket, the list's downtime equals the dashboard's |
| ListaMantenimientos.TotalesDe | src/ListaMantenimientos.jsx:103-106 | Each state total is the number of tickets in that state, bounded by the list size; the outstanding total counts the outstanding tickets |
| ListaMantenimientos.TotalesComoDashboard | src/ListaMantenimientos.jsx:103-106 | The list and the dashboard agree on every total of the same tickets |
| NuevoMantenimiento.FormularioInicial | src/NuevoMantenimiento.jsx:10-22 | A new form is corrective, medium priority, waiting, entering the workshop today, with no parts ordered and no equipment |
| NuevoMantenimiento.EquiposFiltrados | src/NuevoMantenimiento.jsx:148-156 | A blank search keeps every equipment; otherwise only those whose code or name contains the search |
| NuevoMantenimiento.EquiposFiltradosEnOrden | src/NuevoMantenimiento.jsx:148-156 | The matches keep the list's order; a blank search keeps every position, any other exactly the matching ones |
| NuevoMantenimiento.InspeccionesTallerTalCual | src/NuevoMantenimiento.jsx:72-82 | As written: only that equipment's inspections whose kind is the text 'Entrada a Taller' |
| NuevoMantenimiento.NingunaInspeccionDeLaAppSeOfrece | src/NuevoMantenimiento.jsx:78 | No inspection stored by the inspection form is ever offered |
| NuevoMantenimiento.SeleccionTrasCarga | src/NuevoMantenimiento.jsx:84-86 | A single loaded inspection is selected automatically; otherwise the selection stays |
| NuevoMantenimiento.TallerNoSeAutoselecciona | src/NuevoMantenimiento.jsx:78-86 | A concrete workshop inspection from the inspection form is not selected automatically |
| NuevoMantenimiento.InspeccionesTaller | src/NuevoMantenimiento.jsx:72-82 | Corrected: exactly that equipment's inspections stored with the workshop code |
| NuevoMantenimiento.AutoseleccionCorregida | src/NuevoMantenimiento.jsx:84-86 | With the code matched, the equipment's single workshop inspection is selected automatically |
| NuevoMantenimiento.Validar | src/NuevoMantenimiento.jsx:175-195 | Each error is reported exactly when its check fails and every earlier check passed; no error exactly when all pass |
| NuevoMantenimiento.DatosDe | src/NuevoMantenimiento.jsx:201-215 | The saved row trims the texts; the inspection and the two dates are null exactly when empty and otherwise the form's own value; the notice is kept only for corrective tickets |
| NuevoMantenimiento.DatosValidados | src/NuevoMantenimiento.jsx:192-207 | A validated row names an equipment and has a non-empty trimmed description |
| NuevoMantenimiento.NumerosValidados | src/NuevoMantenimiento.jsx:182-206 | A validated corrective ticket stores a non-empty notice; a validated preventive one stores a non-empty order |
| NuevoMantenimiento.Payload | src/NuevoMantenimiento.jsx:123-132 | The notification quotes the notice for corrective work and the order otherwise |
| NuevoMantenimiento.EnviarEmail | src/NuevoMantenimiento.jsx:109-146 | Nothing is posted without a configured address; success if and only if posted and answered ok |
| NuevoMantenimiento.CodigoEquipo | src/NuevoMantenimiento.jsx:199 | The code of the equipment with that id, or none if no such equipment exists |
| NuevoMantenimiento.NumeroEnEmail | src/NuevoMantenimiento.jsx:239-246 | The notification of a validated corrective or preventive ticket always quotes a number |
| NuevoMantenimiento.Guardar | src/NuevoMantenimiento.jsx:173-260 | Invalid forms write nothing; an edit only updates; a new ticket is inserted and, only after a successful insert into the workshop with a configured address, emailed and marked |
| NuevoPedidoCompra.Aplicar | src/NuevoPedidoCompra.jsx:33-37 | Only the named field of the item changes |
| NuevoPedidoCompra.AplicarSucesivo | src/NuevoPedidoCompra.jsx:33-37 | A later edit of a field overrides an earlier one; edits of different fields commute |
| NuevoPedidoCompra.FormularioPedido.constructor | src/NuevoPedidoCompra.jsx:5-14 | A new request holds one empty item |
| NuevoPedidoCompra.FormularioPedido.PuedeEliminar | src/NuevoPedidoCompra.jsx:199 | The delete button shows if and only if there is more than one item |
| NuevoPedidoCompra.FormularioPedido.AgregarItem | src/NuevoPedidoCompra.jsx:17-26 | Appends one empty item |
| NuevoPedidoCompra.FormularioPedido.EliminarItem | src/NuevoPedidoCompra.jsx:28-31 | Removes exactly the item at the index; at least one item stays whenever the button was shown |
| NuevoPedidoCompra.FormularioPedido.ActualizarItem | src/NuevoPedidoCompra.jsx:33-37 | Applies the edit to that item and leaves every other item unchanged |
| NuevoPedidoCompra.NumeroConsecutivo | src/NuevoPedidoCompra.jsx:39-66 | '01/year' for the first request of a year; otherwise the previous number plus one, zero-padded; 'NaN' when the previous number cannot be read |
| NuevoPedidoCompra.PrefijoDeNumero | src/NuevoPedidoCompra.jsx:55-57 | The prefix of every produced number reads back as its sequence number |
| NuevoPedidoCompra.PrimerNumero | src/NuevoPedidoCompra.jsx:58-64 | The first number of a year, and the fallback after a failed query, reads back as 1 |
| NuevoPedidoCompra.NumeroSiguiente | src/NuevoPedidoCompra.jsx:53-57 | After any number whose prefix reads as n, the next number's prefix reads as n + 1 |
| NuevoPedidoCompra.ValidarPedido | src/NuevoPedidoCompra.jsx:70-83 | Fails if and only if no item has a description, or a described item has no positive quantity |
| NuevoPedidoCompra.Numerar | src/NuevoPedidoCompra.jsx:105-114 | The kept items, in order, each with its position counting from 1 |
| NuevoPedidoCompra.NumeracionConsecutiva | src/NuevoPedidoCompra.jsx:105-108 | The item numbers run from 1 to n with no gap and no repeat |
| NuevoPedidoCompra.GuardarPedido | src/NuevoPedidoCompra.jsx:68-121 | An invalid request writes nothing; a valid one inserts the request, then its described items numbered from 1 if the insert succeeded |
| NuevoPedidoCompra.ItemsGuardados | src/NuevoPedidoCompra.jsx:105-114 | The saved items are exactly the described items, in order and with their fields |
| NuevaInspeccion.ValorAsignar | src/NuevaInspeccion.jsx:91-93 | After an answer the key holds it and every other key keeps its value |
| NuevaInspeccion.ClavesAsignar | src/NuevaInspeccion.jsx:91-93 | A new key goes at the end; an existing key keeps its place |
| NuevaInspeccion.ChecklistInicial | src/NuevaInspeccion.jsx:63-67 | One unanswered key per distinct template id, in template order |
| NuevaInspeccion.BuscarPlantilla | src/NuevaInspeccion.jsx:98 | The template with that id, or none if no template has it |
| NuevaInspeccion.EsCritico | src/NuevaInspeccion.jsx:101 | Critical if and only if a template with that id exists and is marked critical |
| NuevaInspeccion.CalcularSemaforo | src/NuevaInspeccion.jsx:96-123 | rojo if and only if a critical item failed; amarillo and verde each exactly under their threshold conditions |
| NuevaInspeccion.UnProblemaNoCriticoEsVerde | src/NuevaInspeccion.jsx:117-122 | A single non-critical problem keeps the light green |
| NuevaInspeccion.SemaforoPermutacion | src/NuevaInspeccion.jsx:97-108 | The light depends on which answers were given, not on their order |
| NuevaInspeccion.PuedeGuardar | src/NuevaInspeccion.jsx:226-230 | Saving is allowed exactly when kind, hour meter and location are filled in and every critical item is answered |
| NuevaInspeccion.NoCriticoNoBloquea | src/NuevaInspeccion.jsx:228-229 | Answering or clearing a non-critical item never changes whether saving is allowed |
| NuevaInspeccion.EnvioRelacionado | src/NuevaInspeccion.jsx:143 | Only a recepción with a chosen envío links to it |
| NuevaInspeccion.FilasChecklist | src/NuevaInspeccion.jsx:151-161 | One row per key, in order, recording its answer and its template's data; fails if and only if some key has no template |
| NuevaInspeccion.SemaforoGuardadoReproducible | src/NuevaInspeccion.jsx:129-161 | The light stored on the inspection can be recomputed from its saved checklist rows |
| NuevaInspeccion.CambiosDe | src/NuevaInspeccion.jsx:199-205 | The equipment gets the computed light, and a location only for an envío |
| NuevaInspeccion.GuardarInspeccion | src/NuevaInspeccion.jsx:125-220 | The inspection is inserted first; a failed insert stops there, a missing template stops after it; the checklist rows are the template's rows for the new id; photos are written, with the new id, if and only if the checklist succeeded and there are photos; the equipment is updated with the form's changes if and only if every earlier step succeeded; the reported failure names the first step that failed |
| NuevaInspeccion.GuardarFilas | src/NuevaInspeccion.jsx:150-212 | After the insert, the exact list of writes for each outcome: checklist only on its failure; checklist and photos on a photo failure; checklist, photos if any, then the equipment update otherwise, with the failure of the step that stopped |
| NuevaInspeccion.AplicarCambios | src/NuevaInspeccion.jsx:207-210 | The update replaces the light, sets the location only when one is given, and leaves every other column unchanged |
| NuevaInspeccion.SoloEnvioMueveEquipo | src/NuevaInspeccion.jsx:199-205 | Only an envío moves the equipment; every kind sets its light |
| NuevaInspeccion.EnviosOfrecidos | src/NuevaInspeccion.jsx:70-83 | As written: exactly that equipment's envíos whose own link is null |
| NuevaInspeccion.EnviosOfrecidosEnOrden | src/NuevaInspeccion.jsx:70-83 | The offered envíos keep the rows' order, each matching row exactly once |
| NuevaInspeccion.EnviosOfrecidosSonTodos | src/NuevaInspeccion.jsx:77 | When only recepciones carry links, every envío of the equipment is offered |
| NuevaInspeccion.EnvioRecibidoSigueOfrecido | src/NuevaInspeccion.jsx:77 | A concrete envío already answered by a recepción is still offered |
| NuevaInspeccion.EnviosSinRecepcion | src/NuevaInspeccion.jsx:77 | Corrected: exactly the equipment's envíos that no other row links to |
| NuevaInspeccion.EnvioRecibidoYaNoSeOfrece | src/NuevaInspeccion.jsx:77 | Under the corrected list, the received envío of the same example is dropped and the other one is still offered |
| HistorialInspecciones.InspectoresUnicos | src/HistorialInspecciones.jsx:71-73 | 'Todos' first, then the distinct non-empty inspector names in order of first appearance (Texto.DistintosPresentes of the rows' inspectors): each exactly once, and nothing else |
| HistorialInspecciones.Filtradas | src/HistorialInspecciones.jsx:76-94 | The result holds exactly the inspections that pass the four filters |
| HistorialInspecciones.FiltradasEnOrden | src/HistorialInspecciones.jsx:76-94 | The filtered list is the history in its own order with exactly the inspections that fail a filter taken out |
| HistorialInspecciones.FiltrosInicialesNoFiltran | src/HistorialInspecciones.jsx:12-15 | The initial filters show the whole history |
| HistorialInspecciones.RangoInclusivo | src/HistorialInspecciones.jsx:86-91 | The date range includes both ends: the first millisecond of the start day and the last of the end day |
| HistorialInspecciones.FiltrosSeCombinan | src/HistorialInspecciones.jsx:76-94 | Filtering by every filter at once equals filtering by each in turn |
| HistorialInspecciones.EtiquetaTipo | src/HistorialInspecciones.jsx:96-105 | Each known kind code gets its label; any other text is shown as it is |
| HistorialInspecciones.EtiquetasDistintas | src/HistorialInspecciones.jsx:96-105 | Distinct kinds have distinct labels, and no label is a stored code |
| HistorialInspecciones.Categorias | src/HistorialInspecciones.jsx:131 | The distinct values of the items' categories: every category exactly once, and nothing else |
| HistorialInspecciones.CategoriasEnOrden | src/HistorialInspecciones.jsx:131 | The sections come in order of each category's first item: position i of the category list is kept exactly when its category did not occur before |
| HistorialInspecciones.ItemsDeCategoria | src/HistorialInspecciones.jsx:249 | Exactly the items of that category |
| HistorialInspecciones.ItemsDeCategoriaEnOrden | src/HistorialInspecciones.jsx:249 | A section lists exactly its category's items, in checklist order |
| HistorialInspecciones.UnaSeccionPorItem | src/HistorialInspecciones.jsx:249 | Each item is shown once, under its own category and under no other |
| HistorialInspecciones.LimpiarFiltros | src/HistorialInspecciones.jsx:535-542 | The clear button shows if and only if the filters differ from the initial ones, and clearing shows everything again |
| EstadoOperativoModal.ActualizacionDe | src/EstadoOperativoModal.jsx:38-42 | Writes the chosen state and the trimmed observation, or null if the observation is blank |
| EstadoOperativoModal.Aplicada | src/EstadoOperativoModal.jsx:37-43 | The update changes the two operational columns and nothing else |
| EstadoOperativoModal.EstadoInicial | src/EstadoOperativoModal.jsx:5-6 | The dialog opens on the stored state, 'operativo' when there is none, and the stored observation or an empty one |
| EstadoOperativoModal.Dialogo.constructor | src/EstadoOperativoModal.jsx:4-7 | Opens with the initial fields and not saving |
| EstadoOperativoModal.Dialogo.ObservacionVisible | src/EstadoOperativoModal.jsx:134 | The observation box shows for every state except 'operativo' |
| EstadoOperativoModal.Dialogo.ObservacionObligatoria | src/EstadoOperativoModal.jsx:138-140 | The observation is required if and only if the state is 'operativo con restricciones' |
| EstadoOperativoModal.Dialogo.GuardarDeshabilitado | src/EstadoOperativoModal.jsx:173 | Save is disabled while saving, or when a required observation is blank |
| EstadoOperativoModal.Dialogo.Seleccionar | src/EstadoOperativoModal.jsx:100 | A state button selects its state and leaves the text alone |
| EstadoOperativoModal.Dialogo.Escribir | src/EstadoOperativoModal.jsx:144 | Typing sets the observation and leaves the state alone |
| EstadoOperativoModal.Dialogo.PulsarGuardar | src/EstadoOperativoModal.jsx:33-57 | A disabled button writes nothing; otherwise the update is written, and the dialog closes if and only if it succeeded |
| EstadoOperativoModal.SoloRestriccionesExigeTexto | src/EstadoOperativoModal.jsx:173 | Only 'operativo con restricciones' needs a text; 'fuera de servicio' saves without one |
| EstadoOperativoModal.RestriccionesGuardanObservacion | src/EstadoOperativoModal.jsx:173 | A saved restriction always carries an observation |
| EstadoOperativoModal.ReabrirMuestraLoGuardado | src/EstadoOperativoModal.jsx:5-6 | Reopening after a save shows the saved state and the trimmed text |
| ListaPedidosCompra.Filtrados | src/ListaPedidosCompra.jsx:87-90 | 'Todos' keeps every request; any other value keeps exactly the requests in that state |
| ListaPedidosCompra.FiltradosEnOrden | src/ListaPedidosCompra.jsx:87-90 | The shown requests keep the list's order; 'Todos' keeps every position, any other value exactly those in that state |
| ListaPedidosCompra.FiltrosParticionan | src/ListaPedidosCompra.jsx:87-90 | The two state filters split the list between them |
| ListaPedidosCompra.EstiloEstado | src/ListaPedidosCompra.jsx:55-61 | 'recibido' has its own style; every other state is drawn as 'en proceso' |
| ListaPedidosCompra.Etiqueta | src/ListaPedidosCompra.jsx:63-69 | Each of the two states gets its label; an unknown state is shown as it is |
| ListaPedidosCompra.EstadosDistinguibles | src/ListaPedidosCompra.jsx:55-69 | The two states look different and read differently, and no label is a stored state |
| ListaPedidosCompra.CambiarEstado | src/ListaPedidosCompra.jsx:38-53 | A status change writes the new state and nothing else |
| ListaPedidosCompra.CambioMueveDeFiltro | src/ListaPedidosCompra.jsx:38-53 | After a change, the request shows under its new state and not under the other |
| ListaPedidosCompra.ItemsParaPdf | src/ListaPedidosCompra.jsx:71-84 | A request with no items shows the message and gets no PDF; otherwise all its items go to the PDF |
| ListaPedidosCompra.VistaPrevia | src/ListaPedidosCompra.jsx:346-360 | No preview without items; otherwise the first three items, plus a 'más' line exactly when there are more than three |
| ListaPedidosCompra.VistaPreviaCuentaTodo | src/ListaPedidosCompra.jsx:346-360 | The listed items and the 'más' number together account for every item |
| PdfGenerador.DiasEnObra | src/utils/pdfGenerator.js:180-182 | Whole days from the envío to the recepción, rounded down |
| PdfGenerador.DiasEnObraNoNegativos | src/utils/pdfGenerator.js:180-182 | A later recepción is never a negative number of days, and under a day is 0 |
| PdfGenerador.TextoDiferencia | src/utils/pdfGenerator.js:186-195 | '+n hrs' for an increase, a reset message for a decrease, 'sin cambio' when equal |
| PdfGenerador.TextoHorometro | src/utils/pdfGenerator.js:184-195 | The same three cases, on the parsed readings |
| PdfGenerador.DiferenciaLegible | src/utils/pdfGenerator.js:189-190 | The number after '+' reads back as the difference |
| PdfGenerador.HorometroLegible | src/utils/pdfGenerator.js:184-190 | The report states the hours worked on site exactly |
| PdfGenerador.LecturaIlegibleEsCero | src/utils/pdfGenerator.js:184-185 | An unreadable reading counts as 0 |
| PdfGenerador.Valor | src/utils/pdfGenerator.js:133-135 | Known answers score 1 to 3; anything else scores 0 |
| PdfGenerador.CompararEstados | src/utils/pdfGenerator.js:132-140 | Improved, worse or equal exactly as the scores compare |
| PdfGenerador.CompararIntercambiado | src/utils/pdfGenerator.js:137-139 | Swapping the two answers swaps improved and worse, and keeps equal |
| PdfGenerador.CompararOrden | src/utils/pdfGenerator.js:132-140 | fail < warning < ok; equal only for the same answer; an unknown state is below every answer |
| PdfGenerador.Etiqueta | src/utils/pdfGenerator.js:322-323 | 'OK', 'Aviso', and 'Falla' for everything else, including no answer |
| PdfGenerador.PrimerIndice | src/utils/pdfGenerator.js:320 | The first item with that name, or -1 when none has it |
| PdfGenerador.ItemEnvio | src/utils/pdfGenerator.js:320 | The first envío item with that name, or none |
| PdfGenerador.Comparar | src/utils/pdfGenerator.js:318-336 | A row pairs the recepción item with the envío item of the same name; '-' when there is none |
| PdfGenerador.TablaComparativa | src/utils/pdfGenerator.js:296-336 | One row per recepción item of the category, in order |
| PdfGenerador.ChecklistComparativo | src/utils/pdfGenerator.js:288-380 | The comparison tables appear if and only if the report is comparative (an envío with a non-empty checklist), one per category in order of first appearance |
| PdfGenerador.CadaItemSeCompara | src/utils/pdfGenerator.js:296-336 | In a comparative report every reception item is compared in some table |
| PdfGenerador.EtiquetaTipoPdf | src/utils/pdfGenerator.js:120-129 | `getTipoLabel`: each known kind code gets its plain name; any other text is shown as it is |
| PdfGenerador.EtiquetasPdfDistintas | src/utils/pdfGenerator.js:120-129 | Every kind has its own report name, and no name is a stored code |
| PdfGenerador.MismaTablaSinIcono | src/utils/pdfGenerator.js:120-129 | The report's label of a known code is the history screen's label without its icon and the space; unknown text is shown as it is by both |
| PdfGenerador.PrimeroGana | src/utils/pdfGenerator.js:320 | With a repeated name, the row uses the first envío item |
| Dominio.SemaforoIdaVuelta | src/NuevaInspeccion.jsx:112-122 | Reading a stored light back gives the light that was written |
| Dominio.RespuestaIdaVuelta | src/NuevaInspeccion.jsx:395-397 | Reading a stored answer back gives the answer that was written |
| Dominio.TipoIdaVuelta | src/NuevaInspeccion.jsx:324-328 | Reading a stored kind back gives the kind that was written |
| Dominio.PrioridadIdaVuelta | src/DashboardMantenimientos.jsx:41-46 | Reading a stored priority back gives the priority that was written |
| Dominio.EstadoTicketIdaVuelta | src/DashboardMantenimientos.jsx:69-73 | Reading a stored ticket state back gives the state that was written |
| Texto.Recortar | src/NuevoMantenimiento.jsx:182 | `trim`: no whitespace remains at either end; empty if and only if the text was all whitespace |
| Texto.RecortarIdempotente | src/NuevoMantenimiento.jsx:207 | Trimming twice is trimming once |
| Texto.NuloSiVacio | src/EstadoOperativoModal.jsx:41 | `x \|\| null`: null if and only if empty |
| Texto.ODefecto | src/EstadoOperativoModal.jsx:5-6 | `x \|\| d`: the default for null or empty, otherwise the value |
| Texto.NuloSiVacioIdaVuelta | src/EstadoOperativoModal.jsx:41 | Storing `x \|\| null` and reading it with `\|\| ''` gives the text back |
| Texto.Contiene | src/EquiposList.jsx:71 | `includes`: true if and only if the query is a prefix of some suffix of the text; the empty query is always found, and a found query is no longer than the text |
| Texto.BusquedaVaciaCoincide | src/EquiposList.jsx:71-72 | An empty search matches every field |
| Texto.ParsearEnteroATexto | src/NuevoPedidoCompra.jsx:55 | `parseInt` reads back any printed integer followed by a non-digit |
| Texto.RellenarDos | src/NuevoPedidoCompra.jsx:56 | `padStart(2, '0')`: at least two characters, the original text at the end, zeros before it |
| Texto.RellenadoSeLee | src/NuevoPedidoCompra.jsx:56 | A padded number reads back as itself and contains no '/' |
| Texto.AntesDe | src/NuevoPedidoCompra.jsx:55 | `split(c)[0]`: the longest prefix without `c`, ending at the first `c` |
| Texto.Presentes | src/HistorialInspecciones.jsx:72 | `filter(Boolean)`: exactly the non-empty values |
| Texto.DistintosPresentes | src/HistorialInspecciones.jsx:71-73 | `[...new Set(xs.filter(Boolean))]`: no repeats, only non-empty values that occur and every one of them, in order of first appearance |
| Texto.PresentesEnOrden | src/HistorialInspecciones.jsx:72 | `filter(Boolean)` keeps the non-empty values in their order, each exactly once |
| Secuencias.FiltrarEnOrden | src/HistorialInspecciones.jsx:76-94 | `Array.prototype.filter`: the result is the input in its order with exactly the rejected elements taken out |
| Secuencias.DistintosEnOrden | src/HistorialInspecciones.jsx:131 | `[...new Set(xs)]`: the input in its order keeping exactly the first occurrence of each value |
| Fechas.DiasEntre | src/EquiposList.jsx:48 | The floor of the difference in whole days |
| Fechas.DiasEntreMonotono | src/DashboardMantenimientos.jsx:112-116 | A later end is never fewer days from the same start |
| Orden.Ordenar | src/EquiposList.jsx:90-120 | Sorting returns a permutation of the input |
| Orden.OrdenarOrdenado | src/EquiposList.jsx:90-120 | Under a total preorder, the sorted sequence is ordered |
| Orden.CompararTexto | src/EquiposList.jsx:93 | Returns -1, 0 or 1, and 0 if and only if the texts are equal |

## Left out

- Database queries, Supabase auth, Cloudinary uploads and the Power Automate webhook are not modelled as calls. Their outcomes are parameters: rows, success flags and new ids.
- Rendering, styles, alerts, console logs, loading spinners and navigation are not modelled. A state is kept only where a rule reads it, such as `guardando` in the dialog.
- `localeCompare` is modelled as code-point lexicographic order. Collation rules are not modelled.
- Time zones and date-string parsing are not modelled. Every date is an integer millisecond timestamp, and "now" is a parameter.
- `parseInt` is modelled for leading blanks, an optional sign and decimal digits. Hexadecimal prefixes, the radix argument and `parseFloat` are not modelled.
- `Object.entries` is modelled as insertion order. Engines put integer-like keys first; keys are location and state names, and that case is not modelled. Prototype keys such as `constructor` are not modelled either.
- Percentages and `toFixed` in the dashboards are not modelled, because they are display arithmetic on floating point.
- TiempoPromedio: only tickets with both dates take part, so the NaN a malformed date string would produce is not modelled.
- EquiposList.OrdenUbicacion: requires that no location is the empty text or the literal 'ZZZ'. The comparator is not a total preorder on those, so no order is promised for them.
- NuevoPedidoCompra.FormularioPedido.ActualizarItem: requires an index within the list. The source throws on such an index.
- SubidaFotos.SelectorFotos.ActualizarDescripcion: requires an index within the list. The source throws on such an index.
- NuevaInspeccion.EnviosOfrecidos: the `order('fecha_hora', { ascending: false })` of the query is not modelled; the rows are taken in the order the database returns them, and that order is kept.
- Texto.MinusculaChar: `toLowerCase` is modelled on A–Z and the Latin-1 capitals U+00C0..U+00DE except U+00D7. Other scripts, and special cases such as final sigma or the dotted capital I, are left unchanged, so a search over such text may differ from the browser's.
- SubidaFotos.SelectorFotos.ActualizarDescripcion and NuevoPedidoCompra.FormularioPedido.ActualizarItem: the source copies the list shallowly and then writes into the shared element object. The model replaces the element by a new value. No other holder of the old list reads it afterwards, so nothing observable differs, but the aliasing itself is not modelled.
- SubidaFotos.FotosSubidas: the `preview` object URL of each photo is not modelled; it is a browser handle used only for display.
- `equiposFiltrados` in src/NuevaInspeccion.jsx:222-224 (the equipment combo search of the inspection form) is not modelled. It is the same text search NuevoMantenimiento.EquiposFiltrados states.
- The copy of `getTipoLabel` at src/utils/pdfGenerator.js:81-89 is identical to the one at lines 120-129, which PdfGenerador.EtiquetaTipoPdf models.
- The non-comparative checklist table of the report (its rows, colours and critical marks) is not modelled; PdfGenerador.ChecklistComparativo states only that it is not a comparative one.
- `compararEstados` in src/utils/pdfGenerator.js is never called by the report itself. It is modelled for its own contract.
- The jsPDF page layout, `comprimirImagen` (a canvas resize), `pdfPedidoCompra.js`, the login screen and the router are not part of this model.
- Dashboard.CargarEstadisticas: reads the columns `ubicacion` and `tipo` as the source does. The other screens read `ubicacion_actual` and `tipo_equipo`. The schema is not visible here, so this is recorded as written without a finding.
- Colours and emojis are kept only where a lemma distinguishes states by them (the purchase request states).

## Findings

| source | as written | input that shows it | evidently intended | confidence | as-written member | corrected member |
|---|---|---|---|---|---|---|
| src/NuevaInspeccion.jsx:77 | The envío choices are the equipment's envíos whose own `inspeccion_envio_relacionada` is null. Only recepciones ever set that column (src/NuevaInspeccion.jsx:143), so the test keeps every envío. | An envío `e1` and a recepción linked to `e1` for the same equipment: `e1` is still offered for a new recepción. | Offer the envíos that no recepción links to yet. | not executed | NuevaInspeccion.EnvioRecibidoSigueOfrecido | NuevaInspeccion.EnvioRecibidoYaNoSeOfrece |
| src/NuevoMantenimiento.jsx:78 | The ticket form looks for inspections whose `tipo_inspeccion` is the label 'Entrada a Taller'. The inspection form stores the code 'taller' (src/NuevaInspeccion.jsx:327). | An equipment whose only inspection is a workshop entry saved by the inspection form: the list is empty and nothing is selected automatically. | Match the stored code 'taller'. | not executed | NuevoMantenimiento.TallerNoSeAutoselecciona | NuevoMantenimiento.AutoseleccionCorregida |
