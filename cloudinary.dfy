/** The image helpers in `utils/cloudinary.js`: the type and size check done
    before any upload, and the batch upload that keeps one result per file. The
    upload itself is a network call; its outcome for each file is an input. */
module Cloudinary {
  import opened Opciones
  import opened Texto
  import opened Secuencias

  /** What the browser's `File` tells the validator. */
  datatype Archivo = Archivo(nombre: string, tipo: string, tamano: nat)

  datatype Validacion = Valida | Invalida(error: string)

  const TIPOS_PERMITIDOS: seq<string> := ["image/jpeg", "image/jpg", "image/png", "image/webp"]
  const ERROR_TIPO := "Solo se permiten imágenes JPG, PNG o WEBP"
  const BYTES_POR_MB: nat := 1024 * 1024

  function ErrorTamano(maxSizeMB: nat): string {
    "La imagen no debe superar " + NatATexto(maxSizeMB) + "MB"
  }

  /** `validarImagen(file, maxSizeMB = 5)`: valid exactly when the MIME type is one
      of the four allowed and the size does not exceed the limit. The type is
      checked first, so a file wrong on both counts reports the type. */
  function ValidarImagen(f: Archivo, maxSizeMB: nat := 5): (v: Validacion)
    ensures v == Valida <==> f.tipo in TIPOS_PERMITIDOS && f.tamano <= maxSizeMB * BYTES_POR_MB
    ensures f.tipo !in TIPOS_PERMITIDOS ==> v == Invalida(ERROR_TIPO)
    ensures f.tipo in TIPOS_PERMITIDOS && f.tamano > maxSizeMB * BYTES_POR_MB ==> v == Invalida(ErrorTamano(maxSizeMB))
  {
    if f.tipo !in TIPOS_PERMITIDOS then Invalida(ERROR_TIPO)
    else if f.tamano > maxSizeMB * BYTES_POR_MB then Invalida(ErrorTamano(maxSizeMB))
    else Valida
  }

  /** The limit is inclusive: an allowed image of exactly the limit passes and one
      byte more fails. Without a limit argument it is 5 MB. */
  lemma LimiteInclusivo(f: Archivo, maxSizeMB: nat)
    requires f.tipo in TIPOS_PERMITIDOS
    ensures ValidarImagen(f.(tamano := maxSizeMB * BYTES_POR_MB), maxSizeMB) == Valida
    ensures ValidarImagen(f.(tamano := maxSizeMB * BYTES_POR_MB + 1), maxSizeMB).Invalida?
    ensures ValidarImagen(f) == ValidarImagen(f, 5)
  {
  }

  /** What `subirImagenCloudinary` returns on success. */
  datatype Subida = Subida(url: string, public_id: string, width: int, height: int)

  /** One entry of the batch result: the upload with the file's name, or the
      error marker the loop pushes when the upload throws. */
  datatype ResultadoSubida =
    | Subido(subida: Subida, nombre: string)
    | ErrorSubida(nombre: string, mensaje: string)

  function ResultadoDe(a: Archivo, respuesta: Result<Subida, string>): ResultadoSubida {
    match respuesta
    case Ok(s) => Subido(s, a.nombre)
    case Err(m) => ErrorSubida(a.nombre, m)
  }

  /** The progress calls after the first `i` uploads: each names a finished
      successful upload, they increase, and none of those uploads is missing. */
  predicate ProgresoHasta(progreso: seq<(nat, nat)>, respuestas: seq<Result<Subida, string>>, i: nat)
    requires i <= |respuestas|
  {
    (forall k :: 0 <= k < |progreso| ==>
       progreso[k].1 == |respuestas| && 1 <= progreso[k].0 <= i && respuestas[progreso[k].0 - 1].Ok?)
    && (forall k, l :: 0 <= k < l < |progreso| ==> progreso[k].0 < progreso[l].0)
    && (forall j :: 0 <= j < i && respuestas[j].Ok? ==> (j + 1, |respuestas|) in progreso)
  }

  lemma ProgresoConExito(progreso: seq<(nat, nat)>, respuestas: seq<Result<Subida, string>>, i: nat)
    requires i < |respuestas| && respuestas[i].Ok? && ProgresoHasta(progreso, respuestas, i)
    ensures ProgresoHasta(progreso + [(i + 1, |respuestas|)], respuestas, i + 1)
  {
    var n := |respuestas|;
    var q := progreso + [(i + 1, n)];
    forall k | 0 <= k < |q|
      ensures q[k].1 == n && 1 <= q[k].0 <= i + 1 && respuestas[q[k].0 - 1].Ok?
    {
      if k < |progreso| {
        assert q[k] == progreso[k];
      }
    }
    forall k, l | 0 <= k < l < |q|
      ensures q[k].0 < q[l].0
    {
      assert q[k] == progreso[k];
      if l < |progreso| {
        assert q[l] == progreso[l];
      }
    }
    forall j | 0 <= j < i + 1 && respuestas[j].Ok?
      ensures (j + 1, n) in q
    {
      if j < i {
        assert (j + 1, n) in progreso;
      } else {
        assert q[|progreso|] == (i + 1, n);
      }
    }
  }

  lemma ProgresoConFallo(progreso: seq<(nat, nat)>, respuestas: seq<Result<Subida, string>>, i: nat)
    requires i < |respuestas| && respuestas[i].Err? && ProgresoHasta(progreso, respuestas, i)
    ensures ProgresoHasta(progreso, respuestas, i + 1)
  {
    forall j | 0 <= j < i + 1 && respuestas[j].Ok?
      ensures (j + 1, |respuestas|) in progreso
    {
      assert j < i;
    }
  }

  /** `subirMultiplesImagenes`: `respuestas[i]` is how the upload of `archivos[i]`
      ends. Every file yields exactly one result, in input order, a failure
      included; the progress callback receives `(i + 1, n)` once per successful
      upload, in increasing order, and never for a failed one. */
  method SubirMultiplesImagenes(archivos: seq<Archivo>, respuestas: seq<Result<Subida, string>>)
    returns (resultados: seq<ResultadoSubida>, progreso: seq<(nat, nat)>)
    requires |respuestas| == |archivos|
    ensures |resultados| == |archivos|
    ensures forall i :: 0 <= i < |archivos| ==> resultados[i] == ResultadoDe(archivos[i], respuestas[i])
    ensures forall i :: 0 <= i < |archivos| ==> resultados[i].nombre == archivos[i].nombre
    ensures forall k :: 0 <= k < |progreso| ==>
              progreso[k].1 == |archivos| && 1 <= progreso[k].0 <= |archivos| && respuestas[progreso[k].0 - 1].Ok?
    ensures forall k, l :: 0 <= k < l < |progreso| ==> progreso[k].0 < progreso[l].0
    ensures forall i :: 0 <= i < |archivos| && respuestas[i].Ok? ==> (i + 1, |archivos|) in progreso
  {
    resultados := [];
    progreso := [];
    var i := 0;
    while i < |archivos|
      invariant 0 <= i <= |archivos|
      invariant |resultados| == i
      invariant forall j :: 0 <= j < i ==> resultados[j] == ResultadoDe(archivos[j], respuestas[j])
      invariant ProgresoHasta(progreso, respuestas, i)
    {
      if respuestas[i].Ok? {
        ProgresoConExito(progreso, respuestas, i);
        resultados := resultados + [Subido(respuestas[i].value, archivos[i].nombre)];
        progreso := progreso + [(i + 1, |archivos|)];
      } else {
        ProgresoConFallo(progreso, respuestas, i);
        resultados := resultados + [ErrorSubida(archivos[i].nombre, respuestas[i].error)];
      }
      i := i + 1;
    }
  }
}
