/** The photo picker of an inspection (`SubidaFotos.jsx`): its list of uploaded
    photos and its progress counter are state that the handlers update. Upload
    outcomes are inputs; alerts are returned as the names they mention. */
module SubidaFotos {
  import opened Opciones
  import opened Secuencias
  import opened Cloudinary

  /** A photo in the list: the uploaded image, its caption and the file name. */
  datatype Foto = Foto(url: string, public_id: string, descripcion: string, nombre: string)

  datatype Progreso = Progreso(actual: nat, total: nat)

  /** The picker accepts images up to 10 MB. */
  const LIMITE_MB: nat := 10

  predicate EsValido(a: Archivo) {
    ValidarImagen(a, LIMITE_MB) == Valida
  }

  /** A selected file paired with how its upload would end. */
  type Seleccion = (Archivo, Result<Subida, string>)

  /** The photos a batch adds: the successful uploads in selection order, each
      with an empty caption. */
  function FotosSubidas(validos: seq<Seleccion>): (r: seq<Foto>)
    ensures |r| <= |validos|
    ensures forall k :: 0 <= k < |r| ==> r[k].descripcion == []
  {
    if validos == [] then []
    else
      var (a, resp) := validos[|validos| - 1];
      FotosSubidas(validos[..|validos| - 1])
      + (if resp.Ok? then [Foto(resp.value.url, resp.value.public_id, "", a.nombre)] else [])
  }

  predicate SubidaOk(s: Seleccion) {
    s.1.Ok?
  }

  /** The photo a successful upload adds. */
  function FotoDe(s: Seleccion): (f: Foto)
    requires SubidaOk(s)
    ensures f.url == s.1.value.url && f.public_id == s.1.value.public_id
    ensures f.descripcion == [] && f.nombre == s.0.nombre
  {
    Foto(s.1.value.url, s.1.value.public_id, "", s.0.nombre)
  }

  /** The batch adds one photo per successful upload, in selection order, and
      nothing for a failed one. */
  lemma {:induction false} FotosSubidasSonExitosas(validos: seq<Seleccion>)
    ensures var ok := Filtrar(validos, SubidaOk);
            |FotosSubidas(validos)| == |ok| &&
            forall k :: 0 <= k < |ok| ==> FotosSubidas(validos)[k] == FotoDe(ok[k])
    decreases |validos|
  {
    if validos != [] {
      var n := |validos| - 1;
      FotosSubidasSonExitosas(validos[..n]);
      assert validos == validos[..n] + [validos[n]];
      FiltrarConcatenado(validos[..n], [validos[n]], SubidaOk);
      assert Filtrar([validos[n]], SubidaOk) == if SubidaOk(validos[n]) then [validos[n]] else [];
    }
  }

  /** No upload succeeded exactly when the batch adds no photo. */
  lemma {:induction false} FotosSubidasVacias(validos: seq<Seleccion>)
    ensures FotosSubidas(validos) == [] <==> forall k :: 0 <= k < |validos| ==> validos[k].1.Err?
    decreases |validos|
  {
    if validos != [] {
      FotosSubidasVacias(validos[..|validos| - 1]);
    }
  }

  /** A chosen file that passes the type and size checks. */
  predicate SeleccionValida(s: Seleccion) {
    EsValido(s.0)
  }

  predicate SeleccionInvalida(s: Seleccion) {
    !EsValido(s.0)
  }

  predicate SubidaFallida(s: Seleccion) {
    s.1.Err?
  }

  /** The file names of some selected files, in order. */
  function Nombres(ss: seq<Seleccion>): (ns: seq<string>)
    ensures |ns| == |ss| && forall k :: 0 <= k < |ss| ==> ns[k] == ss[k].0.nombre
  {
    seq(|ss|, k requires 0 <= k < |ss| => ss[k].0.nombre)
  }

  /** The names of the files `p` selects, in order, as the loops collect their
      alerts. */
  function NombresSi(ss: seq<Seleccion>, p: Seleccion -> bool): (ns: seq<string>)
    ensures |ns| <= |ss|
  {
    if ss == [] then []
    else NombresSi(ss[..|ss| - 1], p) + (if p(ss[|ss| - 1]) then [ss[|ss| - 1].0.nombre] else [])
  }

  lemma NombresSiPaso(ss: seq<Seleccion>, i: nat, p: Seleccion -> bool)
    requires i < |ss|
    ensures NombresSi(ss[..i + 1], p) == NombresSi(ss[..i], p) + (if p(ss[i]) then [ss[i].0.nombre] else [])
  {
    assert ss[..i + 1][..i] == ss[..i];
  }

  /** The collected names are exactly the names of the selected files, in order. */
  lemma {:induction false} NombresSiSonFiltrar(ss: seq<Seleccion>, p: Seleccion -> bool)
    ensures NombresSi(ss, p) == Nombres(Filtrar(ss, p))
    decreases |ss|
  {
    if ss != [] {
      var n := |ss| - 1;
      NombresSiSonFiltrar(ss[..n], p);
      assert ss == ss[..n] + [ss[n]];
      FiltrarConcatenado(ss[..n], [ss[n]], p);
      var a := Filtrar(ss[..n], p);
      var b := Filtrar([ss[n]], p);
      assert b == if p(ss[n]) then [ss[n]] else [];
      assert forall k :: 0 <= k < |a| + |b| ==> (a + b)[k] == if k < |a| then a[k] else b[k - |a|];
    }
  }

  /** A name is collected exactly when it names a file that `p` selects. */
  lemma NombresSiMiembros(ss: seq<Seleccion>, p: Seleccion -> bool)
    ensures forall k :: 0 <= k < |ss| && p(ss[k]) ==> ss[k].0.nombre in NombresSi(ss, p)
    ensures forall a :: a in NombresSi(ss, p) ==> exists k :: 0 <= k < |ss| && p(ss[k]) && ss[k].0.nombre == a
  {
    NombresSiSonFiltrar(ss, p);
    var f := Filtrar(ss, p);
    NombresDeTodos(ss, f, p);
    NombresDeAlguno(ss, f, p);
  }

  lemma NombresDeTodos(ss: seq<Seleccion>, f: seq<Seleccion>, p: Seleccion -> bool)
    requires forall k :: 0 <= k < |ss| && p(ss[k]) ==> ss[k] in f
    ensures forall k :: 0 <= k < |ss| && p(ss[k]) ==> ss[k].0.nombre in Nombres(f)
  {
    var ns := Nombres(f);
    forall k | 0 <= k < |ss| && p(ss[k])
      ensures ss[k].0.nombre in ns
    {
      var m :| 0 <= m < |f| && f[m] == ss[k];
      assert ns[m] == ss[k].0.nombre;
    }
  }

  lemma NombresDeAlguno(ss: seq<Seleccion>, f: seq<Seleccion>, p: Seleccion -> bool)
    requires forall m :: 0 <= m < |f| ==> p(f[m]) && f[m] in ss
    ensures forall a :: a in Nombres(f) ==> exists k :: 0 <= k < |ss| && p(ss[k]) && ss[k].0.nombre == a
  {
    var ns := Nombres(f);
    forall a | a in ns
      ensures exists k :: 0 <= k < |ss| && p(ss[k]) && ss[k].0.nombre == a
    {
      var m :| 0 <= m < |ns| && ns[m] == a;
      var k :| 0 <= k < |ss| && ss[k] == f[m];
      assert p(ss[k]) && ss[k].0.nombre == a;
    }
  }

  /** The validation loop of `handleFileSelect`: the files passing
      `validarImagen(file, 10)` in selection order, and one alert per other file,
      naming it, in selection order. */
  method SepararValidos(seleccion: seq<Seleccion>) returns (validos: seq<Seleccion>, alertas: seq<string>)
    ensures validos == Filtrar(seleccion, SeleccionValida)
    ensures alertas == NombresSi(seleccion, SeleccionInvalida)
    ensures forall k :: 0 <= k < |seleccion| && !EsValido(seleccion[k].0) ==> seleccion[k].0.nombre in alertas
  {
    alertas := [];
    validos := [];
    var i := 0;
    while i < |seleccion|
      invariant 0 <= i <= |seleccion|
      invariant validos == Filtrar(seleccion[..i], SeleccionValida)
      invariant alertas == NombresSi(seleccion[..i], SeleccionInvalida)
    {
      PrefijoSiguiente(seleccion, i);
      FiltrarConcatenado(seleccion[..i], [seleccion[i]], SeleccionValida);
      NombresSiPaso(seleccion, i, SeleccionInvalida);
      if EsValido(seleccion[i].0) {
        validos := validos + [seleccion[i]];
      } else {
        alertas := alertas + [seleccion[i].0.nombre];
      }
      i := i + 1;
    }
    assert seleccion[..i] == seleccion;
    NombresSiMiembros(seleccion, SeleccionInvalida);
  }

  /** The upload loop of `handleFileSelect`: the new photos, and where the
      progress counter stops, which is one past the last successful upload (0 if
      none succeeded). Failed uploads are reported and dropped. */
  method SubirValidos(validos: seq<Seleccion>) returns (nuevasFotos: seq<Foto>, actual: nat, alertas: seq<string>)
    ensures nuevasFotos == FotosSubidas(validos)
    ensures actual <= |validos|
    ensures actual == 0 <==> forall k :: 0 <= k < |validos| ==> validos[k].1.Err?
    ensures actual > 0 ==> validos[actual - 1].1.Ok?
    ensures forall k :: actual <= k < |validos| ==> validos[k].1.Err?
    ensures alertas == NombresSi(validos, SubidaFallida)
    ensures forall k :: 0 <= k < |validos| && validos[k].1.Err? ==> validos[k].0.nombre in alertas
  {
    nuevasFotos := [];
    actual := 0;
    alertas := [];
    var j := 0;
    while j < |validos|
      invariant 0 <= j <= |validos|
      invariant nuevasFotos == FotosSubidas(validos[..j])
      invariant actual <= j
      invariant actual == 0 <==> forall k :: 0 <= k < j ==> validos[k].1.Err?
      invariant actual > 0 ==> validos[actual - 1].1.Ok?
      invariant forall k :: actual <= k < j ==> validos[k].1.Err?
      invariant alertas == NombresSi(validos[..j], SubidaFallida)
    {
      var (archivo, resp) := validos[j];
      assert validos[..j + 1][..j] == validos[..j];
      NombresSiPaso(validos, j, SubidaFallida);
      if resp.Ok? {
        nuevasFotos := nuevasFotos + [Foto(resp.value.url, resp.value.public_id, "", archivo.nombre)];
        actual := j + 1;
      } else {
        alertas := alertas + [archivo.nombre];
      }
      j := j + 1;
    }
    assert validos[..j] == validos;
    NombresSiMiembros(validos, SubidaFallida);
  }

  class SelectorFotos {
    var fotos: seq<Foto>
    var progreso: Progreso

    ghost predicate Valid()
      reads this
    {
      progreso.actual <= progreso.total
    }

    /** `useState(fotosExistentes)` and `{ actual: 0, total: 0 }`. */
    constructor (fotosExistentes: seq<Foto>)
      ensures Valid() && fotos == fotosExistentes && progreso == Progreso(0, 0)
    {
      fotos := fotosExistentes;
      progreso := Progreso(0, 0);
    }

    /** `handleFileSelect`: `seleccion[k]` is the k-th chosen file with the outcome
        its upload would have. Invalid files are reported and never uploaded; with
        no valid file nothing changes. Otherwise the list becomes the old one
        followed by the successful uploads, and the counter ends at (one past the
        last success, number of valid files). */
    method SeleccionarArchivos(seleccion: seq<Seleccion>) returns (alertas: seq<string>)
      requires Valid()
      modifies this
      ensures Valid()
      ensures var validos := Filtrar(seleccion, SeleccionValida);
              if validos == [] then
                fotos == old(fotos) && progreso == old(progreso)
              else
                fotos == old(fotos) + FotosSubidas(validos)
                && progreso.total == |validos|
                && (progreso.actual == 0 <==> forall k :: 0 <= k < |validos| ==> validos[k].1.Err?)
                && (progreso.actual > 0 ==> validos[progreso.actual - 1].1.Ok?)
                && (forall k :: progreso.actual <= k < |validos| ==> validos[k].1.Err?)
      ensures var validos := Filtrar(seleccion, SeleccionValida);
              alertas == NombresSi(seleccion, SeleccionInvalida)
                         + (if validos == [] then [] else NombresSi(validos, SubidaFallida))
      ensures forall k :: 0 <= k < |seleccion| && !EsValido(seleccion[k].0) ==> seleccion[k].0.nombre in alertas
    {
      var archivosValidos;
      archivosValidos, alertas := SepararValidos(seleccion);
      if archivosValidos == [] {
        assert alertas + [] == alertas;
        return;
      }
      progreso := Progreso(0, |archivosValidos|);
      var nuevasFotos, actual, fallidas := SubirValidos(archivosValidos);
      progreso := Progreso(actual, |archivosValidos|);
      alertas := alertas + fallidas;
      fotos := fotos + nuevasFotos;
    }

    /** `eliminarFoto(index)`: exactly the photo at `index` goes, the rest keep
        their order; an index past the end removes nothing. */
    method EliminarFoto(index: int)
      requires Valid()
      modifies this
      ensures Valid() && progreso == old(progreso)
      ensures fotos == EliminarEn(old(fotos), index)
    {
      fotos := EliminarEn(fotos, index);
    }

    /** `actualizarDescripcion(index, descripcion)`: only the caption of the photo
        at `index` changes. The source writes through the photo object, so an
        index outside the list throws; the model requires it to be in range. */
    method ActualizarDescripcion(index: nat, descripcion: string)
      requires Valid() && index < |fotos|
      modifies this
      ensures Valid() && progreso == old(progreso)
      ensures |fotos| == |old(fotos)|
      ensures fotos[index] == old(fotos[index]).(descripcion := descripcion)
      ensures forall k :: 0 <= k < |fotos| && k != index ==> fotos[k] == old(fotos[k])
    {
      fotos := fotos[index := fotos[index].(descripcion := descripcion)];
    }
  }
}
