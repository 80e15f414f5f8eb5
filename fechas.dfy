/** Dates are integer millisecond timestamps, as `new Date(...)` yields once parsed;
    parsing date strings and time zones are not modelled. */
module Fechas {

  /** `1000 * 60 * 60 * 24`, the divisor every screen uses for whole days. */
  const MS_POR_DIA: int := 1000 * 60 * 60 * 24

  /** `Math.floor((fin - inicio) / MS_POR_DIA)`: the whole days elapsed, rounded
      toward minus infinity (Dafny's `/` floors for a positive divisor). */
  function DiasEntre(fin: int, inicio: int): (d: int)
    ensures d * MS_POR_DIA <= fin - inicio < (d + 1) * MS_POR_DIA
  {
    (fin - inicio) / MS_POR_DIA
  }

  /** Later ends are never fewer whole days from the same start. */
  lemma DiasEntreMonotono(fin: int, finPosterior: int, inicio: int)
    requires fin <= finPosterior
    ensures DiasEntre(fin, inicio) <= DiasEntre(finPosterior, inicio)
  {
    MenorPorFactor(DiasEntre(fin, inicio), DiasEntre(finPosterior, inicio) + 1, MS_POR_DIA);
  }

  /** Dividing both sides of a strict inequality by a positive factor. */
  lemma MenorPorFactor(x: int, y: int, m: int)
    requires m > 0
    ensures x * m < y * m ==> x < y
  {
    assert x * m - y * m == (x - y) * m;
    assert x >= y ==> (x - y) * m >= 0;
  }
}
