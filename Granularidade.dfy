/** Lock granularity: three workers add numIncrementos to the shared
    counter `contador` under a lock, one unit per lock (fine), one block of
    tamanhoBloco units per lock plus the remainder (medium), or everything
    in one final lock (coarse). Every addition happens inside the lock, so
    the counter ends the same as if the workers ran one after another. */
module Granularidade {
  import opened JavaInt
  import opened Reduce
  import opened Arith

  /** The three worker kinds `executarGranularidade` chooses between. */
  datatype Tipo = Fino | Bloco | Final

  /** The block size the medium worker actually flushes: a tamanhoBloco of
      1 or less makes `acumulador >= tamanhoBloco` true after every step,
      so each step is flushed on its own. */
  function BlocoEfetivo(tamanhoBloco: int): (b: nat)
    ensures b >= 1
    ensures tamanhoBloco >= 1 ==> b == tamanhoBloco
  {
    if tamanhoBloco >= 1 then tamanhoBloco else 1
  }

  /** k copies of x. */
  function Repetir(x: int, k: nat): (r: seq<int>)
    ensures |r| == k
    ensures forall j :: 0 <= j < k ==> r[j] == x
  {
    if k == 0 then [] else Repetir(x, k - 1) + [x]
  }

  /** The amounts the medium worker adds under the lock, in order: one
      full block per in-loop flush, then the remainder when it is positive. */
  function FlushesBloco(numIncrementos: int, tamanhoBloco: int): seq<int>
  {
    var n, b := Iterations(numIncrementos), BlocoEfetivo(tamanhoBloco);
    Repetir(b, n / b) + (if n % b > 0 then [n % b] else [])
  }

  lemma {:induction false} SumRepetir(x: int, k: nat)
    ensures Sum(Repetir(x, k)) == k * x
  {
    if k > 0 {
      SumRepetir(x, k - 1);
      SumByConcat(Id, Repetir(x, k - 1), [x]);
    }
  }

  /** q full blocks of b followed by a positive remainder r < b add up to
      q * b + r. */
  lemma BlocosMaisRestoSoma(b: nat, q: nat, r: nat)
    requires b >= 1 && r < b
    ensures Sum(Repetir(b, q) + (if r > 0 then [r] else [])) == q * b + r
  {
    var tail := if r > 0 then [r] else [];
    SumRepetir(b, q);
    SumByConcat(Id, Repetir(b, q), tail);
    assert Sum(tail) == r;
  }

  lemma BlocosMaisRestoTermos(b: nat, q: nat, r: nat)
    requires b >= 1 && r < b
    ensures var f := Repetir(b, q) + (if r > 0 then [r] else []);
      |f| == q + (if r > 0 then 1 else 0) &&
      (forall j :: 0 <= j < |f| ==> 0 < f[j] <= b) &&
      (forall j :: 0 <= j < q ==> f[j] == b)
  {
  }

  /** n steps with block b: the flushes add up to n, each lies in (0, b],
      the first n / b are full blocks, and at most one remainder follows. */
  lemma BlocosDeN(n: nat, b: nat)
    requires b >= 1
    ensures var f := Repetir(b, n / b) + (if n % b > 0 then [n % b] else []);
      Sum(f) == n &&
      |f| == n / b + (if n % b > 0 then 1 else 0) &&
      (forall j :: 0 <= j < |f| ==> 0 < f[j] <= b) &&
      (forall j :: 0 <= j < n / b ==> f[j] == b)
  {
    var q, r := n / b, n % b;
    assert n == q * b + r;
    BlocosMaisRestoSoma(b, q, r);
    BlocosMaisRestoTermos(b, q, r);
  }

  /** The medium worker's flushes add up to exactly numIncrementos (none
      for a count of zero or less), each one is positive and at most one
      block, and every flush but a final remainder is a full block. */
  lemma FlushesBlocoTotal(numIncrementos: int, tamanhoBloco: int)
    ensures Sum(FlushesBloco(numIncrementos, tamanhoBloco)) == Iterations(numIncrementos)
    ensures |FlushesBloco(numIncrementos, tamanhoBloco)| == Iterations(numIncrementos) / BlocoEfetivo(tamanhoBloco) +
      (if Iterations(numIncrementos) % BlocoEfetivo(tamanhoBloco) > 0 then 1 else 0)
    ensures forall j :: 0 <= j < |FlushesBloco(numIncrementos, tamanhoBloco)| ==>
      0 < FlushesBloco(numIncrementos, tamanhoBloco)[j] <= BlocoEfetivo(tamanhoBloco)
    ensures forall j :: 0 <= j < Iterations(numIncrementos) / BlocoEfetivo(tamanhoBloco) ==>
      FlushesBloco(numIncrementos, tamanhoBloco)[j] == BlocoEfetivo(tamanhoBloco)
  {
    BlocosDeN(Iterations(numIncrementos), BlocoEfetivo(tamanhoBloco));
  }

  /** The static counter `contador` the three workers share. */
  class Contador {
    var contador: int

    constructor ()
      ensures contador == 0
    {
      contador := 0;
    }

    /** `IncrementoFinoRunnable.run`: one locked `contador++` per step. */
    method IncrementoFino(numIncrementos: int)
      modifies this
      ensures contador == old(contador) + Iterations(numIncrementos)
    {
      var i := 0;
      while i < numIncrementos
        invariant 0 <= i <= Iterations(numIncrementos)
        invariant contador == old(contador) + i
      {
        contador := contador + 1;
        i := i + 1;
      }
    }

    /** `IncrementoBlocoRunnable.run`: a local accumulator, flushed into the
        counter whenever it reaches tamanhoBloco and once more at the end
        when something is left. `flushes` records what each locked
        addition added. */
    method IncrementoBloco(numIncrementos: int, tamanhoBloco: int) returns (ghost flushes: seq<int>)
      modifies this
      ensures flushes == FlushesBloco(numIncrementos, tamanhoBloco)
      ensures contador == old(contador) + Sum(flushes)
      ensures contador == old(contador) + Iterations(numIncrementos)
    {
      ghost var b := BlocoEfetivo(tamanhoBloco);
      flushes := [];
      var acumulador := 0;
      var i := 0;
      while i < numIncrementos
        invariant 0 <= i <= Iterations(numIncrementos)
        invariant 0 <= acumulador < b
        invariant i == |flushes| * b + acumulador
        invariant flushes == Repetir(b, |flushes|)
        invariant contador == old(contador) + |flushes| * b
      {
        acumulador := acumulador + 1;
        if acumulador >= tamanhoBloco {
          contador := contador + acumulador;
          flushes := flushes + [acumulador];
          acumulador := 0;
        }
        i := i + 1;
      }
      DivModUnique(Iterations(numIncrementos), b, |flushes|, acumulador);
      SumRepetir(b, |flushes|);
      if acumulador > 0 {
        contador := contador + acumulador;
        SumByConcat(Id, flushes, [acumulador]);
        flushes := flushes + [acumulador];
      }
      FlushesBlocoTotal(numIncrementos, tamanhoBloco);
    }

    /** `IncrementoFinalRunnable.run`: count locally, then one locked
        addition of the whole count. */
    method IncrementoFinal(numIncrementos: int)
      modifies this
      ensures contador == old(contador) + Iterations(numIncrementos)
    {
      var acumulador := 0;
      var i := 0;
      while i < numIncrementos
        invariant 0 <= i <= Iterations(numIncrementos)
        invariant acumulador == i
      {
        acumulador := acumulador + 1;
        i := i + 1;
      }
      contador := contador + acumulador;
    }

    /** `executarGranularidade`: reset the counter, then numThreads workers
        of the chosen kind. Whatever the kind, the counter ends at
        numThreads times the per-worker count. */
    method ExecutarGranularidade(numThreads: nat, incrementos: int, tipo: Tipo, tamanhoBloco: int)
      modifies this
      ensures contador == numThreads * Iterations(incrementos)
    {
      contador := 0;
      ghost var porThread := Iterations(incrementos);
      var i := 0;
      while i < numThreads
        invariant 0 <= i <= numThreads
        invariant contador == i * porThread
      {
        match tipo {
          case Fino => IncrementoFino(incrementos);
          case Bloco => var _ := IncrementoBloco(incrementos, tamanhoBloco);
          case Final => IncrementoFinal(incrementos);
        }
        assert contador == i * porThread + porThread == (i + 1) * porThread;
        i := i + 1;
      }
    }
  }
}
