/** Parallel vector sum (map-reduce): the array is split into numThreads
    contiguous blocks, each worker folds its block into its own slot of
    the partial-results array, and after every worker has finished the
    slots are added up. The workers write disjoint slots and the reduce
    runs after all of them are joined, so running them one after another
    in index order computes what the threaded program computes. */
module SomaParalela {
  import opened JavaInt
  import opened Reduce
  import opened Partition
  import opened Data

  /** The worker `SomadorParcial`: sums vetor[inicio..fim) into
      resultadoParcial[indiceResultado]. */
  class SomadorParcial {
    const vetor: array<int>
    const inicio: int
    const fim: int
    const resultadoParcial: array<int>
    const indiceResultado: int

    constructor (vetor: array<int>, inicio: int, fim: int, resultadoParcial: array<int>, indiceResultado: int)
      ensures this.vetor == vetor && this.inicio == inicio && this.fim == fim
      ensures this.resultadoParcial == resultadoParcial && this.indiceResultado == indiceResultado
    {
      this.vetor := vetor;
      this.inicio := inicio;
      this.fim := fim;
      this.resultadoParcial := resultadoParcial;
      this.indiceResultado := indiceResultado;
    }

    /** Stores the sum of the block in its slot and changes no other slot.
        The sum is read before the one write, so it is the sum of the
        block as it was on entry. */
    method Run()
      requires inicio < fim ==> 0 <= inicio && fim <= vetor.Length
      requires 0 <= indiceResultado < resultadoParcial.Length
      modifies resultadoParcial
      ensures resultadoParcial[..] == old(resultadoParcial[..])[indiceResultado := Span(Id, old(vetor[..]), inicio, fim)]
    {
      var soma := 0;
      var i := inicio;
      while i < fim
        invariant inicio <= i
        invariant inicio < i ==> i <= fim
        invariant soma == Span(Id, vetor[..], inicio, i)
        invariant vetor[..] == old(vetor[..]) && resultadoParcial[..] == old(resultadoParcial[..])
      {
        SumByExtend(Id, vetor[..], inicio, i);
        assert vetor[..][inicio..i + 1] == vetor[inicio..i + 1];
        soma := soma + vetor[i];
        i := i + 1;
      }
      assert soma == Span(Id, vetor[..], inicio, fim);
      resultadoParcial[indiceResultado] := soma;
    }
  }

  /** `gerarVetor`: a fresh array whose element i is i % 100. */
  method GerarVetor(tamanho: nat) returns (vetor: array<int>)
    ensures fresh(vetor)
    ensures vetor[..] == Generated(tamanho)
  {
    vetor := new int[tamanho];
    var i := 0;
    while i < tamanho
      invariant 0 <= i <= tamanho
      invariant forall j :: 0 <= j < i ==> vetor[j] == j % 100
    {
      vetor[i] := i % 100;
      i := i + 1;
    }
  }

  /** `somaSequencial`: the reference sum, element by element. The same
      for-each loop adds up the result slots at the end of `somaParalela`
      and of both ThreadPool drivers, so they all call this one. */
  method SomaSequencial(vetor: array<int>) returns (soma: int)
    ensures soma == Sum(vetor[..])
  {
    soma := 0;
    var i := 0;
    while i < vetor.Length
      invariant 0 <= i <= vetor.Length
      invariant soma == Sum(vetor[..i])
    {
      SumByExtend(Id, vetor[..], 0, i);
      assert vetor[..][0..i] == vetor[..i] && vetor[..][0..i + 1] == vetor[..i + 1];
      soma := soma + vetor[i];
      i := i + 1;
    }
    assert vetor[..i] == vetor[..];
  }

  /** `somaParalela`: partition, run one worker per block, reduce. A zero
      thread count is a division by zero in the source, so it is excluded.
      The result is the sequential sum for every thread count, which is
      the "correct?" column the program prints. */
  method SomaParalela(vetor: array<int>, numThreads: int) returns (somaTotal: int)
    requires numThreads >= 1
    ensures somaTotal == Sum(vetor[..])
  {
    var somasParciais := new int[numThreads];
    var tamanhoParticao := vetor.Length / numThreads;
    ghost var s := vetor[..];

    var i := 0;
    while i < numThreads
      invariant 0 <= i <= numThreads
      invariant vetor[..] == s
      invariant somasParciais[..i] == BlockTotals(Id, s, numThreads, i)
    {
      var inicio := i * tamanhoParticao;
      var fim := if i == numThreads - 1 then vetor.Length else (i + 1) * tamanhoParticao;
      assert inicio == BlockStart(|s|, numThreads, i) && fim == BlockEnd(|s|, numThreads, i);
      BlockTotalsStep(Id, s, numThreads, i);
      ghost var antes := somasParciais[..];
      var worker := new SomadorParcial(vetor, inicio, fim, somasParciais, i);
      worker.Run();
      FillSlot(antes, somasParciais[..], BlockTotals(Id, s, numThreads, i), i, Span(Id, s, inicio, fim));
      i := i + 1;
    }

    // The reduce loop is the same left-to-right fold as somaSequencial.
    somaTotal := SomaSequencial(somasParciais);
    assert somasParciais[..] == somasParciais[..numThreads];
    ParallelEqualsSequential(Id, s, numThreads);
  }

  /** The sums are kept in Java `long`: for any array of Java ints (at most
      2^31 - 1 of them) the sum stays in the `long` range, so the model's
      unbounded sum is the value the program computes. */
  lemma SumFitsInLong(s: seq<int>)
    requires |s| <= IntMax
    requires forall k :: 0 <= k < |s| ==> IsInt(s[k])
    ensures IsLong(Sum(s))
  {
    SumByBounds(Id, s, IntMin, IntMax);
  }

  /** For the generated data the reference sum is between 0 and 99 times
      the length. */
  method SomaSequencialGerada(tamanho: nat) returns (soma: int)
    ensures 0 <= soma <= 99 * tamanho
  {
    var vetor := GerarVetor(tamanho);
    soma := SomaSequencial(vetor);
    GeneratedSumBounds(tamanho);
  }
}
