/** Thread pool versus one thread per task: both drivers split the data
    array into numTarefas contiguous blocks, hand each block to a task that
    folds it with a weight into its own slot of `resultados`, and add up
    the slots once every task has finished. The pool only decides which
    thread runs a task; since tasks write disjoint slots and the sum is
    taken after all of them end, running them one by one in index order gives
    what either driver computes. */
module ThreadPool {
  import opened JavaInt
  import opened Reduce
  import opened Partition
  import opened Data
  import SomaParalela

  /** What one element adds to a task's sum: the value itself, and twice
      the value again when it is even. `dados[i] * 2` is a Java `int`
      product, so it wraps at 32 bits before it is added to the `long` sum.
      Java's `x % 2 == 0` (truncating remainder) holds exactly for the even
      x, as Dafny's Euclidean `x % 2 == 0` does. For a Java int x it stays
      within ±2^32, whether or not the product wraps. */
  function Peso(x: int): (r: int)
    ensures IsInt(x) ==> -0x1_0000_0000 <= r <= 0x1_0000_0000
  {
    if x % 2 == 0 then x + Wrap32(x * 2) else x
  }

  /** The weighting as the program describes it: even values three times,
      odd values once. */
  function PesoPretendido(x: int): int
  {
    if x % 2 == 0 then 3 * x else x
  }

  /** Away from the 32-bit edge (|x| < 2^30, which includes the generated
      values 0 .. 99) the product does not wrap and even values count
      three times. */
  lemma PesoTriplicaPares(x: int)
    requires -0x4000_0000 <= x < 0x4000_0000
    ensures Peso(x) == PesoPretendido(x)
  {
  }

  lemma {:induction false} SomaPonderadaSemEstouro(s: seq<int>)
    requires forall k :: 0 <= k < |s| ==> -0x4000_0000 <= s[k] < 0x4000_0000
    ensures SumBy(Peso, s) == SumBy(PesoPretendido, s)
    decreases |s|
  {
    if s != [] {
      var s' := s[..|s| - 1];
      assert forall k :: 0 <= k < |s'| ==> s'[k] == s[k];
      SomaPonderadaSemEstouro(s');
      PesoTriplicaPares(s[|s| - 1]);
    }
  }

  /** Each task sum is a `long`: for any array of Java ints the weighted sum
      stays in the `long` range, so the model's unbounded sum is the value
      the program computes. */
  lemma SomaPonderadaCabeEmLong(s: seq<int>)
    requires |s| <= IntMax
    requires forall k :: 0 <= k < |s| ==> IsInt(s[k])
    ensures IsLong(SumBy(Peso, s))
  {
    SumByBounds(Peso, s, -0x1_0000_0000, 0x1_0000_0000);
  }

  /** `TarefaProcessamento`: folds dados[inicio..fim) with Peso
      into resultados[id]. */
  class TarefaProcessamento {
    const id: int
    const dados: array<int>
    const inicio: int
    const fim: int
    const resultados: array<int>

    constructor (id: int, dados: array<int>, inicio: int, fim: int, resultados: array<int>)
      ensures this.id == id && this.dados == dados && this.inicio == inicio
      ensures this.fim == fim && this.resultados == resultados
    {
      this.id := id;
      this.dados := dados;
      this.inicio := inicio;
      this.fim := fim;
      this.resultados := resultados;
    }

    /** Stores the weighted sum of the block in slot id; the data array
        and every other slot keep their values. */
    method Run()
      requires inicio < fim ==> 0 <= inicio && fim <= dados.Length
      requires 0 <= id < resultados.Length
      modifies resultados
      ensures resultados[..] == old(resultados[..])[id := Span(Peso, old(dados[..]), inicio, fim)]
      ensures resultados != dados ==> dados[..] == old(dados[..])
    {
      var soma := 0;
      var i := inicio;
      while i < fim
        invariant inicio <= i
        invariant inicio < i ==> i <= fim
        invariant soma == Span(Peso, dados[..], inicio, i)
        invariant dados[..] == old(dados[..]) && resultados[..] == old(resultados[..])
      {
        SumByExtend(Peso, dados[..], inicio, i);
        assert dados[..][inicio..i + 1] == dados[inicio..i + 1];
        soma := soma + dados[i];
        if dados[i] % 2 == 0 {
          soma := soma + Wrap32(dados[i] * 2);
        }
        i := i + 1;
      }
      assert soma == Span(Peso, dados[..], inicio, fim);
      resultados[id] := soma;
    }
  }

  /** The data fill in `main`: element i is i % 100. */
  method PreencherDados(tamanhoArray: nat) returns (dados: array<int>)
    ensures fresh(dados)
    ensures dados[..] == Generated(tamanhoArray)
  {
    dados := new int[tamanhoArray];
    var i := 0;
    while i < tamanhoArray
      invariant 0 <= i <= tamanhoArray
      invariant forall j :: 0 <= j < i ==> dados[j] == j % 100
    {
      dados[i] := i % 100;
      i := i + 1;
    }
  }

  /** `executarComPool`: a zero task count divides by zero and a pool of
      fewer than one thread is refused by the executor, so both are
      excluded. The total is the weighted sum of the whole array, whatever
      numTarefas and poolSize are. */
  method ExecutarComPool(dados: array<int>, numTarefas: int, poolSize: int) returns (total: int)
    requires numTarefas >= 1
    requires poolSize >= 1
    ensures total == SumBy(Peso, dados[..])
  {
    var resultados := new int[numTarefas];
    var tamanhoBloco := dados.Length / numTarefas;
    ghost var s := dados[..];

    var i := 0;
    while i < numTarefas
      invariant 0 <= i <= numTarefas
      invariant dados[..] == s
      invariant resultados[..i] == BlockTotals(Peso, s, numTarefas, i)
    {
      var inicio := i * tamanhoBloco;
      var fim := if i == numTarefas - 1 then dados.Length else (i + 1) * tamanhoBloco;
      assert inicio == BlockStart(|s|, numTarefas, i) && fim == BlockEnd(|s|, numTarefas, i);
      BlockTotalsStep(Peso, s, numTarefas, i);
      ghost var antes := resultados[..];
      var tarefa := new TarefaProcessamento(i, dados, inicio, fim, resultados);
      tarefa.Run();
      FillSlot(antes, resultados[..], BlockTotals(Peso, s, numTarefas, i), i, Span(Peso, s, inicio, fim));
      i := i + 1;
    }

    total := SomaParalela.SomaSequencial(resultados);
    assert resultados[..] == resultados[..numTarefas];
    ParallelEqualsSequential(Peso, s, numTarefas);
  }

  /** `executarThreadPorTarefa`: the same partition and aggregation, with
      one thread per task. */
  method ExecutarThreadPorTarefa(dados: array<int>, numTarefas: int) returns (total: int)
    requires numTarefas >= 1
    ensures total == SumBy(Peso, dados[..])
  {
    var resultados := new int[numTarefas];
    var tamanhoBloco := dados.Length / numTarefas;
    ghost var s := dados[..];

    var i := 0;
    while i < numTarefas
      invariant 0 <= i <= numTarefas
      invariant dados[..] == s
      invariant resultados[..i] == BlockTotals(Peso, s, numTarefas, i)
    {
      var inicio := i * tamanhoBloco;
      var fim := if i == numTarefas - 1 then dados.Length else (i + 1) * tamanhoBloco;
      assert inicio == BlockStart(|s|, numTarefas, i) && fim == BlockEnd(|s|, numTarefas, i);
      BlockTotalsStep(Peso, s, numTarefas, i);
      ghost var antes := resultados[..];
      var tarefa := new TarefaProcessamento(i, dados, inicio, fim, resultados);
      tarefa.Run();
      FillSlot(antes, resultados[..], BlockTotals(Peso, s, numTarefas, i), i, Span(Peso, s, inicio, fim));
      i := i + 1;
    }

    total := SomaParalela.SomaSequencial(resultados);
    assert resultados[..] == resultados[..numTarefas];
    ParallelEqualsSequential(Peso, s, numTarefas);
  }

  /** `main` times both drivers on the same data and task count: they
      return the same total, and on the generated data that total counts
      even values three times and odd values once. */
  method CompararDrivers(tamanhoArray: nat, numTarefas: int, poolSize: int) returns (totalPool: int, totalThreads: int)
    requires numTarefas >= 1
    requires poolSize >= 1
    ensures totalPool == totalThreads
    ensures totalPool == SumBy(PesoPretendido, Generated(tamanhoArray))
  {
    var dados := PreencherDados(tamanhoArray);
    totalPool := ExecutarComPool(dados, numTarefas, poolSize);
    totalThreads := ExecutarThreadPorTarefa(dados, numTarefas);
    GeneratedInRange(tamanhoArray);
    SomaPonderadaSemEstouro(dados[..]);
  }
}
