# Sequential core of four Java threading exercises, in Dafny

The repository is a set of Java threading exercises. Everything that really
synchronises threads is done by the JDK: `synchronized`, thread start and
join, and the executor service. This project models the integer work that
the workers and coordinators do around that synchronisation:

- **Parallel vector sum** (`SomaParalela.java`). The vector is filled with
  `i % 100`. It is split into `numThreads` contiguous blocks of
  `length / numThreads` elements, and the last block also takes the
  remainder. Each worker `SomadorParcial` sums its block into its own slot
  of the partial-results array. The slots are then added up, and the
  program checks that result against the sequential sum.
- **Thread pool vs. one thread per task** (`ThreadPool.java`). The blocks
  are split the same way. Each task `TarefaProcessamento` folds its block
  with a weight: every value counts once, and an even value also adds
  `value * 2`. Both drivers then add up the result slots.
- **Lock granularity** (`Granularidade.java`). Three kinds of worker add
  `numIncrementos` to the shared counter `contador`:
  - fine: one locked increment per step;
  - block: a local accumulator flushed every `tamanhoBloco` steps, plus the
    remainder at the end;
  - final: one locked addition at the end.
- **Monte Carlo estimate of pi** (`MonteCarlo.java`). Each worker counts
  its points that land inside the circle. The counts are added up. The
  number formatter `formatarNumero` is modelled exactly.

Every worker writes only its own slot, or performs each addition under the
lock, and every reduce runs after all workers are joined. So the model runs
the workers one after another in index order, then runs the reduce. It
computes what the threaded programs compute.

Layout:

- One module per source file: `SomaParalela`, `ThreadPool`,
  `Granularidade`, `MonteCarlo`.
- Worker classes become Dafny classes with `const` fields and a `Run`
  method. `Run` modifies only the results array.
- Shared modules:
  - `Reduce`: the left-to-right fold `SumBy` and its lemmas.
  - `Partition`: block bounds, exact tiling, and the map-reduce theorem
    `ParallelEqualsSequential`.
  - `Data`: the `i % 100` fill.
  - `JavaInt`: Java's `int` range, 32-bit wrap-around (`Wrap32`) and how
    many times a `for` loop runs (`Iterations`).
  - `Arith`: two nonlinear arithmetic facts.

Integer widths:

- Sums are Java `long`; the model uses unbounded `int`. `SumFitsInLong`
  and `SomaPonderadaCabeEmLong` prove that no `long` sum over an array of
  Java ints can overflow, so the two agree.
- In `ThreadPool`, `dados[i] * 2` is an `int` product. The model wraps it
  at 32 bits (`Peso`). `PesoTriplicaPares` shows that "even values count
  three times" holds whenever |x| < 2^30, which includes all generated data.
- Java's `x % 2 == 0` uses a truncating remainder. It is true exactly for
  even `x`, as Dafny's Euclidean `x % 2 == 0` is.
- The divisions in `formatarNumero` only ever see positive operands, so
  Java's truncating division equals Dafny's.

Randomness and clocks become parameters. The `Random(seed)` stream, the
floating-point circle test and the `System.nanoTime()` seeds are replaced by
`amostras: nat -> nat -> bool`. `amostras(i)(p)` says whether point `p` of
worker `i` lands inside the circle.

## Model

| member | source | states |
|---|---|---|
| `SomaParalela.SomadorParcial.Run` | SomaParalela.java:27-33 | stores the sum of `vetor[inicio..fim)` (0 when the range is empty) in `resultadoParcial[indiceResultado]`, changes no other slot, and uses the block as it was on entry even if the two arrays alias |
| `SomaParalela.GerarVetor` | SomaParalela.java:102-108 | returns a fresh array of length `tamanho` whose element i is `i % 100` |
| `Data.GeneratedInRange` | SomaParalela.java:105 | every generated element lies in [0, 99] |
| `Data.GeneratedSumBounds` | SomaParalela.java:105 | the sum of the generated data lies between 0 and 99 × length |
| `SomaParalela.SomaSequencial` | SomaParalela.java:113-119 | returns the sum of all elements, proved against the recursive `Sum`; the same loop is the reduce of `somaParalela` (lines 150-153) and of both ThreadPool drivers (ThreadPool.java lines 141-144 and 177-180), which call it |
| `SomaParalela.SumFitsInLong` | SomaParalela.java:113-119 | the sum of at most 2^31 − 1 Java ints always fits in a Java `long` |
| `SomaParalela.SomaSequencialGerada` | SomaParalela.java:44-49 | the reference sum of a generated vector is between 0 and 99 × its length |
| `SomaParalela.SomaParalela` | SomaParalela.java:124-156 | for every `numThreads >= 1`, partition, one worker per block and the reduce return exactly the sequential sum (the "correct?" check at line 64) |
| `Partition.BlockBounds` | SomaParalela.java:128-134 | each block `[i*tp, end)` is a well-formed slice of the array, including when `numThreads > length` makes `tp = 0` |
| `Partition.BlocksOrdered` | SomaParalela.java:132-133 | an earlier block ends no later than a later block starts (blocks are disjoint) |
| `Partition.Tiling` | SomaParalela.java:128-134 | the first block starts at 0, the last ends at `length`, and each block ends exactly where the next starts |
| `Partition.ExactCover` | SomaParalela.java:128-134 | a position is in some block if and only if it is in [0, length), and then it is in exactly one block |
| `Partition.BlockTotalsStep` | SomaParalela.java:131-137 | the slot a worker fills for block i is the fold of exactly that block, appended after the slots of blocks 0 .. i-1 |
| `Partition.BlockTotalsAt` | SomaParalela.java:131-137 | once the workers of blocks 0 .. k-1 have run, slot i (for every i < k) holds the fold of block i |
| `Partition.ParallelEqualsSequential` | SomaParalela.java:150-155 | adding up the n block results of any fold gives the fold of the whole sequence, for every n >= 1 |
| `ThreadPool.PesoTriplicaPares` | ThreadPool.java:32-37 | for \|x\| < 2^30 the per-element weight is 3x for even x and x for odd x |
| `ThreadPool.Peso` | ThreadPool.java:32-37 | the per-element weight with the `int` product wrapped at 32 bits; for any Java int it stays within ±2^32; that it is 3x for even and x for odd values away from the wrap is `PesoTriplicaPares` |
| `ThreadPool.SomaPonderadaSemEstouro` | ThreadPool.java:29-38 | for data within ±2^30 the wrapped weighted sum equals the intended one (even ×3, odd ×1) |
| `ThreadPool.SomaPonderadaCabeEmLong` | ThreadPool.java:29-38 | the weighted sum of any array of Java ints fits in a Java `long` |
| `ThreadPool.TarefaProcessamento.Run` | ThreadPool.java:28-40 | stores the weighted sum of `dados[inicio..fim)` in `resultados[id]`; every other slot unchanged; `dados` unchanged unless it is the results array itself |
| `ThreadPool.PreencherDados` | ThreadPool.java:57-60 | returns a fresh array whose element i is `i % 100` |
| `ThreadPool.ExecutarComPool` | ThreadPool.java:118-147 | for `numTarefas >= 1` and `poolSize >= 1`, returns the weighted sum of the whole array, for any number of tasks and any pool size |
| `ThreadPool.ExecutarThreadPorTarefa` | ThreadPool.java:152-183 | for `numTarefas >= 1`, returns the same weighted sum of the whole array |
| `ThreadPool.CompararDrivers` | ThreadPool.java:56-67 | on the generated data both drivers return the same total, and it counts even values three times and odd values once |
| `Granularidade.Contador.IncrementoFino` | Granularidade.java:21-27 | raises `contador` by exactly `numIncrementos`, one unit per step (by 0 when the count is not positive) |
| `Granularidade.Contador.IncrementoBloco` | Granularidade.java:43-63 | raises `contador` by exactly `numIncrementos` (by 0 when the count is not positive); the locked additions are exactly `FlushesBloco`: full blocks of the effective size, then the remainder only when it is positive; the loop keeps `0 <= acumulador <` the effective block, so a `tamanhoBloco` of 1 or less flushes after every step, one unit at a time |
| `Granularidade.BlocoEfetivo` | Granularidade.java:49 | the effective block size is at least 1, and it is `tamanhoBloco` itself whenever `tamanhoBloco >= 1` |
| `Granularidade.FlushesBlocoTotal` | Granularidade.java:44-62 | the block worker's flushes add up to `numIncrementos` (none when the count is not positive); each is positive and at most one block; there are `n / b` of them plus one more exactly when `n % b > 0`, and the first `n / b` are full blocks, so only a final remainder can be short |
| `Granularidade.Contador.IncrementoFinal` | Granularidade.java:77-89 | one final addition raises `contador` by exactly `numIncrementos` (by 0 when the count is not positive) |
| `Granularidade.Contador.ExecutarGranularidade` | Granularidade.java:159-185 | resets `contador` to 0; afterwards it is `numThreads × incrementos` for every worker kind (0 when `incrementos` is not positive) |
| `MonteCarlo.DecimalRoundTrip` | MonteCarlo.java:179 | `String.valueOf` of a long parses back to the same number, ends in a digit, is the single character "0" when it starts with '0' (only zero does), is never longer than one character with a leading '0', and for a negative number is '-' followed by a digit other than '0' (no leading zeros, no "-0", no "00") |
| `MonteCarlo.FormatarMilhoes` | MonteCarlo.java:174-175 | from 1,000,000 up, the result is the decimal of `num / 1_000_000` followed by "M", with no sign and no leading zero |
| `MonteCarlo.FormatarMilhares` | MonteCarlo.java:176-177 | from 1,000 to 999,999, the result is the decimal of `num / 1_000` (1 to 999) followed by "K", with no sign and no leading zero |
| `MonteCarlo.FormatarPequenos` | MonteCarlo.java:178-179 | below 1,000, negatives included, the result is the plain decimal of `num` with no suffix: it parses back to `num`, ends in a digit, starts with '0' only for zero, has no leading '0' when longer than one character, and a negative number has no leading zero after its '-' |
| `MonteCarlo.FormatarNumero` | MonteCarlo.java:173-180 | `formatarNumero`: the result is never empty and ends in 'M', 'K' or a digit; its exact content in each range is stated by `FormatarMilhoes`, `FormatarMilhares` and `FormatarPequenos` |
| `MonteCarlo.SufixoIdentificaFaixa` | MonteCarlo.java:173-180 | the last character is "M" exactly from a million up, "K" exactly from a thousand to below a million, and a digit exactly below a thousand |
| `MonteCarlo.TamanhosDeLote` | MonteCarlo.java:53-62 | the three batch sizes print as "1M", "10M" and "100M", and 1,500,000 truncates to "1M" |
| `MonteCarlo.Acertos` | MonteCarlo.java:30-43 | a worker's count of points inside the circle lies between 0 and the number of points |
| `MonteCarlo.SimuladorMonteCarlo.Run` | MonteCarlo.java:26-46 | writes only `contadores[indice]`, and writes the number of its points that land inside, between 0 and `numPontos` |
| `MonteCarlo.TotalAcertos` | MonteCarlo.java:136-139 | the sum of k workers' counts is at most k × points per worker |
| `MonteCarlo.EstimarPi` | MonteCarlo.java:115-148 | `totalDentro` is the sum of the workers' counts, it is non-negative, `totalPontos = numThreads × pontosPorThread`, and `totalDentro <= totalPontos` when the point count is non-negative |

## Left out

- Thread creation, `start`, `join`, `ExecutorService`, `shutdown` and `awaitTermination`.
  Workers run one after another in index order. This is exact here because
  each worker writes only its own slot, or adds under the lock, and every
  reduce runs after all workers finish.
- `ThreadPool.ExecutarComPool`: the model assumes every task finishes
  before `awaitTermination`'s one-minute timeout. If one did not, the Java
  aggregation would read a slot that is still 0. The model does not cover
  that case.
- Array sizes and thread counts that are negative are refused by Java with
  `NegativeArraySizeException`. The model gives those parameters type `nat`.
  A zero thread or task count in the map-reduce drivers divides by zero, so
  those drivers require at least 1. A pool size below 1 is refused by
  `Executors.newFixedThreadPool`.
- `Granularidade.Contador.ExecutarGranularidade`, `IncrementoFino`,
  `IncrementoBloco` and `IncrementoFinal`: the counter is an unbounded
  integer, so each worker's exact rise holds for any starting value. A
  Java `int` would wrap once the counter passes 2^31 − 1. In the program
  the workers only run after the reset at Granularidade.java:160, so the
  counter reaches at most `numThreads × incrementos`; the configured
  8 × 1,000,000 stays far below the limit.
- `executarGranularidade` with a `tipo` other than "fino", "bloco" or
  "final" leaves a thread slot null and fails at `start()`. The model's
  `Tipo` datatype has only the three valid kinds.
- `Granularidade.java:149`: the counter reset in the timing driver
  `testarGranularidade`. The reset inside `executarGranularidade` is
  modelled.
- `MonteCarlo.EstimarPi`: the `long` product
  `numThreads * pontosPorThread` is unbounded in the model. With at most 8
  threads and 10^8 points it is far from the `long` range.
- Floating point: `Random.nextDouble`, `Math.sqrt`, the distance test, the
  estimate `4.0 * totalDentro / totalPontos`, and the speedup and efficiency
  percentages. The circle test is the parameter `dentro` / `amostras`.
- Timing (`medir*`, `testar*`, `System.nanoTime`, averaging over three runs),
  `Thread.sleep`, console output and the analysis text printed by each
  `main`.
- ProdutorConsumidor.java, RaceCondition.java, ExclusaoMutua.java,
  Atomico.java, Barreira.java, LeitoresEscritores.java, NThread.java and
  ThreadHello.java are not part of this model. They demonstrate the JDK's
  blocking queue, locks, atomics and barriers, or nondeterministic lost
  updates, and none of that has a sequential meaning to prove.
