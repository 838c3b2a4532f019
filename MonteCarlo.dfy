/** The integer bookkeeping of the Monte Carlo estimate of pi: each worker
    counts how many of its points fall inside the circle and stores the
    count in its own slot; the coordinator adds the slots up after joining
    every worker. Where a point falls is decided by floating-point code
    over a seeded random stream; here it is a parameter `dentro`, with
    dentro(i) telling whether point i of that worker lands inside. The
    number formatter `formatarNumero` is modelled exactly. */
module MonteCarlo {
  import opened JavaInt

  // ---------------------------------------------------------------------
  // Decimal strings (Java's String.valueOf(long)) and their inverse
  // ---------------------------------------------------------------------

  function DigitChar(d: nat): char
    requires d < 10
  {
    "0123456789"[d]
  }

  predicate IsDigit(c: char) { '0' <= c <= '9' }

  function DigitValue(c: char): nat
    requires IsDigit(c)
  {
    (c as int - '0' as int) as nat
  }

  /** The decimal digits of n, most significant first, without leading
      zeros. */
  function Digits(n: nat): (s: string)
    ensures |s| >= 1
    ensures forall k :: 0 <= k < |s| ==> IsDigit(s[k])
    ensures |s| > 1 ==> s[0] != '0'
    ensures s[0] == '0' <==> n == 0
  {
    if n < 10 then [DigitChar(n)] else Digits(n / 10) + [DigitChar(n % 10)]
  }

  /** `String.valueOf(num)` for a Java long: a minus sign for negative
      values, then the digits of the magnitude. */
  function Decimal(n: int): string
  {
    if n < 0 then "-" + Digits(-n) else Digits(n)
  }

  /** Reads a run of decimal digits back as a number. */
  function ParseDigits(s: string): nat
    requires forall k :: 0 <= k < |s| ==> IsDigit(s[k])
  {
    if s == [] then 0 else ParseDigits(s[..|s| - 1]) * 10 + DigitValue(s[|s| - 1])
  }

  /** Reads an optionally signed decimal back as a number. */
  function ParseDecimal(s: string): int
    requires |s| >= 1
    requires s[0] == '-' || IsDigit(s[0])
    requires forall k :: 1 <= k < |s| ==> IsDigit(s[k])
  {
    if s[0] == '-' then 0 - ParseDigits(s[1..]) as int else ParseDigits(s)
  }

  lemma {:induction false} DigitsRoundTrip(n: nat)
    ensures ParseDigits(Digits(n)) == n
  {
    if n < 10 {
      assert Digits(n)[..0] == [];
    } else {
      var d := Digits(n / 10);
      assert (d + [DigitChar(n % 10)])[..|d|] == d;
      DigitsRoundTrip(n / 10);
    }
  }

  lemma ParseNegative(d: string)
    requires |d| >= 1 && forall k :: 0 <= k < |d| ==> IsDigit(d[k])
    ensures ParseDecimal("-" + d) == 0 - ParseDigits(d) as int
  {
    assert ("-" + d)[1..] == d;
  }

  /** Decimal is a faithful rendering: parsing it gives the number back,
      its last character is always a digit, and it starts with '0' only
      for zero itself (no leading zeros). */
  lemma DecimalRoundTrip(n: int)
    ensures |Decimal(n)| >= 1 && IsDigit(Decimal(n)[|Decimal(n)| - 1])
    ensures Decimal(n)[0] == '0' <==> n == 0
    ensures |Decimal(n)| > 1 ==> Decimal(n)[0] != '0'
    ensures n < 0 ==> |Decimal(n)| >= 2 && Decimal(n)[0] == '-' && Decimal(n)[1] != '0'
    ensures ParseDecimal(Decimal(n)) == n
  {
    var m: nat := if n < 0 then -n else n;
    var d := Digits(m);
    DigitsRoundTrip(m);
    if n < 0 {
      ParseNegative(d);
      assert Decimal(n)[|Decimal(n)| - 1] == d[|d| - 1];
    }
  }

  // ---------------------------------------------------------------------
  // formatarNumero
  // ---------------------------------------------------------------------

  /** `formatarNumero`: millions with an "M", thousands with a "K", both
      by truncating division (the operand is positive in both branches,
      so Java's truncation and Dafny's division agree), anything below a
      thousand, negatives included, as a plain decimal. */
  function FormatarNumero(num: int): (r: string)
    ensures |r| >= 1
    ensures r[|r| - 1] == 'M' || r[|r| - 1] == 'K' || IsDigit(r[|r| - 1])
  {
    if num >= 1_000_000 then Decimal(num / 1_000_000) + "M"
    else if num >= 1_000 then Decimal(num / 1_000) + "K"
    else Decimal(num)
  }

  /** From a million up: the count of whole millions, then "M". */
  lemma FormatarMilhoes(num: int)
    requires num >= 1_000_000
    ensures var r := FormatarNumero(num);
      |r| >= 2 && r[|r| - 1] == 'M' && r[0] != '-' && r[0] != '0' &&
      ParseDecimal(r[..|r| - 1]) == num / 1_000_000 && num / 1_000_000 >= 1
  {
    var r := FormatarNumero(num);
    DecimalRoundTrip(num / 1_000_000);
    assert r[..|r| - 1] == Decimal(num / 1_000_000);
  }

  /** From a thousand up to below a million: the whole thousands, which
      run from 1 to 999, then "K". */
  lemma FormatarMilhares(num: int)
    requires 1_000 <= num < 1_000_000
    ensures var r := FormatarNumero(num);
      |r| >= 2 && r[|r| - 1] == 'K' && r[0] != '-' && r[0] != '0' &&
      ParseDecimal(r[..|r| - 1]) == num / 1_000 && 1 <= num / 1_000 <= 999
  {
    var r := FormatarNumero(num);
    DecimalRoundTrip(num / 1_000);
    assert r[..|r| - 1] == Decimal(num / 1_000);
  }

  /** Below a thousand, negatives included: the number itself, with no
      suffix. */
  lemma FormatarPequenos(num: int)
    requires num < 1_000
    ensures var r := FormatarNumero(num);
      |r| >= 1 && IsDigit(r[|r| - 1]) && ParseDecimal(r) == num &&
      (r[0] == '0' <==> num == 0) && (|r| > 1 ==> r[0] != '0') &&
      (num < 0 ==> |r| >= 2 && r[1] != '0')
  {
    DecimalRoundTrip(num);
  }

  /** The suffix tells the range apart: "M" exactly from a million up, "K"
      exactly from a thousand to below a million, and a final digit
      exactly below a thousand. */
  lemma SufixoIdentificaFaixa(num: int)
    ensures var r := FormatarNumero(num);
      |r| >= 1 &&
      (r[|r| - 1] == 'M' <==> num >= 1_000_000) &&
      (r[|r| - 1] == 'K' <==> 1_000 <= num < 1_000_000) &&
      (IsDigit(r[|r| - 1]) <==> num < 1_000)
  {
    if num >= 1_000_000 {
      FormatarMilhoes(num);
    } else if num >= 1_000 {
      FormatarMilhares(num);
    } else {
      FormatarPequenos(num);
    }
  }

  /** The three batch sizes of `main`, and the truncation of a value that
      is not a whole number of millions. */
  lemma TamanhosDeLote()
    ensures FormatarNumero(1_000_000) == "1M"
    ensures FormatarNumero(10_000_000) == "10M"
    ensures FormatarNumero(100_000_000) == "100M"
    ensures FormatarNumero(1_500_000) == "1M"
  {
    assert Digits(10) == Digits(1) + [DigitChar(0)];
    assert Digits(100) == Digits(10) + [DigitChar(0)];
  }

  // ---------------------------------------------------------------------
  // Hit counting and aggregation
  // ---------------------------------------------------------------------

  /** How many of points 0 .. n-1 land inside the circle. */
  function Acertos(dentro: nat -> bool, n: nat): (h: nat)
    ensures h <= n
  {
    if n == 0 then 0 else Acertos(dentro, n - 1) + (if dentro(n - 1) then 1 else 0)
  }

  /** The sum of the first k workers' counts, worker i drawing n points
      from amostras(i). */
  function TotalAcertos(amostras: nat -> nat -> bool, k: nat, n: nat): (t: nat)
    ensures t <= k * n
  {
    if k == 0 then 0 else TotalAcertos(amostras, k - 1, n) + Acertos(amostras(k - 1), n)
  }

  /** The worker `SimuladorMonteCarlo`: counts the points of its stream
      that land inside and stores the count in contadores[indice]. The
      random stream and its seed are replaced by `dentro`. */
  class SimuladorMonteCarlo {
    const numPontos: int
    const contadores: array<int>
    const indice: int
    const dentro: nat -> bool

    constructor (numPontos: int, contadores: array<int>, indice: int, dentro: nat -> bool)
      ensures this.numPontos == numPontos && this.contadores == contadores
      ensures this.indice == indice && this.dentro == dentro
    {
      this.numPontos := numPontos;
      this.contadores := contadores;
      this.indice := indice;
      this.dentro := dentro;
    }

    /** Writes only its own slot, and what it writes is between 0 and the
        number of points drawn. */
    method Run()
      requires 0 <= indice < contadores.Length
      modifies contadores
      ensures contadores[..] == old(contadores[..])[indice := Acertos(dentro, Iterations(numPontos))]
      ensures 0 <= contadores[indice] <= Iterations(numPontos)
    {
      var dentroCirculo := 0;
      var i := 0;
      while i < numPontos
        invariant 0 <= i <= Iterations(numPontos)
        invariant dentroCirculo == Acertos(dentro, i)
      {
        if dentro(i) {
          dentroCirculo := dentroCirculo + 1;
        }
        i := i + 1;
      }
      contadores[indice] := dentroCirculo;
    }
  }

  /** The integer part of `estimarPi`: one worker per thread, worker i
      drawing from amostras(i) in place of the seed `nanoTime() + i`, then
      the sum of the counters. It returns the two integers the estimate
      `4.0 * totalDentro / totalPontos` is made of. */
  method EstimarPi(numThreads: nat, pontosPorThread: int, amostras: nat -> nat -> bool)
    returns (totalDentro: int, totalPontos: int)
    ensures totalDentro == TotalAcertos(amostras, numThreads, Iterations(pontosPorThread))
    ensures totalPontos == numThreads * pontosPorThread
    ensures 0 <= totalDentro
    ensures pontosPorThread >= 0 ==> totalDentro <= totalPontos
  {
    var contadores := new int[numThreads];
    var n := Iterations(pontosPorThread);

    var i := 0;
    while i < numThreads
      invariant 0 <= i <= numThreads
      invariant forall j :: 0 <= j < i ==> contadores[j] == Acertos(amostras(j), n)
    {
      var simulador := new SimuladorMonteCarlo(pontosPorThread, contadores, i, amostras(i));
      simulador.Run();
      i := i + 1;
    }

    totalDentro := 0;
    var k := 0;
    while k < numThreads
      invariant 0 <= k <= numThreads
      invariant totalDentro == TotalAcertos(amostras, k, n)
    {
      totalDentro := totalDentro + contadores[k];
      k := k + 1;
    }
    totalPontos := numThreads * pontosPorThread;
  }
}
