/** `Primeros100Nat`: the set {1, ..., 100} with a running sum. One number is taken
    out, and the difference between the original and the current sum recovers it. */
module MissingNumber {
  import opened Wrappers
  import opened Decimal

  /** The argument of `extract`: a Python `int`, or an object of any other type. */
  datatype Arg = IntArg(value: int) | NonIntArg

  /** {lo, ..., hi}. */
  function Range(lo: int, hi: int): (r: set<int>)
    ensures forall i :: i in r <==> lo <= i <= hi
    decreases hi - lo
  {
    if hi < lo then {} else Range(lo, hi - 1) + {hi}
  }

  /** `set(range(1, 101))`. */
  function Universe(): set<int> {
    Range(1, 100)
  }

  /** The sum of the members of `s` among 1, ..., n. */
  function SumUpTo(s: set<int>, n: int): int
    decreases n
  {
    if n < 1 then 0 else SumUpTo(s, n - 1) + (if n in s then n else 0)
  }

  /** The sum of a subset of the universe. */
  function Sum(s: set<int>): int {
    SumUpTo(s, 100)
  }

  /** Taking `k` out of a set lowers its sum by `k`. */
  lemma {:induction false} SumUpToRemove(s: set<int>, k: int, n: int)
    requires k in s
    ensures SumUpTo(s - {k}, n) == SumUpTo(s, n) - (if 1 <= k <= n then k else 0)
    decreases n
  {
    if n >= 1 {
      SumUpToRemove(s, k, n - 1);
    }
  }

  /** The sum of a set splits over a subset and the rest. */
  lemma {:induction false} SumUpToSplit(a: set<int>, b: set<int>, n: int)
    requires b <= a
    ensures SumUpTo(a, n) == SumUpTo(b, n) + SumUpTo(a - b, n)
    decreases n
  {
    if n >= 1 {
      SumUpToSplit(a, b, n - 1);
    }
  }

  /** 1 + 2 + ... + n == n(n + 1)/2. */
  lemma {:induction false} SumFirst(n: int)
    requires 0 <= n <= 100
    ensures SumUpTo(Universe(), n) == n * (n + 1) / 2
  {
    if n > 0 {
      SumFirst(n - 1);
      assert SumUpTo(Universe(), n) == SumUpTo(Universe(), n - 1) + n;
      assert n * (n + 1) / 2 == (n - 1) * n / 2 + n;
    }
  }

  /** The sum `suma_original` hard-codes is the sum of the universe. */
  lemma UniverseSum()
    ensures Sum(Universe()) == 5050
  {
    SumFirst(100);
  }

  /** A single number of the universe sums to itself. */
  lemma {:induction false} SumSingleton(k: int, n: int)
    ensures SumUpTo({k}, n) == if 1 <= k <= n then k else 0
    decreases n
  {
    if n >= 1 {
      SumSingleton(k, n - 1);
    }
  }

  /** The number the sums recover when the only one missing is `n`. */
  lemma OneMissing(n: int)
    requires n in Universe()
    ensures Sum(Universe() - (Universe() - {n})) == n
  {
    assert Universe() - (Universe() - {n}) == {n};
    SumSingleton(n, 100);
  }

  const NotAnInteger := "El valor debe ser un número entero."
  const OutOfRange := "El número debe estar en el rango de 1 a 100, 100 incluído."
  const NothingExtracted := "Todavía no se ha extraído ningún número"
  const NoExtractionYet := "Aún no se ha extraído ningún número"

  function NotInSet(n: int): string {
    "El número " + IntToString(n) + " no está en el conjunto "
  }

  function Report(extracted: int, missing: int): string {
    "Se extrajo el " + IntToString(extracted) + ". Ahora al conjunto le falta el número: "
    + IntToString(missing)
  }

  class Primeros100Nat {
    var numeros: set<int>
    const sumaOriginal: int
    var sumaActual: int
    var extraido: Option<int>

    /** `suma_actual` is the sum of the numbers still in the set; `extraido` is empty
        exactly while nothing was taken out, and otherwise names a number taken out. */
    ghost predicate Valid()
      reads this
    {
      numeros <= Universe() && sumaOriginal == 5050 && sumaActual == Sum(numeros)
      && (extraido.None? <==> numeros == Universe())
      && (extraido.Some? ==> extraido.value in Universe() && extraido.value !in numeros)
    }

    /** `__init__`. */
    constructor ()
      ensures Valid()
      ensures numeros == Universe() && sumaOriginal == 5050 && sumaActual == 5050
      ensures extraido == None
    {
      numeros := Universe();
      sumaOriginal := 5050;
      sumaActual := 5050;
      extraido := None;
      UniverseSum();
    }

    /** `extract(n)`: every check comes before any change, so a failed call changes
        nothing; a successful one takes out exactly `n`. */
    method Extract(n: Arg) returns (r: Result<bool, string>)
      requires Valid()
      modifies this
      ensures Valid()
      ensures n.NonIntArg? ==> r == Failure(NotAnInteger)
      ensures n.IntArg? && !(1 <= n.value <= 100) ==> r == Failure(OutOfRange)
      ensures n.IntArg? && 1 <= n.value <= 100 && n.value !in old(numeros) ==>
                r == Failure(NotInSet(n.value))
      ensures r.Success? <==> n.IntArg? && n.value in old(numeros)
      ensures r.Failure? ==> unchanged(this)
      ensures r.Success? ==>
                r.value && numeros == old(numeros) - {n.value}
                && sumaActual == old(sumaActual) - n.value && extraido == Some(n.value)
      ensures r.Success? && old(extraido).None? ==> NumeroFaltante() == Success(n.value)
    {
      if n.NonIntArg? {
        return Failure(NotAnInteger);
      }
      var k := n.value;
      if k < 1 || k > 100 {
        return Failure(OutOfRange);
      }
      if k !in numeros {
        return Failure(NotInSet(k));
      }
      SumUpToRemove(numeros, k, 100);
      numeros := numeros - {k};
      sumaActual := sumaActual - k;
      extraido := Some(k);
      if old(extraido).None? {
        OneMissing(k);
      }
      return Success(true);
    }

    /** `numero_faltante()`: an error before any extraction, otherwise the sum of the
        numbers taken out so far. */
    function NumeroFaltante(): (r: Result<int, string>)
      reads this
      requires Valid()
      ensures r.Failure? <==> extraido.None?
      ensures r.Failure? ==> r.error == NothingExtracted
      ensures r.Success? ==> r.value == Sum(Universe() - numeros)
    {
      if extraido.None? then Failure(NothingExtracted)
      else
        UniverseSum();
        SumUpToSplit(Universe(), numeros, 100);
        Success(sumaOriginal - sumaActual)
    }

    /** `__str__()`. */
    function ToString(): (s: string)
      reads this
      requires Valid()
      ensures extraido.None? ==> s == NoExtractionYet
      ensures extraido.Some? ==> s == Report(extraido.value, Sum(Universe() - numeros))
    {
      match extraido
      case None => NoExtractionYet
      case Some(e) => Report(e, NumeroFaltante().value)
    }
  }

  /** A fresh set, then the same number extracted twice: the first call succeeds and
      the second fails, because the number is no longer in the set. */
  method ExtractTwice(n: int) returns (first: Result<bool, string>, second: Result<bool, string>)
    ensures 1 <= n <= 100 ==> first == Success(true) && second == Failure(NotInSet(n))
    ensures !(1 <= n <= 100) ==> first == Failure(OutOfRange) && second == Failure(OutOfRange)
  {
    var conjunto := new Primeros100Nat();
    first := conjunto.Extract(IntArg(n));
    second := conjunto.Extract(IntArg(n));
  }

  /** `conjunto = Primeros100Nat(); conjunto.extract(numero); str(conjunto)`: the report
      names the extracted number twice, once as extracted and once as missing. */
  method ExtractAndReport(numero: int) returns (r: Result<string, string>)
    ensures 1 <= numero <= 100 ==> r == Success(Report(numero, numero))
    ensures !(1 <= numero <= 100) ==> r == Failure(OutOfRange)
  {
    var conjunto := new Primeros100Nat();
    var ok := conjunto.Extract(IntArg(numero));
    if ok.Failure? {
      return Failure(ok.error);
    }
    OneMissing(numero);
    return Success(conjunto.ToString());
  }
}
