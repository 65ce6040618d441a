/** The entropy rule of PasswordGeneratorAbstract: a password of `n` symbols
    drawn from an alphabet of `a` symbols carries `n·log2(a)` bits.

    The PHP code computes that figure in floating point and compares it with
    an integer threshold `m`. For `a >= 1` the comparison is decided exactly
    by integers: `n·log2(a) >= m` holds iff `m <= 0` or `a^n >= 2^m`. Every
    comparison of the model uses that form; the figure itself is kept
    symbolic. */
module Entropy {
  import opened PhpValues

  function Pow(b: nat, e: nat): (r: nat)
    ensures b >= 1 ==> r >= 1
  {
    if e == 0 then 1 else b * Pow(b, e - 1)
  }

  /** `n·log2(a) >= m`, decided exactly. */
  predicate Reaches(n: nat, a: nat, m: int)
  {
    m <= 0 || Pow(a, n) >= Pow(2, m as nat)
  }

  /** The negation of the loop test `calculateEntropy(n, a) < $minEntropy`
      of getMinSymbolCount. A null threshold is never exceeded: PHP compares
      a number with null as booleans, and `false < false` does not hold. */
  predicate Enough(n: nat, a: nat, t: Option<int>)
  {
    t.None? || Reaches(n, a, t.value)
  }

  /** What getAlphabetSize yields once its arguments are resolved: an int,
      or a float when `pow(2, $variationsCount)` has a negative exponent. */
  datatype AlphabetSize = Exact(size: nat) | Fractional

  /** getAlphabetSize: `$dictionarySize * pow(2, $variationsCount)`, refused
      when the dictionary counts no words. */
  function AlphabetSizeOf(wordCount: int, variationsCount: int): (r: Result<AlphabetSize>)
    ensures r.Err? <==> wordCount <= 0
    ensures r.Err? ==> r.error == EmptyDictionary
    ensures r.Ok? ==> (r.value.Fractional? <==> variationsCount < 0)
    ensures r.Ok? && r.value.Exact? ==> r.value.size >= wordCount >= 1
    ensures wordCount >= 1 && variationsCount >= 0 ==> r == Ok(Exact(wordCount * Pow(2, variationsCount)))
  {
    if wordCount <= 0 then Err(EmptyDictionary)
    else if variationsCount < 0 then Ok(Fractional)
    else
      PowPositiveMultiple(wordCount, 2, variationsCount);
      Ok(Exact(wordCount * Pow(2, variationsCount)))
  }

  lemma PowPositiveMultiple(w: nat, b: nat, e: nat)
    requires w >= 1 && b >= 1
    ensures w * Pow(b, e) >= w
  {
  }

  /** The figure `symbolCount·log2(alphabetSize)` of calculateEntropy,
      plus `log2(separatorsCount)` in getEntropy (1 when there is no
      separator term: `log2(1) == 0`). */
  datatype EntropyFigure = EntropyFigure(separatorsCount: Value, symbolCount: int, alphabetSize: int)

  /** getAlphabetSize's result as a PHP value: an int, or a float. */
  function AlphabetValue(a: AlphabetSize): Value
  {
    match a
    case Exact(n) => Int(n)
    case Fractional => Float
  }

  /** calculateEntropy: a null alphabet size is replaced by what
      `getAlphabetSize()` gives for the generator's own dictionary and
      variations, passed here as `stored` (that call may throw); then both
      operands must be PHP ints. The figure's separator term is log2(1). */
  function CalculateEntropy(symbolCount: Value, alphabetSize: Value, stored: Result<AlphabetSize>): (r: Result<EntropyFigure>)
    ensures alphabetSize.Null? && stored.Err? ==> r == Err(stored.error)
    ensures r.Ok? <==> symbolCount.Int? && (alphabetSize.Int? || (alphabetSize.Null? && stored.Ok? && stored.value.Exact?))
    ensures r.Err? && !(alphabetSize.Null? && stored.Err?) ==> r.error == NotAnInt
    ensures r.Ok? ==> r.value.separatorsCount == Int(1) && r.value.symbolCount == symbolCount.i
    ensures r.Ok? ==> r.value.alphabetSize == if alphabetSize.Int? then alphabetSize.i else stored.value.size
  {
    if alphabetSize.Null? && stored.Err? then Err(stored.error)
    else
      var a := if alphabetSize.Null? then AlphabetValue(stored.value) else alphabetSize;
      if symbolCount.Int? && a.Int? then Ok(EntropyFigure(Int(1), symbolCount.i, a.i))
      else Err(NotAnInt)
  }

  /** The search of getMinSymbolCount from candidate `k` on: the first count
      in `[k, max]` whose entropy is not below the threshold. */
  function FirstEnough(a: nat, t: Option<int>, k: nat, max: int): (r: Option<nat>)
    ensures r.Some? ==> k <= r.value <= max && Enough(r.value, a, t)
    ensures r.Some? ==> forall j :: k <= j < r.value ==> !Enough(j, a, t)
    ensures r.None? ==> forall j :: k <= j <= max ==> !Enough(j, a, t)
    decreases if max < k then 0 else max - k + 1
  {
    if max < k then None
    else if Enough(k, a, t) then Some(k)
    else FirstEnough(a, t, k + 1, max)
  }

  /** The outcome of the loop of getMinSymbolCount for a resolved threshold
      `t`, alphabet and cap `max`. The loop computes the alphabet and the
      entropy only once it has passed `0 <= max`, so a negative cap fails on
      the cap before the alphabet is looked at. */
  function MinSymbolCount(t: Option<int>, alphabet: Result<AlphabetSize>, max: int): (r: Result<nat>)
    requires alphabet.Ok? && alphabet.value.Exact? ==> alphabet.value.size >= 1
    ensures max < 0 ==> r == Err(SymbolCapExceeded)
    ensures max >= 0 && alphabet.Err? ==> r == Err(alphabet.error)
    ensures max >= 0 && alphabet == Ok(Fractional) ==> r == Err(NotAnInt)
    ensures r.Ok? ==> alphabet.Ok? && alphabet.value.Exact? && 1 <= r.value <= max
    ensures r.Ok? ==> Enough(r.value, alphabet.value.size, t)
    ensures r.Ok? ==> forall j :: 1 <= j < r.value ==> !Enough(j, alphabet.value.size, t)
    ensures max >= 0 && alphabet.Ok? && alphabet.value.Exact? && r.Err? ==>
      r.error == SymbolCapExceeded && forall j :: 1 <= j <= max ==> !Enough(j, alphabet.value.size, t)
  {
    if max < 0 then Err(SymbolCapExceeded)
    else match alphabet
      case Err(e) => Err(e)
      case Ok(Fractional) => Err(NotAnInt)
      case Ok(Exact(a)) =>
        match FirstEnough(a, t, 1, max)
        case Some(n) => Ok(n)
        case None => Err(SymbolCapExceeded)
  }

  lemma {:induction false} PowMonotoneExponent(a: nat, n: nat, n': nat)
    requires a >= 1 && n <= n'
    ensures Pow(a, n) <= Pow(a, n')
    decreases n'
  {
    if n < n' {
      PowMonotoneExponent(a, n, n' - 1);
      var p := Pow(a, n' - 1);
      assert Pow(a, n') == a * p;
      MulAtLeast(a, p);
    }
  }

  lemma MulAtLeast(a: nat, p: nat)
    requires a >= 1
    ensures p <= a * p
  {
  }

  lemma {:induction false} PowMonotoneBase(a: nat, b: nat, n: nat)
    requires a <= b
    ensures Pow(a, n) <= Pow(b, n)
  {
    if n > 0 {
      PowMonotoneBase(a, b, n - 1);
      MultiplyMonotone(a, Pow(a, n - 1), b, Pow(b, n - 1));
    }
  }

  lemma MultiplyMonotone(a: nat, x: nat, b: nat, y: nat)
    requires a <= b && x <= y
    ensures a * x <= b * y
  {
    assert a * x <= a * y;
  }

  lemma {:induction false} PowAdd(b: nat, x: nat, y: nat)
    ensures Pow(b, x + y) == Pow(b, x) * Pow(b, y)
    decreases y
  {
    if y > 0 {
      PowAdd(b, x, y - 1);
      var px, py := Pow(b, x), Pow(b, y - 1);
      assert Pow(b, x + y) == b * Pow(b, x + (y - 1));
      MulLeftCommute(b, px, py);
    }
  }

  lemma MulLeftCommute(a: int, c: int, d: int)
    ensures a * (c * d) == c * (a * d)
  {
  }

  lemma MulInterchange(a: int, b: int, x: int, y: int)
    ensures (a * b) * (x * y) == (a * x) * (b * y)
  {
  }

  lemma {:induction false} PowProduct(a: nat, b: nat, n: nat)
    ensures Pow(a * b, n) == Pow(a, n) * Pow(b, n)
  {
    if n > 0 {
      PowProduct(a, b, n - 1);
      var pa, pb := Pow(a, n - 1), Pow(b, n - 1);
      assert Pow(a * b, n) == (a * b) * Pow(a * b, n - 1);
      MulInterchange(a, b, pa, pb);
    }
  }

  lemma {:induction false} PowPow(b: nat, x: nat, n: nat)
    ensures Pow(Pow(b, x), n) == Pow(b, x * n)
  {
    if n > 0 {
      PowPow(b, x, n - 1);
      PowAdd(b, x, x * (n - 1));
      assert x + x * (n - 1) == x * n;
    }
  }

  /** Entropy never drops when a word is added: `n·log2(a)` is
      non-decreasing in `n` for `a >= 1`. This is what makes the first count
      found by the linear search the least one overall. */
  lemma ReachesMonotone(n: nat, n': nat, a: nat, m: int)
    requires a >= 1 && n <= n' && Reaches(n, a, m)
    ensures Reaches(n', a, m)
  {
    if m > 0 {
      PowMonotoneExponent(a, n, n');
    }
  }

  /** A larger alphabet (more words or more variations) never needs more
      words. */
  lemma ReachesAlphabetMonotone(n: nat, a: nat, b: nat, m: int)
    requires a <= b && Reaches(n, a, m)
    ensures Reaches(n, b, m)
  {
    if m > 0 {
      PowMonotoneBase(a, b, n);
    }
  }

  /** Every word of an alphabet `wordCount·2^variationsCount` carries
      `log2(wordCount)` bits of choice plus one bit per variation:
      `(w·2^v)^n == w^n · 2^(v·n)`. */
  lemma AlphabetPower(wordCount: nat, variationsCount: nat, n: nat)
    ensures Pow(wordCount * Pow(2, variationsCount), n)
         == Pow(wordCount, n) * Pow(2, variationsCount * n)
  {
    PowProduct(wordCount, Pow(2, variationsCount), n);
    PowPow(2, variationsCount, n);
  }

  /** Once a count reaches the threshold, every larger count up to the cap
      does too: the search result is the least count reaching the threshold
      in the whole range, and every count at or above it reaches it. */
  lemma MinSymbolCountUpwardClosed(t: Option<int>, a: nat, max: int, n: nat)
    requires a >= 1
    requires MinSymbolCount(t, Ok(Exact(a)), max).Ok?
    requires MinSymbolCount(t, Ok(Exact(a)), max).value <= n
    ensures Enough(n, a, t)
  {
    var k := MinSymbolCount(t, Ok(Exact(a)), max).value;
    if t.Some? {
      ReachesMonotone(k, n, a, t.value);
    }
  }

  /** A higher threshold never needs fewer words. */
  lemma MinSymbolCountThresholdMonotone(m: int, m': int, a: nat, max: int)
    requires a >= 1 && m <= m'
    requires MinSymbolCount(Some(m'), Ok(Exact(a)), max).Ok?
    ensures MinSymbolCount(Some(m), Ok(Exact(a)), max).Ok?
    ensures MinSymbolCount(Some(m), Ok(Exact(a)), max).value
         <= MinSymbolCount(Some(m'), Ok(Exact(a)), max).value
  {
    var k' := MinSymbolCount(Some(m'), Ok(Exact(a)), max).value;
    assert Reaches(k', a, m) by {
      if m > 0 {
        PowMonotoneExponent(2, m as nat, m' as nat);
      }
    }
    assert Enough(k', a, Some(m));
  }

  /** A larger alphabet never needs more words. */
  lemma MinSymbolCountAlphabetMonotone(t: Option<int>, a: nat, b: nat, max: int)
    requires 1 <= a <= b
    requires MinSymbolCount(t, Ok(Exact(a)), max).Ok?
    ensures MinSymbolCount(t, Ok(Exact(b)), max).Ok?
    ensures MinSymbolCount(t, Ok(Exact(b)), max).value <= MinSymbolCount(t, Ok(Exact(a)), max).value
  {
    var k := MinSymbolCount(t, Ok(Exact(a)), max).value;
    if t.Some? {
      ReachesAlphabetMonotone(k, a, b, t.value);
    }
    assert Enough(k, b, t);
  }

  /** The powers the worked examples below compare. */
  lemma {:induction false} PowersOfTwo()
    ensures Pow(2, 64) == 18446744073709551616
    ensures Pow(2, 112) == 5192296858534827628530496329220096
  {
    assert Pow(2, 4) == 16;
    PowAdd(2, 4, 4);
    assert Pow(2, 8) == 256;
    PowAdd(2, 8, 8);
    assert Pow(2, 16) == 65536;
    PowAdd(2, 16, 16);
    assert Pow(2, 32) == 4294967296;
    PowAdd(2, 32, 32);
    assert Pow(2, 64) == 18446744073709551616;
    PowAdd(2, 64, 32);
    assert Pow(2, 96) == 79228162514264337593543950336;
    PowAdd(2, 96, 16);
  }

  lemma {:induction false} PowersOfTenThousand()
    ensures Pow(10000, 8) == 100000000000000000000000000000000
    ensures Pow(10000, 9) == 1000000000000000000000000000000000000
  {
    assert Pow(10000, 1) == 10000;
    PowAdd(10000, 1, 1);
    assert Pow(10000, 2) == 100000000;
    PowAdd(10000, 2, 2);
    assert Pow(10000, 4) == 10000000000000000;
    PowAdd(10000, 4, 4);
    assert Pow(10000, 8) == 100000000000000000000000000000000;
    PowAdd(10000, 8, 1);
  }

  lemma {:induction false} PowersOfEightyThousand()
    ensures Pow(80000, 3) == 512000000000000
    ensures Pow(80000, 4) == 40960000000000000000
  {
    assert Pow(80000, 1) == 80000;
    PowAdd(80000, 1, 1);
    assert Pow(80000, 2) == 6400000000;
    PowAdd(80000, 2, 1);
    PowAdd(80000, 2, 2);
  }

  /** A dictionary of 10000 words, no variations and the 112-bit threshold
      need 9 words: `8·log2(10000) < 112 <= 9·log2(10000)`. */
  lemma {:induction false} TenThousandWordsAt112Bits()
    ensures AlphabetSizeOf(10000, 0) == Ok(Exact(10000))
    ensures MinSymbolCount(Some(112), AlphabetSizeOf(10000, 0), 20) == Ok(9)
  {
    PowersOfTwo();
    PowersOfTenThousand();
    assert Pow(2, 0) == 1;
    assert Enough(9, 10000, Some(112));
    forall j | 1 <= j <= 8
      ensures !Enough(j, 10000, Some(112))
    {
      PowMonotoneExponent(10000, j, 8);
    }
  }

  /** The same dictionary with three one-bit variations (alphabet 80000)
      and the 64-bit threshold need 4 words. */
  lemma {:induction false} EightyThousandAt64Bits()
    ensures AlphabetSizeOf(10000, 3) == Ok(Exact(80000))
    ensures MinSymbolCount(Some(64), AlphabetSizeOf(10000, 3), 20) == Ok(4)
  {
    PowersOfTwo();
    PowersOfEightyThousand();
    assert Pow(2, 3) == 8;
    assert Enough(4, 80000, Some(64));
    forall j | 1 <= j <= 3
      ensures !Enough(j, 80000, Some(64))
    {
      PowMonotoneExponent(80000, j, 3);
    }
  }

  /** A cap of 2 words cannot reach 112 bits from 10000 words: the search
      fails with the cap error rather than returning fewer words. */
  lemma {:induction false} CapTooLowFails()
    ensures MinSymbolCount(Some(112), Ok(Exact(10000)), 2) == Err(SymbolCapExceeded)
  {
    PowersOfTwo();
    PowersOfTenThousand();
    forall j | 1 <= j <= 2
      ensures !Enough(j, 10000, Some(112))
    {
      PowMonotoneExponent(10000, j, 8);
    }
  }
}
