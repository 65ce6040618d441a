/** Values crossing the PHP API boundary of the generator and the dictionary.

    The PHP methods take untyped arguments and check them at run time with
    `is_int`, `is_bool`, `is_string`, `is_array` and `isset`. `Value` is the
    tagged form of such an argument, so that each runtime check becomes a test
    of a constructor and each rejected argument an `Err` result. */
module PhpValues {

  datatype Option<+T> = None | Some(value: T)

  /** Why an operation threw. The PHP messages are not modelled, only the kind. */
  datatype Failure =
    | InvalidArgument        // a type or range check on an argument failed
    | InvalidDictionary      // the dictionary argument is not an accepted DictionaryInterface object
    | EmptyDictionary        // getAlphabetSize: "$dictionarySize must be int > 0"
    | NotAnInt               // calculateEntropy: an argument is not an int
    | SymbolCapExceeded      // getMinSymbolCount: no word count up to the cap reaches the entropy
    | NotEnoughUniqueWords   // getRandomWordsArray with unique words
    | RandomRangeEmpty       // a random draw from an empty range (no words to pick from)
    | InvalidFormat          // a dictionary source format other than 'array', 'filename', 'pdo_handler'
    | ExternalSource         // a file or database source, which is not part of this model

  datatype Result<+T> = Ok(value: T) | Err(error: Failure)

  /** A PHP value as an argument. Arrays come in two shapes: a dense list
      (keys 0 .. n-1) and a record whose keys are non-numeric strings. */
  datatype Value =
    | Null
    | Bool(b: bool)
    | Int(i: int)
    | Float                              // any float; its magnitude is never inspected
    | Str(s: string)
    | List(items: seq<Value>)
    | Record(fields: map<string, Value>)
    | Object                             // an object that is neither a dictionary nor a prng

  /** `is_array` */
  predicate IsArray(v: Value) {
    v.List? || v.Record?
  }

  /** PHP `$a >= $b` where each side is an int or null. A comparison with
      null converts both sides to bool (null and 0 are false), and
      `null >= null` holds. */
  predicate LooseAtLeast(a: Option<int>, b: Option<int>)
  {
    match (a, b)
    case (Some(x), Some(y)) => x >= y
    case _ => Truthy(a) || !Truthy(b)
  }

  /** PHP `$x < $b` for an int `$x` and an int or null `$b`. */
  predicate LooseBelow(x: int, b: Option<int>)
  {
    match b
    case Some(y) => x < y
    case None => false    // (bool)$x < false never holds
  }

  /** Whether PHP 8 takes the value where a built-in function such as `log`
      expects a float: an int, a float, a bool, or a string that starts,
      after leading whitespace, with a number (`"3"`, `" 2.5"`, `"4 apples"`,
      `".5"`). Any other string, an array or an object raises a TypeError. */
  predicate AcceptedAsFloat(v: Value)
  {
    v.Int? || v.Float? || v.Bool? || (v.Str? && LeadingNumeric(v.s))
  }

  predicate IsDigit(c: char)
  {
    '0' <= c <= '9'
  }

  /** A string whose start, after whitespace and an optional sign, is a
      digit, or a decimal point followed by a digit. */
  predicate LeadingNumeric(s: string)
  {
    if s != [] && (s[0] == ' ' || s[0] == '\t' || s[0] == '\n' || s[0] == '\r' || s[0] == '\U{000B}' || s[0] == '\U{000C}') then
      LeadingNumeric(s[1..])
    else
      var t := if s != [] && (s[0] == '+' || s[0] == '-') then s[1..] else s;
      (t != [] && IsDigit(t[0])) || (|t| >= 2 && t[0] == '.' && IsDigit(t[1]))
  }

  /** The truth value of an int-or-null operand. */
  predicate Truthy(a: Option<int>)
  {
    a.Some? && a.value != 0
  }
}
