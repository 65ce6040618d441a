/** The passphrase generator (src/PasswordGenerator.php over
    PasswordGeneratorAbstract.php): validated settings, the search for the
    number of words that reaches the entropy of a strength level, and
    generatePassword, which draws that many words, varies each one and
    joins them with a randomly chosen separator.

    The older copy of the class at the repository root behaves the same on
    every path modelled here, except that its setMinEntropies has no
    `$default` switch (it is the `default == false` case of SetMinEntropies)
    and that it has a separate setDefaultMinEntropies. */
module Generator {
  import opened PhpValues
  import opened PhpStrings
  import opened Random
  import opened Entropy
  import opened Levels
  import opened Variations
  import opened Assembly
  import opened Dictionaries

  /** A dictionary argument: null, a Dictionary object, or any other value. */
  datatype DictionaryArg = NullDictionary | Dict(d: Dictionary) | NotADictionary

  const DefaultMinEntropies: seq<int> := [64, 80, 112, 128]
  const DefaultLevel: int := 2
  const DefaultSeparator: string := " "
  const DefaultMinWordSize: int := 4
  const DefaultMinReadWordsWordSize: int := 4
  const DefaultMaxSymbols: int := 20
  const DefaultFlags: Flags := Flags(true, true, true, false)

  /** The validation loop of setMinEntropies: index 0 must hold an int
      above 0, and every later index an int above the one before. */
  method CheckThresholds(m: Value) returns (ok: bool)
    ensures ok == AcceptedThresholds(m)
  {
    if !(m.List? && |m.items| >= 1 && m.items[0].Int? && m.items[0].i > 0) {
      return false;
    }
    var i := 1;
    while i < |m.items|
      invariant 1 <= i <= |m.items|
      invariant forall j :: 0 <= j < i ==> m.items[j].Int?
      invariant forall j :: 1 <= j < i ==> m.items[j - 1].i < m.items[j].i
    {
      if !m.items[i].Int? || m.items[i].i <= m.items[i - 1].i {
        return false;
      }
      i := i + 1;
    }
    return true;
  }

  /** An int-or-null PHP value. */
  function OptionalInt(t: Option<int>): (v: Value)
    ensures t.None? ==> v == Null
    ensures t.Some? ==> v == Int(t.value)
  {
    if t.Some? then Int(t.value) else Null
  }

  /** An int argument, or the default when it is not an int (null). */
  function IntOr(v: Value, default: int): int
  {
    if v.Int? then v.i else default
  }

  /** An accepted thresholds array as ints, or the default thresholds when
      it is not one (null). */
  function ThresholdsOr(v: Value, default: seq<int>): seq<int>
  {
    if AcceptedThresholds(v) then Ints(v.items) else default
  }

  /** What setSeparators stores: the distinct characters of a non-empty
      string, the default separator for null or ''. */
  function StoredSeparators(v: Value): (r: string)
    ensures |r| >= 1 && NoDuplicates(r)
    ensures v.Str? && v.s != "" ==> forall c :: c in r <==> c in v.s
  {
    if v.Str? && v.s != "" then
      assert v.s[0] in Unique(v.s);
      Unique(v.s)
    else DefaultSeparator
  }

  /** The separator a draw from `separators` may give: one of its
      characters, or the default separator when there is none. */
  predicate DrawnFrom(separator: string, separators: string)
  {
    if |separators| > 0 then |separator| == 1 && separator[0] in separators
    else separator == DefaultSeparator
  }

  /** The settings generatePassword reads, and the size of the dictionary. */
  datatype Settings = Settings(
    minEntropies: seq<int>, level: int, separators: string, maxSymbols: int,
    useVariations: bool, flags: Flags, wordCount: int)

  /** What generatePassword settles before it draws a word: the separator
      set, the entropy threshold, whether variations apply and which, their
      count, the alphabet size and the number of words. */
  datatype Request = Request(
    separators: string, threshold: Option<int>, useVariations: bool, flags: Flags,
    variationsCount: nat, alphabetSize: nat, symbolCount: nat)

  /** The separator set generatePassword draws from, once the dictionary,
      level and separators arguments have passed their checks (the draw
      happens before the remaining checks); None when one of them fails. */
  function SeparatorsFor(s: Settings, dictionary: DictionaryArg, level: Value, separators: Value): (r: Option<string>)
    ensures r.Some? <==> dictionary.NullDictionary? && (level.Null? || level.Int?) && (separators.Null? || separators.Str?)
  {
    if dictionary.NullDictionary? && (level.Null? || level.Int?) && (separators.Null? || separators.Str?) then
      Some(if separators.Null? then s.separators else separators.s)
    else None
  }

  /** The checks and settings of generatePassword up to the word loop:
      the dictionary, level and separators arguments, then Resolve. An
      explicit level replaces the explicit threshold by the level's one. */
  function Prepare(s: Settings, dictionary: DictionaryArg, minEntropy: Value, level: Value,
                   separators: Value, useVariations: Value, variations: Value): (r: Result<Request>)
    requires s.wordCount >= 0
    ensures r.Ok? ==> SeparatorsFor(s, dictionary, level, separators) == Some(r.value.separators)
    ensures r.Ok? ==> r.value.variationsCount == |Slots(r.value.flags)|
    ensures r.Ok? ==> r.value.alphabetSize == s.wordCount * Pow(2, r.value.variationsCount) >= 1
    ensures r.Ok? ==> 1 <= r.value.symbolCount <= s.maxSymbols
    ensures r.Ok? ==> Enough(r.value.symbolCount, r.value.alphabetSize, r.value.threshold)
    ensures r.Ok? ==> forall j :: 1 <= j < r.value.symbolCount ==> !Enough(j, r.value.alphabetSize, r.value.threshold)
    ensures !dictionary.NullDictionary? ==> r == Err(InvalidDictionary)
    ensures s.wordCount == 0 ==> r.Err?
    ensures r.Ok? ==> s.wordCount >= 1
    ensures r.Ok? && level.Null? ==>
      r.value.threshold == if minEntropy.Int? then Some(minEntropy.i) else ThresholdForLevel(s.level, s.minEntropies)
    ensures r.Ok? && level.Int? ==>
      r.value.threshold == if ThresholdForLevel(level.i, s.minEntropies).Some? then ThresholdForLevel(level.i, s.minEntropies)
                           else ThresholdForLevel(s.level, s.minEntropies)
    ensures r.Ok? ==> FilterVariations(variations, s.flags) == Ok(r.value.flags)
    ensures r.Ok? ==> r.value.useVariations == if useVariations.Bool? then useVariations.b else s.useVariations
  {
    if !dictionary.NullDictionary? then Err(InvalidDictionary)
    else if !(level.Null? || level.Int?) then Err(InvalidArgument)
    else
      var lvl := if level.Null? then s.level else level.i;
      var me := if level.Int? then OptionalInt(ThresholdForLevel(lvl, s.minEntropies)) else minEntropy;
      if !(separators.Null? || separators.Str?) then Err(InvalidArgument)
      else Resolve(s, if separators.Null? then s.separators else separators.s, lvl, me, useVariations, variations)
  }

  /** The part of generatePassword after the separator draw: a null
      threshold takes the one of `level`, and one still null after that (a
      level past the end of the table) takes, inside getMinSymbolCount, the
      one of the stored level; then the variation switch and the variations
      are checked and the number of words is searched for. */
  function Resolve(s: Settings, separators: string, level: int, minEntropy: Value,
                   useVariations: Value, variations: Value): (r: Result<Request>)
    requires s.wordCount >= 0
    ensures r.Ok? ==> r.value.separators == separators
    ensures r.Ok? ==> (minEntropy.Null? || minEntropy.Int?) && (useVariations.Null? || useVariations.Bool?)
    ensures r.Ok? ==>
      r.value.threshold == if minEntropy.Int? then Some(minEntropy.i)
                           else if ThresholdForLevel(level, s.minEntropies).Some? then ThresholdForLevel(level, s.minEntropies)
                           else ThresholdForLevel(s.level, s.minEntropies)
    ensures r.Ok? ==> FilterVariations(variations, s.flags) == Ok(r.value.flags)
    ensures r.Ok? ==> r.value.useVariations == if useVariations.Bool? then useVariations.b else s.useVariations
    ensures !(minEntropy.Null? || minEntropy.Int?) || !(useVariations.Null? || useVariations.Bool?) ==> r == Err(InvalidArgument)
    ensures var argsOk := (minEntropy.Null? || minEntropy.Int?) && (useVariations.Null? || useVariations.Bool?);
      argsOk && FilterVariations(variations, s.flags).Err? ==> r == Err(InvalidArgument)
    ensures r.Ok? ==> r.value.variationsCount == |Slots(r.value.flags)|
    ensures r.Ok? ==> r.value.alphabetSize == s.wordCount * Pow(2, r.value.variationsCount) >= 1
    ensures r.Ok? ==> 1 <= r.value.symbolCount <= s.maxSymbols
    ensures r.Ok? ==> Enough(r.value.symbolCount, r.value.alphabetSize, r.value.threshold)
    ensures r.Ok? ==> forall j :: 1 <= j < r.value.symbolCount ==> !Enough(j, r.value.alphabetSize, r.value.threshold)
  {
    var me := if minEntropy.Null? then OptionalInt(ThresholdForLevel(level, s.minEntropies)) else minEntropy;
    if !me.Int? && !me.Null? then Err(InvalidArgument)
    else if !(useVariations.Null? || useVariations.Bool?) then Err(InvalidArgument)
    else
      var f := FilterVariations(variations, s.flags);
      if f.Err? then Err(f.error)
      else
        var vc := |Slots(f.value)|;
        var t := if me.Int? then Some(me.i) else ThresholdForLevel(s.level, s.minEntropies);
        var alphabet := AlphabetSizeOf(s.wordCount, vc);
        var n := MinSymbolCount(t, alphabet, s.maxSymbols);
        if n.Err? then Err(n.error)
        else
          Ok(Request(separators, t, if useVariations.Null? then s.useVariations else useVariations.b,
                     f.value, vc, alphabet.value.size, n.value))
  }

  /** One symbol of the password: the word, varied when variations are on. */
  function Symbol(word: string, index: int, q: Request, last: bool): Applied
    requires word != []
  {
    if q.useVariations then ApplyVariation(word, index, q.flags, last) else Applied(word, NoVariation)
  }

  /** Words generatePassword can use: none empty, none with whitespace
      around it (what a valid dictionary holds). */
  predicate Usable(words: seq<string>)
  {
    forall w :: w in words ==> w != [] && Trimmed(w)
  }

  /** Symbol `j` of a password of `total`: a stored word, an index in the
      range generatePassword draws from, and the symbol they give, which is
      neither empty nor surrounded by whitespace. */
  predicate SymbolDrawn(words: seq<string>, q: Request, total: nat, j: nat, word: string, index: int, a: Applied)
  {
    && word in words && word != []
    && (q.useVariations ==> 0 <= index <= q.variationsCount)
    && a == Symbol(word, index, q, j + 1 == total)
    && a.word != [] && Trimmed(a.word)
  }

  predicate AllDrawn(words: seq<string>, q: Request, total: nat, picked: seq<string>, indices: seq<int>, applied: seq<Applied>)
  {
    && |picked| == |indices| == |applied|
    && forall j :: 0 <= j < |applied| ==> SymbolDrawn(words, q, total, j, picked[j], indices[j], applied[j])
  }

  lemma AllDrawnStep(words: seq<string>, q: Request, total: nat, picked: seq<string>, indices: seq<int>,
                     applied: seq<Applied>, word: string, index: int, a: Applied)
    requires AllDrawn(words, q, total, picked, indices, applied)
    requires SymbolDrawn(words, q, total, |applied|, word, index, a)
    ensures AllDrawn(words, q, total, picked + [word], indices + [index], applied + [a])
  {
  }

  /** A complete draw gives a password `trim` leaves alone: every symbol is
      a non-empty trimmed word, and no separator follows the last one. */
  lemma DrawnPasswordTrimmed(words: seq<string>, q: Request, picked: seq<string>, indices: seq<int>,
                             applied: seq<Applied>, separator: string)
    requires |applied| >= 1
    requires AllDrawn(words, q, q.symbolCount, picked, indices, applied)
    ensures Trimmed(Assembled(applied, separator, |applied|))
    ensures Trim(Assembled(applied, separator, |applied|)) == Assembled(applied, separator, |applied|)
  {
    forall j | 0 <= j < |applied|
      ensures applied[j].word != [] && Trimmed(applied[j].word)
    {
      assert SymbolDrawn(words, q, q.symbolCount, j, picked[j], indices[j], applied[j]);
    }
    TrimmedWhenWordsAre(applied, separator);
  }

  class PasswordGenerator {
    var dictionary: Dictionary
    var prng: RandomSource

    var minEntropies: seq<int>
    var defaultMinEntropies: seq<int>
    var level: int
    var defaultLevel: int
    var separators: string
    /** The separator of the last draw; null until the first one. */
    var separator: Option<string>
    var maxSymbols: int
    var useVariations: bool
    var capitalize: bool
    var punctuate: bool
    var allcaps: bool
    var addslashes: bool
    var defaultDictionaryFilename: Option<string>
    var lastPasswordSymbolCount: nat
    var minWordSize: int
    var minReadWordsWordSize: int

    ghost predicate Valid()
      reads this, dictionary
    {
      && Ascending(minEntropies)
      && Ascending(defaultMinEntropies)
      && |separators| >= 1 && NoDuplicates(separators)
      && (separator.Some? ==> |separator.value| == 1)
      && dictionary.Valid()
    }

    /** The object with the defaults of its field declarations and the
        given word sizes, before the constructor's remaining checks (see
        New). */
    constructor (dictionary: Dictionary, prng: RandomSource, minWordSize: int, minReadWordsWordSize: int)
      requires dictionary.Valid()
      ensures Valid()
      ensures this.dictionary == dictionary && this.prng == prng
      ensures minEntropies == defaultMinEntropies == DefaultMinEntropies
      ensures level == defaultLevel == DefaultLevel
      ensures separators == DefaultSeparator && separator.None?
      ensures maxSymbols == DefaultMaxSymbols && useVariations && CurrentFlags() == DefaultFlags
      ensures defaultDictionaryFilename.None? && lastPasswordSymbolCount == 0
      ensures this.minWordSize == minWordSize && this.minReadWordsWordSize == minReadWordsWordSize
    {
      this.dictionary := dictionary;
      this.prng := prng;
      minEntropies := DefaultMinEntropies;
      defaultMinEntropies := DefaultMinEntropies;
      level := DefaultLevel;
      defaultLevel := DefaultLevel;
      separators := DefaultSeparator;
      separator := None;
      maxSymbols := DefaultMaxSymbols;
      useVariations := true;
      capitalize := true;
      punctuate := true;
      allcaps := true;
      addslashes := false;
      defaultDictionaryFilename := None;
      lastPasswordSymbolCount := 0;
      this.minWordSize := minWordSize;
      this.minReadWordsWordSize := minReadWordsWordSize;
    }

    /** The four variation settings. */
    function CurrentFlags(): Flags
      reads this
    {
      Flags(capitalize, punctuate, allcaps, addslashes)
    }

    function Snapshot(): Settings
      reads this, dictionary
    {
      Settings(minEntropies, level, separators, maxSymbols, useVariations, CurrentFlags(), dictionary.wordCount)
    }

    /** The constructor: checks the word sizes, takes the dictionary (the
        default one is read from a file, which is not part of this model),
        then sets the level, the separators, the thresholds, the variation
        switch and the variations through their setters, failing at the
        first one that throws. */
    static method New(dictionary: DictionaryArg, level: Value, separators: Value, minEntropies: Value,
                      useVariations: Value, variations: Value, minWordSize: Value,
                      minReadWordsWordSize: Value, prng: RandomSource)
      returns (r: Result<PasswordGenerator>)
      requires dictionary.Dict? ==> dictionary.d.Valid()
      ensures r.Ok? ==> fresh(r.value) && r.value.Valid()
      ensures r.Ok? <==>
        && (minWordSize.Null? || minWordSize.Int?)
        && (minReadWordsWordSize.Null? || minReadWordsWordSize.Int?)
        && dictionary.Dict?
        && (level.Null? || level.Int?)
        && (separators.Null? || separators.Str?)
        && (minEntropies.Null? || AcceptedThresholds(minEntropies))
        && useVariations.Bool?
        && FilterVariations(variations, DefaultFlags).Ok?
      ensures (minWordSize.Null? || minWordSize.Int?) && (minReadWordsWordSize.Null? || minReadWordsWordSize.Int?) ==>
        && (dictionary.NullDictionary? ==> r == Err(ExternalSource))
        && (dictionary.NotADictionary? ==> r == Err(InvalidDictionary))
      ensures r.Err? && dictionary.Dict? ==> r.error == InvalidArgument
      ensures r.Ok? ==> r.value.Initial(
        dictionary.d, prng, IntOr(level, DefaultLevel), StoredSeparators(separators),
        ThresholdsOr(minEntropies, DefaultMinEntropies),
        useVariations.b, FilterVariations(variations, DefaultFlags).value,
        IntOr(minWordSize, DefaultMinWordSize), IntOr(minReadWordsWordSize, DefaultMinReadWordsWordSize))
    {
      if !(minWordSize.Null? || minWordSize.Int?) || !(minReadWordsWordSize.Null? || minReadWordsWordSize.Int?) {
        return Err(InvalidArgument);
      }
      match dictionary {
        case NullDictionary => return Err(ExternalSource);
        case NotADictionary => return Err(InvalidDictionary);
        case Dict(d) =>
          r := Build(d, prng, IntOr(minWordSize, DefaultMinWordSize),
                     IntOr(minReadWordsWordSize, DefaultMinReadWordsWordSize),
                     level, separators, minEntropies, useVariations, variations);
      }
    }

    /** The constructor once the word sizes and the dictionary are taken:
        the object with its declared defaults, then configured. */
    static method Build(dictionary: Dictionary, prng: RandomSource, minWordSize: int, minReadWordsWordSize: int,
                        level: Value, separators: Value, minEntropies: Value, useVariations: Value, variations: Value)
      returns (r: Result<PasswordGenerator>)
      requires dictionary.Valid()
      ensures r.Ok? ==> fresh(r.value) && r.value.Valid()
      ensures r.Ok? <==>
        && (level.Null? || level.Int?)
        && (separators.Null? || separators.Str?)
        && (minEntropies.Null? || AcceptedThresholds(minEntropies))
        && useVariations.Bool?
        && FilterVariations(variations, DefaultFlags).Ok?
      ensures r.Err? ==> r.error == InvalidArgument
      ensures r.Ok? ==> r.value.Initial(
        dictionary, prng, IntOr(level, DefaultLevel), StoredSeparators(separators),
        ThresholdsOr(minEntropies, DefaultMinEntropies), useVariations.b,
        FilterVariations(variations, DefaultFlags).value, minWordSize, minReadWordsWordSize)
    {
      var g := new PasswordGenerator(dictionary, prng, minWordSize, minReadWordsWordSize);
      var configured := g.Configure(level, separators, minEntropies, useVariations, variations);
      if configured.Err? {
        return Err(configured.error);
      }
      r := Ok(g);
    }

    /** The second half of the constructor: the level (the default level
        when null), the separators, the thresholds (the default ones when
        null), the variation switch and the variations, through their
        setters, stopping at the first that throws. */
    method Configure(level: Value, separators: Value, minEntropies: Value, useVariations: Value, variations: Value)
      returns (r: Result<bool>)
      requires Valid()
      modifies this`level, this`separators, this`minEntropies, this`defaultMinEntropies, this`useVariations
      modifies this`capitalize, this`punctuate, this`allcaps, this`addslashes
      ensures Valid() && defaultMinEntropies == old(defaultMinEntropies)
      ensures r.Ok? <==>
        && (level.Null? || level.Int?)
        && (separators.Null? || separators.Str?)
        && (minEntropies.Null? || AcceptedThresholds(minEntropies))
        && useVariations.Bool?
        && FilterVariations(variations, old(CurrentFlags())).Ok?
      ensures r.Err? ==> r.error == InvalidArgument
      ensures r.Ok? ==>
        && this.level == (if level.Null? then defaultLevel else level.i)
        && this.separators == StoredSeparators(separators)
        && this.minEntropies == ThresholdsOr(minEntropies, defaultMinEntropies)
        && this.useVariations == useVariations.b
        && CurrentFlags() == FilterVariations(variations, old(CurrentFlags())).value
    {
      r := ConfigureStrength(level, separators, minEntropies);
      if r.Err? {
        return;
      }
      r := ConfigureVariations(useVariations, variations);
    }

    /** The level, the separators and the thresholds of the constructor. */
    method ConfigureStrength(level: Value, separators: Value, minEntropies: Value) returns (r: Result<bool>)
      requires Valid()
      modifies this`level, this`separators, this`minEntropies, this`defaultMinEntropies
      ensures Valid() && defaultMinEntropies == old(defaultMinEntropies)
      ensures r.Ok? <==>
        && (level.Null? || level.Int?)
        && (separators.Null? || separators.Str?)
        && (minEntropies.Null? || AcceptedThresholds(minEntropies))
      ensures r.Err? ==> r.error == InvalidArgument
      ensures r.Ok? ==>
        && this.level == (if level.Null? then defaultLevel else level.i)
        && this.separators == StoredSeparators(separators)
        && this.minEntropies == ThresholdsOr(minEntropies, defaultMinEntropies)
    {
      if level.Null? {
        this.level := defaultLevel;
      } else {
        r := SetLevel(level);
        if r.Err? {
          return;
        }
      }
      r := SetSeparators(separators);
      if r.Err? {
        return;
      }
      if minEntropies.Null? {
        this.minEntropies := defaultMinEntropies;
      } else {
        r := SetMinEntropies(minEntropies, false);
      }
    }

    /** The variation switch and the variations of the constructor. */
    method ConfigureVariations(useVariations: Value, variations: Value) returns (r: Result<bool>)
      requires Valid()
      modifies this`useVariations, this`capitalize, this`punctuate, this`allcaps, this`addslashes
      ensures Valid()
      ensures r.Ok? <==> useVariations.Bool? && FilterVariations(variations, old(CurrentFlags())).Ok?
      ensures r.Err? ==> r.error == InvalidArgument
      ensures r.Ok? ==>
        && this.useVariations == useVariations.b
        && CurrentFlags() == FilterVariations(variations, old(CurrentFlags())).value
    {
      r := SetUseVariations(useVariations);
      if r.Err? {
        return;
      }
      r := SetVariations(variations);
    }

    /** The state the constructor leaves: the given settings, the default
        cap and default tables, no separator drawn and no password yet. */
    ghost predicate Initial(dictionary: Dictionary, prng: RandomSource, level: int, separators: string,
                            minEntropies: seq<int>, useVariations: bool, flags: Flags,
                            minWordSize: int, minReadWordsWordSize: int)
      reads this
    {
      && this.dictionary == dictionary && this.prng == prng
      && this.level == level && defaultLevel == DefaultLevel
      && this.separators == separators && separator.None?
      && this.minEntropies == minEntropies && defaultMinEntropies == DefaultMinEntropies
      && this.useVariations == useVariations && CurrentFlags() == flags
      && this.minWordSize == minWordSize && this.minReadWordsWordSize == minReadWordsWordSize
      && maxSymbols == DefaultMaxSymbols && lastPasswordSymbolCount == 0
      && defaultDictionaryFilename.None?
    }

    /** setDictionary: only a dictionary object is accepted. */
    method SetDictionary(dictionary: DictionaryArg) returns (r: Result<bool>)
      requires Valid()
      requires dictionary.Dict? ==> dictionary.d.Valid()
      modifies this`dictionary
      ensures Valid()
      ensures dictionary.Dict? ==> r == Ok(true) && this.dictionary == dictionary.d
      ensures !dictionary.Dict? ==> r == Err(InvalidDictionary) && this.dictionary == old(this.dictionary)
    {
      if !dictionary.Dict? {
        return Err(InvalidDictionary);
      }
      this.dictionary := dictionary.d;
      r := Ok(true);
    }

    /** setMaxSymbols: an int, stored as given. */
    method SetMaxSymbols(maxSymbols: Value) returns (r: Result<bool>)
      requires Valid()
      modifies this`maxSymbols
      ensures Valid()
      ensures maxSymbols.Int? ==> r == Ok(true) && this.maxSymbols == maxSymbols.i
      ensures !maxSymbols.Int? ==> r == Err(InvalidArgument) && this.maxSymbols == old(this.maxSymbols)
    {
      if !maxSymbols.Int? {
        return Err(InvalidArgument);
      }
      this.maxSymbols := maxSymbols.i;
      r := Ok(true);
    }

    /** setAddslashes: a bool. */
    method SetAddslashes(addslashes: Value) returns (r: Result<bool>)
      requires Valid()
      modifies this`addslashes
      ensures Valid()
      ensures addslashes.Bool? ==> r == Ok(true) && this.addslashes == addslashes.b
      ensures !addslashes.Bool? ==> r == Err(InvalidArgument) && this.addslashes == old(this.addslashes)
    {
      if !addslashes.Bool? {
        return Err(InvalidArgument);
      }
      this.addslashes := addslashes.b;
      r := Ok(true);
    }

    /** setAllcaps: a bool. */
    method SetAllcaps(allcaps: Value) returns (r: Result<bool>)
      requires Valid()
      modifies this`allcaps
      ensures Valid()
      ensures allcaps.Bool? ==> r == Ok(true) && this.allcaps == allcaps.b
      ensures !allcaps.Bool? ==> r == Err(InvalidArgument) && this.allcaps == old(this.allcaps)
    {
      if !allcaps.Bool? {
        return Err(InvalidArgument);
      }
      this.allcaps := allcaps.b;
      r := Ok(true);
    }

    /** setCapitalize: a bool. */
    method SetCapitalize(capitalize: Value) returns (r: Result<bool>)
      requires Valid()
      modifies this`capitalize
      ensures Valid()
      ensures capitalize.Bool? ==> r == Ok(true) && this.capitalize == capitalize.b
      ensures !capitalize.Bool? ==> r == Err(InvalidArgument) && this.capitalize == old(this.capitalize)
    {
      if !capitalize.Bool? {
        return Err(InvalidArgument);
      }
      this.capitalize := capitalize.b;
      r := Ok(true);
    }

    /** setPunctuate: a bool. */
    method SetPunctuate(punctuate: Value) returns (r: Result<bool>)
      requires Valid()
      modifies this`punctuate
      ensures Valid()
      ensures punctuate.Bool? ==> r == Ok(true) && this.punctuate == punctuate.b
      ensures !punctuate.Bool? ==> r == Err(InvalidArgument) && this.punctuate == old(this.punctuate)
    {
      if !punctuate.Bool? {
        return Err(InvalidArgument);
      }
      this.punctuate := punctuate.b;
      r := Ok(true);
    }

    /** setUseVariations: a bool. */
    method SetUseVariations(useVariations: Value) returns (r: Result<bool>)
      requires Valid()
      modifies this`useVariations
      ensures Valid()
      ensures useVariations.Bool? ==> r == Ok(true) && this.useVariations == useVariations.b
      ensures !useVariations.Bool? ==> r == Err(InvalidArgument) && this.useVariations == old(this.useVariations)
    {
      if !useVariations.Bool? {
        return Err(InvalidArgument);
      }
      this.useVariations := useVariations.b;
      r := Ok(true);
    }

    /** setDefaultDictionaryFilename: a string. */
    method SetDefaultDictionaryFilename(filename: Value) returns (r: Result<bool>)
      requires Valid()
      modifies this`defaultDictionaryFilename
      ensures Valid()
      ensures filename.Str? ==> r == Ok(true) && defaultDictionaryFilename == Some(filename.s)
      ensures !filename.Str? ==> r == Err(InvalidArgument) && defaultDictionaryFilename == old(defaultDictionaryFilename)
    {
      if !filename.Str? {
        return Err(InvalidArgument);
      }
      defaultDictionaryFilename := Some(filename.s);
      r := Ok(true);
    }

    /** setDefaultLevel: an int. */
    method SetDefaultLevel(defaultLevel: Value) returns (r: Result<bool>)
      requires Valid()
      modifies this`defaultLevel
      ensures Valid()
      ensures defaultLevel.Int? ==> r == Ok(true) && this.defaultLevel == defaultLevel.i
      ensures !defaultLevel.Int? ==> r == Err(InvalidArgument) && this.defaultLevel == old(this.defaultLevel)
    {
      if !defaultLevel.Int? {
        return Err(InvalidArgument);
      }
      this.defaultLevel := defaultLevel.i;
      r := Ok(true);
    }

    /** setLevel: an int; any int is accepted, even one past the table. */
    method SetLevel(level: Value) returns (r: Result<bool>)
      requires Valid()
      modifies this`level
      ensures Valid()
      ensures level.Int? ==> r == Ok(true) && this.level == level.i
      ensures !level.Int? ==> r == Err(InvalidArgument) && this.level == old(this.level)
    {
      if !level.Int? {
        return Err(InvalidArgument);
      }
      this.level := level.i;
      r := Ok(true);
    }

    /** setSeparators: null or '' store the default separator; a string
        stores its distinct characters in order of first occurrence;
        anything else throws and changes nothing. */
    method SetSeparators(separators: Value) returns (r: Result<bool>)
      requires Valid()
      modifies this`separators
      ensures Valid()
      ensures separators.Null? || separators == Str("") ==> r == Ok(true) && this.separators == DefaultSeparator
      ensures separators.Str? && separators.s != "" ==> r == Ok(true) && this.separators == Unique(separators.s)
      ensures !(separators.Null? || separators.Str?) ==> r == Err(InvalidArgument) && this.separators == old(this.separators)
    {
      if separators.Null? || separators == Str("") {
        this.separators := DefaultSeparator;
        return Ok(true);
      }
      if !separators.Str? {
        return Err(InvalidArgument);
      }
      assert separators.s[0] in Unique(separators.s);
      this.separators := Unique(separators.s);
      r := Ok(true);
    }

    /** setSeparator: draws one character of the given separators (or of
        the stored ones) and stores it; the default separator when there is
        none to draw. */
    method SetSeparator(separators: Option<string>) returns (r: string)
      requires Valid()
      modifies this`separator, prng
      ensures Valid()
      ensures separator == Some(r)
      ensures DrawnFrom(r, if separators.Some? then separators.value else old(this.separators))
    {
      var s := if separators.Some? then separators.value else this.separators;
      if |s| > 0 {
        var i := prng.Rand(0, |s| - 1);
        r := [s[i]];
      } else {
        r := DefaultSeparator;
      }
      separator := Some(r);
    }

    /** setMinEntropies: an ascending table of positive ints replaces the
        thresholds, or the default thresholds when `default` is set;
        anything else throws before either is assigned. */
    method SetMinEntropies(minEntropies: Value, default: bool) returns (r: Result<bool>)
      requires Valid()
      modifies this`minEntropies, this`defaultMinEntropies
      ensures Valid()
      ensures !AcceptedThresholds(minEntropies) ==> r == Err(InvalidArgument)
      ensures !AcceptedThresholds(minEntropies) || default ==> this.minEntropies == old(this.minEntropies)
      ensures !AcceptedThresholds(minEntropies) || !default ==> defaultMinEntropies == old(defaultMinEntropies)
      ensures AcceptedThresholds(minEntropies) ==> r == Ok(true)
      ensures AcceptedThresholds(minEntropies) && !default ==> this.minEntropies == Ints(minEntropies.items)
      ensures AcceptedThresholds(minEntropies) && default ==> defaultMinEntropies == Ints(minEntropies.items)
    {
      var ok := CheckThresholds(minEntropies);
      if !ok {
        return Err(InvalidArgument);
      }
      AcceptedGivesAscending(minEntropies);
      if default {
        defaultMinEntropies := Ints(minEntropies.items);
      } else {
        this.minEntropies := Ints(minEntropies.items);
      }
      r := Ok(true);
    }

    /** setDefaultMinEntropies (older copy only): the same check, for the
        default thresholds. */
    method SetDefaultMinEntropies(minEntropies: Value) returns (r: Result<bool>)
      requires Valid()
      modifies this`defaultMinEntropies
      ensures Valid()
      ensures !AcceptedThresholds(minEntropies) ==> r == Err(InvalidArgument) && defaultMinEntropies == old(defaultMinEntropies)
      ensures AcceptedThresholds(minEntropies) ==> r == Ok(true) && defaultMinEntropies == Ints(minEntropies.items)
    {
      var ok := CheckThresholds(minEntropies);
      if !ok {
        return Err(InvalidArgument);
      }
      AcceptedGivesAscending(minEntropies);
      defaultMinEntropies := Ints(minEntropies.items);
      r := Ok(true);
    }

    /** A level argument, null being the stored level. */
    function LevelOf(level: Value): int
      reads this
    {
      if level.Int? then level.i else this.level
    }

    /** getMinEntropyForLevel: the threshold of a level in the given table
        (or the stored one), null when the level is past the end. A
        string-keyed array has no int index, so every lookup gives null. */
    function GetMinEntropyForLevel(level: Value, minEntropies: Value): (r: Result<Value>)
      reads this
      ensures !(level.Null? || level.Int?) ==> r == Err(InvalidArgument)
      ensures (level.Null? || level.Int?) && !(minEntropies.Null? || IsArray(minEntropies)) ==> r == Err(InvalidArgument)
      ensures (level.Null? || level.Int?) && minEntropies.Null? ==>
        r == Ok(OptionalInt(ThresholdForLevel(LevelOf(level), this.minEntropies)))
      ensures (level.Null? || level.Int?) && minEntropies.List? ==>
        r == Ok(var t := ThresholdForLevel(LevelOf(level), minEntropies.items); if t.Some? then t.value else Null)
      ensures (level.Null? || level.Int?) && minEntropies.Record? ==> r == Ok(Null)
    {
      if !(level.Null? || level.Int?) then Err(InvalidArgument)
      else
        var lvl := if level.Null? then this.level else level.i;
        if minEntropies.Null? then
          var t := ThresholdForLevel(lvl, AsValues(this.minEntropies));
          Ok(if t.Some? then t.value else Null)
        else if minEntropies.List? then
          var t := ThresholdForLevel(lvl, minEntropies.items);
          Ok(if t.Some? then t.value else Null)
        else if minEntropies.Record? then Ok(Null)
        else Err(InvalidArgument)
    }

    /** getMinEntropy: the threshold of the given level, or of the stored
        one, in the stored table. */
    function GetMinEntropy(level: Value): (r: Result<Option<int>>)
      reads this
      ensures !(level.Null? || level.Int?) ==> r == Err(InvalidArgument)
      ensures level.Null? ==> r == Ok(ThresholdForLevel(this.level, minEntropies))
      ensures level.Int? ==> r == Ok(ThresholdForLevel(level.i, minEntropies))
    {
      match GetMinEntropyForLevel(level, Null)
      case Err(e) => Err(e)
      case Ok(v) => Ok(if v.Int? then Some(v.i) else None)
    }

    /** getVariations: the four settings as an array, which filterVariations
        accepts back unchanged. */
    function GetVariations(): (r: Value)
      reads this
      ensures FilterVariations(r, CurrentFlags()) == Ok(CurrentFlags())
      ensures r.Record? && |r.fields| == 4
    {
      FilterAsArray(CurrentFlags(), CurrentFlags());
      assert (set k | k in ValidKeys) == {"capitalize", "punctuate", "allcaps", "addslashes"};
      AsArray(CurrentFlags())
    }

    /** setVariations: the filtered array replaces the four settings;
        nothing changes when the filter throws. */
    method SetVariations(variations: Value) returns (r: Result<bool>)
      requires Valid()
      modifies this`capitalize, this`punctuate, this`allcaps, this`addslashes
      ensures Valid()
      ensures var f := FilterVariations(variations, old(CurrentFlags()));
        && (f.Ok? ==> r == Ok(true) && CurrentFlags() == f.value)
        && (f.Err? ==> r == Err(f.error) && CurrentFlags() == old(CurrentFlags()))
    {
      var f := FilterVariations(variations, CurrentFlags());
      if f.Err? {
        return Err(f.error);
      }
      capitalize, punctuate, allcaps, addslashes := f.value.capitalize, f.value.punctuate, f.value.allcaps, f.value.addslashes;
      r := Ok(true);
    }

    /** getVariationsCount: the number of slots of the filtered variations. */
    method GetVariationsCount(variations: Value) returns (r: Result<nat>)
      ensures var f := FilterVariations(variations, CurrentFlags());
        && (f.Ok? ==> r == Ok(|Slots(f.value)|))
        && (f.Err? ==> r == Err(f.error))
      ensures r.Ok? ==> r.value <= 6
    {
      var f := FilterVariations(variations, CurrentFlags());
      if f.Err? {
        return Err(f.error);
      }
      var count := CountVariations(f.value);
      r := Ok(count);
    }

    /** getSeparatorsCount: the length of a string, or the size of an
        array; null takes the stored separators. */
    function GetSeparatorsCount(separators: Value): (r: Result<nat>)
      reads this
      ensures separators.Null? ==> r == Ok(|this.separators|)
      ensures separators.Str? ==> r == Ok(|separators.s|)
      ensures separators.List? ==> r == Ok(|separators.items|)
      ensures separators.Record? ==> r == Ok(|separators.fields|)
      ensures !(separators.Null? || separators.Str? || IsArray(separators)) ==> r == Err(InvalidArgument)
    {
      match separators
      case Null => Ok(|this.separators|)
      case List(items) => Ok(|items|)
      case Record(fields) => Ok(|fields|)
      case Str(s) => Ok(|s|)
      case _ => Err(InvalidArgument)
    }

    /** The dictionary an argument designates, null being the stored one. */
    function DictionaryOf(dictionary: DictionaryArg): Dictionary
      reads this
    {
      if dictionary.Dict? then dictionary.d else this.dictionary
    }

    /** getAlphabetSize: words times `2^variationsCount`. A dictionary
        argument must be a dictionary object; a null variation count takes
        the count of the stored variations. */
    method GetAlphabetSize(dictionary: DictionaryArg, variationsCount: Value) returns (r: Result<AlphabetSize>)
      ensures dictionary.NotADictionary? ==> r == Err(InvalidDictionary)
      ensures !dictionary.NotADictionary? && !(variationsCount.Null? || variationsCount.Int?) ==> r == Err(InvalidArgument)
      ensures !dictionary.NotADictionary? && (variationsCount.Null? || variationsCount.Int?) ==>
        r == AlphabetSizeOf(DictionaryOf(dictionary).wordCount,
                            if variationsCount.Null? then |Slots(CurrentFlags())| else variationsCount.i)
    {
      if dictionary.NotADictionary? {
        return Err(InvalidDictionary);
      }
      var d := DictionaryOf(dictionary);
      var vc: int;
      if variationsCount.Null? {
        var count := GetVariationsCount(Null);
        vc := count.value;
      } else if !variationsCount.Int? {
        return Err(InvalidArgument);
      } else {
        vc := variationsCount.i;
      }
      r := AlphabetSizeOf(d.wordCount, vc);
    }

    /** getSymbolCount: `true` gives the word count of the last password;
        a separator gives the number of pieces `explode` cuts the password
        into; null takes the stored separator. An empty or null separator is
        refused by `explode`. */
    function GetSymbolCount(password: string, lastOrSeparator: Value): (r: Result<nat>)
      reads this
      ensures var l := if lastOrSeparator.Null? then (if separator.Some? then Str(separator.value) else Null) else lastOrSeparator;
        && (l == Bool(true) ==> r == Ok(lastPasswordSymbolCount))
        && (l.Str? && l.s != "" ==> r == Ok(|Explode(l.s, password)|) && r.value >= 1)
        && (l != Bool(true) && !(l.Str? && l.s != "") ==> r == Err(InvalidArgument))
    {
      var l := if lastOrSeparator.Null? then (if separator.Some? then Str(separator.value) else Null) else lastOrSeparator;
      if l == Bool(true) then Ok(lastPasswordSymbolCount)
      else if l.Str? && l.s != "" then Ok(|Explode(l.s, password)|)
      else Err(InvalidArgument)
    }

    /** getMinSymbolCount: the loop `while ($n <= $max && entropy(++$n) <
        $minEntropy)`, which stops at the first count that reaches the
        threshold and fails when that count is past the cap. A null
        threshold takes the stored level's; a null variation count takes
        the stored variations'. */
    method GetMinSymbolCount(minEntropy: Value, dictionary: DictionaryArg, variationsCount: Value) returns (r: Result<nat>)
      requires !minEntropy.Float? && !minEntropy.Str?
      ensures !(variationsCount.Null? || variationsCount.Int?) ==> r == Err(InvalidArgument)
      ensures (variationsCount.Null? || variationsCount.Int?) && !(minEntropy.Null? || minEntropy.Int?) ==> r == Err(InvalidArgument)
      ensures (variationsCount.Null? || variationsCount.Int?) && (minEntropy.Null? || minEntropy.Int?) && dictionary.NotADictionary? ==>
        r == Err(InvalidDictionary)
      ensures (variationsCount.Null? || variationsCount.Int?) && (minEntropy.Null? || minEntropy.Int?) && !dictionary.NotADictionary? ==>
        r == MinSymbolCount(if minEntropy.Int? then Some(minEntropy.i) else ThresholdForLevel(level, minEntropies),
                            AlphabetSizeOf(DictionaryOf(dictionary).wordCount,
                                           if variationsCount.Null? then |Slots(CurrentFlags())| else variationsCount.i),
                            maxSymbols)
    {
      var vc: int;
      if variationsCount.Null? {
        var count := GetVariationsCount(Null);
        vc := count.value;
      } else if !variationsCount.Int? {
        return Err(InvalidArgument);
      } else {
        vc := variationsCount.i;
      }
      var t: Option<int>;
      if minEntropy.Null? {
        t := GetMinEntropy(Null).value;
      } else if !minEntropy.Int? {
        return Err(InvalidArgument);
      } else {
        t := Some(minEntropy.i);
      }
      if dictionary.NotADictionary? {
        return Err(InvalidDictionary);
      }
      var d := DictionaryOf(dictionary);
      ghost var alphabet := AlphabetSizeOf(d.wordCount, vc);
      var max := maxSymbols;
      var n := 0;
      var found := false;
      while n <= max && !found
        invariant 0 <= n
        invariant n > 0 ==> n <= max + 1 && alphabet.Ok? && alphabet.value.Exact?
        invariant n > 0 ==> forall j :: 1 <= j < n ==> !Enough(j, alphabet.value.size, t)
        invariant found ==> n > 0
        invariant n > 0 ==> found == Enough(n, alphabet.value.size, t)
        decreases max - n
      {
        n := n + 1;
        var size := AlphabetSizeOf(d.wordCount, vc);
        if size.Err? {
          return Err(size.error);
        }
        if size.value.Fractional? {
          return Err(NotAnInt);
        }
        found := Enough(n, size.value.size, t);
      }
      if n > max {
        return Err(SymbolCapExceeded);
      }
      r := Ok(n);
    }

    /** The separators generatePassword would draw from, for the current
        settings. */
    function SeparatorsOf(dictionary: DictionaryArg, level: Value, separators: Value): Option<string>
      reads this, this.dictionary
    {
      SeparatorsFor(Snapshot(), dictionary, level, separators)
    }

    /** generatePassword: after the checks of Prepare, and the separator
        draw that happens among them, `n` words are drawn from the
        dictionary; each is varied by a random index of `[0,
        variationsCount]` when variations are on, and followed by the
        separator unless it is the last word or took addslashes. The word
        count is recorded and the trimmed password returned. `picked`,
        `indices` and `applied` name the drawn words, the drawn indices and
        the symbols they gave. */
    method GeneratePassword(dictionary: DictionaryArg, minEntropy: Value, level: Value,
                            separators: Value, useVariations: Value, variations: Value)
      returns (r: Result<string>, ghost picked: seq<string>, ghost indices: seq<int>, ghost applied: seq<Applied>)
      requires Valid()
      modifies this`separator, this`lastPasswordSymbolCount, prng, this.dictionary.prng
      ensures Valid() && Snapshot() == old(Snapshot())
      ensures var sf := old(SeparatorsOf(dictionary, level, separators));
        && (sf.Some? ==> separator.Some? && DrawnFrom(separator.value, sf.value))
        && (sf.None? ==> separator == old(separator))
      ensures var q := Prepare(old(Snapshot()), dictionary, minEntropy, level, separators, useVariations, variations);
        && (r.Err? <==> q.Err?)
        && (r.Err? ==> r.error == q.error && lastPasswordSymbolCount == old(lastPasswordSymbolCount))
        && (r.Ok? ==>
              && lastPasswordSymbolCount == q.value.symbolCount
              && |applied| == q.value.symbolCount
              && AllDrawn(this.dictionary.words, q.value, q.value.symbolCount, picked, indices, applied)
              && r.value == Assembled(applied, separator.value, |applied|)
              && Trimmed(r.value))
    {
      picked, indices, applied := [], [], [];
      var q, sep := Settle(dictionary, minEntropy, level, separators, useVariations, variations);
      if q.Err? {
        return Err(q.error), picked, indices, applied;
      }
      r, picked, indices, applied := Emit(q.value, sep);
    }

    /** The end of generatePassword: the word loop with the chosen
        separator, then the record of the number of words. */
    method Emit(q: Request, sep: string)
      returns (r: Result<string>, ghost picked: seq<string>, ghost indices: seq<int>, ghost applied: seq<Applied>)
      requires Valid() && dictionary.wordCount >= 1
      requires q.symbolCount >= 1 && q.variationsCount == |Slots(q.flags)|
      modifies this`lastPasswordSymbolCount, prng, this.dictionary.prng
      ensures Valid() && Snapshot() == old(Snapshot()) && separator == old(separator)
      ensures lastPasswordSymbolCount == q.symbolCount && |applied| == q.symbolCount
      ensures AllDrawn(dictionary.words, q, q.symbolCount, picked, indices, applied)
      ensures r == Ok(Assembled(applied, sep, |applied|)) && Trimmed(r.value)
    {
      dictionary.CountIsSize();
      picked, indices, applied, r := DrawWords(q, sep);
      lastPasswordSymbolCount := q.symbolCount;
    }

    /** The checks and the separator draw of generatePassword, up to the
        number of words. */
    method Settle(dictionary: DictionaryArg, minEntropy: Value, level: Value,
                  separators: Value, useVariations: Value, variations: Value)
      returns (q: Result<Request>, sep: string)
      requires Valid()
      modifies this`separator, prng
      ensures Valid() && Snapshot() == old(Snapshot())
      ensures var sf := old(SeparatorsOf(dictionary, level, separators));
        && (sf.Some? ==> separator.Some? && DrawnFrom(separator.value, sf.value))
        && (sf.None? ==> separator == old(separator))
      ensures q == Prepare(old(Snapshot()), dictionary, minEntropy, level, separators, useVariations, variations)
      ensures q.Ok? ==> separator == Some(sep)
    {
      sep := DefaultSeparator;
      if !dictionary.NullDictionary? {
        return Err(InvalidDictionary), sep;
      }
      var lvl: int;
      var me := minEntropy;
      if level.Null? {
        lvl := this.level;
      } else if !level.Int? {
        return Err(InvalidArgument), sep;
      } else {
        lvl := level.i;
        me := OptionalInt(GetMinEntropy(Int(lvl)).value);
      }
      var seps: string;
      if separators.Null? {
        seps := this.separators;
      } else if !separators.Str? {
        return Err(InvalidArgument), sep;
      } else {
        seps := separators.s;
      }
      sep := SetSeparator(Some(seps));
      q := ResolveRequest(seps, lvl, me, useVariations, variations);
    }

    /** Resolve, as generatePassword runs it on the current settings. */
    method ResolveRequest(separators: string, level: int, minEntropy: Value, useVariations: Value, variations: Value)
      returns (q: Result<Request>)
      requires dictionary.wordCount >= 0
      ensures q == Resolve(Snapshot(), separators, level, minEntropy, useVariations, variations)
    {
      var me := minEntropy;
      if me.Null? {
        me := OptionalInt(GetMinEntropy(Int(level)).value);
      } else if !me.Int? {
        return Err(InvalidArgument);
      }
      var uv: bool;
      if useVariations.Null? {
        uv := this.useVariations;
      } else if !useVariations.Bool? {
        return Err(InvalidArgument);
      } else {
        uv := useVariations.b;
      }
      var filtered := FilterVariations(variations, CurrentFlags());
      if filtered.Err? {
        return Err(filtered.error);
      }
      var flags := filtered.value;
      FilterAsArray(flags, CurrentFlags());
      var vcount := GetVariationsCount(AsArray(flags));
      var vc := vcount.value;
      var count := GetMinSymbolCount(me, Dict(dictionary), Int(vc));
      if count.Err? {
        return Err(count.error);
      }
      var t := if me.Int? then Some(me.i) else ThresholdForLevel(this.level, minEntropies);
      q := Ok(Request(separators, t, uv, flags, vc, AlphabetSizeOf(dictionary.wordCount, vc).value.size, count.value));
    }

    /** One iteration of the word loop: a word drawn from the dictionary,
        trimmed, and varied by an index drawn from `[0, variationsCount]`
        when variations are on. */
    method DrawSymbol(q: Request, total: nat, j: nat) returns (word: string, index: int, a: Applied)
      requires Usable(dictionary.words) && |dictionary.words| >= 1
      requires q.variationsCount == |Slots(q.flags)|
      modifies prng, dictionary.prng
      ensures SymbolDrawn(dictionary.words, q, total, j, word, index, a)
    {
      var last := j + 1 == total;
      var drawn := dictionary.GetRandomWord(None);
      var stored := drawn.value.value;
      assert stored != [] && Trimmed(stored);
      word := Trim(stored);
      assert word == stored;
      if q.useVariations {
        index := prng.Rand(0, q.variationsCount);
        ApplyVariationKeepsTrimmed(word, index, q.flags, last);
        a := ApplyVariation(word, index, q.flags, last);
      } else {
        index := 0;
        a := Applied(word, NoVariation);
      }
      assert a == Symbol(word, index, q, last);
    }

    /** One turn of the word loop: draws the next symbol and appends it,
        with the separator unless it is the last, to the password. */
    method DrawNext(q: Request, total: nat, j: nat, separator: string, ghost picked: seq<string>, ghost indices: seq<int>,
                    ghost applied: seq<Applied>, password: string)
      returns (ghost picked': seq<string>, ghost indices': seq<int>, ghost applied': seq<Applied>, password': string)
      requires Usable(dictionary.words) && |dictionary.words| >= 1 && q.variationsCount == |Slots(q.flags)|
      requires |applied| == j < total && AllDrawn(dictionary.words, q, total, picked, indices, applied)
      requires password == Assembled(applied, separator, total)
      modifies prng, dictionary.prng
      ensures |applied'| == |applied| + 1 && AllDrawn(dictionary.words, q, total, picked', indices', applied')
      ensures password' == Assembled(applied', separator, total)
    {
      var word, index, a := DrawSymbol(q, total, j);
      AssembledStep(applied, a, separator, total);
      AllDrawnStep(dictionary.words, q, total, picked, indices, applied, word, index, a);
      password' := password + Piece(a, separator, j + 1 == total);
      picked', indices', applied' := picked + [word], indices + [index], applied + [a];
    }

    /** The word loop of generatePassword for a settled request: draws the
        words, varies them, joins them and trims the result (which, the
        words being trimmed, changes nothing). */
    method DrawWords(q: Request, separator: string)
      returns (ghost picked: seq<string>, ghost indices: seq<int>, ghost applied: seq<Applied>, r: Result<string>)
      requires Usable(dictionary.words)
      requires q.symbolCount >= 1 && |dictionary.words| >= 1 && q.variationsCount == |Slots(q.flags)|
      modifies prng, dictionary.prng
      ensures |applied| == q.symbolCount && AllDrawn(dictionary.words, q, q.symbolCount, picked, indices, applied)
      ensures r == Ok(Assembled(applied, separator, |applied|)) && Trimmed(r.value)
    {
      picked, indices, applied := [], [], [];
      var d := dictionary;
      var n := q.symbolCount;
      var password := "";
      var i := 0;
      while i < n
        invariant 0 <= i <= n
        invariant |applied| == i
        invariant AllDrawn(d.words, q, n, picked, indices, applied)
        invariant password == Assembled(applied, separator, n)
      {
        picked, indices, applied, password := DrawNext(q, n, i, separator, picked, indices, applied, password);
        i := i + 1;
      }
      DrawnPasswordTrimmed(d.words, q, picked, indices, applied, separator);
      r := Ok(Trim(password));
    }

    /** getEntropy, as the terms of its figure: the separators count (the
        stored separators' when null and `lastOrSeparator` is not `false`,
        1 when it is), the symbol count of the password and the alphabet
        size. The variation count is checked for an int only when a
        separators count is given; an explicit dictionary is always refused,
        its test naming the interface without its namespace. A separators
        count `log` cannot take (a non-numeric string, an array, an object)
        is refused before the password is counted. */
    method GetEntropy(password: string, dictionary: DictionaryArg, variationsCount: Value,
                      lastOrSeparator: Value, separatorsCount: Value) returns (r: Result<EntropyFigure>)
      ensures var vcOk, scOk := variationsCount.Null? || variationsCount.Int?,
                                separatorsCount.Null? || AcceptedAsFloat(separatorsCount);
        && (!separatorsCount.Null? && !vcOk ==> r == Err(InvalidArgument))
        && ((separatorsCount.Null? || vcOk) && !dictionary.NullDictionary? ==> r == Err(InvalidDictionary))
        && ((separatorsCount.Null? || vcOk) && dictionary.NullDictionary? && !scOk ==> r == Err(InvalidArgument))
        && ((separatorsCount.Null? || vcOk) && dictionary.NullDictionary? && scOk ==>
              var symbols := GetSymbolCount(password, lastOrSeparator);
              var size := AlphabetSizeOf(this.dictionary.wordCount,
                                         if variationsCount.Int? then variationsCount.i else |Slots(CurrentFlags())|);
              && (symbols.Err? ==> r == Err(symbols.error))
              && (symbols.Ok? && !vcOk ==> r == Err(InvalidArgument))
              && (symbols.Ok? && vcOk && size.Err? ==> r == Err(size.error))
              && (symbols.Ok? && vcOk && size == Ok(Fractional) ==> r == Err(NotAnInt))
              && (symbols.Ok? && vcOk && size.Ok? && size.value.Exact? ==>
                    r == Ok(EntropyFigure(
                           if !separatorsCount.Null? then separatorsCount
                           else if lastOrSeparator != Bool(false) then Int(|this.separators|)
                           else Int(1),
                           symbols.value, size.value.size))))
    {
      var vc := variationsCount;
      if vc.Null? {
        var count := GetVariationsCount(Null);
        vc := Int(count.value);
      }
      var sc := separatorsCount;
      if sc.Null? {
        if lastOrSeparator != Bool(false) {
          sc := Int(GetSeparatorsCount(Null).value);
        } else {
          sc := Int(1);
        }
      } else if !vc.Int? {
        return Err(InvalidArgument);
      }
      if !dictionary.NullDictionary? {
        return Err(InvalidDictionary);
      }
      if !AcceptedAsFloat(sc) {
        return Err(InvalidArgument);
      }
      var symbols := GetSymbolCount(password, lastOrSeparator);
      if symbols.Err? {
        return Err(symbols.error);
      }
      var size := GetAlphabetSize(Dict(this.dictionary), vc);
      if size.Err? {
        return Err(size.error);
      }
      var e := CalculateEntropy(Int(symbols.value), AlphabetValue(size.value), size);
      if e.Err? {
        return Err(e.error);
      }
      r := Ok(e.value.(separatorsCount := sc));
    }
  }

  /** What getSeparatorsCount reports after setSeparators: the number of
      distinct characters of the string given. */
  lemma SeparatorsCountIsDistinct(s: string)
    ensures |Unique(s)| == |set c | c in s|
  {
    DistinctCardinality(Unique(s));
    assert (set c | c in Unique(s)) == (set c | c in s);
  }

  /** setSeparators is idempotent: storing the stored separators again
      changes nothing. */
  lemma SetSeparatorsIdempotent(s: string)
    ensures Unique(Unique(s)) == Unique(s)
  {
  }

  /** An explicit level decides the threshold whatever explicit threshold
      is passed along with it. */
  lemma ExplicitLevelOverridesMinEntropy(s: Settings, level: int, me: Value, me': Value,
                                         separators: Value, useVariations: Value, variations: Value)
    requires s.wordCount >= 0
    ensures Prepare(s, NullDictionary, me, Int(level), separators, useVariations, variations)
         == Prepare(s, NullDictionary, me', Int(level), separators, useVariations, variations)
  {
  }

  /** A stored level past the end of the table has no threshold (the lookup
      does not clamp), and a null threshold is reached by any count: with
      every argument null, generatePassword then settles on one word,
      whatever the dictionary size and the variations. */
  lemma LevelPastTableGivesOneWord(s: Settings)
    requires s.wordCount >= 1 && s.maxSymbols >= 1 && s.level >= |s.minEntropies|
    ensures Prepare(s, NullDictionary, Null, Null, Null, Null, Null).Ok?
    ensures Prepare(s, NullDictionary, Null, Null, Null, Null, Null).value.threshold.None?
    ensures Prepare(s, NullDictionary, Null, Null, Null, Null, Null).value.symbolCount == 1
  {
    var vc := |Slots(s.flags)|;
    var alphabet := AlphabetSizeOf(s.wordCount, vc);
    assert alphabet.Ok? && alphabet.value.Exact?;
    assert Enough(1, alphabet.value.size, None);
    assert MinSymbolCount(None, alphabet, s.maxSymbols) == Ok(1);
  }

  /** The index range of generatePassword includes `variationsCount`
      itself, which selects no slot: that draw leaves the word as it is. */
  lemma TopIndexLeavesWord(word: string, f: Flags, last: bool)
    ensures ApplyVariation(word, |Slots(f)|, f, last) == Applied(word, NoVariation)
  {
  }

  lemma {:induction false} PowersOfThreeHundredTwentyThousand()
    ensures Pow(320000, 6) == 1073741824000000000000000000000000
    ensures Pow(320000, 7) == 343597383680000000000000000000000000000
  {
    assert Pow(320000, 1) == 320000;
    PowAdd(320000, 1, 1);
    assert Pow(320000, 2) == 102400000000;
    PowAdd(320000, 2, 1);
    assert Pow(320000, 3) == 32768000000000000;
    PowAdd(320000, 3, 3);
    assert Pow(320000, 6) == 1073741824000000000000000000000000;
    PowAdd(320000, 6, 1);
  }

  /** With the default settings (capitalize, punctuate and allcaps on: five
      slots) and the default level 2 (112 bits), a dictionary of 10000
      words gives an alphabet of 320000 and passwords of 7 words. */
  lemma {:induction false} DefaultSettingsTenThousandWords()
    ensures |Slots(DefaultFlags)| == 5
    ensures ThresholdForLevel(DefaultLevel, DefaultMinEntropies) == Some(112)
    ensures AlphabetSizeOf(10000, 5) == Ok(Exact(320000))
    ensures MinSymbolCount(Some(112), AlphabetSizeOf(10000, 5), DefaultMaxSymbols) == Ok(7)
  {
    PowersOfTwo();
    PowersOfThreeHundredTwentyThousand();
    assert Pow(2, 5) == 32;
    assert Enough(7, 320000, Some(112));
    forall j | 1 <= j <= 6
      ensures !Enough(j, 320000, Some(112))
    {
      PowMonotoneExponent(320000, j, 6);
    }
  }
}
