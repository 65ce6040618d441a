/** The word store (dictionary/Dictionary.php): an array of words loaded
    from a PHP array, trimmed, length-filtered and deduplicated, a counter
    of its words, and random word pickers. Loading from a text file or a
    database is not part of this model; those sources answer
    `Err(ExternalSource)`. */
module Dictionaries {
  import opened PhpValues
  import opened PhpStrings
  import opened Random

  /** The words readWordsFromArray keeps from the given ones, in order:
      each trimmed, and only when at least `minWordSize` long. */
  function Kept(items: seq<string>, minWordSize: int): (r: seq<string>)
    ensures |r| <= |items|
  {
    if items == [] then []
    else
      var t := Trim(items[|items| - 1]);
      Kept(items[..|items| - 1], minWordSize) + (if |t| >= minWordSize then [t] else [])
  }

  /** Every given word, trimmed. */
  function Trims(items: seq<string>): (r: seq<string>)
    ensures |r| == |items| && forall i :: 0 <= i < |items| ==> r[i] == Trim(items[i])
  {
    seq(|items|, i requires 0 <= i < |items| => Trim(items[i]))
  }

  /** A word is kept exactly when it is the trimmed form of a given word
      and long enough. */
  lemma {:induction false} KeptMembers(items: seq<string>, minWordSize: int, w: string)
    ensures w in Kept(items, minWordSize) <==> |w| >= minWordSize && w in Trims(items)
  {
    if items != [] {
      var init, t := items[..|items| - 1], Trim(items[|items| - 1]);
      var tail := if |t| >= minWordSize then [t] else [];
      assert Kept(items, minWordSize) == Kept(init, minWordSize) + tail;
      TrimsStep(items);
      KeptMembers(init, minWordSize, w);
      assert (w in Kept(items, minWordSize)) == (w in Kept(init, minWordSize) || w in tail);
      assert (w in Trims(items)) == (w in Trims(init) || w == t);
    }
  }

  lemma TrimsStep(items: seq<string>)
    requires items != []
    ensures Trims(items) == Trims(items[..|items| - 1]) + [Trim(items[|items| - 1])]
  {
    var init := items[..|items| - 1];
    forall k | 0 <= k < |init|
      ensures Trims(items)[k] == Trims(init)[k]
    {
      assert items[k] == init[k];
    }
  }

  /** Every kept word is trimmed and at least `minWordSize` long. */
  lemma KeptWords(items: seq<string>, minWordSize: int)
    ensures forall w :: w in Kept(items, minWordSize) ==> |w| >= minWordSize && Trimmed(w)
  {
    forall w | w in Kept(items, minWordSize)
      ensures |w| >= minWordSize && Trimmed(w)
    {
      KeptMembers(items, minWordSize, w);
      var i :| 0 <= i < |items| && Trims(items)[i] == w;
    }
  }

  /** Merging kept words into a list of non-empty trimmed words, as
      readWordsFromArray does, keeps every word non-empty and trimmed. */
  lemma MergedWords(stored: seq<string>, items: seq<string>, minWordSize: int)
    requires minWordSize >= 1
    requires forall w :: w in stored ==> w != [] && Trimmed(w)
    ensures forall w :: w in Unique(stored + Kept(items, minWordSize)) ==> w != [] && Trimmed(w)
  {
    KeptWords(items, minWordSize);
  }

  /** Kept over one more given word. */
  lemma KeptStep(items: seq<string>, i: nat, minWordSize: int)
    requires i < |items|
    ensures var t := Trim(items[i]);
      Kept(items[..i + 1], minWordSize) == Kept(items[..i], minWordSize) + (if |t| >= minWordSize then [t] else [])
  {
    assert items[..i + 1][..i] == items[..i];
  }

  /** The loop of readWordsFromArray: each word is trimmed, and removed
      when shorter than `minWordSize`. */
  method KeepWords(items: seq<string>, minWordSize: int) returns (kept: seq<string>)
    ensures kept == Kept(items, minWordSize)
  {
    kept := [];
    var i := 0;
    while i < |items|
      invariant 0 <= i <= |items|
      invariant kept == Kept(items[..i], minWordSize)
    {
      var t := Trim(items[i]);
      KeptStep(items, i, minWordSize);
      kept := kept + (if |t| >= minWordSize then [t] else []);
      i := i + 1;
    }
    assert items[..|items|] == items;
  }

  /** The number of words shorter than `minWordSize` (the array_filter of
      countWords); a null length bound keeps no word, since `$n < null`
      never holds. */
  function ShortWords(words: seq<string>, minWordSize: Option<int>): (r: nat)
    ensures r <= |words|
    ensures minWordSize.None? ==> r == 0
  {
    if words == [] then 0
    else
      ShortWords(words[..|words| - 1], minWordSize)
      + (if LooseBelow(|words[|words| - 1]|, minWordSize) then 1 else 0)
  }

  /** The source formats of readWords and of the constructor, matched as
      PHP's `switch` does (a loose comparison: `true` equals any non-empty
      string, so it matches the first case). */
  datatype SourceFormat = FileSource | ArraySource | PdoSource | UnknownFormat

  function FormatOf(format: Value): SourceFormat
  {
    match format
    case Str(s) =>
      if s == "filename" then FileSource
      else if s == "array" then ArraySource
      else if s == "pdo_handler" then PdoSource
      else UnknownFormat
    case Bool(true) => FileSource
    case _ => UnknownFormat
  }

  /** The strings of a list whose items are all strings. */
  function Strings(items: seq<Value>): (r: seq<string>)
    requires forall i :: 0 <= i < |items| ==> items[i].Str?
    ensures |r| == |items| && forall i :: 0 <= i < |items| ==> items[i] == Str(r[i])
  {
    seq(|items|, i requires 0 <= i < |items| => items[i].s)
  }

  /** A word array the model loads: a list of strings, or the empty array
      in its record shape. A non-empty string-keyed array is not loaded,
      since a record carries no order for its words. */
  predicate AllStrings(v: Value)
  {
    || (v.List? && forall i :: 0 <= i < |v.items| ==> v.items[i].Str?)
    || v == Record(map[])
  }

  /** The words of such an array, in order. */
  function WordsOf(v: Value): (r: seq<string>)
    requires AllStrings(v)
    ensures v.List? ==> |r| == |v.items| && forall i :: 0 <= i < |v.items| ==> v.items[i] == Str(r[i])
    ensures v.Record? ==> r == []
  {
    if v.List? then Strings(v.items) else []
  }

  /** readWords' `add`: `$params['add']` when it is set (not null), the
      default otherwise. */
  function ParamsAdd(params: Value, defaultAdd: bool): Value
  {
    if params.Record? && "add" in params.fields && !params.fields["add"].Null? then params.fields["add"]
    else Bool(defaultAdd)
  }

  class Dictionary {
    var words: seq<string>
    var wordCount: int
    var prng: RandomSource

    var defaultFormat: string
    var defaultAdd: bool
    var defaultMinWordSize: int
    const defaultUnique: bool

    /** Set only by the database reader, which is not part of this model;
        they stay null. */
    var minWordSize: Option<int>
    var minReadWordsWordSize: Option<int>

    ghost predicate Valid()
      reads this
    {
      && NoDuplicates(words)
      && (forall w :: w in words ==> w != [] && Trimmed(w))
      && defaultMinWordSize >= 1
      && minWordSize.None? && minReadWordsWordSize.None?
      && wordCount == CountWords(None, None, None)
    }

    /** A dictionary with no words yet and the given defaults. Its word
        count is unset in PHP (null); 0 behaves the same wherever it is
        read (`null <= 0` holds). */
    constructor (prng: RandomSource, defaultMinWordSize: int, defaultFormat: string, defaultAdd: bool)
      requires defaultMinWordSize >= 1
      ensures Valid() && words == [] && wordCount == 0
      ensures this.prng == prng && this.defaultMinWordSize == defaultMinWordSize
      ensures this.defaultFormat == defaultFormat && this.defaultAdd == defaultAdd && !defaultUnique
    {
      words := [];
      wordCount := 0;
      this.prng := prng;
      this.defaultFormat := defaultFormat;
      this.defaultAdd := defaultAdd;
      this.defaultMinWordSize := defaultMinWordSize;
      defaultUnique := false;
      minWordSize := None;
      minReadWordsWordSize := None;
    }

    /** countWords: all the words when `$minReadWordsWordSize >= $minWordSize`
        (PHP's comparison, where `null >= null` holds), otherwise only the
        words shorter than the `minWordSize` field. Null arguments take the
        fields. */
    function CountWords(given: Option<seq<string>>, minWordSize: Option<int>, minReadWordsWordSize: Option<int>): (r: nat)
      reads this
      ensures var ws := if given.Some? then given.value else words;
        r <= |ws|
      ensures var mw, mr := (if minWordSize.Some? then minWordSize else this.minWordSize),
                            (if minReadWordsWordSize.Some? then minReadWordsWordSize else this.minReadWordsWordSize);
        LooseAtLeast(mr, mw) ==> r == |if given.Some? then given.value else words|
      ensures var mw, mr := (if minWordSize.Some? then minWordSize else this.minWordSize),
                            (if minReadWordsWordSize.Some? then minReadWordsWordSize else this.minReadWordsWordSize);
        !LooseAtLeast(mr, mw) ==> r == ShortWords(if given.Some? then given.value else words, this.minWordSize)
    {
      var ws := if given.Some? then given.value else words;
      var mw := if minWordSize.Some? then minWordSize else this.minWordSize;
      var mr := if minReadWordsWordSize.Some? then minReadWordsWordSize else this.minReadWordsWordSize;
      if LooseAtLeast(mr, mw) then |ws| else ShortWords(ws, this.minWordSize)
    }

    /** With both length fields null, as they always are here, the count is
        the number of stored words. */
    lemma CountIsSize()
      requires Valid()
      ensures wordCount == |words|
    {
    }

    /** With the length fields null, as they are here, an explicit non-zero
        `minWordSize` and a null `minReadWordsWordSize` count no word at all
        (`null >= 4` is false and `strlen($w) < null` never holds), while a
        zero `minWordSize` counts every word. */
    lemma ExplicitMinWordSizeCount(given: Option<seq<string>>, n: int)
      requires Valid()
      ensures n != 0 ==> CountWords(given, Some(n), None) == 0
      ensures n == 0 ==> CountWords(given, Some(n), None) == |if given.Some? then given.value else words|
    {
    }

    /** setWordCount: recounts and stores the count. */
    method SetWordCount(given: Option<seq<string>>) returns (r: int)
      modifies this`wordCount
      ensures r == wordCount == CountWords(given, None, None)
    {
      wordCount := CountWords(given, None, None);
      r := wordCount;
    }

    /** getRandomWord: an index drawn from `[0, count($this->words) - 1]`,
        into the stored words or into the given ones. The range is that of
        the stored words either way, so an index the given list lacks reads
        as null. With no stored words the range is empty. */
    method GetRandomWord(given: Option<seq<string>>) returns (r: Result<Option<string>>)
      modifies prng
      ensures r.Ok? <==> |words| > 0
      ensures r.Err? ==> r.error == RandomRangeEmpty
      ensures r.Ok? && given.None? ==> r.value.Some? && r.value.value in words
      ensures r.Ok? && given.Some? && r.value.Some? ==> r.value.value in given.value
      ensures r.Ok? && given.Some? && r.value.None? ==> |given.value| < |words|
      ensures r.Ok? && given.Some? && |given.value| >= |words| ==> r.value.Some?
    {
      if |words| == 0 {
        return Err(RandomRangeEmpty);
      }
      var i := prng.Rand(0, |words| - 1);
      match given {
        case None => r := Ok(Some(words[i]));
        case Some(ws) => r := Ok(if i < |ws| then Some(ws[i]) else None);
      }
    }

    /** getRandomWordsArray: `count` words drawn one by one. With `unique`,
        a repeated draw is redrawn until it is new, which needs a word not
        drawn yet; once every word has been drawn a repeat fails. The
        redraw loop is modelled by its outcome, a word not drawn yet. */
    method GetRandomWordsArray(count: Value, unique: Value) returns (r: Result<seq<string>>)
      requires Valid()
      modifies prng
      ensures var u := if unique.Null? then Bool(defaultUnique) else unique;
        && (!(count.Int? && count.i >= 1 && u.Bool?) ==> r == Err(InvalidArgument))
        && (count.Int? && count.i >= 1 && u.Bool? ==>
              && (r.Ok? <==> |words| > 0 && (!u.b || count.i <= |words|))
              && (r.Ok? ==> |r.value| == count.i && forall w :: w in r.value ==> w in words)
              && (r.Ok? && u.b ==> NoDuplicates(r.value))
              && (r.Err? && |words| > 0 ==> r.error == NotEnoughUniqueWords))
    {
      var u := if unique.Null? then Bool(defaultUnique) else unique;
      if !(count.Int? && count.i >= 1 && u.Bool?) {
        return Err(InvalidArgument);
      }
      var chosen: seq<string> := [];
      var i := 0;
      while i < count.i
        invariant 0 <= i <= count.i && |chosen| == i
        invariant forall w :: w in chosen ==> w in words
        invariant u.b ==> NoDuplicates(chosen)
        invariant i > 0 ==> |words| > 0
        invariant u.b ==> i <= |words|
      {
        var drawn := GetRandomWord(None);
        if drawn.Err? {
          return Err(drawn.error);
        }
        var word := drawn.value.value;
        if !u.b {
          chosen := chosen + [word];
        } else if word !in chosen {
          chosen := chosen + [word];
        } else if |chosen| < |words| {
          DistinctMisses(chosen, words);
          var other :| other in words && other !in chosen;
          chosen := chosen + [other];
        } else {
          assert count.i > |words|;
          return Err(NotEnoughUniqueWords);
        }
        DistinctBoundAfterDraw(chosen, u.b);
        i := i + 1;
      }
      r := Ok(chosen);
    }

    /** The unique draw never holds more words than the dictionary. */
    lemma DistinctBoundAfterDraw(chosen: seq<string>, unique: bool)
      requires Valid()
      requires forall w :: w in chosen ==> w in words
      requires unique ==> NoDuplicates(chosen)
      ensures unique ==> |chosen| <= |words|
    {
      if unique {
        DistinctBound(chosen, words);
      }
    }

    /** readWordsFromArray: with `add` the new words join the stored ones,
        otherwise they replace them; either way each new word is trimmed,
        dropped when shorter than `minWordSize`, and repeats are removed
        keeping first occurrences. Null arguments take the defaults. The
        count is recomputed. */
    method ReadWordsFromArray(newWords: Value, add: Value, minWordSize: Value) returns (r: Result<bool>)
      requires Valid()
      modifies this`words, this`wordCount
      ensures Valid()
      ensures var a, m := (if add.Null? then Bool(old(defaultAdd)) else add),
                          (if minWordSize.Null? then Int(old(defaultMinWordSize)) else minWordSize);
        && (r.Ok? <==> a.Bool? && m.Int? && m.i > 0 && AllStrings(newWords))
        && (r.Ok? ==> words == Unique((if a.b then old(words) else []) + Kept(WordsOf(newWords), m.i)))
        && (r.Err? ==> r.error == InvalidArgument && words == old(words))
        && (r.Ok? && old(words) == [] ==> words == Unique(Kept(WordsOf(newWords), m.i)))
      ensures r.Ok? ==> wordCount == |words|
      ensures r == Ok(true) || r.Err?
    {
      var a := if add.Null? then Bool(defaultAdd) else add;
      var m := if minWordSize.Null? then Int(defaultMinWordSize) else minWordSize;
      if !a.Bool? || !m.Int? || m.i <= 0 || !IsArray(newWords) {
        return Err(InvalidArgument);
      }
      if !AllStrings(newWords) {
        return Err(InvalidArgument);
      }
      var items := WordsOf(newWords);
      var kept := KeepWords(items, m.i);
      MergedWords(if a.b then words else [], items, m.i);
      assert [] + kept == kept;
      StoreWords((if a.b then words else []) + kept);
      r := Ok(true);
    }

    /** The end of readWordsFromArray: the words without repeats are stored
        and counted. */
    method StoreWords(merged: seq<string>)
      requires Valid()
      requires forall w :: w in Unique(merged) ==> w != [] && Trimmed(w)
      modifies this`words, this`wordCount
      ensures Valid() && words == Unique(merged) && wordCount == |words|
    {
      words := Unique(merged);
      wordCount := CountWords(None, None, None);
    }

    /** setMinWordSize always throws: its test is `is_int($minWordSize ||
        $minWordSize < 0)`, and `||` yields a bool, never an int. */
    method SetMinWordSize(minWordSize: Value, recount: Value) returns (r: Result<bool>)
      ensures r == Err(InvalidArgument)
    {
      r := Err(InvalidArgument);
    }

    /** readWords: the generic loader. Only the array source is modelled;
        `$params['add']`, when set, must be a bool and overrides the default
        `add`. */
    method ReadWords(input: Value, format: Value, params: Value, minWordSize: Value) returns (r: Result<bool>)
      requires Valid()
      modifies this`words, this`wordCount
      ensures Valid()
      ensures r.Err? ==> words == old(words)
      ensures !IsArray(params) ==> r == Err(InvalidArgument)
      ensures var f, a, m := (if format.Null? then Str(old(defaultFormat)) else format),
                             ParamsAdd(params, old(defaultAdd)),
                             (if minWordSize.Null? then Int(old(defaultMinWordSize)) else minWordSize);
        && (r.Ok? <==> IsArray(params) && a.Bool? && FormatOf(f) == ArraySource && m.Int? && m.i > 0 && AllStrings(input))
        && (r.Ok? ==> words == Unique((if a.b then old(words) else []) + Kept(WordsOf(input), m.i)) && wordCount == |words|)
      ensures FormatOf(if format.Null? then Str(old(defaultFormat)) else format) == UnknownFormat && IsArray(params)
              && ParamsAdd(params, old(defaultAdd)).Bool?
              ==> r == Err(InvalidFormat)
    {
      var f := if format.Null? then Str(defaultFormat) else format;
      if !IsArray(params) {
        return Err(InvalidArgument);
      }
      var a := ParamsAdd(params, defaultAdd);
      if !a.Bool? {
        return Err(InvalidArgument);
      }
      var m := if minWordSize.Null? then Int(defaultMinWordSize) else minWordSize;
      match FormatOf(f) {
        case FileSource =>
          if !(input.Null? || input.Str?) {
            return Err(InvalidArgument);
          }
          return Err(ExternalSource);
        case ArraySource =>
          if !IsArray(input) {
            return Err(InvalidArgument);
          }
          r := ReadWordsFromArray(input, a, m);
        case PdoSource =>
          return Err(ExternalSource);
        case UnknownFormat =>
          return Err(InvalidFormat);
      }
    }

    /** The constructor: validates the minimum word size, the format and the
        parameters, takes `$params['add']` as the default `add` when it is a
        bool, and loads an array source at once. The file and database
        sources are not part of this model. */
    static method New(input: Value, minWordSize: Value, format: Value, params: Value, prng: RandomSource)
      returns (r: Result<Dictionary>)
      ensures r.Ok? ==> fresh(r.value) && r.value.Valid() && r.value.prng == prng
      ensures var m, f := (if minWordSize.Null? then Int(4) else minWordSize),
                          (if format.Null? then Str("filename") else format);
        && (r.Ok? <==> m.Int? && m.i > 0 && f == Str("array") && IsArray(params) && AllStrings(input))
        && (r.Ok? ==> r.value.words == Unique(Kept(WordsOf(input), m.i)))
        && (r.Ok? ==> r.value.defaultMinWordSize == m.i && r.value.defaultFormat == f.s && !r.value.defaultUnique)
        && (r.Ok? ==> r.value.defaultAdd == if params.Record? && "add" in params.fields && params.fields["add"].Bool?
                                           then params.fields["add"].b else true)
        && (m.Int? && m.i > 0 && f.Str? && IsArray(params) && FormatOf(f) == UnknownFormat ==> r == Err(InvalidFormat))
    {
      var m := if minWordSize.Null? then Int(4) else minWordSize;
      if !m.Int? || m.i <= 0 {
        return Err(InvalidArgument);
      }
      var f := if format.Null? then Str("filename") else format;
      if !f.Str? {
        return Err(InvalidArgument);
      }
      if !IsArray(params) {
        return Err(InvalidArgument);
      }
      var add := true;
      if params.Record? && "add" in params.fields && params.fields["add"].Bool? {
        add := params.fields["add"].b;
      }
      match FormatOf(f) {
        case FileSource =>
          if !(input.Null? || input.Str?) {
            return Err(InvalidArgument);
          }
          return Err(ExternalSource);
        case ArraySource =>
          if !IsArray(input) {
            return Err(InvalidArgument);
          }
          r := Load(input, m.i, f.s, add, prng);
        case PdoSource =>
          return Err(ExternalSource);
        case UnknownFormat =>
          return Err(InvalidFormat);
      }
    }

    /** The state the constructor leaves: the given words, the given
        defaults and no unique-only default. */
    ghost predicate Loaded(prng: RandomSource, words: seq<string>, defaultMinWordSize: int,
                           defaultFormat: string, defaultAdd: bool)
      reads this
    {
      && this.prng == prng && this.words == words
      && this.defaultMinWordSize == defaultMinWordSize && this.defaultFormat == defaultFormat
      && this.defaultAdd == defaultAdd && !defaultUnique
    }

    /** The array branch of the constructor: a dictionary with the given
        defaults that reads the words of `input` with them. */
    static method Load(input: Value, minWordSize: int, format: string, add: bool, prng: RandomSource)
      returns (r: Result<Dictionary>)
      requires minWordSize >= 1 && IsArray(input)
      ensures r.Ok? <==> AllStrings(input)
      ensures r.Ok? ==> fresh(r.value) && r.value.Valid()
      ensures r.Ok? ==> r.value.Loaded(prng, Unique(Kept(WordsOf(input), minWordSize)), minWordSize, format, add)
      ensures r.Err? ==> r.error == InvalidArgument
    {
      var d := new Dictionary(prng, minWordSize, format, add);
      var loaded := d.ReadWordsFromArray(input, Null, Null);
      if loaded.Err? {
        return Err(loaded.error);
      }
      r := Ok(d);
    }
  }
}
