/** Word variations: the four flags, their validation (filterVariations),
    their count (getVariationsCount) and the per-word transform
    (applyVariation). */
module Variations {
  import opened PhpValues
  import opened PhpStrings

  /** The filtered variations array: exactly the four keys, each a bool. */
  datatype Flags = Flags(capitalize: bool, punctuate: bool, allcaps: bool, addslashes: bool)

  /** The tag applyVariation leaves in its by-reference argument; '' is
      NoVariation. */
  datatype Variation = NoVariation | Capitalize | Allcaps | Punctuate | Addslashes

  /** A transformed word and the variation that produced it. */
  datatype Applied = Applied(word: string, variation: Variation)

  /** The outcomes an index can select, in the order applyVariation tries
      them. Punctuation has three: '!', '?' and the stop ('.' on the last
      word, ',' elsewhere). */
  datatype Slot = CapitalizeSlot | AllcapsSlot | ExclamationSlot | QuestionSlot | StopSlot | SlashSlot

  /** The enabled slots in order. */
  function Slots(f: Flags): seq<Slot>
  {
    (if f.capitalize then [CapitalizeSlot] else [])
    + (if f.allcaps then [AllcapsSlot] else [])
    + (if f.punctuate then [ExclamationSlot, QuestionSlot, StopSlot] else [])
    + (if f.addslashes then [SlashSlot] else [])
  }

  const ValidKeys: seq<string> := ["capitalize", "punctuate", "allcaps", "addslashes"]

  /** The value filterVariations gives one key: the array's bool, or the
      current setting when the key is absent or null (`isset` fails). */
  function FilterKey(fields: map<string, Value>, key: string, current: bool): Result<bool>
  {
    if key !in fields || fields[key].Null? then Ok(current)
    else if fields[key].Bool? then Ok(fields[key].b)
    else Err(InvalidArgument)
  }

  /** filterVariations: null gives the current settings; an array may only
      use the four keys, each a bool or absent; anything else is refused.
      A non-empty list has integer keys, none of which equals a key name. */
  function FilterVariations(given: Value, current: Flags): (r: Result<Flags>)
    ensures given.Null? ==> r == Ok(current)
    ensures !IsArray(given) && !given.Null? ==> r == Err(InvalidArgument)
    ensures given.List? ==> (r.Ok? <==> given.items == [])
    ensures given.Record? ==>
      (r.Ok? <==> forall k :: k in given.fields ==> k in ValidKeys && (given.fields[k].Null? || given.fields[k].Bool?))
    ensures r.Ok? && given.Record? ==>
      && FilterKey(given.fields, "capitalize", current.capitalize) == Ok(r.value.capitalize)
      && FilterKey(given.fields, "punctuate", current.punctuate) == Ok(r.value.punctuate)
      && FilterKey(given.fields, "allcaps", current.allcaps) == Ok(r.value.allcaps)
      && FilterKey(given.fields, "addslashes", current.addslashes) == Ok(r.value.addslashes)
    ensures r.Err? ==> r.error == InvalidArgument
  {
    match given
    case Null => Ok(current)
    case List(items) => if items == [] then Ok(current) else Err(InvalidArgument)
    case Record(fields) =>
      if exists k :: k in fields && k !in ValidKeys then Err(InvalidArgument)
      else
        var c := FilterKey(fields, "capitalize", current.capitalize);
        var p := FilterKey(fields, "punctuate", current.punctuate);
        var a := FilterKey(fields, "allcaps", current.allcaps);
        var s := FilterKey(fields, "addslashes", current.addslashes);
        if c.Err? || p.Err? || a.Err? || s.Err? then Err(InvalidArgument)
        else Ok(Flags(c.value, p.value, a.value, s.value))
    case _ => Err(InvalidArgument)
  }

  /** getVariations: the four settings as a PHP array. */
  function AsArray(f: Flags): (r: Value)
    ensures r.Record? && r.fields.Keys == set k | k in ValidKeys
    ensures forall k :: k in r.fields ==> r.fields[k].Bool?
  {
    Record(map[
      "capitalize" := Bool(f.capitalize), "punctuate" := Bool(f.punctuate),
      "allcaps" := Bool(f.allcaps), "addslashes" := Bool(f.addslashes)])
  }

  /** Feeding getVariations back to filterVariations (as setVariations
      does) reproduces the settings, whatever the current ones are. */
  lemma FilterAsArray(f: Flags, current: Flags)
    ensures FilterVariations(AsArray(f), current) == Ok(f)
  {
    var fields := AsArray(f).fields;
    forall k | k in fields
      ensures k in ValidKeys
    {
    }
    assert FilterKey(fields, "capitalize", current.capitalize) == Ok(f.capitalize);
    assert FilterKey(fields, "punctuate", current.punctuate) == Ok(f.punctuate);
    assert FilterKey(fields, "allcaps", current.allcaps) == Ok(f.allcaps);
    assert FilterKey(fields, "addslashes", current.addslashes) == Ok(f.addslashes);
  }

  /** Filtering is idempotent: generatePassword filters the variations and
      getVariationsCount filters them again without change. */
  lemma FilterIdempotent(given: Value, current: Flags, other: Flags)
    requires FilterVariations(given, current).Ok?
    ensures FilterVariations(AsArray(FilterVariations(given, current).value), other)
         == FilterVariations(given, current)
  {
    FilterAsArray(FilterVariations(given, current).value, other);
  }

  /** getVariationsCount: one per true flag of the filtered array, and two
      more when `punctuate` is true. That is exactly the number of slots
      applyVariation can select. */
  method CountVariations(f: Flags) returns (count: nat)
    ensures count == |Slots(f)|
    ensures count <= 6
  {
    var values := [f.capitalize, f.punctuate, f.allcaps, f.addslashes];
    count := 0;
    var i := 0;
    while i < |values|
      invariant 0 <= i <= |values|
      invariant count == TrueCount(values[..i])
    {
      assert values[..i + 1] == values[..i] + [values[i]];
      if values[i] {
        count := count + 1;
      }
      i := i + 1;
    }
    assert values[..|values|] == values;
    TrueCountOfFour(f.capitalize, f.punctuate, f.allcaps, f.addslashes);
    if f.punctuate {
      count := count + 2;
    }
  }

  /** The number of true entries. */
  function TrueCount(bs: seq<bool>): nat
  {
    if bs == [] then 0 else TrueCount(bs[..|bs| - 1]) + (if bs[|bs| - 1] then 1 else 0)
  }

  lemma TrueCountOfFour(a: bool, b: bool, c: bool, d: bool)
    ensures TrueCount([a, b, c, d])
      == (if a then 1 else 0) + (if b then 1 else 0) + (if c then 1 else 0) + (if d then 1 else 0)
  {
    assert [a][..0] == [];
    assert TrueCount([a]) == (if a then 1 else 0);
    assert [a, b][..1] == [a];
    assert TrueCount([a, b]) == TrueCount([a]) + (if b then 1 else 0);
    assert [a, b, c][..2] == [a, b];
    assert TrueCount([a, b, c]) == TrueCount([a, b]) + (if c then 1 else 0);
    assert [a, b, c, d][..3] == [a, b, c];
  }

  /** The word with the case of its first character flipped. */
  function ToggleFirst(word: string): (r: string)
    requires word != []
    ensures |r| == |word| && r[0] == ToggleCase(word[0]) && r[1..] == word[1..]
  {
    [ToggleCase(word[0])] + word[1..]
  }

  /** applyVariation, as the chain of tests the PHP code runs: each enabled
      variation either consumes a slot (`$count < $index`) or applies. The
      word must not be empty when capitalize is the one selected. */
  function ApplyVariation(word: string, index: int, f: Flags, last: bool): (r: Applied)
    requires word != [] || !f.capitalize || index > 0
    ensures var k, slots := (if index < 0 then 0 else index), Slots(f);
      && (k < |slots| && slots[k] == CapitalizeSlot ==> r == Applied(ToggleFirst(word), Capitalize))
      && (k < |slots| && slots[k] == AllcapsSlot ==> r == Applied(StrToUpper(word), Allcaps))
      && (k < |slots| && slots[k] == ExclamationSlot ==> r == Applied(word + "!", Punctuate))
      && (k < |slots| && slots[k] == QuestionSlot ==> r == Applied(word + "?", Punctuate))
      && (k < |slots| && slots[k] == StopSlot ==> r == Applied(word + (if last then "." else ","), Punctuate))
      && (k < |slots| && slots[k] == SlashSlot && !last ==> r == Applied(word + "/", Addslashes))
      && (k < |slots| && slots[k] == SlashSlot && last ==> r == Applied(word, NoVariation))
      && (k >= |slots| ==> r == Applied(word, NoVariation))
  {
    var count := 0;
    if f.capitalize && !(count < index) then Applied(ToggleFirst(word), Capitalize)
    else
      var count := if f.capitalize then count + 1 else count;
      if f.allcaps && !(count < index) then Applied(StrToUpper(word), Allcaps)
      else
        var count := if f.allcaps then count + 1 else count;
        if f.punctuate && !(count < index) then Applied(word + "!", Punctuate)
        else if f.punctuate && !(count + 1 < index) then Applied(word + "?", Punctuate)
        else if f.punctuate && !(count + 2 < index) then Applied(word + (if last then "." else ","), Punctuate)
        else
          var count := if f.punctuate then count + 3 else count;
          if f.addslashes then
            if count < index || last then Applied(word, NoVariation) else Applied(word + "/", Addslashes)
          else Applied(word, NoVariation)
  }

  /** At most one variation per word, and what each one does to the word:
      capitalize and allcaps keep the length, punctuate and addslashes
      append exactly one character, '/' never on the last word, and nothing
      else changes the word. */
  lemma ApplyVariationShape(word: string, index: int, f: Flags, last: bool)
    requires word != [] || !f.capitalize || index > 0
    ensures var r := ApplyVariation(word, index, f, last);
      && (r.variation == NoVariation ==> r.word == word)
      && (r.variation == Capitalize ==> f.capitalize && |r.word| == |word| && r.word[1..] == word[1..])
      && (r.variation == Allcaps ==> f.allcaps && r.word == StrToUpper(word))
      && (r.variation == Punctuate ==> f.punctuate && |r.word| == |word| + 1 && r.word[..|word|] == word
                                       && r.word[|word|] in (if last then "!?." else "!?,"))
      && (r.variation == Addslashes ==> f.addslashes && !last && r.word == word + "/")
  {
  }

  /** The enabled slots are distinct, so each index selects a different
      outcome and every outcome has exactly one index. */
  lemma SlotsDistinct(f: Flags)
    ensures NoDuplicates(Slots(f))
  {
  }

  /** Case changes map trim characters to themselves and other characters
      to other characters. */
  lemma CaseKeepsTrimChars(c: char)
    ensures IsTrimChar(ToggleCase(c)) == IsTrimChar(c)
    ensures IsTrimChar(ToUpperChar(c)) == IsTrimChar(c)
  {
  }

  /** A non-empty word without surrounding whitespace keeps both after any
      variation: case changes keep non-blank characters non-blank, and the
      appended characters are punctuation. */
  lemma ApplyVariationKeepsTrimmed(word: string, index: int, f: Flags, last: bool)
    requires word != [] && Trimmed(word)
    ensures var r := ApplyVariation(word, index, f, last).word;
      r != [] && Trimmed(r)
  {
    var r := ApplyVariation(word, index, f, last);
    CaseKeepsTrimChars(word[0]);
    CaseKeepsTrimChars(word[|word| - 1]);
    if r.variation == Capitalize {
      assert r.word[|r.word| - 1] == if |word| == 1 then ToggleCase(word[0]) else word[|word| - 1] by {
        if |word| > 1 {
          assert r.word[|r.word| - 1] == r.word[1..][|word| - 2];
        }
      }
    }
  }
}
