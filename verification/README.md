# chbspassgen passphrase engine in Dafny

chbspassgen generates passphrases ("correct horse battery staple") whose
strength is set by an entropy target. A dictionary holds the words. A
strength level selects a minimum entropy in bits. The generator searches for
the least number of words `n` whose entropy `n·log2(alphabetSize)` reaches
that target. The alphabet size is the number of words times `2^v`, where `v`
is the number of enabled word variations. It then draws `n` words. Each word
may be varied: its first letter's case flipped, the whole word upper-cased,
or a `!`, `?`, `.`/`,` or `/` appended. The words are joined with a separator
character chosen at random from a configured set.

This project models that engine. Each PHP class or file has a module:

- `PhpValues` (`php_values.dfy`): the untyped PHP arguments as a tagged
  `Value`, the errors as `Failure`, and `Result`/`Option`.
- `PhpStrings` (`php_strings.dfy`): the PHP library functions the core
  relies on: `trim`, ASCII `strtoupper`/`strtolower`, `array_unique`,
  `explode` and `implode`.
- `Random` (`random.dfy`): the `prng` collaborator, reduced to `rand(lo, hi)`
  with its range promise.
- `Entropy` (`entropy.dfy`): `calculateEntropy`, `getAlphabetSize` and the
  search of `getMinSymbolCount`. The entropy comparison is exact on
  integers: `n·log2(a) >= m` holds iff `m <= 0` or `a^n >= 2^m`.
- `Levels` (`levels.dfy`): the level-to-threshold lookup, and the rule by
  which `setMinEntropies` accepts a threshold table.
- `Variations` (`variations.dfy`): `filterVariations`, `getVariations`,
  `getVariationsCount` and `applyVariation`.
- `Assembly` (`assembly.dfy`): how `generatePassword` joins the varied
  words, and what that means for `trim` and `getSymbolCount`.
- `Dictionaries` (`dictionary.dfy`): class `Dictionary`. It holds the word
  array that is loaded, trimmed, length-filtered and deduplicated in place,
  its counter and its random pickers.
- `Generator` (`generator.dfy`): class `PasswordGenerator`. It covers the
  setters, the constructor, the getters and `generatePassword`, which is
  proved against a pure specification (`Prepare`/`Resolve` for the checks
  and the word count, `AllDrawn`/`Assembled` for the word loop).

**Two PHP copies.** The repository has two copies of the generator:
`src/PasswordGenerator.php` and an older `PasswordGenerator.php` at the
root. The model follows `src/PasswordGenerator.php`. On every path modelled
here the root copy behaves the same, with two exceptions:

- Its `setMinEntropies` (`PasswordGenerator.php:347-356`) has no `$default`
  switch. It is the `default == false` case of `SetMinEntropies`.
- It has a separate `setDefaultMinEntropies`, modelled as
  `SetDefaultMinEntropies`.

**Three behaviours of the code a reader might not expect:**

- A level at or past the end of the threshold table does not clamp to the
  last threshold. It reads the index one past the end, which PHP yields as
  null:
  - `ThresholdForLevel` gives `None` for such a level;
  - a null threshold is reached by every word count, because PHP compares a
    number with null as booleans;
  - so a stored level past the table gives one-word passwords
    (`Generator.LevelPastTableGivesOneWord`).
- The variation index is drawn from `[0, variationsCount]`, both ends
  included. `variationsCount` itself selects no slot and leaves the word
  unchanged (`Generator.TopIndexLeavesWord`).
- An explicit dictionary argument to `generatePassword` or `getEntropy` is
  always refused. The test there names the interface without its namespace,
  so no object passes it.

## Model

| member | source | states |
|---|---|---|
| `PhpStrings.Trim` | src/PasswordGenerator.php:684 | the result has no trim character at either end, and a string without one is returned unchanged |
| `PhpStrings.TrimIsInfix` | src/PasswordGenerator.php:693 | `trim` removes only trim characters: its result is the infix of the input between a run of them at the front and a run at the back |
| `PhpStrings.StrToUpper` | src/PasswordGenerator.php:595 | same length, and every character is mapped to upper case (ASCII) |
| `PhpStrings.ToggleCaseFlipsLetters` | src/PasswordGenerator.php:585 | the first-letter flip turns a lower-case letter into its upper-case form and back, leaves non-letters alone, and undoes itself |
| `PhpStrings.Unique` | src/PasswordGenerator.php:84 | `array_unique` gives a duplicate-free list with exactly the members of its input, no longer than it, and leaves a duplicate-free list unchanged |
| `PhpStrings.UniqueKeepsFirstOccurrences` | src/PasswordGenerator.php:84 | `array_unique` keeps each element at its first occurrence: the kept elements appear in the order in which they first occur in the input |
| `PhpStrings.DistinctBound` | dictionary/Dictionary.php:119 | a duplicate-free list drawn from the words is no longer than the word list |
| `PhpStrings.DistinctMisses` | dictionary/Dictionary.php:119-123 | while fewer distinct words are drawn than the dictionary holds, some word is still undrawn, so the redraw loop has a word to find |
| `PhpStrings.DistinctCover` | dictionary/Dictionary.php:119-125 | once as many distinct words are drawn as the dictionary holds, every word is drawn, so any further draw repeats and throws |
| `PhpStrings.ImplodeExplode` | src/PasswordGenerator.php:460 | the pieces `explode` cuts a password into, imploded with the same separator, give back the password |
| `PhpStrings.ExplodeCount` | PasswordGenerator.php:416 | `explode` on a one-character separator gives one piece more than the separator occurs |
| `Random.RandomSource.Rand` | src/PasswordGenerator.php:59 | `rand(lo, hi)` returns an integer of the inclusive range `[lo, hi]` |
| `Entropy.AlphabetSizeOf` | src/PasswordGenerator.php:439-443 | fails with the empty-dictionary error exactly when the dictionary counts no words; otherwise the size is a float exactly when the exponent is negative, and for a non-negative exponent it is exactly `wordCount·2^variationsCount`, at least the word count |
| `Entropy.CalculateEntropy` | PasswordGeneratorAbstract.php:85-89 | a null alphabet size is replaced by the generator's own `getAlphabetSize()`, whose error is passed on; the call then succeeds exactly when the symbol count and the (resolved) alphabet size are ints, and gives the figure of those two ints; otherwise it fails with the not-an-int error |
| `Entropy.FirstEnough` | PasswordGeneratorAbstract.php:132 | the search returns the first count from `k` to the cap that reaches the threshold, none before it reaching it, or nothing when no count in the range does |
| `Entropy.MinSymbolCount` | PasswordGeneratorAbstract.php:130-134 | a result `n` lies in `1..max`, reaches the threshold, and no smaller count does; a cap below 0, an empty dictionary or a float alphabet fails with its own error; otherwise a failure means no count in `1..max` reaches the threshold |
| `Entropy.ReachesMonotone` | PasswordGeneratorAbstract.php:88 | entropy never drops when a word is added (alphabet at least 1) |
| `Entropy.ReachesAlphabetMonotone` | PasswordGeneratorAbstract.php:85-89 | a larger alphabet reaches every threshold a smaller one reaches with the same word count |
| `Entropy.AlphabetPower` | src/PasswordGenerator.php:443 | `(w·2^v)^n == w^n·2^(v·n)`: each word contributes its dictionary choice plus one bit per variation |
| `Entropy.MinSymbolCountUpwardClosed` | PasswordGeneratorAbstract.php:132-134 | every count at or above the search result reaches the threshold, so the result is the least such count overall |
| `Entropy.MinSymbolCountThresholdMonotone` | PasswordGeneratorAbstract.php:120-135 | a lower threshold succeeds whenever a higher one does, and never needs more words |
| `Entropy.MinSymbolCountAlphabetMonotone` | PasswordGeneratorAbstract.php:131-132 | a larger alphabet succeeds whenever a smaller one does, and never needs more words |
| `Entropy.TenThousandWordsAt112Bits` | PasswordGeneratorAbstract.php:130-134 | 10000 words, no variations and 112 bits give 9 words |
| `Entropy.EightyThousandAt64Bits` | PasswordGeneratorAbstract.php:130-133 | an alphabet of 80000 (10000 words, three variations) and 64 bits give 4 words |
| `Entropy.CapTooLowFails` | PasswordGeneratorAbstract.php:133 | a cap of 2 words cannot reach 112 bits from 10000 words, and the search fails with the cap error |
| `Levels.ThresholdForLevel` | src/PasswordGenerator.php:347-349 | a negative level gives the first threshold, a level inside the table its own threshold, and a level at or past the end nothing (no clamping) |
| `Levels.AscendingOrdered` | src/PasswordGenerator.php:363-367 | in an accepted table every threshold is at most every later one |
| `Levels.ThresholdMonotone` | PasswordGenerator.php:337-339 | in an accepted table a higher level never has a lower threshold, and every threshold is positive |
| `Levels.AcceptedIsAscending` | src/PasswordGenerator.php:360-367 | setMinEntropies accepts a list of ints exactly when it is non-empty, positive at index 0 and strictly ascending; a stored table read back is accepted again unchanged |
| `Levels.AcceptedGivesAscending` | PasswordGenerator.php:348-353 | an accepted argument, stored, is an ascending table |
| `Variations.FilterVariations` | src/PasswordGenerator.php:491-539 | null gives the current flags; an array is accepted exactly when its only keys are the four names, each holding a bool or null; absent or null keys take the current flag; everything else is refused |
| `Variations.AsArray` | PasswordGenerator.php:491-498 | getVariations returns an array with exactly the four keys, each holding a bool |
| `Variations.FilterAsArray` | src/PasswordGenerator.php:546-554 | filtering the array getVariations returns gives back the same four flags, whatever the current settings |
| `Variations.FilterIdempotent` | src/PasswordGenerator.php:677-680 | filtering an already filtered array again (as getVariationsCount does) changes nothing |
| `Variations.CountVariations` | src/PasswordGenerator.php:386-397 | getVariationsCount's loop counts one per true flag and 2 more for `punctuate`, which is exactly the number of slots applyVariation can select, and at most 6 |
| `Variations.TrueCountOfFour` | PasswordGenerator.php:368 | the number of true flags among four is the sum of their indicators |
| `Variations.ToggleFirst` | src/PasswordGenerator.php:584-587 | only the first character changes, to its case-flipped form, and the length is kept |
| `Variations.ApplyVariation` | src/PasswordGenerator.php:577-626 | index `k` (negative read as 0) applies the k-th enabled slot in the order capitalize, allcaps, `!`, `?`, `.`/`,`, `/`; `/` is skipped on the last word; an index past the slots leaves the word and its tag empty |
| `Variations.ApplyVariationShape` | PasswordGenerator.php:508-556 | at most one variation per word, and only an enabled one; capitalize keeps the length and everything after the first character; allcaps upper-cases; punctuate appends exactly one of `!?.` (last word) or `!?,`; addslashes appends `/` and never on the last word; no tag means no change |
| `Variations.SlotsDistinct` | src/PasswordGenerator.php:579-624 | the enabled slots are distinct, so each index selects a different outcome |
| `Variations.CaseKeepsTrimChars` | src/PasswordGenerator.php:585-595 | case changes map whitespace to itself and other characters to other characters |
| `Variations.ApplyVariationKeepsTrimmed` | src/PasswordGenerator.php:684-688 | a non-empty word without surrounding whitespace stays non-empty and without it after any variation |
| `Assembly.AssembledStep` | src/PasswordGenerator.php:690 | each loop iteration appends the word, followed by the separator unless it is the last word or took addslashes |
| `Assembly.SeparatorsWithoutSlashes` | PasswordGenerator.php:607 | without addslashes, `n` words are followed by exactly `n - 1` separators: none after the last |
| `Assembly.SeparatorOccurrences` | src/PasswordGenerator.php:683-691 | when no word contains the separator character, the password holds it exactly as many times as the loop wrote it |
| `Assembly.SymbolCountRecovered` | PasswordGenerator.php:413-417 | getSymbolCount with the separator recovers the number of words when no word took addslashes or contains the separator |
| `Assembly.AssembledStart` | src/PasswordGenerator.php:679-691 | the password starts with the first character of the first word |
| `Assembly.TrimmedWhenWordsAre` | src/PasswordGenerator.php:692-693 | when every word is non-empty and has no surrounding whitespace, the joined password has none either and the final `trim` leaves it unchanged |
| `Dictionaries.KeptMembers` | dictionary/Dictionary.php:155-157 | a word survives the load loop exactly when it is the trimmed form of a given word and at least `minWordSize` long |
| `Dictionaries.KeptWords` | dictionary/Dictionary.php:156 | every surviving word is trimmed and at least `minWordSize` long |
| `Dictionaries.TrimsStep` | dictionary/Dictionary.php:155 | trimming every given word, one word more appends its trimmed form |
| `Dictionaries.MergedWords` | dictionary/Dictionary.php:158-162 | merging the surviving words into stored non-empty trimmed words keeps every stored word non-empty and trimmed |
| `Dictionaries.KeepWords` | dictionary/Dictionary.php:140-157 | the foreach loop leaves exactly the trimmed, long-enough words, in order |
| `Dictionaries.ShortWords` | dictionary/Dictionary.php:64-66 | the number of words shorter than the bound is at most the number of words, and 0 when the bound is null |
| `Dictionaries.Strings` | dictionary/Dictionary.php:153-155 | a list of string values read as strings, element by element |
| `Dictionaries.Dictionary.constructor` | dictionary/Dictionary.php:19-38 | a dictionary with no words, count 0, the given defaults, and both length fields null |
| `Dictionaries.Dictionary.CountWords` | dictionary/Dictionary.php:75-85 | countWords is all the words when `minReadWordsWordSize >= minWordSize` by PHP's comparison (null against null included), and otherwise the number of words shorter than the `minWordSize` field; never more than the number of words |
| `Dictionaries.Dictionary.ExplicitMinWordSizeCount` | dictionary/Dictionary.php:77-83 | with the length fields null, an explicit non-zero `minWordSize` and a null `minReadWordsWordSize` count no word at all, and an explicit 0 counts them all |
| `Dictionaries.Dictionary.CountIsSize` | dictionary/Dictionary.php:80-81 | the stored count equals the number of stored words |
| `Dictionaries.Dictionary.SetWordCount` | dictionary/Dictionary.php:92-96 | setWordCount stores countWords of the given or stored words and returns it |
| `Dictionaries.Dictionary.GetRandomWord` | dictionary/Dictionary.php:46-55 | fails exactly when no word is stored; returns a stored word, or with a given list an element of it, or null when the index (drawn over the stored words' range) is past the given list |
| `Dictionaries.Dictionary.GetRandomWordsArray` | dictionary/Dictionary.php:104-131 | refuses a count below 1 or a non-bool `unique`; otherwise it returns exactly `count` stored words, pairwise distinct with `unique`, and fails exactly when there are no words or a unique draw asks for more words than stored |
| `Dictionaries.Dictionary.DistinctBoundAfterDraw` | dictionary/Dictionary.php:119-125 | a unique draw never holds more words than the dictionary |
| `Dictionaries.Dictionary.ReadWordsFromArray` | dictionary/Dictionary.php:140-165 | succeeds exactly when `add` is bool, `minWordSize` an int above 0 and the input a list of strings or the empty array; the words become the deduplicated merge of the old words (with `add`) and the trimmed, long-enough new ones; the count is the number of words; on failure the words are unchanged |
| `Dictionaries.Dictionary.StoreWords` | dictionary/Dictionary.php:158-163 | the merged words, deduplicated, are stored and counted |
| `Dictionaries.Dictionary.SetMinWordSize` | dictionary/Dictionary.php:224-229 | always throws, because `is_int` is applied to a boolean |
| `Dictionaries.Dictionary.ReadWords` | dictionary/Dictionary.php:286-321 | succeeds exactly when `params` is an array, `params['add']` (or the default) is a bool, the format is `'array'`, `minWordSize` is an int above 0 and the input a list of strings or the empty array; the words then become the deduplicated merge of the old words (with `add`) and the trimmed, long-enough new ones, and are counted; an unknown format is refused; on failure the words are unchanged |
| `Dictionaries.Dictionary.New` | dictionary/Dictionary.php:322-369 | succeeds exactly for a positive `minWordSize`, the `'array'` format, an array `params` and a list of strings or the empty array, and then holds the deduplicated trimmed long-enough words, with `minWordSize` and `'array'` stored as the defaults and `params['add']`, when a bool, as the default `add` (otherwise `true`); an unknown format string is refused |
| `Dictionaries.Dictionary.Load` | dictionary/Dictionary.php:357-362 | the array branch of the constructor: succeeds exactly when the input is a list of strings or the empty array, and then holds the deduplicated trimmed long-enough words with the given defaults; otherwise `InvalidArgument` |
| `Generator.CheckThresholds` | src/PasswordGenerator.php:360-367 | the validation loop of setMinEntropies answers true exactly for an accepted table |
| `Generator.StoredSeparators` | src/PasswordGenerator.php:79-85 | what setSeparators stores is never empty and duplicate-free, and holds exactly the characters of a non-empty string given |
| `Generator.SeparatorsFor` | src/PasswordGenerator.php:643-663 | the separator draw happens exactly when the dictionary, level and separators arguments pass their checks |
| `Generator.Prepare` | src/PasswordGenerator.php:643-681 | on success: the separators drawn from; the threshold is the explicit level's (the stored level's when the explicit one is past the table) or else the explicit threshold or else the stored level's; the flags are the filtered variations and the switch the given or stored one; variation count = number of slots; alphabet = words·2^count, at least 1; word count in `1..maxSymbols`, reaching the threshold, no smaller count reaching it; an explicit dictionary is refused; an empty dictionary fails |
| `Generator.Resolve` | src/PasswordGenerator.php:665-681 | for the part after the separator draw: a threshold or variation switch that is not an int, bool or null, and refused variations, fail; on success the threshold is the explicit one, else the given level's, else (past the table) the stored level's; the flags are the filtered variations, the switch the given or stored one, and the word count the least in `1..maxSymbols` reaching the threshold |
| `Generator.AllDrawnStep` | src/PasswordGenerator.php:683-691 | a drawn symbol extends a complete record of the draws by one |
| `Generator.DrawnPasswordTrimmed` | src/PasswordGenerator.php:692-693 | a password assembled from drawn symbols has no surrounding whitespace, so the final `trim` changes nothing |
| `Generator.PasswordGenerator.constructor` | src/PasswordGenerator.php:24-38 | the field defaults: 20 symbols at most, variations on with capitalize, punctuate and allcaps, default thresholds 64, 80, 112, 128 and default level 2; the fields PHP declares null (thresholds, level, separators) are pre-filled here with those defaults and `' '`, which no caller observes because `New` always overwrites them |
| `Generator.PasswordGenerator.New` | src/PasswordGenerator.php:713-770 | succeeds exactly when the word sizes are ints or null, a dictionary object is given and the level, separators, thresholds, variation switch and variations pass their setters; the object then holds those settings (defaults for nulls); a null dictionary needs a file (not modelled), and a non-dictionary is refused |
| `Generator.PasswordGenerator.Build` | src/PasswordGenerator.php:742-768 | from a dictionary object: the same success condition and resulting settings |
| `Generator.PasswordGenerator.Configure` | src/PasswordGenerator.php:746-768 | the setters of the constructor in order: succeeds exactly when each accepts its argument, and then stores each one (the default level and thresholds for null) |
| `Generator.PasswordGenerator.ConfigureStrength` | src/PasswordGenerator.php:746-760 | level, separators and thresholds: accepted exactly when each passes, then stored |
| `Generator.PasswordGenerator.ConfigureVariations` | src/PasswordGenerator.php:762-768 | the variation switch and the variations: accepted exactly when both pass, then stored |
| `Generator.PasswordGenerator.SetDictionary` | PasswordGeneratorAbstract.php:72-77 | only a dictionary object is stored; anything else throws and leaves the field unchanged |
| `Generator.PasswordGenerator.SetMaxSymbols` | src/PasswordGenerator.php:110-118 | an int is stored; anything else throws and changes nothing |
| `Generator.PasswordGenerator.SetAddslashes` | src/PasswordGenerator.php:134-142 | a bool is stored; anything else throws and changes nothing |
| `Generator.PasswordGenerator.SetAllcaps` | src/PasswordGenerator.php:149-157 | a bool is stored; anything else throws and changes nothing |
| `Generator.PasswordGenerator.SetCapitalize` | src/PasswordGenerator.php:164-172 | a bool is stored; anything else throws and changes nothing |
| `Generator.PasswordGenerator.SetDefaultDictionaryFilename` | src/PasswordGenerator.php:179-187 | a string is stored; anything else throws and changes nothing |
| `Generator.PasswordGenerator.SetDefaultLevel` | src/PasswordGenerator.php:194-202 | an int is stored; anything else throws and changes nothing |
| `Generator.PasswordGenerator.SetLevel` | src/PasswordGenerator.php:209-217 | any int is stored, even one past the table; anything else throws and changes nothing |
| `Generator.PasswordGenerator.SetPunctuate` | src/PasswordGenerator.php:224-232 | a bool is stored; anything else throws and changes nothing |
| `Generator.PasswordGenerator.SetUseVariations` | src/PasswordGenerator.php:303-311 | a bool is stored; anything else throws and changes nothing |
| `Generator.PasswordGenerator.SetSeparators` | src/PasswordGenerator.php:77-89 | null or `''` stores `' '`; a string stores its distinct characters in first-occurrence order; anything else throws and changes nothing |
| `Generator.PasswordGenerator.SetSeparator` | src/PasswordGenerator.php:53-61 | stores and returns one character of the given (or stored) separators, or `' '` when there is none; only string and null arguments, the ones generatePassword passes, are modelled |
| `Generator.PasswordGenerator.SetMinEntropies` | src/PasswordGenerator.php:358-374 | an accepted table replaces the thresholds, or the default thresholds with `$default`; anything else throws before either field is assigned |
| `Generator.PasswordGenerator.SetDefaultMinEntropies` | PasswordGenerator.php:189-201 | an accepted table replaces the default thresholds; anything else throws and changes nothing |
| `Generator.PasswordGenerator.GetMinEntropyForLevel` | src/PasswordGenerator.php:335-350 | a non-int level or a non-array table is refused; otherwise the level's threshold in the given or stored table, null past the end, and null for a string-keyed array |
| `Generator.PasswordGenerator.GetMinEntropy` | src/PasswordGenerator.php:476-484 | the threshold of the given (or stored) level in the stored table; a non-int level is refused |
| `Generator.PasswordGenerator.GetVariations` | src/PasswordGenerator.php:559-567 | a four-key array that filterVariations turns back into the current flags, so `setVariations(getVariations())` changes nothing |
| `Generator.PasswordGenerator.SetVariations` | src/PasswordGenerator.php:546-554 | the filtered flags replace the four settings; when the filter throws nothing changes |
| `Generator.PasswordGenerator.GetVariationsCount` | src/PasswordGenerator.php:381-399 | the number of slots of the filtered variations, at most 6; a refused array fails |
| `Generator.PasswordGenerator.GetSeparatorsCount` | src/PasswordGenerator.php:406-418 | the length of a string or the size of an array, the stored separators' length for null; anything else throws |
| `Generator.PasswordGenerator.GetAlphabetSize` | src/PasswordGenerator.php:426-445 | a non-dictionary or a non-int count is refused; otherwise `wordCount·2^count` of the designated dictionary, with the stored variations' count for null |
| `Generator.PasswordGenerator.GetSymbolCount` | src/PasswordGenerator.php:452-461 | `true` gives the last password's word count; a non-empty separator (the stored one for null) the number of `explode` pieces, at least 1; anything else fails |
| `Generator.PasswordGenerator.GetMinSymbolCount` | PasswordGeneratorAbstract.php:120-135 | the argument checks in order, then the search: the least count in `1..maxSymbols` reaching the threshold (the stored level's for null) over the designated dictionary's alphabet |
| `Generator.PasswordGenerator.GeneratePassword` | src/PasswordGenerator.php:640-695 | fails exactly when the checks fail, with their error; otherwise the password is the assembly of exactly the least sufficient number of drawn stored words, each varied by an index of `[0, variationsCount]` when variations are on, with no surrounding whitespace, and that word count is recorded; the settings are unchanged, and the separator is redrawn whenever the first checks pass |
| `Generator.PasswordGenerator.Settle` | src/PasswordGenerator.php:643-681 | the checks of generatePassword and the separator draw among them: the outcome is `Prepare` of the current settings |
| `Generator.PasswordGenerator.ResolveRequest` | src/PasswordGenerator.php:665-681 | the checks after the separator draw: the outcome is `Resolve` of the current settings |
| `Generator.PasswordGenerator.DrawSymbol` | src/PasswordGenerator.php:684-689 | a stored word, trimmed, and an index in `[0, variationsCount]` when variations are on, giving a non-empty symbol without surrounding whitespace |
| `Generator.PasswordGenerator.DrawNext` | src/PasswordGenerator.php:683-691 | one more symbol drawn, and its piece appended to the password |
| `Generator.PasswordGenerator.DrawWords` | src/PasswordGenerator.php:679-693 | the loop draws exactly `symbolCount` symbols and returns their assembly, which `trim` leaves unchanged |
| `Generator.PasswordGenerator.Emit` | src/PasswordGenerator.php:683-694 | the word loop followed by the record of its length: exactly `symbolCount` symbols drawn from the stored words, joined with the drawn separator, with no surrounding whitespace, and `symbolCount` recorded as the last password's word count; the settings and the separator are unchanged |
| `Generator.PasswordGenerator.GetEntropy` | PasswordGeneratorAbstract.php:100-111 | the argument checks in source order, including the refusal of a separators count `log` cannot take (a non-numeric string, an array, an object); then the figure of `CalculateEntropy` with the separators count (the stored separators' length, or 1 when `lastOrSeparator` is `false`), the symbol count and the alphabet size |
| `Generator.SeparatorsCountIsDistinct` | src/PasswordGenerator.php:414-415 | after setSeparators, getSeparatorsCount is the number of distinct characters given |
| `Generator.SetSeparatorsIdempotent` | PasswordGenerator.php:67 | storing the stored separators again changes nothing |
| `Generator.ExplicitLevelOverridesMinEntropy` | src/PasswordGenerator.php:649-655 | with an explicit level, the explicit threshold argument has no effect on the outcome |
| `Generator.LevelPastTableGivesOneWord` | src/PasswordGenerator.php:665-666 | a stored level past the table leaves no threshold, and generatePassword then settles on one word |
| `Generator.TopIndexLeavesWord` | src/PasswordGenerator.php:688 | the top index `variationsCount` of the drawn range selects no variation |
| `Generator.DefaultSettingsTenThousandWords` | src/PasswordGenerator.php:24-29 | the defaults (five slots, level 2 = 112 bits) and 10000 words give an alphabet of 320000 and 7-word passwords |

## Left out

- Loading words from a text file or a database: `readWordsFromFile`, `readWordsFromPDO`, and the `'filename'` and `'pdo_handler'` branches of `readWords` and of both constructors. They answer `Err(ExternalSource)`. A null dictionary given to the generator's constructor is also `Err(ExternalSource)`, because it would load the default word file.
- `CryptoSecurePRNG` is not part of this model. The `prng` object is `Random.RandomSource`, promised only to return a number in range. Its body is a stand-in. The runtime check that a given `prng` has a `rand` method is a typing fact here. `rand(0, -1)` over an empty word list is not defined by the visible code; the model treats it as a failure, so `GetRandomWord` fails exactly when no word is stored.
- Floating point. The reported entropy (`calculateEntropy`, `getEntropy`) is kept symbolic as its terms (`EntropyFigure`); no `log` is computed. Every threshold comparison uses the exact integer form `a^n >= 2^m`.
- PHP's 64-bit integer overflow. Word counts, powers and thresholds are unbounded; for `2^variationsCount` with a large count, PHP would switch to floats.
- PHP arrays with holes. After `unset` and `array_unique`, the source keeps the original keys, so `getRandomWord` can hit a missing index. The model keeps the words as a dense sequence.
- Arrays are either dense lists or string-keyed records. Mixed or numeric-string keys are not represented.
- `Dictionaries.Dictionary.ReadWordsFromArray`, `Dictionaries.Dictionary.ReadWords` and `Dictionaries.Dictionary.New`: a non-empty string-keyed word array (such as `['a' => 'apple']`), which PHP's `foreach` loads, is refused with `InvalidArgument`, because a record carries no order for its words; the empty array is loaded in either shape.
- `Dictionaries.Dictionary.GetRandomWordsArray`: PHP's `in_array` compares loosely, so numeric-string words such as `"100"` and `"1e2"` count as a repeat there although `array_unique` keeps both; the model compares words exactly, so with such words PHP may throw the not-enough-unique-words error earlier than the model says.
- `Generator.PasswordGenerator.SetSeparator`: takes a string or null. PHP's public `setSeparator` accepts any value, and an int there gives a null separator after a warning; that case is not modelled.
- The model assumes PHP 8 comparison semantics: `0 == 'capitalize'` is false, so a non-empty list given to `filterVariations` is refused, and the loose `switch` of the format matches only the listed strings and `true`. Under PHP 7 an int key or format `0` would compare equal to a string and behave differently.
- Character encoding and locale. Characters are single code points, `strtoupper`/`strtolower` are ASCII only, and `setSeparators`' UTF-8 splitting is taken to agree with `setSeparator`'s byte indexing.
- Non-string entries of a word array. PHP 8's `trim` would coerce or throw on them; the model refuses them with `InvalidArgument`.
- The redraw loop of `getRandomWordsArray` (`while (in_array(...))`) terminates only with probability 1. It is modelled by its outcome: some word not drawn yet.
- `Generator.PasswordGenerator.GetMinSymbolCount`: requires a threshold argument that is not a float or a string. PHP's `is_numeric` accepts those, and comparing with them would need floating point.
- `Generator.PasswordGenerator.GetSymbolCount`: does not model PHP coercing a non-string separator (an int, say) to a string for `explode`; such a separator is refused.
- `Variations.ApplyVariation`: requires a non-empty word when capitalize is the selected variation. On `''`, PHP's `$word[0]` write would act on an empty string. Every word generatePassword passes is non-empty.
- The getters that only return a field (`getSeparator`, `getMaxSymbols`, `getMaxSymbolCount`, `getLevel` and the like) are the fields themselves.
- `dictionary/DictionaryInterface.php`. It declares signatures only; the one implementation, `Dictionary`, stands in for it.
- The web front end (`webapp/passgenController.php`) and both JavaScript clients: HTTP parameters, JSON output and the DOM.
