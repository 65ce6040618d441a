/** How generatePassword joins the varied words: each word is followed by
    the separator, except the last word and a word that took the
    addslashes variation (its '/' stands in for the separator). */
module Assembly {
  import opened PhpStrings
  import opened Variations

  /** What one iteration of the word loop appends to `$password`. */
  function Piece(a: Applied, separator: string, last: bool): string
  {
    a.word + (if a.variation == Addslashes || last then "" else separator)
  }

  /** `$password` after the words `ws` of a password of `total` words (the
      word at position `total` is the last one). */
  function Assembled(ws: seq<Applied>, separator: string, total: nat): string
  {
    if ws == [] then ""
    else Assembled(ws[..|ws| - 1], separator, total) + Piece(ws[|ws| - 1], separator, |ws| == total)
  }

  /** One more word appends its piece. */
  lemma AssembledStep(ws: seq<Applied>, a: Applied, separator: string, total: nat)
    ensures Assembled(ws + [a], separator, total) == Assembled(ws, separator, total) + Piece(a, separator, |ws| + 1 == total)
  {
    assert (ws + [a])[..|ws|] == ws;
  }

  /** How many separators the words `ws` were followed by. */
  function SeparatorsWritten(ws: seq<Applied>, total: nat): nat
  {
    if ws == [] then 0
    else
      SeparatorsWritten(ws[..|ws| - 1], total)
      + (if ws[|ws| - 1].variation == Addslashes || |ws| == total then 0 else 1)
  }

  /** Separators are only written between words, never after the last one:
      without addslashes, `total` words carry `total - 1` separators. */
  lemma {:induction false} SeparatorsWithoutSlashes(ws: seq<Applied>, total: nat)
    requires |ws| <= total
    requires forall i :: 0 <= i < |ws| ==> ws[i].variation != Addslashes
    ensures SeparatorsWritten(ws, total) == if |ws| == total && total > 0 then |ws| - 1 else |ws|
  {
    if ws != [] {
      SeparatorsWithoutSlashes(ws[..|ws| - 1], total);
    }
  }

  /** With a one-character separator that no word contains, the separators
      of the password are exactly the ones the loop wrote. */
  lemma {:induction false} SeparatorOccurrences(ws: seq<Applied>, c: char, total: nat)
    requires forall i :: 0 <= i < |ws| ==> c !in ws[i].word
    ensures CountChar(c, Assembled(ws, [c], total)) == SeparatorsWritten(ws, total)
  {
    if ws != [] {
      var init, a := ws[..|ws| - 1], ws[|ws| - 1];
      SeparatorOccurrences(init, c, total);
      var tail := if a.variation == Addslashes || |ws| == total then [] else [c];
      CountCharAppend(c, Assembled(init, [c], total), a.word + tail);
      CountCharAppend(c, a.word, tail);
      CountCharAbsent(c, a.word);
      if tail == [c] {
        assert [c][..0] == [];
      }
    }
  }

  /** getSymbolCount($password, $separator) recovers the number of words
      the loop emitted, when no word took addslashes and no word contains
      the separator: `explode` splits exactly at the written separators. */
  lemma SymbolCountRecovered(ws: seq<Applied>, c: char)
    requires |ws| >= 1
    requires forall i :: 0 <= i < |ws| ==> ws[i].variation != Addslashes && c !in ws[i].word
    ensures |Explode([c], Assembled(ws, [c], |ws|))| == |ws|
  {
    SeparatorOccurrences(ws, c, |ws|);
    SeparatorsWithoutSlashes(ws, |ws|);
    ExplodeCount(c, Assembled(ws, [c], |ws|));
  }

  /** The assembled words start with the first word. */
  lemma {:induction false} AssembledStart(ws: seq<Applied>, separator: string, total: nat)
    requires |ws| >= 1 && ws[0].word != []
    ensures |Assembled(ws, separator, total)| >= 1
    ensures Assembled(ws, separator, total)[0] == ws[0].word[0]
  {
    if |ws| > 1 {
      AssembledStart(ws[..|ws| - 1], separator, total);
    }
  }

  /** The complete password ends with its last word: no separator follows
      it, so `trim` has nothing to strip when the words themselves are
      trimmed and not empty. */
  lemma TrimmedWhenWordsAre(ws: seq<Applied>, separator: string)
    requires |ws| >= 1
    requires forall i :: 0 <= i < |ws| ==> ws[i].word != [] && Trimmed(ws[i].word)
    ensures Trimmed(Assembled(ws, separator, |ws|))
    ensures Trim(Assembled(ws, separator, |ws|)) == Assembled(ws, separator, |ws|)
  {
    AssembledStart(ws, separator, |ws|);
    var p := Assembled(ws, separator, |ws|);
    var w := ws[|ws| - 1].word;
    assert p == Assembled(ws[..|ws| - 1], separator, |ws|) + w;
    assert p[|p| - 1] == w[|w| - 1];
  }
}
