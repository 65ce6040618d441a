/** Strength levels: the table of minimum entropies (bits) indexed by level,
    the lookup getMinEntropyForLevel performs on it, and the rule
    setMinEntropies accepts a new table by. */
module Levels {
  import opened PhpValues

  /** A table setMinEntropies accepts: at least one entry, the first
      positive, each larger than the one before. */
  predicate Ascending(s: seq<int>)
  {
    |s| >= 1 && s[0] > 0 && forall i :: 1 <= i < |s| ==> s[i - 1] < s[i]
  }

  /** The lookup `level < 0 ? t[0] : (level < count(t) ? t[level] : t[count(t)])`.
      An index the array does not hold reads as null in PHP, so a level at or
      past the end of the table yields None: the lookup does not clamp to the
      last threshold. */
  function ThresholdForLevel<T>(level: int, thresholds: seq<T>): (r: Option<T>)
    ensures var k := if level < 0 then 0 else level;
      r == if k < |thresholds| then Some(thresholds[k]) else None
  {
    if level < 0 then (if |thresholds| > 0 then Some(thresholds[0]) else None)
    else if level < |thresholds| then Some(thresholds[level])
    else None
  }

  /** Every entry of an ascending table is below every later one. */
  lemma {:induction false} AscendingOrdered(s: seq<int>, i: int, j: int)
    requires Ascending(s) && 0 <= i <= j < |s|
    ensures s[i] <= s[j]
    decreases j - i
  {
    if i < j {
      AscendingOrdered(s, i, j - 1);
    }
  }

  /** A higher level never has a lower threshold, and every threshold is
      positive. */
  lemma ThresholdMonotone(s: seq<int>, level: int, level': int)
    requires Ascending(s) && level <= level'
    requires ThresholdForLevel(level', s).Some?
    ensures ThresholdForLevel(level, s).Some?
    ensures 0 < ThresholdForLevel(level, s).value <= ThresholdForLevel(level', s).value
  {
    var k := if level < 0 then 0 else level;
    var k' := if level' < 0 then 0 else level';
    AscendingOrdered(s, 0, k);
    AscendingOrdered(s, k, k');
  }

  /** The argument test of setMinEntropies: an array whose index 0 is set to
      an int above 0, and whose every index 1 .. count-1 is set to an int
      above the one before. A string-keyed array has no index 0. */
  predicate AcceptedThresholds(v: Value)
  {
    && v.List?
    && |v.items| >= 1
    && (forall i :: 0 <= i < |v.items| ==> v.items[i].Int?)
    && v.items[0].i > 0
    && (forall i :: 1 <= i < |v.items| ==> v.items[i - 1].i < v.items[i].i)
  }

  /** The ints of a list of int values. */
  function Ints(items: seq<Value>): (r: seq<int>)
    requires forall i :: 0 <= i < |items| ==> items[i].Int?
    ensures |r| == |items| && forall i :: 0 <= i < |items| ==> items[i] == Int(r[i])
  {
    seq(|items|, i requires 0 <= i < |items| => items[i].i)
  }

  /** A table as the PHP array of ints getMinEntropies returns. */
  function AsValues(s: seq<int>): (r: seq<Value>)
    ensures |r| == |s| && forall i :: 0 <= i < |s| ==> r[i] == Int(s[i])
  {
    seq(|s|, i requires 0 <= i < |s| => Int(s[i]))
  }

  /** What setMinEntropies accepts is exactly an ascending table, and a
      table read back with getMinEntropies is accepted again unchanged. */
  lemma AcceptedIsAscending(s: seq<int>)
    ensures AcceptedThresholds(List(AsValues(s))) <==> Ascending(s)
    ensures Ints(AsValues(s)) == s
  {
  }

  lemma AcceptedGivesAscending(v: Value)
    requires AcceptedThresholds(v)
    ensures Ascending(Ints(v.items))
  {
  }
}
