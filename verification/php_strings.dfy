/** The PHP string and array library functions the core relies on:
    `trim`, `strtoupper`/`strtolower` (ASCII only), `array_unique`,
    `explode` and `implode`. */
module PhpStrings {

  /** The characters PHP's `trim` strips: space, tab, newline, carriage
      return, NUL and vertical tab. */
  predicate IsTrimChar(c: char)
  {
    c == ' ' || c == '\t' || c == '\n' || c == '\r' || c == '\0' || c == '\U{000B}'
  }

  /** A string that `trim` leaves alone. */
  predicate Trimmed(s: string)
  {
    s == [] || (!IsTrimChar(s[0]) && !IsTrimChar(s[|s| - 1]))
  }

  function TrimLeft(s: string): (r: string)
    ensures |r| <= |s| && r == s[|s| - |r|..]
    ensures forall k :: 0 <= k < |s| - |r| ==> IsTrimChar(s[k])
    ensures r == [] || !IsTrimChar(r[0])
  {
    if s != [] && IsTrimChar(s[0]) then TrimLeft(s[1..]) else s
  }

  function TrimRight(s: string): (r: string)
    ensures |r| <= |s| && r == s[..|r|]
    ensures forall k :: |r| <= k < |s| ==> IsTrimChar(s[k])
    ensures r == [] || !IsTrimChar(r[|r| - 1])
  {
    if s != [] && IsTrimChar(s[|s| - 1]) then TrimRight(s[..|s| - 1]) else s
  }

  /** PHP `trim`: strips the trim characters at both ends. */
  function Trim(s: string): (r: string)
    ensures Trimmed(r)
    ensures Trimmed(s) ==> r == s
  {
    var l := TrimLeft(s);
    assert TrimRight(l) != [] ==> TrimRight(l)[0] == l[0];
    TrimRight(l)
  }

  /** What `trim` removes are trim characters only: the result is the infix
      of `s` between a run of them at the front and a run at the back. */
  lemma {:induction false} TrimIsInfix(s: string)
    ensures var i, r := |s| - |TrimLeft(s)|, Trim(s);
      && i + |r| <= |s|
      && (forall k :: 0 <= k < |r| ==> r[k] == s[i + k])
      && (forall k :: 0 <= k < i ==> IsTrimChar(s[k]))
      && (forall k :: i + |r| <= k < |s| ==> IsTrimChar(s[k]))
  {
    var l := TrimLeft(s);
    var r := TrimRight(l);
    assert Trim(s) == r;
    InfixOfSuffix(s, l, r);
  }

  /** A prefix `r` of a suffix `l` of `s` is an infix of `s`, and what
      follows `r` in `l` follows it in `s`. */
  lemma InfixOfSuffix(s: string, l: string, r: string)
    requires |l| <= |s| && l == s[|s| - |l|..]
    requires |r| <= |l| && r == l[..|r|]
    requires forall k :: |r| <= k < |l| ==> IsTrimChar(l[k])
    ensures forall k :: 0 <= k < |r| ==> r[k] == s[|s| - |l| + k]
    ensures forall k :: |s| - |l| + |r| <= k < |s| ==> IsTrimChar(s[k])
  {
    var i := |s| - |l|;
    forall k | i + |r| <= k < |s|
      ensures IsTrimChar(s[k])
    {
      assert s[k] == l[k - i];
    }
  }

  function ToUpperChar(c: char): char
  {
    if 'a' <= c <= 'z' then (c as int - 32) as char else c
  }

  function ToLowerChar(c: char): char
  {
    if 'A' <= c <= 'Z' then (c as int + 32) as char else c
  }

  /** PHP `strtoupper` on ASCII text. */
  function StrToUpper(s: string): (r: string)
    ensures |r| == |s|
    ensures forall k :: 0 <= k < |s| ==> r[k] == ToUpperChar(s[k])
  {
    seq(|s|, k requires 0 <= k < |s| => ToUpperChar(s[k]))
  }

  /** The letter-case flip applied to a word's first character: a character
      that `strtolower` leaves alone is upper-cased, any other is lower-cased. */
  function ToggleCase(c: char): char
  {
    if ToLowerChar(c) == c then ToUpperChar(c) else ToLowerChar(c)
  }

  lemma {:induction false} ToggleCaseFlipsLetters(c: char)
    ensures 'a' <= c <= 'z' ==> 'A' <= ToggleCase(c) <= 'Z' && ToLowerChar(ToggleCase(c)) == c
    ensures 'A' <= c <= 'Z' ==> 'a' <= ToggleCase(c) <= 'z' && ToUpperChar(ToggleCase(c)) == c
    ensures !('a' <= c <= 'z') && !('A' <= c <= 'Z') ==> ToggleCase(c) == c
    ensures ToggleCase(ToggleCase(c)) == c
  {
  }

  predicate NoDuplicates<T(==)>(s: seq<T>)
  {
    forall i, j :: 0 <= i < j < |s| ==> s[i] != s[j]
  }

  /** PHP `array_unique` on a dense list: every element kept at its first
      occurrence, later repeats dropped. */
  function Unique<T(==,!new)>(s: seq<T>): (r: seq<T>)
    ensures NoDuplicates(r)
    ensures forall x :: x in r <==> x in s
    ensures |r| <= |s|
    ensures NoDuplicates(s) ==> r == s
  {
    if s == [] then []
    else
      var init := s[..|s| - 1];
      var u := Unique(init);
      assert s == init + [s[|s| - 1]];
      if s[|s| - 1] in u then u else u + [s[|s| - 1]]
  }

  /** The index of the first occurrence of `x` in `s`. */
  function FirstIndex<T(==)>(s: seq<T>, x: T): (p: nat)
    requires x in s
    ensures p < |s| && s[p] == x
    ensures forall q :: 0 <= q < p ==> s[q] != x
  {
    if s[0] == x then 0 else 1 + FirstIndex(s[1..], x)
  }

  /** An element of `a` first occurs in `a + b` where it first occurs in `a`. */
  lemma FirstIndexOfPrefix<T>(a: seq<T>, b: seq<T>, x: T)
    requires x in a
    ensures FirstIndex(a + b, x) == FirstIndex(a, x)
  {
    assert (a + b)[FirstIndex(a, x)] == x;
  }

  /** `array_unique` keeps each element at its first occurrence: the kept
      elements appear in the order in which they first occur in the input. */
  lemma {:induction false} UniqueKeepsFirstOccurrences<T(!new)>(s: seq<T>)
    ensures forall i, j :: 0 <= i < j < |Unique(s)| ==> FirstIndex(s, Unique(s)[i]) < FirstIndex(s, Unique(s)[j])
  {
    if s != [] {
      var init, last := s[..|s| - 1], s[|s| - 1];
      var u := Unique(init);
      assert s == init + [last];
      UniqueKeepsFirstOccurrences(init);
      forall i | 0 <= i < |u|
        ensures FirstIndex(s, u[i]) == FirstIndex(init, u[i])
      {
        FirstIndexOfPrefix(init, [last], u[i]);
      }
      if last !in u {
        assert last !in init;
        assert FirstIndex(s, last) == |init|;
      }
    }
  }

  /** A distinct sequence has as many elements as its set. */
  lemma {:induction false} DistinctCardinality<T>(s: seq<T>)
    requires NoDuplicates(s)
    ensures |set x | x in s| == |s|
  {
    if s != [] {
      var init := s[..|s| - 1];
      DistinctCardinality(init);
      assert s == init + [s[|s| - 1]];
      assert (set x | x in s) == (set x | x in init) + {s[|s| - 1]};
    }
  }

  lemma {:induction false} SubsetCardinality<T>(a: set<T>, b: set<T>)
    requires a <= b
    ensures |a| <= |b|
    decreases b
  {
    if a != {} {
      var x :| x in a;
      SubsetCardinality(a - {x}, b - {x});
    }
  }

  /** Pigeonhole: a distinct sequence drawn from a distinct sequence of the
      same length uses every element. */
  lemma {:induction false} DistinctCover<T>(chosen: seq<T>, pool: seq<T>)
    requires NoDuplicates(chosen) && NoDuplicates(pool)
    requires forall x :: x in chosen ==> x in pool
    requires |chosen| >= |pool|
    ensures forall x :: x in pool ==> x in chosen
  {
    DistinctCardinality(chosen);
    DistinctCardinality(pool);
    var c := set x | x in chosen;
    var p := set x | x in pool;
    assert c <= p;
    forall x | x in pool
      ensures x in chosen
    {
      if x !in chosen {
        SubsetCardinality(c, p - {x});
        assert false;
      }
    }
  }

  /** A distinct sequence drawn from another sequence is no longer than it. */
  lemma DistinctBound<T>(chosen: seq<T>, pool: seq<T>)
    requires NoDuplicates(chosen)
    requires forall x :: x in chosen ==> x in pool
    ensures |chosen| <= |pool|
  {
    DistinctCardinality(chosen);
    var c := set x | x in chosen;
    var p := set x | x in pool;
    SubsetCardinality(c, p);
    SetOfSeqBound(pool);
  }

  lemma {:induction false} SetOfSeqBound<T>(s: seq<T>)
    ensures |set x | x in s| <= |s|
  {
    if s != [] {
      var init := s[..|s| - 1];
      SetOfSeqBound(init);
      assert s == init + [s[|s| - 1]];
      assert (set x | x in s) == (set x | x in init) + {s[|s| - 1]};
    }
  }

  /** A distinct sequence drawn from a longer distinct sequence misses one. */
  lemma {:induction false} DistinctMisses<T>(chosen: seq<T>, pool: seq<T>)
    requires NoDuplicates(chosen) && NoDuplicates(pool)
    requires |chosen| < |pool|
    ensures exists x :: x in pool && x !in chosen
  {
    DistinctCardinality(chosen);
    DistinctCardinality(pool);
    var c := set x | x in chosen;
    var p := set x | x in pool;
    if forall x :: x in pool ==> x in chosen {
      SubsetCardinality(p, c);
    }
  }

  /** PHP `explode` with a non-empty separator: the pieces between the
      non-overlapping occurrences of `sep`, read left to right. */
  function Explode(sep: string, s: string): (r: seq<string>)
    requires sep != []
    ensures |r| >= 1
    decreases |s|
  {
    if |s| < |sep| then [s]
    else if s[..|sep|] == sep then [""] + Explode(sep, s[|sep|..])
    else
      var rest := Explode(sep, s[1..]);
      [[s[0]] + rest[0]] + rest[1..]
  }

  /** PHP `implode`: the pieces with `sep` between consecutive ones. */
  function Implode(sep: string, parts: seq<string>): string
    requires |parts| >= 1
  {
    if |parts| == 1 then parts[0] else parts[0] + sep + Implode(sep, parts[1..])
  }

  /** Gluing a character to the front of the first piece glues it to the
      front of the imploded string. */
  lemma {:induction false} ImplodeGlueFront(sep: string, c: char, parts: seq<string>)
    requires |parts| >= 1
    ensures Implode(sep, [[c] + parts[0]] + parts[1..]) == [c] + Implode(sep, parts)
  {
    var glued := [[c] + parts[0]] + parts[1..];
    if |parts| > 1 {
      assert glued[1..] == parts[1..];
    }
  }

  /** `implode` undoes `explode`. */
  lemma {:induction false} ImplodeExplode(sep: string, s: string)
    requires sep != []
    ensures Implode(sep, Explode(sep, s)) == s
    decreases |s|
  {
    if |s| < |sep| {
    } else if s[..|sep|] == sep {
      var t := s[|sep|..];
      ImplodeExplode(sep, t);
      var rest := Explode(sep, t);
      var parts := [""] + rest;
      assert Explode(sep, s) == parts;
      assert parts[1..] == rest;
      assert Implode(sep, parts) == "" + sep + Implode(sep, rest);
      assert s == sep + t;
    } else {
      var rest := Explode(sep, s[1..]);
      ImplodeExplode(sep, s[1..]);
      assert Explode(sep, s) == [[s[0]] + rest[0]] + rest[1..];
      ImplodeGlueFront(sep, s[0], rest);
      assert s == [s[0]] + s[1..];
    }
  }

  function CountChar(c: char, s: string): nat
  {
    if s == [] then 0 else CountChar(c, s[..|s| - 1]) + (if s[|s| - 1] == c then 1 else 0)
  }

  lemma {:induction false} CountCharAppend(c: char, a: string, b: string)
    ensures CountChar(c, a + b) == CountChar(c, a) + CountChar(c, b)
    decreases |b|
  {
    if b == [] {
      assert a + b == a;
    } else {
      var b' := b[..|b| - 1];
      CountCharAppend(c, a, b');
      assert (a + b)[..|a + b| - 1] == a + b';
    }
  }

  lemma {:induction false} CountCharAbsent(c: char, s: string)
    requires c !in s
    ensures CountChar(c, s) == 0
    decreases |s|
  {
    if s != [] {
      CountCharAbsent(c, s[..|s| - 1]);
    }
  }

  /** With a one-character separator, `explode` yields one piece more than
      there are separator characters. */
  lemma {:induction false} ExplodeCount(c: char, s: string)
    ensures |Explode([c], s)| == CountChar(c, s) + 1
    decreases |s|
  {
    if s == [] {
    } else {
      ExplodeCount(c, s[1..]);
      CountCharAppend(c, [s[0]], s[1..]);
      assert s == [s[0]] + s[1..];
      assert CountChar(c, [s[0]]) == (if s[0] == c then 1 else 0) by {
        assert [s[0]][..0] == [];
      }
    }
  }
}
