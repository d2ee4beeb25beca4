/**
 * The word tokens of a response and the Jaccard similarity of two token sets,
 * as the quality inspector uses them to measure variety. Lower-casing is
 * ASCII only, and the token pattern is `[a-z0-9']+`.
 */
module Lexical {
  import opened Collections

  /** `toLowerCase` restricted to ASCII: `A`..`Z` become `a`..`z`, everything else is kept. */
  function LowerChar(c: char): (r: char)
    ensures !('A' <= r <= 'Z')
    ensures 'a' <= c <= 'z' || '0' <= c <= '9' || c == '\'' ==> r == c
  {
    if 'A' <= c <= 'Z' then (c as int + 32) as char else c
  }

  function Lower(s: string): (r: string)
    ensures |r| == |s|
    ensures forall i :: 0 <= i < |s| ==> r[i] == LowerChar(s[i])
  {
    seq(|s|, i requires 0 <= i < |s| => LowerChar(s[i]))
  }

  /** A character of the token pattern `[a-z0-9']`. */
  predicate IsWordChar(c: char)
  {
    'a' <= c <= 'z' || '0' <= c <= '9' || c == '\''
  }

  predicate IsWord(w: string)
  {
    forall i :: 0 <= i < |w| ==> IsWordChar(w[i])
  }

  /** A character that ends a token once the text is lower-cased. */
  predicate IsSeparator(c: char)
  {
    !IsWordChar(LowerChar(c))
  }

  /** Length of the longest prefix of `s` made of word characters. */
  function RunLength(s: string): (n: nat)
    ensures n <= |s|
    ensures IsWord(s[..n])
    ensures n < |s| ==> !IsWordChar(s[n])
  {
    if |s| == 0 || !IsWordChar(s[0]) then 0
    else
      var m := RunLength(s[1..]);
      m + 1
  }

  /** `s.match(/[a-z0-9']+/g) ?? []`: the maximal runs of word characters, left to right. */
  function Runs(s: string): (r: seq<string>)
    ensures forall i :: 0 <= i < |r| ==> |r[i]| > 0 && IsWord(r[i])
    decreases |s|
  {
    if |s| == 0 then []
    else if !IsWordChar(s[0]) then Runs(s[1..])
    else
      var n := RunLength(s);
      [s[..n]] + Runs(s[n..])
  }

  /** `tokens`: the runs of the lower-cased text that are longer than two characters. */
  function Tokens(t: string): (r: seq<string>)
    ensures forall i :: 0 <= i < |r| ==> |r[i]| > 2 && IsWord(r[i])
  {
    var runs := Runs(Lower(t));
    var r := Filter(runs, (w: string) => |w| > 2);
    assert forall i :: 0 <= i < |r| ==> exists j :: 0 <= j < |runs| && runs[j] == r[i];
    r
  }

  /** The token set `new Set(tokens(t))`. */
  function TokenSet(t: string): (r: set<string>)
    ensures forall w :: w in r <==> w in Tokens(t)
  {
    set w | w in Tokens(t)
  }

  lemma {:induction false} FilterWord(w: string)
    requires IsWord(w)
    ensures Filter(w, IsWordChar) == w
  {
    if |w| > 0 {
      FilterWord(w[1..]);
      assert w == [w[0]] + w[1..];
    }
  }

  lemma FlattenCons<T>(x: seq<T>, rest: seq<seq<T>>)
    ensures Flatten([x] + rest) == x + Flatten(rest)
  {
    assert ([x] + rest)[1..] == rest;
  }

  /** The runs, put back together, are the text with every separator removed. */
  lemma {:induction false} RunsCoverWordChars(s: string)
    ensures Flatten(Runs(s)) == Filter(s, IsWordChar)
    decreases |s|
  {
    if |s| > 0 {
      if !IsWordChar(s[0]) {
        RunsCoverWordChars(s[1..]);
      } else {
        var n := RunLength(s);
        RunsCoverWordChars(s[n..]);
        FlattenCons(s[..n], Runs(s[n..]));
        assert s == s[..n] + s[n..];
        FilterAppend(s[..n], s[n..], IsWordChar);
        FilterWord(s[..n]);
      }
    }
  }

  lemma {:induction false} RunLengthPrefix(a: string, b: string)
    requires RunLength(a) < |a|
    ensures RunLength(a + b) == RunLength(a)
  {
    if IsWordChar(a[0]) {
      assert (a + b)[1..] == a[1..] + b;
      RunLengthPrefix(a[1..], b);
    }
  }

  lemma {:induction false} RunLengthBeforeSep(a: string)
    requires |a| > 0 && !IsWordChar(a[|a| - 1])
    ensures RunLength(a) < |a|
  {
    if |a| > 1 && IsWordChar(a[0]) {
      assert a[1..][|a| - 2] == a[|a| - 1];
      RunLengthBeforeSep(a[1..]);
    }
  }

  /** A text that ends in a separator splits into its own runs and those of what follows. */
  lemma {:induction false} RunsAppend(a: string, b: string)
    requires |a| > 0 ==> !IsWordChar(a[|a| - 1])
    ensures Runs(a + b) == Runs(a) + Runs(b)
    decreases |a|
  {
    if |a| == 0 {
      assert a + b == b;
    } else if !IsWordChar(a[0]) {
      assert (a + b)[1..] == a[1..] + b;
      RunsAppend(a[1..], b);
    } else {
      var n := RunLength(a);
      RunLengthBeforeSep(a);
      RunLengthPrefix(a, b);
      assert (a + b)[..n] == a[..n];
      assert (a + b)[n..] == a[n..] + b;
      RunsAppend(a[n..], b);
    }
  }

  lemma LowerAppend(a: string, b: string)
    ensures Lower(a + b) == Lower(a) + Lower(b)
  {
  }

  lemma {:induction false} RunLengthSnocSep(x: string, c: char)
    requires !IsWordChar(c)
    ensures RunLength(x + [c]) == RunLength(x)
  {
    if |x| > 0 && IsWordChar(x[0]) {
      assert (x + [c])[1..] == x[1..] + [c];
      RunLengthSnocSep(x[1..], c);
    }
  }

  /** A trailing separator adds no run. */
  lemma {:induction false} RunsSnocSep(x: string, c: char)
    requires !IsWordChar(c)
    ensures Runs(x + [c]) == Runs(x)
    decreases |x|
  {
    if |x| == 0 {
      assert Runs([c]) == Runs([c][1..]);
    } else if !IsWordChar(x[0]) {
      assert (x + [c])[1..] == x[1..] + [c];
      RunsSnocSep(x[1..], c);
    } else {
      var n := RunLength(x);
      RunLengthSnocSep(x, c);
      assert (x + [c])[..n] == x[..n];
      assert (x + [c])[n..] == x[n..] + [c];
      RunsSnocSep(x[n..], c);
    }
  }

  /** Tokens are found on each side of a separator independently. */
  lemma TokensSplit(a: string, c: char, b: string)
    requires IsSeparator(c)
    ensures Tokens(a + [c] + b) == Tokens(a) + Tokens(b)
  {
    LowerAppend(a + [c], b);
    LowerAppend(a, [c]);
    var la := Lower(a) + [LowerChar(c)];
    assert Lower(a + [c] + b) == la + Lower(b);
    RunsAppend(la, Lower(b));
    RunsSnocSep(Lower(a), LowerChar(c));
    FilterAppend(Runs(Lower(a)), Runs(Lower(b)), (w: string) => |w| > 2);
  }

  /** A lower-case word of more than two characters is a single token. */
  lemma SingleWordToken(w: string)
    requires IsWord(w) && |w| > 2
    ensures Tokens(w) == [w]
  {
    assert Lower(w) == w;
    assert RunLength(w) == |w|;
    assert w[..|w|] == w;
    assert w[|w|..] == [];
    assert Runs(w) == [w];
    assert Filter([w], (x: string) => |x| > 2) == [w] + Filter([w][1..], (x: string) => |x| > 2);
  }

  /** `jaccard`: size of the intersection over size of the union, 0 when both sets are empty. */
  function Jaccard<T>(a: set<T>, b: set<T>): (r: real)
    ensures 0.0 <= r <= 1.0
  {
    var u := a + b;
    if |u| == 0 then 0.0
    else
      UnionSplit(a, b);
      UnitQuotient(|a * b| as real, |u| as real);
      (|a * b| as real) / (|u| as real)
  }

  lemma UnionSplit<T>(a: set<T>, b: set<T>)
    ensures |a + b| == |a - b| + |b - a| + |a * b|
  {
    assert a + b == (a - b) + (b - a) + (a * b);
    assert (a - b) * (b - a) == {};
    assert ((a - b) + (b - a)) * (a * b) == {};
  }

  lemma UnitQuotient(x: real, y: real)
    requires 0.0 <= x <= y && 0.0 < y
    ensures 0.0 <= x / y <= 1.0
    ensures x / y == 1.0 <==> x == y
  {
  }

  lemma JaccardSymmetric<T>(a: set<T>, b: set<T>)
    ensures Jaccard(a, b) == Jaccard(b, a)
  {
    assert a + b == b + a && a * b == b * a;
  }

  lemma JaccardBothEmpty<T>(a: set<T>, b: set<T>)
    requires a == {} && b == {}
    ensures Jaccard(a, b) == 0.0
  {
  }

  /** The similarity is exactly 1 for identical non-empty sets, and only for them. */
  lemma JaccardOne<T>(a: set<T>, b: set<T>)
    ensures Jaccard(a, b) == 1.0 <==> a == b && a != {}
  {
    if a + b != {} {
      UnionSplit(a, b);
      UnitQuotient(|a * b| as real, |a + b| as real);
      if Jaccard(a, b) == 1.0 {
        assert |a - b| == 0 && |b - a| == 0;
        assert a - b == {} && b - a == {};
        assert a == b;
      }
      if a == b && a != {} {
        assert a + b == a && a * b == a;
      }
    }
  }
}
