/** Small building blocks shared by every module: optional values, results,
    `Array.prototype.filter`, and the two string tests the screens use
    (`String.prototype.trim` emptiness and `String.prototype.includes`). */
module Common {

  /** A value that may be absent (`null` / `undefined` in the source). */
  datatype Option<+T> = None | Some(value: T)

  /** The outcome of a guarded computation: a value or the reason it was refused. */
  datatype Result<+T, +E> = Success(value: T) | Failure(error: E)

  function Min(a: int, b: int): (m: int)
    ensures m <= a && m <= b && (m == a || m == b)
  {
    if a <= b then a else b
  }

  // ---------------------------------------------------------------------------
  // Filtering

  /** `s.filter(p)`: the elements of `s` that satisfy `p`, in their original order. */
  function Filter<T(!new)>(s: seq<T>, p: T -> bool): (r: seq<T>)
    ensures |r| <= |s|
    ensures forall x :: x in r <==> x in s && p(x)
    ensures forall x :: multiset(r)[x] == if p(x) then multiset(s)[x] else 0
  {
    if s == [] then []
    else
      assert s == [s[0]] + s[1..];
      if p(s[0]) then [s[0]] + Filter(s[1..], p) else Filter(s[1..], p)
  }

  /** `idx` picks the elements of `r` out of `s` at strictly increasing positions. */
  ghost predicate Embedding<T>(idx: seq<nat>, r: seq<T>, s: seq<T>)
  {
    && |idx| == |r|
    && (forall i, j :: 0 <= i < j < |idx| ==> idx[i] < idx[j])
    && (forall i :: 0 <= i < |idx| ==> idx[i] < |s| && r[i] == s[idx[i]])
  }

  /** `r` is `s` with some elements dropped: order kept, nothing repeated. */
  ghost predicate Subsequence<T>(r: seq<T>, s: seq<T>)
  {
    exists idx: seq<nat> :: Embedding(idx, r, s)
  }

  function Shift(idx: seq<nat>): (r: seq<nat>)
    ensures |r| == |idx| && forall i :: 0 <= i < |idx| ==> r[i] == idx[i] + 1
  {
    if idx == [] then [] else [idx[0] + 1] + Shift(idx[1..])
  }

  lemma EmbedSkip<T>(idx: seq<nat>, r: seq<T>, s: seq<T>)
    requires s != [] && Embedding(idx, r, s[1..])
    ensures Embedding(Shift(idx), r, s)
  {
    var shifted := Shift(idx);
    forall i | 0 <= i < |shifted| ensures shifted[i] < |s| && r[i] == s[shifted[i]] {
      assert r[i] == s[1..][idx[i]];
    }
  }

  lemma EmbedKeep<T>(idx: seq<nat>, r: seq<T>, s: seq<T>)
    requires s != [] && Embedding(idx, r, s[1..])
    ensures Embedding([0] + Shift(idx), [s[0]] + r, s)
  {
    var idx' := [0] + Shift(idx);
    var r' := [s[0]] + r;
    forall i, j | 0 <= i < j < |idx'| ensures idx'[i] < idx'[j] {
      if i > 0 {
        assert idx'[i] == idx[i - 1] + 1 && idx'[j] == idx[j - 1] + 1;
      }
    }
    forall i | 0 <= i < |idx'| ensures idx'[i] < |s| && r'[i] == s[idx'[i]] {
      if i > 0 {
        assert idx'[i] == idx[i - 1] + 1 && r'[i] == r[i - 1];
        assert r[i - 1] == s[1..][idx[i - 1]];
      }
    }
  }

  /** The positions of the kept elements witness that a filter is a subsequence. */
  lemma {:induction false} FilterIsSubsequence<T(!new)>(s: seq<T>, p: T -> bool)
    ensures Subsequence(Filter(s, p), s)
  {
    if s == [] {
      assert Embedding([], Filter(s, p), s);
    } else {
      FilterIsSubsequence(s[1..], p);
      FilterStep(s, p);
      SubsequenceStep(s, Filter(s[1..], p), p(s[0]), Filter(s, p));
    }
  }

  /** A subsequence of the tail, with or without the head in front, is a subsequence. */
  lemma SubsequenceStep<T>(s: seq<T>, rest: seq<T>, keep: bool, r: seq<T>)
    requires s != [] && Subsequence(rest, s[1..])
    requires r == if keep then [s[0]] + rest else rest
    ensures Subsequence(r, s)
  {
    var idx :| Embedding(idx, rest, s[1..]);
    if keep {
      EmbedKeep(idx, rest, s);
    } else {
      EmbedSkip(idx, rest, s);
    }
  }

  /** One step of a filter: the head is kept exactly when it passes. */
  lemma FilterStep<T(!new)>(s: seq<T>, p: T -> bool)
    requires s != []
    ensures p(s[0]) ==> Filter(s, p) == [s[0]] + Filter(s[1..], p)
    ensures !p(s[0]) ==> Filter(s, p) == Filter(s[1..], p)
  {
  }

  // ---------------------------------------------------------------------------
  // Strings

  /** The characters `String.prototype.trim` removes: the white space and line
      terminators of section 12.2 and 12.3 of ECMA-262, that is tab, vertical tab,
      form feed, the byte-order mark, the Unicode space separators (category Zs),
      line feed, carriage return and the two Unicode line and paragraph separators. */
  predicate IsWhitespace(c: char)
  {
    || c == '\t' || c == '\U{000B}' || c == '\U{000C}' || c == '\U{FEFF}'
    || c == ' ' || c == '\U{00A0}' || c == '\U{1680}' || ('\U{2000}' <= c <= '\U{200A}')
    || c == '\U{202F}' || c == '\U{205F}' || c == '\U{3000}'
    || c == '\n' || c == '\r' || c == '\U{2028}' || c == '\U{2029}'
  }

  /** `!s.trim()`: nothing but whitespace is left after trimming. */
  predicate IsBlank(s: string)
  {
    forall i :: 0 <= i < |s| ==> IsWhitespace(s[i])
  }

  /** `s.includes(t)`: `t` occurs in `s` as a contiguous block. */
  function Includes(s: string, t: string): (b: bool)
    decreases |s|
  {
    |t| <= |s| && (s[..|t|] == t || (s != [] && Includes(s[1..], t)))
  }

  /** The reference meaning of `Includes`: some window of `s` equals `t`. */
  ghost predicate OccursAt(s: string, t: string, i: int)
  {
    0 <= i && i + |t| <= |s| && s[i..i + |t|] == t
  }

  lemma {:induction false} IncludesIffOccurs(s: string, t: string)
    ensures Includes(s, t) <==> exists i :: OccursAt(s, t, i)
    decreases |s|
  {
    if |t| <= |s| && s[..|t|] == t {
      assert OccursAt(s, t, 0);
    } else if |t| <= |s| && s != [] {
      IncludesIffOccurs(s[1..], t);
      if Includes(s[1..], t) {
        var i :| OccursAt(s[1..], t, i);
        assert s[1..][i..i + |t|] == s[i + 1..i + 1 + |t|];
        assert OccursAt(s, t, i + 1);
      } else {
        forall i | 0 <= i && i + |t| <= |s| ensures !OccursAt(s, t, i) {
          if i == 0 {
            assert s[i..i + |t|] == s[..|t|];
          } else {
            assert s[1..][i - 1..i - 1 + |t|] == s[i..i + |t|];
            assert !OccursAt(s[1..], t, i - 1);
          }
        }
      }
    } else {
      assert |t| > |s|;
    }
  }
}
