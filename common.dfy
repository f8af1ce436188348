/**
 * Values shared by the server and the client modules: optional values,
 * identifiers, and the few JavaScript string and array primitives the
 * application's rules are written with (`Array.prototype.filter`,
 * `String.prototype.includes`, `toLowerCase`, `trim`).
 */
module Common {

  /** `undefined`/`null` versus a present value. */
  datatype Option<+T> = None | Some(value: T)

  /** JavaScript truthiness of an optional string: present and not empty. */
  predicate Truthy(s: Option<string>) {
    s.Some? && s.value != ""
  }

  /** A user's `_id` as the wire carries it (a hex string). */
  type UserId = string

  /** The id the socket transport gives one connection. */
  type SocketId = string

  // ---------------------------------------------------------------------
  // Array.prototype.filter

  /** `r` is `s` with some elements dropped and the rest kept in order. */
  predicate IsSubsequence<T(==)>(r: seq<T>, s: seq<T>)
    decreases |s|
  {
    r == [] || (s != [] && if r[0] == s[0] then IsSubsequence(r[1..], s[1..]) else IsSubsequence(r, s[1..]))
  }

  /** `s.filter(keep)`: the elements that pass, each as often as in `s`, in their original order. */
  function Filter<T(==,!new)>(s: seq<T>, keep: T -> bool): (r: seq<T>)
    ensures |r| <= |s|
    ensures forall x :: x in r <==> x in s && keep(x)
    decreases |s|
  {
    if s == [] then []
    else if keep(s[0]) then [s[0]] + Filter(s[1..], keep)
    else Filter(s[1..], keep)
  }

  /** A filter keeps each passing element as often as it occurs, and the rest in their original order. */
  lemma {:induction false} FilterCountsAndOrder<T(!new)>(s: seq<T>, keep: T -> bool)
    ensures forall x :: multiset(Filter(s, keep))[x] == if keep(x) then multiset(s)[x] else 0
    ensures IsSubsequence(Filter(s, keep), s)
    decreases |s|
  {
    if s != [] {
      FilterCountsAndOrder(s[1..], keep);
      assert s == [s[0]] + s[1..];
      assert multiset(s) == multiset{s[0]} + multiset(s[1..]);
      var rest := Filter(s[1..], keep);
      if keep(s[0]) {
        assert Filter(s, keep) == [s[0]] + rest;
        assert ([s[0]] + rest)[1..] == rest;
        assert multiset([s[0]] + rest) == multiset{s[0]} + multiset(rest);
      } else {
        SubsequenceDropHead(rest, s);
      }
    }
  }

  /** A subsequence of the tail is a subsequence of the whole. */
  lemma {:induction false} SubsequenceDropHead<T>(r: seq<T>, s: seq<T>)
    requires s != [] && IsSubsequence(r, s[1..])
    ensures IsSubsequence(r, s)
    decreases |s|, 0
  {
    if r != [] && r[0] == s[0] {
      SubsequenceTail(r, s[1..]);
    }
  }

  /** Without its first element a subsequence is still a subsequence. */
  lemma {:induction false} SubsequenceTail<T>(r: seq<T>, s: seq<T>)
    requires r != [] && IsSubsequence(r, s)
    ensures IsSubsequence(r[1..], s)
    decreases |s|, 1
  {
    if r[0] == s[0] {
      SubsequenceDropHead(r[1..], s);
    } else {
      SubsequenceTail(r, s[1..]);
      SubsequenceDropHead(r[1..], s);
    }
  }

  /** A filter whose predicate holds of every element changes nothing. */
  lemma {:induction false} FilterKeepsAll<T(!new)>(s: seq<T>, keep: T -> bool)
    requires forall i :: 0 <= i < |s| ==> keep(s[i])
    ensures Filter(s, keep) == s
    decreases |s|
  {
    if s != [] {
      FilterKeepsAll(s[1..], keep);
    }
  }

  /** Filtering twice with the same predicate is filtering once. */
  lemma {:induction false} FilterIdempotent<T(!new)>(s: seq<T>, keep: T -> bool)
    ensures Filter(Filter(s, keep), keep) == Filter(s, keep)
  {
    var r := Filter(s, keep);
    forall i | 0 <= i < |r| ensures keep(r[i]) {
      assert r[i] in r;
    }
    FilterKeepsAll(r, keep);
  }

  /** Filtering a concatenation filters each part. */
  lemma {:induction false} FilterConcat<T(!new)>(a: seq<T>, b: seq<T>, keep: T -> bool)
    ensures Filter(a + b, keep) == Filter(a, keep) + Filter(b, keep)
    decreases |a|
  {
    if a == [] {
      assert a + b == b;
    } else {
      var ab := a + b;
      assert ab[0] == a[0] && ab[1..] == a[1..] + b;
      FilterConcat(a[1..], b, keep);
      if keep(a[0]) {
        calc {
          Filter(ab, keep);
          [a[0]] + Filter(a[1..] + b, keep);
          [a[0]] + (Filter(a[1..], keep) + Filter(b, keep));
          ([a[0]] + Filter(a[1..], keep)) + Filter(b, keep);
        }
      }
    }
  }

  /** No element occurs twice. */
  ghost predicate NoDup<T(!new)>(s: seq<T>) {
    forall x :: multiset(s)[x] <= 1
  }

  /**
   * `s.findIndex(p)` on an array (or a `findById` on a collection): the
   * first index whose element satisfies `p`, absent when none does.
   */
  function IndexWhere<T>(s: seq<T>, p: T -> bool): (r: Option<nat>)
    ensures r.Some? ==> r.value < |s| && p(s[r.value]) && forall j :: 0 <= j < r.value ==> !p(s[j])
    ensures r.None? ==> forall j :: 0 <= j < |s| ==> !p(s[j])
    decreases |s|
  {
    if s == [] then None
    else if p(s[0]) then Some(0)
    else
      match IndexWhere(s[1..], p)
      case None => None
      case Some(i) => Some(i + 1)
  }

  // ---------------------------------------------------------------------
  // String.prototype.includes

  /** `needle` sits in `hay` starting at offset `i`. */
  predicate OccursAt(hay: string, needle: string, i: int) {
    0 <= i && i + |needle| <= |hay| && hay[i..i + |needle|] == needle
  }

  /** `hay.includes(needle)`: `needle` occurs in `hay` at some offset (the empty string always does). */
  function Includes(hay: string, needle: string): (b: bool)
    ensures b <==> exists i :: OccursAt(hay, needle, i)
    decreases |hay|
  {
    if |needle| > |hay| then false
    else if hay[..|needle|] == needle then
      assert OccursAt(hay, needle, 0);
      true
    else
      var b := Includes(hay[1..], needle);
      if b then
        var i :| OccursAt(hay[1..], needle, i);
        assert hay[i + 1..i + 1 + |needle|] == hay[1..][i..i + |needle|];
        assert OccursAt(hay, needle, i + 1);
        true
      else
        forall i ensures !OccursAt(hay, needle, i) {
          if i == 0 {
            assert hay[0..|needle|] == hay[..|needle|];
          } else if 0 < i && i + |needle| <= |hay| {
            assert hay[1..][i - 1..i - 1 + |needle|] == hay[i..i + |needle|];
            assert !OccursAt(hay[1..], needle, i - 1);
          }
        }
        false
  }

  // ---------------------------------------------------------------------
  // String.prototype.toLowerCase, on ASCII

  function LowerChar(c: char): char {
    if 'A' <= c <= 'Z' then (c as int + 32) as char else c
  }

  /** `s.toLowerCase()` restricted to ASCII letters; every other character is kept. */
  function Lower(s: string): (r: string)
    ensures |r| == |s|
    ensures forall i :: 0 <= i < |s| ==> r[i] == LowerChar(s[i])
  {
    seq(|s|, i requires 0 <= i < |s| => LowerChar(s[i]))
  }

  /** Lower-casing twice is lower-casing once. */
  lemma LowerIdempotent(s: string)
    ensures Lower(Lower(s)) == Lower(s)
  {
    assert forall i :: 0 <= i < |s| ==> LowerChar(LowerChar(s[i])) == LowerChar(s[i]);
  }

  // ---------------------------------------------------------------------
  // String.prototype.trim

  /**
   * The characters `trim` removes: ECMAScript's WhiteSpace (tab, vertical
   * tab, form feed, space, NBSP, the BOM and the other space separators of
   * Unicode category Zs) and its LineTerminators (LF, CR, U+2028, U+2029).
   */
  predicate IsSpace(c: char) {
    || c == '\t' || c == '\U{000B}' || c == '\U{000C}' || c == ' ' || c == '\U{00A0}' || c == '\U{FEFF}'
    || c == '\U{1680}' || ('\U{2000}' <= c <= '\U{200A}') || c == '\U{202F}' || c == '\U{205F}' || c == '\U{3000}'
    || c == '\n' || c == '\r' || c == '\U{2028}' || c == '\U{2029}'
  }

  /** The length of the white-space prefix of `s`. */
  function LeadingSpaces(s: string): (k: nat)
    ensures k <= |s|
    ensures forall i :: 0 <= i < k ==> IsSpace(s[i])
    ensures k < |s| ==> !IsSpace(s[k])
    decreases |s|
  {
    if s == [] || !IsSpace(s[0]) then 0 else 1 + LeadingSpaces(s[1..])
  }

  /** The length of the white-space suffix of `s`. */
  function TrailingSpaces(s: string): (k: nat)
    ensures k <= |s|
    ensures forall i :: |s| - k <= i < |s| ==> IsSpace(s[i])
    ensures k < |s| ==> !IsSpace(s[|s| - 1 - k])
    decreases |s|
  {
    if s == [] || !IsSpace(s[|s| - 1]) then 0 else 1 + TrailingSpaces(s[..|s| - 1])
  }

  /**
   * `s.trim()`: the slice of `s` left once the white space at both ends is
   * cut away; it neither starts nor ends with white space.
   */
  function Trim(s: string): (r: string)
    ensures exists a, b ::
              && 0 <= a <= b <= |s| && r == s[a..b]
              && (forall i :: 0 <= i < a ==> IsSpace(s[i]))
              && (forall i :: b <= i < |s| ==> IsSpace(s[i]))
    ensures r != [] ==> !IsSpace(r[0]) && !IsSpace(r[|r| - 1])
  {
    var a := LeadingSpaces(s);
    var t := s[a..];
    var k := TrailingSpaces(t);
    var b := |s| - k;
    var r := t[..|t| - k];
    assert r == s[a..b];
    assert forall i :: b <= i < |s| ==> IsSpace(s[i]) by {
      forall i | b <= i < |s| ensures IsSpace(s[i]) {
        assert s[i] == t[i - a];
      }
    }
    r
  }

  /** `s.trim() === ""` holds exactly when every character of `s` is white space. */
  lemma BlankIffAllSpace(s: string)
    ensures Trim(s) == "" <==> forall i :: 0 <= i < |s| ==> IsSpace(s[i])
  {
    var a := LeadingSpaces(s);
    if forall i :: 0 <= i < |s| ==> IsSpace(s[i]) {
      assert a == |s|;
    } else {
      var j :| 0 <= j < |s| && !IsSpace(s[j]);
      var t := s[a..];
      assert a <= j;
      assert !IsSpace(t[j - a]);
      assert TrailingSpaces(t) < |t|;
    }
  }

  /**
   * Ideographic, Ogham and em spaces and the line separator are blank to
   * `trim`; the zero-width space U+200B is not white space and survives.
   */
  lemma {:induction false} UnicodeBlanks()
    ensures Trim("\U{3000}\U{1680}\U{2003}\U{2028}") == ""
    ensures Trim("\U{200B}") == "\U{200B}"
  {
    BlankIffAllSpace("\U{3000}\U{1680}\U{2003}\U{2028}");
    BlankIffAllSpace("\U{200B}");
  }
}
