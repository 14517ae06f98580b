/**
 * The small part of JavaScript's semantics the application's handlers rely on:
 * `undefined`/`null` as an option, the array methods `filter`, `find` and `some`,
 * `String.prototype.trim` and the regular-expression class `\s`, and the three ways
 * a call to the JSON store can end.
 */
module Js {

  datatype Option<+T> = None | Some(value: T) {
    function GetOr(default: T): T {
      match this
      case Some(v) => v
      case None => default
    }
  }

  /** How an HTTP request to the JSON store ends: an ok response whose JSON body carries
      `record`, a response whose `ok` flag is false, or a rejected `fetch`. */
  datatype Response<+T> = Ok(record: T) | NotOk | Rejected(message: string)

  /** How an `async` function settles: it resolves to a value, resolves to `undefined`,
      or rejects with an error message. */
  datatype Settled<+T> = Value(value: T) | Undefined | Thrown(message: string)

  /** `x.trim() !== ''` and a truthy string are the two string tests the handlers use. */
  predicate Truthy(s: string) {
    s != ""
  }

  /** The characters matched by `\s` and removed by `String.prototype.trim`:
      the ECMAScript WhiteSpace and LineTerminator code points. */
  predicate IsWhitespace(c: char) {
    || c == '\U{0009}' || c == '\U{000A}' || c == '\U{000B}' || c == '\U{000C}' || c == '\U{000D}'
    || c == '\U{0020}' || c == '\U{00A0}' || c == '\U{1680}'
    || ('\U{2000}' <= c <= '\U{200A}')
    || c == '\U{2028}' || c == '\U{2029}' || c == '\U{202F}' || c == '\U{205F}'
    || c == '\U{3000}' || c == '\U{FEFF}'
  }

  /** `s.trim() === ''`: every character of `s` is whitespace. */
  predicate IsBlank(s: string) {
    forall i :: 0 <= i < |s| ==> IsWhitespace(s[i])
  }

  /** `Array.prototype.filter`. */
  function Filter<T>(s: seq<T>, p: T -> bool): (r: seq<T>)
    ensures |r| <= |s|
    ensures forall x :: x in r ==> x in s && p(x)
    decreases |s|
  {
    if s == [] then []
    else
      var rest := Filter(s[..|s| - 1], p);
      if p(s[|s| - 1]) then rest + [s[|s| - 1]] else rest
  }

  /** `Array.prototype.find`: the first element satisfying `p`, if any. */
  function Find<T>(s: seq<T>, p: T -> bool): (r: Option<T>)
    ensures r.Some? ==> r.value in s && p(r.value)
    decreases |s|
  {
    if s == [] then None
    else if p(s[0]) then Some(s[0])
    else Find(s[1..], p)
  }

  /** `Array.prototype.some`. */
  predicate Any<T>(s: seq<T>, p: T -> bool) {
    exists i :: 0 <= i < |s| && p(s[i])
  }

  /** A filtered array keeps exactly the elements that pass, each as often as in the input. */
  lemma {:induction false} FilterCount<T>(s: seq<T>, p: T -> bool, x: T)
    ensures multiset(Filter(s, p))[x] == if p(x) then multiset(s)[x] else 0
    decreases |s|
  {
    if s != [] {
      var init := s[..|s| - 1];
      FilterCount(init, p, x);
      assert s == init + [s[|s| - 1]];
    }
  }

  /** An element passes the filter exactly when it is in the input and satisfies `p`. */
  lemma FilterMember<T>(s: seq<T>, p: T -> bool, x: T)
    ensures x in Filter(s, p) <==> x in s && p(x)
  {
    FilterCount(s, p, x);
  }

  /** `filter` preserves order: filtering a concatenation concatenates the filtered parts. */
  lemma {:induction false} FilterAppend<T>(s: seq<T>, t: seq<T>, p: T -> bool)
    ensures Filter(s + t, p) == Filter(s, p) + Filter(t, p)
    decreases |t|
  {
    if t == [] {
      assert s + t == s;
    } else {
      var tInit, last := t[..|t| - 1], t[|t| - 1];
      FilterAppend(s, tInit, p);
      assert (s + t)[..|s + t| - 1] == s + tInit;
      assert (s + t)[|s + t| - 1] == last;
      if p(last) {
        assert Filter(s, p) + (Filter(tInit, p) + [last]) == (Filter(s, p) + Filter(tInit, p)) + [last];
      }
    }
  }

  /** When every element passes, `filter` returns its input unchanged. */
  lemma {:induction false} FilterAll<T>(s: seq<T>, p: T -> bool)
    requires forall i :: 0 <= i < |s| ==> p(s[i])
    ensures Filter(s, p) == s
    decreases |s|
  {
    if s != [] {
      FilterAll(s[..|s| - 1], p);
    }
  }

  /** Filtering twice by the same test is filtering once. */
  lemma FilterIdempotent<T>(s: seq<T>, p: T -> bool)
    ensures Filter(Filter(s, p), p) == Filter(s, p)
  {
    var f := Filter(s, p);
    forall i | 0 <= i < |f| ensures p(f[i]) {
      assert f[i] in f;
    }
    FilterAll(f, p);
  }

  /** The filtered array is empty exactly when no element passes (`some` is false). */
  lemma FilterEmptyIffNone<T>(s: seq<T>, p: T -> bool)
    ensures Filter(s, p) == [] <==> !Any(s, p)
  {
    if Any(s, p) {
      var i :| 0 <= i < |s| && p(s[i]);
      FilterMember(s, p, s[i]);
    }
    if Filter(s, p) != [] {
      var x := Filter(s, p)[0];
      assert x in Filter(s, p);
      var i :| 0 <= i < |s| && s[i] == x;
      assert p(s[i]);
    }
  }

  /** `find` returns the FIRST element that passes, and None exactly when `some` is false. */
  lemma {:induction false} FindFirst<T>(s: seq<T>, p: T -> bool)
    ensures Find(s, p).None? <==> !Any(s, p)
    ensures Find(s, p).Some? ==>
      exists i :: 0 <= i < |s| && s[i] == Find(s, p).value && forall j :: 0 <= j < i ==> !p(s[j])
    decreases |s|
  {
    if s != [] && !p(s[0]) {
      var tail := s[1..];
      FindFirst(tail, p);
      if Find(tail, p).Some? {
        var i :| 0 <= i < |tail| && tail[i] == Find(tail, p).value && forall j :: 0 <= j < i ==> !p(tail[j]);
        assert s[i + 1] == tail[i];
        forall j | 0 <= j < i + 1 ensures !p(s[j]) {
          if j > 0 { assert s[j] == tail[j - 1]; }
        }
      } else {
        forall i | 0 <= i < |s| ensures !p(s[i]) {
          if i > 0 { assert s[i] == tail[i - 1]; }
        }
      }
    }
  }
}
