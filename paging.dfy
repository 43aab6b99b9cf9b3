/**
 * `LIMIT limit OFFSET offset` over an ordered result set, and the pages of a
 * sequence taken one after another.
 */
module Paging {

  function Min(a: int, b: int): int {
    if a <= b then a else b
  }

  /** The rows `LIMIT limit OFFSET offset` keeps: skip `offset`, then take at most `limit`. */
  function Slice<T>(s: seq<T>, offset: nat, limit: nat): (r: seq<T>)
    ensures |r| == if offset >= |s| then 0 else Min(limit, |s| - offset)
    ensures forall k :: 0 <= k < |r| ==> r[k] == s[offset + k]
  {
    if offset >= |s| then [] else s[offset..Min(offset + limit, |s|)]
  }

  /** Page `page` (1-based) of size `size`. */
  function PageOf<T>(s: seq<T>, page: nat, size: nat): seq<T>
    requires page >= 1
  {
    Slice(s, (page - 1) * size, size)
  }

  /** Pages 1..n concatenated. */
  function Pages<T>(s: seq<T>, size: nat, n: nat): seq<T> {
    if n == 0 then [] else Pages(s, size, n - 1) + PageOf(s, n, size)
  }

  /** Smallest number of pages of `size` that hold `count` items. */
  function CeilDiv(count: nat, size: nat): (n: nat)
    requires size > 0
    ensures n * size >= count
    ensures n == 0 || (n - 1) * size < count
  {
    (count + size - 1) / size
  }

  /** Appending one element to the scanned rows adds it to the slice exactly when it falls in the window. */
  lemma SliceSnoc<T>(s: seq<T>, x: T, offset: nat, limit: nat)
    ensures Slice(s + [x], offset, limit)
         == Slice(s, offset, limit) + (if offset <= |s| < offset + limit then [x] else [])
  {
  }

  /** Each page has at most `size` elements, all from `s`, and a page past the end is empty. */
  lemma PageBounds<T>(s: seq<T>, page: nat, size: nat)
    requires page >= 1
    ensures |PageOf(s, page, size)| <= size
    ensures forall x :: x in PageOf(s, page, size) ==> x in s
    ensures (page - 1) * size >= |s| ==> PageOf(s, page, size) == []
  {
    var p := PageOf(s, page, size);
    forall x | x in p ensures x in s {
      var k :| 0 <= k < |p| && p[k] == x;
      assert s[(page - 1) * size + k] == x;
    }
  }

  /** The first n pages, concatenated, are the first n * size elements. */
  lemma {:induction false} PagesArePrefix<T>(s: seq<T>, size: nat, n: nat)
    ensures Pages(s, size, n) == s[..Min(n * size, |s|)]
  {
    if n > 0 {
      PagesArePrefix(s, size, n - 1);
      var lo, hi := (n - 1) * size, n * size;
      MulStep(n, size);
      var page := PageOf(s, n, size);
      if lo < |s| {
        assert page == s[lo..Min(hi, |s|)];
        assert s[..lo] + s[lo..Min(hi, |s|)] == s[..Min(hi, |s|)];
      } else {
        assert page == [];
      }
    }
  }

  lemma MulStep(n: nat, size: nat)
    requires n > 0
    ensures (n - 1) * size + size == n * size
  {
  }

  /** Pages 1..CeilDiv(|s|, size) together give back exactly `s`: nothing lost, nothing repeated. */
  lemma PagesCoverAll<T>(s: seq<T>, size: nat)
    requires size > 0
    ensures Pages(s, size, CeilDiv(|s|, size)) == s
  {
    PagesArePrefix(s, size, CeilDiv(|s|, size));
  }
}
