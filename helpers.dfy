/** Array and string helpers of the backend: pagination, masking, de-duplication, grouping,
    sanitising and percentages. */
module Helpers {
  import opened Wrappers
  import opened Text

  // ---------------------------------------------------------------- slicing and pagination

  /** The index `slice` resolves `i` to in a sequence of length `len`: a negative index counts
      from the end, and either kind is clamped into [0, len]. */
  function SliceIndex(i: int, len: nat): (r: nat)
    ensures r <= len
    ensures 0 <= i ==> r == Min(i, len)
    ensures i < 0 ==> r == Max(len + i, 0)
  {
    if i < 0 then Max(len + i, 0) else Min(i, len)
  }

  /** `s.slice(start, end)`: the elements from the resolved start up to the resolved end, none
      when the resolved bounds cross. */
  function Slice<T>(s: seq<T>, start: int, end: int): (r: seq<T>)
    ensures var a, b := SliceIndex(start, |s|), SliceIndex(end, |s|);
            |r| == Max(b - a, 0) && forall k :: 0 <= k < |r| ==> a + k < |s| && r[k] == s[a + k]
    ensures 0 <= start <= end <= |s| ==> r == s[start..end]
    ensures -|s| <= start < 0 && |s| <= end ==> r == s[|s| + start..]
    ensures end <= start && (0 <= end || start < 0) ==> r == []
  {
    var a, b := SliceIndex(start, |s|), SliceIndex(end, |s|);
    if a < b then s[a..b] else []
  }

  /** ⌈n / d⌉ for a positive divisor. */
  function CeilDiv(n: nat, d: int): (r: nat)
    requires d >= 1
    ensures n == 0 ==> r == 0
    ensures r * d >= n
    ensures n > 0 ==> (r - 1) * d < n
  {
    (n + d - 1) / d
  }

  /** `Math.ceil(n / limit)` for a whole-number limit: a whole number (negative for a negative
      limit), or, for a zero limit, Infinity when there are items and NaN when there are none. */
  datatype PageCount = Pages(n: int) | InfinitePages | NaNPages

  function PageCountOf(n: nat, limit: int): (c: PageCount)
    ensures limit >= 1 ==> c == Pages(CeilDiv(n, limit))
    ensures limit < 0 ==> c.Pages? && c.n <= 0 && c.n * limit <= n < (c.n - 1) * limit
    ensures limit == 0 ==> (c == InfinitePages <==> n > 0) && (c == NaNPages <==> n == 0)
  {
    if limit >= 1 then Pages(CeilDiv(n, limit))
    else if limit < 0 then
      var q := n / -limit;
      assert q * -limit <= n < (q + 1) * -limit;
      Pages(-q)
    else if n > 0 then InfinitePages
    else NaNPages
  }

  datatype Page<T> = Page(data: seq<T>, page: int, limit: int, total: nat, totalPages: PageCount)

  /** Page `page` (counted from 1) of `limit` items: the slice from `(page - 1) * limit` to
      `page * limit`, with the item count and the number of pages. */
  function Paginate<T>(items: seq<T>, page: int := 1, limit: int := 10): (p: Page<T>)
    ensures p.page == page && p.limit == limit
    ensures p.total == |items| && p.totalPages == PageCountOf(|items|, limit)
    ensures limit >= 1 ==> p.totalPages == Pages(CeilDiv(|items|, limit))
  {
    Page(Slice(items, (page - 1) * limit, page * limit), page, limit, |items|, PageCountOf(|items|, limit))
  }

  /** With a limit below 1 the first page does not respect the limit: a zero limit gives an
      empty page, and a negative limit `-k` resolves the end bound from the back, so the page
      holds every item but the last `k`. */
  lemma FirstPageOfNonPositiveLimit<T>(items: seq<T>, limit: int)
    requires limit <= 0
    ensures var p := Paginate(items, 1, limit);
            (limit == 0 ==> p.data == []) &&
            (limit < 0 ==> p.data == items[..Max(|items| + limit, 0)])
  {
    assert (1 - 1) * limit == 0 && 1 * limit == limit;
  }

  /** Whatever the page number, a page never holds more than `limit` items: the two slice
      bounds are `limit` apart, and resolving them to indices never widens the gap. */
  lemma PageWithinLimit<T>(items: seq<T>, page: int, limit: int)
    requires limit >= 1
    ensures |Paginate(items, page, limit).data| <= limit
  {
    var start := (page - 1) * limit;
    MulStep(page, limit);
    SliceWithinGap(items, start, page * limit);
  }

  lemma SliceWithinGap<T>(s: seq<T>, start: int, end: int)
    requires start <= end
    ensures |Slice(s, start, end)| <= end - start
  {
  }

  /** A page from 1 on holds the items from position `(page - 1) * limit` on, as many as
      remain up to `limit`. */
  lemma PageContents<T>(items: seq<T>, page: int, limit: int)
    requires limit >= 1 && page >= 1
    ensures var p, start := Paginate(items, page, limit), (page - 1) * limit;
            |p.data| == Max(Min(limit, |items| - start), 0) &&
            forall i :: 0 <= i < |p.data| ==> start + i < |items| && p.data[i] == items[start + i]
  {
    var start := (page - 1) * limit;
    MulStep(page, limit);
    MulMonotone(0, page - 1, limit);
    SliceFrom(items, start, page * limit);
  }

  lemma SliceFrom<T>(s: seq<T>, start: int, end: int)
    requires 0 <= start <= end
    ensures var r := Slice(s, start, end);
            |r| == Max(Min(end, |s|) - start, 0) &&
            forall i :: 0 <= i < |r| ==> start + i < |s| && r[i] == s[start + i]
  {
  }

  lemma MulStep(page: int, limit: int)
    ensures page * limit == (page - 1) * limit + limit
  {
  }

  lemma MulMonotone(a: int, b: int, c: nat)
    requires a <= b
    ensures a * c <= b * c
  {
  }

  /** Pages 1 to `totalPages` are non-empty and every later page is empty. */
  lemma PagesInRange<T>(items: seq<T>, page: int, limit: int)
    requires limit >= 1 && page >= 1
    ensures var p := Paginate(items, page, limit);
            (page <= p.totalPages.n ==> |p.data| >= 1) && (page > p.totalPages.n ==> p.data == [])
  {
    var r := CeilDiv(|items|, limit);
    PageContents(items, page, limit);
    if page <= r {
      MulMonotone(page - 1, r - 1, limit);
    } else {
      MulMonotone(r, page - 1, limit);
    }
  }

  // ---------------------------------------------------------------- masking

  function Stars(n: nat): (s: string)
    ensures |s| == n && forall i :: 0 <= i < n ==> s[i] == '*'
  {
    seq(n, _ => '*')
  }

  /** `maskString` as written: an empty string, or one no longer than `visibleChars`, is
      returned as it is; otherwise the stars and the text `slice(-visibleChars)` keeps. */
  function MaskStringAsWritten(s: string, visibleChars: int := 4): string {
    if s == "" || |s| <= visibleChars then s
    else Stars(|s| - visibleChars) + Slice(s, -visibleChars, |s|)
  }

  /** With no visible characters, `slice(-0)` keeps the whole string, so the result is the
      string doubled in length behind a row of stars. */
  lemma MaskZeroVisibleKeepsEverything()
    ensures MaskStringAsWritten("ab", 0) == "**ab"
    ensures MaskString("ab", 0) == "**"
  {
    assert Stars(2) == "**";
    assert Slice("ab", 0, 2) == "ab";
  }

  /** The masking the helper evidently intends: all but the last `visibleChars` characters
      (none when `visibleChars` is not positive) become stars. */
  function MaskString(s: string, visibleChars: int := 4): (r: string)
    ensures s == "" || |s| <= visibleChars ==> r == s
    ensures |r| == |s|
    ensures |s| > visibleChars ==>
              var k := Max(visibleChars, 0);
              r[|s| - k..] == s[|s| - k..] && forall i :: 0 <= i < |s| - k ==> r[i] == '*'
  {
    if s == "" || |s| <= visibleChars then s
    else
      var k := Max(visibleChars, 0);
      Stars(|s| - k) + s[|s| - k..]
  }

  /** For a positive number of visible characters the written helper is the intended one. */
  lemma MaskAgreesWhenVisible(s: string, visibleChars: int)
    requires visibleChars > 0
    ensures MaskStringAsWritten(s, visibleChars) == MaskString(s, visibleChars)
  {
  }

  // ---------------------------------------------------------------- de-duplication

  /** No element occurs twice. */
  predicate Distinct<T(==)>(s: seq<T>) {
    forall i, j :: 0 <= i < j < |s| ==> s[i] != s[j]
  }

  /** `[...new Set(s)]`: each element once, in order of first occurrence. */
  function Unique<T(==)>(s: seq<T>): (u: seq<T>)
    ensures forall i :: 0 <= i < |u| ==> u[i] in s
    ensures forall i :: 0 <= i < |s| ==> s[i] in u
    ensures Distinct(u)
  {
    if s == [] then []
    else
      var u' := Unique(s[..|s| - 1]);
      if s[|s| - 1] in u' then u' else u' + [s[|s| - 1]]
  }

  /** The position of the first occurrence of `x` in `s`. */
  function FirstIndex<T(==)>(s: seq<T>, x: T): (i: nat)
    requires x in s
    ensures i < |s| && s[i] == x && x !in s[..i]
  {
    if s[0] == x then 0 else 1 + FirstIndex(s[1..], x)
  }

  lemma {:induction false} FirstIndexOfPrefix<T>(s: seq<T>, n: nat, x: T)
    requires n <= |s| && x in s[..n]
    ensures FirstIndex(s[..n], x) == FirstIndex(s, x)
  {
    if s[0] != x {
      assert s[..n][1..] == s[1..][..n - 1];
      FirstIndexOfPrefix(s[1..], n - 1, x);
    }
  }

  /** An element first seen at position `n` has its first occurrence there. */
  lemma {:induction false} FirstIndexAt<T>(s: seq<T>, n: nat, x: T)
    requires n < |s| && s[n] == x && x !in s[..n]
    ensures FirstIndex(s, x) == n
  {
    if n > 0 {
      assert s[..n][0] == s[0];
      assert s[1..][..n - 1] == s[..n][1..];
      FirstIndexAt(s[1..], n - 1, x);
    }
  }

  /** The elements keep the order of their first occurrences. */
  lemma {:induction false} UniqueKeepsFirstOrder<T>(s: seq<T>, i: nat, j: nat)
    requires 0 <= i < j < |Unique(s)|
    ensures FirstIndex(s, Unique(s)[i]) < FirstIndex(s, Unique(s)[j])
  {
    var p := s[..|s| - 1];
    if j < |Unique(p)| {
      UniqueKeepsFirstOrder(p, i, j);
      OrderAmongEarlier(s, i, j);
    } else {
      OrderWithLast(s, i, j);
    }
  }

  /** Two elements already present before the last item keep their order. */
  lemma OrderAmongEarlier<T>(s: seq<T>, i: nat, j: nat)
    requires s != [] && 0 <= i < j < |Unique(s[..|s| - 1])|
    requires var u' := Unique(s[..|s| - 1]); FirstIndex(s[..|s| - 1], u'[i]) < FirstIndex(s[..|s| - 1], u'[j])
    ensures j < |Unique(s)| && FirstIndex(s, Unique(s)[i]) < FirstIndex(s, Unique(s)[j])
  {
    var u, u' := Unique(s), Unique(s[..|s| - 1]);
    assert u[i] == u'[i] && u[j] == u'[j];
    FirstOfPrefix(s, u[i]);
    FirstOfPrefix(s, u[j]);
  }

  /** An element new with the last item comes after every earlier one. */
  lemma OrderWithLast<T>(s: seq<T>, i: nat, j: nat)
    requires 0 <= i < j < |Unique(s)| && j >= |Unique(s[..|s| - 1])|
    ensures FirstIndex(s, Unique(s)[i]) < FirstIndex(s, Unique(s)[j])
  {
    var p := s[..|s| - 1];
    var u, u' := Unique(s), Unique(p);
    var last := s[|s| - 1];
    assert u == u' + [last] && last !in p;
    assert u[j] == last && u[i] == u'[i];
    FirstOfPrefix(s, u[i]);
    FirstIndexAt(s, |s| - 1, last);
  }

  /** An element of all but the last item has its first occurrence among them. */
  lemma FirstOfPrefix<T>(s: seq<T>, x: T)
    requires s != [] && x in Unique(s[..|s| - 1])
    ensures FirstIndex(s, x) == FirstIndex(s[..|s| - 1], x) < |s| - 1
  {
    FirstIndexOfPrefix(s, |s| - 1, x);
  }

  // ---------------------------------------------------------------- grouping

  /** The items whose key is `k`, in their original order. */
  function Filter<T>(s: seq<T>, keyOf: T -> string, k: string): (r: seq<T>)
    ensures |r| <= |s|
  {
    if s == [] then []
    else Filter(s[..|s| - 1], keyOf, k) + (if keyOf(s[|s| - 1]) == k then [s[|s| - 1]] else [])
  }

  function Keys<T>(s: seq<T>, keyOf: T -> string): (ks: seq<string>)
    ensures |ks| == |s| && forall i :: 0 <= i < |s| ==> ks[i] == keyOf(s[i])
  {
    if s == [] then [] else Keys(s[..|s| - 1], keyOf) + [keyOf(s[|s| - 1])]
  }

  /** The groups after reducing over `s`: each item appended to the list of its key. */
  function Groups<T>(s: seq<T>, keyOf: T -> string): map<string, seq<T>> {
    if s == [] then map[]
    else
      var g, x := Groups(s[..|s| - 1], keyOf), s[|s| - 1];
      g[keyOf(x) := (if keyOf(x) in g then g[keyOf(x)] else []) + [x]]
  }

  /** The groups are exactly the keys that occur, each holding the items of its key in their
      original order. */
  lemma {:induction false} GroupsAreFilters<T>(s: seq<T>, keyOf: T -> string, k: string)
    ensures k in Groups(s, keyOf) <==> k in Keys(s, keyOf)
    ensures k in Groups(s, keyOf) ==> Groups(s, keyOf)[k] == Filter(s, keyOf, k)
    ensures k !in Groups(s, keyOf) ==> Filter(s, keyOf, k) == []
  {
    if s != [] {
      var p := s[..|s| - 1];
      GroupsAreFilters(p, keyOf, k);
      assert Keys(s, keyOf) == Keys(p, keyOf) + [keyOf(s[|s| - 1])];
    }
  }

  /** `groupBy`: reduces over the items into a dictionary of lists. */
  method GroupBy<T>(items: seq<T>, keyOf: T -> string) returns (result: map<string, seq<T>>)
    ensures result == Groups(items, keyOf)
  {
    result := map[];
    var i := 0;
    while i < |items|
      invariant 0 <= i <= |items|
      invariant result == Groups(items[..i], keyOf)
    {
      assert items[..i + 1][..i] == items[..i];
      var group := keyOf(items[i]);
      if group !in result {
        result := result[group := []];
      }
      result := result[group := result[group] + [items[i]]];
      i := i + 1;
    }
    assert items[..i] == items;
  }

  /** The sizes of the groups, summed over a list of keys. */
  function SizeSum<T>(s: seq<T>, keyOf: T -> string, ks: seq<string>): nat {
    if ks == [] then 0 else SizeSum(s, keyOf, ks[..|ks| - 1]) + |Filter(s, keyOf, ks[|ks| - 1])|
  }

  lemma {:induction false} SizeSumAppendItem<T>(s: seq<T>, x: T, keyOf: T -> string, ks: seq<string>)
    requires Distinct(ks)
    ensures SizeSum(s + [x], keyOf, ks) == SizeSum(s, keyOf, ks) + (if keyOf(x) in ks then 1 else 0)
  {
    if ks != [] {
      var p := ks[..|ks| - 1];
      SizeSumAppendItem(s, x, keyOf, p);
      assert (s + [x])[..|s + [x]| - 1] == s;
      assert keyOf(x) in ks <==> keyOf(x) in p || keyOf(x) == ks[|ks| - 1];
      assert keyOf(x) == ks[|ks| - 1] ==> keyOf(x) !in p;
    }
  }

  /** Over no items every group is empty. */
  lemma {:induction false} SizeSumOfNothing<T>(keyOf: T -> string, ks: seq<string>)
    ensures SizeSum([], keyOf, ks) == 0
  {
    if ks != [] {
      SizeSumOfNothing(keyOf, ks[..|ks| - 1]);
    }
  }

  /** Summed over distinct keys that cover every item's key, the group sizes count each item
      once. */
  lemma {:induction false} SizeSumCovering<T>(s: seq<T>, keyOf: T -> string, ks: seq<string>)
    requires Distinct(ks)
    requires forall i :: 0 <= i < |s| ==> keyOf(s[i]) in ks
    ensures SizeSum(s, keyOf, ks) == |s|
  {
    if s == [] {
      SizeSumOfNothing(keyOf, ks);
    } else {
      var p, x := s[..|s| - 1], s[|s| - 1];
      assert s == p + [x];
      SizeSumCovering(p, keyOf, ks);
      SizeSumAppendItem(p, x, keyOf, ks);
    }
  }

  /** Every item lands in exactly one group: summed over the distinct keys, the group sizes
      add up to the number of items. */
  lemma GroupSizesSum<T>(s: seq<T>, keyOf: T -> string)
    ensures SizeSum(s, keyOf, Unique(Keys(s, keyOf))) == |s|
  {
    var ks := Keys(s, keyOf);
    forall i | 0 <= i < |s|
      ensures keyOf(s[i]) in Unique(ks)
    {
      assert ks[i] == keyOf(s[i]);
    }
    SizeSumCovering(s, keyOf, Unique(ks));
  }

  // ---------------------------------------------------------------- sanitising

  predicate Bracket(c: char) {
    c == '<' || c == '>'
  }

  predicate Clean(s: string) {
    forall i :: 0 <= i < |s| ==> !Bracket(s[i])
  }

  /** `str.replace(/[<>]/g, '')`. */
  function Sanitize(s: string): (r: string)
    ensures Clean(r)
    ensures |r| <= |s|
  {
    if s == [] then []
    else
      var r := Sanitize(s[..|s| - 1]) + (if Bracket(s[|s| - 1]) then "" else [s[|s| - 1]]);
      assert forall i :: 0 <= i < |Sanitize(s[..|s| - 1])| ==> r[i] == Sanitize(s[..|s| - 1])[i];
      r
  }

  /** Only angle brackets go: every other character keeps its number of occurrences, and no
      bracket remains. */
  lemma {:induction false} SanitizeKeepsOthers(s: string, c: char)
    requires !Bracket(c)
    ensures multiset(Sanitize(s))[c] == multiset(s)[c]
    ensures multiset(Sanitize(s))['<'] == 0 && multiset(Sanitize(s))['>'] == 0
  {
    if s != [] {
      var p, x := s[..|s| - 1], s[|s| - 1];
      SanitizeKeepsOthers(p, c);
      assert s == p + [x];
      var tail := if Bracket(x) then "" else [x];
      assert multiset(s) == multiset(p) + multiset{x};
      assert multiset(Sanitize(s)) == multiset(Sanitize(p)) + multiset(tail);
    }
  }

  /** Sanitising twice is sanitising once. */
  lemma SanitizeIdempotent(s: string)
    ensures Sanitize(Sanitize(s)) == Sanitize(s)
  {
    SanitizeClean(Sanitize(s));
  }

  /** A string without angle brackets is left as it is. */
  lemma {:induction false} SanitizeClean(s: string)
    requires Clean(s)
    ensures Sanitize(s) == s
  {
    if s != [] {
      var p := s[..|s| - 1];
      assert Clean(p) by {
        assert forall i :: 0 <= i < |p| ==> p[i] == s[i];
      }
      SanitizeClean(p);
      assert s == p + [s[|s| - 1]];
    }
  }

  // ---------------------------------------------------------------- percentages

  /** The magnitude of `x` in units of 10^-d, rounded to the nearest whole unit with halves
      upward: the digits `x.toFixed(d)` prints. */
  function ScaledRound(x: real, decimals: nat): nat {
    var m := (if x < 0.0 then -x else x) * Pow10(decimals) as real;
    (m + 0.5).Floor
  }

  /** `x.toFixed(d)` read back as a number: the nearest multiple of 10^-d, halves away from
      zero, so never more than half a unit of the last place from `x`. */
  function Fixed(x: real, decimals: nat): (r: real)
    ensures var h := 0.5 / Pow10(decimals) as real; x - h <= r <= x + h
    ensures (x < 0.0 ==> r <= 0.0) && (x >= 0.0 ==> r >= 0.0)
  {
    var p := Pow10(decimals) as real;
    var a := if x < 0.0 then -x else x;
    var n := ScaledRound(x, decimals) as real / p;
    DivWithin(ScaledRound(x, decimals) as real, a, p);
    if x < 0.0 then -n else n
  }

  /** `k` within half a unit of `a * p` puts `k / p` within half a unit / p of `a`. */
  lemma DivWithin(k: real, a: real, p: real)
    requires p >= 1.0 && a >= 0.0 && k >= 0.0 && a * p - 0.5 < k <= a * p + 0.5
    ensures a - 0.5 / p <= k / p <= a + 0.5 / p && k / p >= 0.0
  {
    var q, h := k / p, 0.5 / p;
    assert q * p == k;
    assert h * p == 0.5;
    assert (a - h) * p == a * p - 0.5;
    assert (a + h) * p == a * p + 0.5;
    ScaleOrder(a - h, q, p);
    ScaleOrder(q, a + h, p);
  }

  lemma ScaleOrder(u: real, v: real, p: real)
    requires p > 0.0 && u * p <= v * p
    ensures u <= v
  {
  }

  /** `calculatePercentage`: 0 of a zero total, otherwise the share rounded to `decimals`
      places, never more than half a unit of the last place from the exact share. */
  function CalculatePercentage(part: real, total: real, decimals: nat := 2): (r: real)
    ensures total == 0.0 ==> r == 0.0
    ensures total != 0.0 ==> r == Fixed(part / total * 100.0, decimals)
    ensures total != 0.0 ==> var x, h := part / total * 100.0, 0.5 / Pow10(decimals) as real;
                             x - h <= r <= x + h
  {
    if total == 0.0 then 0.0 else Fixed(part / total * 100.0, decimals)
  }

  /** The whole of a non-zero total is 100 percent. */
  lemma WholeIsHundred(total: real, decimals: nat)
    requires total != 0.0
    ensures CalculatePercentage(total, total, decimals) == 100.0
  {
    var p := Pow10(decimals);
    SelfShare(total);
    HundredScaled(p);
    assert ScaledRound(100.0, decimals) == 100 * p;
    ScaledBack(100.0, p as real);
  }

  lemma SelfShare(total: real)
    requires total != 0.0
    ensures total / total * 100.0 == 100.0
  {
  }

  lemma HundredScaled(p: nat)
    ensures 100.0 * p as real == (100 * p) as real
    ensures ((100 * p) as real + 0.5).Floor == 100 * p
  {
  }

  lemma ScaledBack(k: real, p: real)
    requires p > 0.0
    ensures (k * p) / p == k
  {
  }
}
