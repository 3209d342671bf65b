/** Shared vocabulary of the server model: optional values, JavaScript truthiness of request
    fields, the `slice(offset, offset + limit)` pagination every list endpoint uses, a filter,
    and the stable descending sort that `Array.prototype.sort((a, b) => key(b) - key(a))` performs. */
module Common {

  datatype Option<T> = None | Some(value: T)

  /** An HTTP outcome: status code and the `message` field of the JSON body. */
  datatype Response = Response(status: int, message: string)

  /** A string request field is truthy when it is present and non-empty (`!field` fails otherwise). */
  predicate Present(field: Option<string>)
  {
    field.Some? && field.value != ""
  }

  /** A numeric request field is truthy when it is present and not 0. */
  predicate Truthy(field: Option<int>)
  {
    field.Some? && field.value != 0
  }

  /** `field || fallback` for a string field. */
  function StrOr(field: Option<string>, fallback: string): (r: string)
    ensures Present(field) ==> r == field.value
    ensures !Present(field) ==> r == fallback
  {
    if Present(field) then field.value else fallback
  }

  /** `field || fallback` for a numeric field; also `parseInt(query) || fallback`, where an
      unparseable query is `None`. */
  function IntOr(field: Option<int>, fallback: int): (r: int)
    ensures Truthy(field) ==> r == field.value
    ensures !Truthy(field) ==> r == fallback
  {
    if Truthy(field) then field.value else fallback
  }

  /** The decimal text of a natural number, as a template literal prints it. */
  function Decimal(n: nat): (r: string)
    ensures |r| >= 1
    ensures forall i :: 0 <= i < |r| ==> '0' <= r[i] <= '9'
    ensures n >= 10 ==> r[0] != '0'
  {
    if n < 10 then [(n + '0' as int) as char] else Decimal(n / 10) + [(n % 10 + '0' as int) as char]
  }

  /** Where `Array.prototype.slice` puts a relative index: negative counts from the end, then clamped. */
  function SliceIndex(len: nat, i: int): (r: nat)
    ensures r <= len
    ensures 0 <= i <= len ==> r == i
    ensures i > len ==> r == len
    ensures i < 0 ==> r == if len + i < 0 then 0 else len + i
  {
    if i < 0 then (if len + i < 0 then 0 else len + i) else if i > len then len else i
  }

  /** `s.slice(start, end)`. */
  function JsSlice<T>(s: seq<T>, start: int, end: int): seq<T>
  {
    var from := SliceIndex(|s|, start);
    var to := SliceIndex(|s|, end);
    if from <= to then s[from..to] else []
  }

  /** `s.slice(offset, offset + limit)`: one page of a list. */
  function Page<T>(s: seq<T>, offset: int, limit: int): seq<T>
  {
    JsSlice(s, offset, offset + limit)
  }

  /** `s.slice(0, n)`. */
  function Take<T>(s: seq<T>, n: int): (r: seq<T>)
    ensures n >= 0 ==> |r| == if n < |s| then n else |s|
    ensures n >= 0 ==> forall i :: 0 <= i < |r| ==> r[i] == s[i]
    ensures n < 0 ==> r == s[..if |s| + n < 0 then 0 else |s| + n]
  {
    JsSlice(s, 0, n)
  }

  /** For a non-negative offset and a positive limit a page is the contiguous run of at most
      `limit` elements that starts at `offset`. */
  lemma PageIsWindow<T>(s: seq<T>, offset: int, limit: int)
    requires offset >= 0 && limit > 0
    ensures |Page(s, offset, limit)| <= limit
    ensures offset >= |s| ==> Page(s, offset, limit) == []
    ensures offset < |s| ==> |Page(s, offset, limit)| == if offset + limit <= |s| then limit else |s| - offset
    ensures forall i :: 0 <= i < |Page(s, offset, limit)| ==> Page(s, offset, limit)[i] == s[offset + i]
  {
  }

  /** Consecutive pages fit together: the page at `offset` followed by the page right after it
      is the page of twice the size. */
  lemma PagesConcatenate<T>(s: seq<T>, offset: int, limit: int)
    requires offset >= 0 && limit > 0
    ensures Page(s, offset, limit) + Page(s, offset + limit, limit) == Page(s, offset, 2 * limit)
  {
    var a := SliceIndex(|s|, offset);
    var b := SliceIndex(|s|, offset + limit);
    var c := SliceIndex(|s|, offset + 2 * limit);
    assert a <= b <= c;
    assert s[a..b] + s[b..c] == s[a..c];
  }

  /** A page holds only elements of the list it was cut from. */
  lemma PageWithin<T>(s: seq<T>, offset: int, limit: int)
    ensures forall x :: x in Page(s, offset, limit) ==> x in s
  {
    var from := SliceIndex(|s|, offset);
    var to := SliceIndex(|s|, offset + limit);
    if from <= to {
      assert Page(s, offset, limit) == s[from..to];
    }
  }

  /** A page of a list sorted newest first is sorted newest first. */
  lemma PageKeepsOrder<T>(s: seq<T>, offset: int, limit: int, key: T -> int)
    requires SortedDesc(s, key)
    ensures SortedDesc(Page(s, offset, limit), key)
  {
    var from := SliceIndex(|s|, offset);
    var to := SliceIndex(|s|, offset + limit);
    if from <= to {
      assert Page(s, offset, limit) == s[from..to];
    }
  }

  /** `s.filter(p)`. */
  function Filter<T>(s: seq<T>, p: T -> bool): (r: seq<T>)
    ensures |r| <= |s|
  {
    if s == [] then [] else (if p(s[0]) then [s[0]] else []) + Filter(s[1..], p)
  }

  /** The filter of a non-empty list is the filter of all but its last element, followed by
      the filter of that element. */
  lemma FilterSnoc<T>(s: seq<T>, p: T -> bool)
    requires s != []
    ensures Filter(s, p) == Filter(s[..|s| - 1], p) + Filter([s[|s| - 1]], p)
  {
    var front, last := s[..|s| - 1], [s[|s| - 1]];
    FilterAppend(front, last, p);
    assert front + last == s;
  }

  /** An element survives `filter` exactly when it was in the list and satisfies the predicate. */
  lemma {:induction false} FilterMember<T>(s: seq<T>, p: T -> bool, x: T)
    ensures x in Filter(s, p) <==> x in s && p(x)
  {
    if s != [] {
      FilterMember(s[1..], p, x);
      assert s == [s[0]] + s[1..];
    }
  }

  lemma {:induction false} FilterAll<T>(s: seq<T>, p: T -> bool)
    requires forall x :: x in s ==> p(x)
    ensures Filter(s, p) == s
  {
    if s != [] {
      FilterAll(s[1..], p);
    }
  }

  lemma {:induction false} FilterNone<T>(s: seq<T>, p: T -> bool)
    requires forall x :: x in s ==> !p(x)
    ensures Filter(s, p) == []
  {
    if s != [] {
      FilterNone(s[1..], p);
    }
  }

  lemma {:induction false} FilterAppend<T>(a: seq<T>, b: seq<T>, p: T -> bool)
    ensures Filter(a + b, p) == Filter(a, p) + Filter(b, p)
  {
    if a == [] {
      assert a + b == b;
    } else {
      var head := if p(a[0]) then [a[0]] else [];
      assert (a + b)[0] == a[0];
      assert (a + b)[1..] == a[1..] + b;
      calc {
        Filter(a + b, p);
        head + Filter(a[1..] + b, p);
        { FilterAppend(a[1..], b, p); }
        head + (Filter(a[1..], p) + Filter(b, p));
        (head + Filter(a[1..], p)) + Filter(b, p);
      }
    }
  }

  /** The conjunction of two predicates. */
  function Both<T>(p: T -> bool, q: T -> bool): T -> bool
  {
    x => p(x) && q(x)
  }

  /** Filtering twice keeps what satisfies both predicates. */
  lemma {:induction false} FilterFilter<T>(s: seq<T>, p: T -> bool, q: T -> bool)
    ensures Filter(Filter(s, p), q) == Filter(s, Both(p, q))
  {
    if s != [] {
      FilterFilter(s[1..], p, q);
      assert Filter(s, p) == (if p(s[0]) then [s[0]] else []) + Filter(s[1..], p);
      FilterAppend(if p(s[0]) then [s[0]] else [], Filter(s[1..], p), q);
    }
  }

  /** Filtering with two predicates that agree on every element gives the same list. */
  lemma {:induction false} FilterCongruent<T>(s: seq<T>, p: T -> bool, q: T -> bool)
    requires forall x :: x in s ==> p(x) == q(x)
    ensures Filter(s, p) == Filter(s, q)
  {
    if s != [] {
      FilterCongruent(s[1..], p, q);
    }
  }

  /** Filtering again with the same predicate changes nothing. */
  lemma FilterIdempotent<T>(s: seq<T>, p: T -> bool)
    ensures Filter(Filter(s, p), p) == Filter(s, p)
  {
    forall x | x in Filter(s, p) ensures p(x) {
      FilterMember(s, p, x);
    }
    FilterAll(Filter(s, p), p);
  }

  /** `s.map(f)`. */
  function Map<T, U>(s: seq<T>, f: T -> U): (r: seq<U>)
    ensures |r| == |s|
    ensures forall i :: 0 <= i < |s| ==> r[i] == f(s[i])
  {
    if s == [] then [] else [f(s[0])] + Map(s[1..], f)
  }

  lemma MapAppend<T, U>(a: seq<T>, b: seq<T>, f: T -> U)
    ensures Map(a + b, f) == Map(a, f) + Map(b, f)
  {
  }

  /** One more element at the end of a filter-then-map pipeline adds at most its own image. */
  lemma FilterMapSnoc<T, U>(s: seq<T>, x: T, p: T -> bool, f: T -> U)
    ensures Map(Filter(s + [x], p), f) == Map(Filter(s, p), f) + (if p(x) then [f(x)] else [])
  {
    FilterAppend(s, [x], p);
    MapAppend(Filter(s, p), Filter([x], p), f);
    assert Filter([x], p) == (if p(x) then [x] else []) by {
      assert [x][1..] == [];
    }
  }

  /** Number of elements satisfying `p`, as `s.filter(p).length`. */
  function Count<T>(s: seq<T>, p: T -> bool): nat
  {
    |Filter(s, p)|
  }

  /** Reordering a list does not change how many of its elements satisfy `p`. */
  lemma {:induction false} CountPermutation<T>(a: seq<T>, b: seq<T>, p: T -> bool)
    requires multiset(a) == multiset(b)
    ensures Count(a, p) == Count(b, p)
    decreases |a|
  {
    if a != [] {
      var x := a[0];
      var i := MatchFirst(a, b);
      var rest := b[..i] + b[i + 1..];
      CountPermutation(a[1..], rest, p);
      assert b == b[..i] + [x] + b[i + 1..];
      assert a == [x] + a[1..];
      FilterAppend(b[..i] + [x], b[i + 1..], p);
      FilterAppend(b[..i], [x], p);
      FilterAppend(b[..i], b[i + 1..], p);
      FilterAppend([x], a[1..], p);
    }
  }

  /** In a permutation of a non-empty list, some position holds its first element, and without
      that position and the first element the rest are still permutations of each other. */
  lemma MatchFirst<T>(a: seq<T>, b: seq<T>) returns (i: nat)
    requires a != [] && multiset(a) == multiset(b)
    ensures i < |b| && b[i] == a[0]
    ensures multiset(a[1..]) == multiset(b[..i] + b[i + 1..])
  {
    var x := a[0];
    assert x in multiset(b);
    i :| 0 <= i < |b| && b[i] == x;
    var rest := b[..i] + b[i + 1..];
    assert b == b[..i] + [x] + b[i + 1..];
    assert a == [x] + a[1..];
    assert multiset(a) == multiset{x} + multiset(a[1..]);
    assert multiset(b) == multiset(b[..i]) + multiset{x} + multiset(b[i + 1..]);
    assert multiset(rest) == multiset(b[..i]) + multiset(b[i + 1..]);
    assert multiset(a[1..]) == multiset(a) - multiset{x};
    assert multiset(rest) == multiset(b) - multiset{x};
  }

  /** True iff no value occurs twice. */
  predicate NoDuplicates<T(==)>(s: seq<T>)
  {
    forall i, j :: 0 <= i < j < |s| ==> s[i] != s[j]
  }

  /** `s.indexOf(x)`: the first position of `x`, -1 when absent. */
  function IndexOf(s: seq<string>, x: string): (r: int)
    ensures -1 <= r < |s|
    ensures r >= 0 ==> s[r] == x && x !in s[..r]
    ensures r == -1 <==> x !in s
  {
    if s == [] then -1
    else if s[0] == x then 0
    else
      var k := IndexOf(s[1..], x);
      assert k >= 0 ==> s[..k + 1] == [s[0]] + s[1..][..k];
      if k == -1 then -1 else k + 1
  }

  /** Splicing out position `i` keeps every other element and, in a duplicate-free list, leaves
      no copy of the removed one. */
  lemma SpliceFacts(s: seq<string>, i: int)
    requires 0 <= i < |s|
    ensures forall u :: u in s && u != s[i] ==> u in s[..i] + s[i + 1..]
    ensures forall u :: u in s[..i] + s[i + 1..] ==> u in s
    ensures NoDuplicates(s) ==> NoDuplicates(s[..i] + s[i + 1..]) && s[i] !in s[..i] + s[i + 1..]
  {
    var t := s[..i] + s[i + 1..];
    assert forall k :: 0 <= k < |t| ==> t[k] == if k < i then s[k] else s[k + 1];
    forall u | u in s && u != s[i] ensures u in t {
      var k :| 0 <= k < |s| && s[k] == u;
      if k < i { assert t[k] == u; } else { assert t[k - 1] == u; }
    }
  }

  // ---------------------------------------------------------------------------------------
  // White space

  /** JavaScript's `\s` (and the set `String.prototype.trim` strips): the ECMAScript white
      space and line terminators. */
  predicate IsSpace(c: char)
  {
    var n := c as int;
    n == 9 || n == 10 || n == 11 || n == 12 || n == 13 || n == 32 || n == 0xA0 || n == 0x1680 ||
    (0x2000 <= n <= 0x200A) || n == 0x2028 || n == 0x2029 || n == 0x202F || n == 0x205F ||
    n == 0x3000 || n == 0xFEFF
  }

  /** `s.trim()`: the part of `s` between its leading and its trailing white space. */
  function Trim(s: string): (r: string)
    ensures LeadingSpaces(s) + |r| <= |s| && r == s[LeadingSpaces(s)..LeadingSpaces(s) + |r|]
    ensures forall i :: 0 <= i < |s| && (i < LeadingSpaces(s) || LeadingSpaces(s) + |r| <= i) ==> IsSpace(s[i])
    ensures r != "" ==> !IsSpace(r[0]) && !IsSpace(r[|r| - 1])
    ensures r == "" <==> forall i :: 0 <= i < |s| ==> IsSpace(s[i])
  {
    var a := LeadingSpaces(s);
    var t := s[a..];
    t[..TrailingStart(t)]
  }

  /** The number of white-space characters `s` starts with. */
  function LeadingSpaces(s: string): (n: nat)
    ensures n <= |s|
    ensures forall j :: 0 <= j < n ==> IsSpace(s[j])
    ensures n < |s| ==> !IsSpace(s[n])
    decreases |s|
  {
    if s != [] && IsSpace(s[0]) then 1 + LeadingSpaces(s[1..]) else 0
  }

  /** Where the white space `s` ends with begins. */
  function TrailingStart(s: string): (n: nat)
    ensures n <= |s|
    ensures forall j :: n <= j < |s| ==> IsSpace(s[j])
    ensures n > 0 ==> !IsSpace(s[n - 1])
    decreases |s|
  {
    if s != [] && IsSpace(s[|s| - 1]) then TrailingStart(s[..|s| - 1]) else |s|
  }

  // ---------------------------------------------------------------------------------------
  // Stable descending sort

  /** Puts `x` in front of the first element whose key is not larger: behind larger keys,
      ahead of equal ones (they came later in the input). */
  function InsertDesc<T>(x: T, s: seq<T>, key: T -> int): seq<T>
  {
    if s == [] then [x]
    else if key(s[0]) > key(x) then [s[0]] + InsertDesc(x, s[1..], key)
    else [x] + s
  }

  /** `s.sort((a, b) => key(b) - key(a))`: ECMAScript's sort is stable since 2019. */
  function SortDesc<T>(s: seq<T>, key: T -> int): seq<T>
  {
    if s == [] then [] else InsertDesc(s[0], SortDesc(s[1..], key), key)
  }

  ghost predicate SortedDesc<T>(s: seq<T>, key: T -> int)
  {
    forall i, j :: 0 <= i < j < |s| ==> key(s[i]) >= key(s[j])
  }

  /** The elements whose key is `k`, in their order: stability means sorting keeps this list. */
  function WithKey<T>(s: seq<T>, key: T -> int, k: int): seq<T>
  {
    if s == [] then [] else (if key(s[0]) == k then [s[0]] else []) + WithKey(s[1..], key, k)
  }

  lemma {:induction false} InsertDescPerm<T>(x: T, s: seq<T>, key: T -> int)
    ensures multiset(InsertDesc(x, s, key)) == multiset(s) + multiset{x}
  {
    if s != [] && key(s[0]) > key(x) {
      InsertDescPerm(x, s[1..], key);
      assert s == [s[0]] + s[1..];
    }
  }

  lemma {:induction false} InsertDescOrder<T>(x: T, s: seq<T>, key: T -> int)
    requires SortedDesc(s, key)
    ensures SortedDesc(InsertDesc(x, s, key), key)
  {
    if s != [] && key(s[0]) > key(x) {
      InsertDescOrder(x, s[1..], key);
      InsertDescPerm(x, s[1..], key);
      var t := InsertDesc(x, s[1..], key);
      var r := [s[0]] + t;
      assert InsertDesc(x, s, key) == r;
      forall y | y in t ensures key(s[0]) >= key(y) {
        assert y in multiset(t);
        if y != x {
          assert y in multiset(s[1..]);
          var j :| 0 <= j < |s[1..]| && s[1..][j] == y;
          assert s[j + 1] == y;
        }
      }
      forall i, j | 0 <= i < j < |r| ensures key(r[i]) >= key(r[j]) {
        assert r[j] == t[j - 1];
        if i > 0 {
          assert r[i] == t[i - 1];
        } else {
          assert r[j] in t;
        }
      }
    }
  }

  lemma {:induction false} InsertDescKeys<T>(x: T, s: seq<T>, key: T -> int, k: int)
    ensures WithKey(InsertDesc(x, s, key), key, k) == (if key(x) == k then [x] else []) + WithKey(s, key, k)
  {
    if s != [] && key(s[0]) > key(x) {
      InsertDescKeys(x, s[1..], key, k);
      var t := InsertDesc(x, s[1..], key);
      assert ([s[0]] + t)[1..] == t;
      assert WithKey([s[0]] + t, key, k) == (if key(s[0]) == k then [s[0]] else []) + WithKey(t, key, k);
    } else {
      assert ([x] + s)[1..] == s;
    }
  }

  lemma {:induction false} SortDescFacts<T>(s: seq<T>, key: T -> int)
    ensures SortedDesc(SortDesc(s, key), key)
    ensures multiset(SortDesc(s, key)) == multiset(s)
    ensures forall k :: WithKey(SortDesc(s, key), key, k) == WithKey(s, key, k)
  {
    if s != [] {
      SortDescFacts(s[1..], key);
      InsertDescOrder(s[0], SortDesc(s[1..], key), key);
      InsertDescPerm(s[0], SortDesc(s[1..], key), key);
      assert s == [s[0]] + s[1..];
      forall k ensures WithKey(SortDesc(s, key), key, k) == WithKey(s, key, k) {
        InsertDescKeys(s[0], SortDesc(s[1..], key), key, k);
      }
    }
  }

  /** The sorted list is sorted by non-increasing key, is a permutation of the input, and keeps
      the input order among equal keys. */
  lemma SortDescCorrect<T>(s: seq<T>, key: T -> int)
    ensures |SortDesc(s, key)| == |s|
    ensures SortedDesc(SortDesc(s, key), key)
    ensures multiset(SortDesc(s, key)) == multiset(s)
    ensures forall x :: x in SortDesc(s, key) <==> x in s
    ensures forall k :: WithKey(SortDesc(s, key), key, k) == WithKey(s, key, k)
  {
    SortDescFacts(s, key);
    assert |multiset(SortDesc(s, key))| == |multiset(s)|;
    forall x ensures x in SortDesc(s, key) <==> x in s {
      assert x in SortDesc(s, key) <==> x in multiset(SortDesc(s, key));
    }
  }

  /** A prefix of a sorted list is sorted. */
  lemma TakeSorted<T>(s: seq<T>, key: T -> int, n: int)
    requires SortedDesc(s, key)
    ensures SortedDesc(Take(s, n), key)
  {
  }

  /** A prefix of the stable sort is a top-k selection: whatever it leaves out ranks no higher
      than anything it keeps. */
  lemma TakeSortDescTop<T>(s: seq<T>, key: T -> int, n: int)
    requires n >= 0
    ensures forall x, y :: x in s && x !in Take(SortDesc(s, key), n) && y in Take(SortDesc(s, key), n) ==>
              key(y) >= key(x)
  {
    var sorted := SortDesc(s, key);
    SortDescCorrect(s, key);
    var top := Take(sorted, n);
    forall x, y | x in s && x !in top && y in top ensures key(y) >= key(x) {
      assert x in sorted;
      var i :| 0 <= i < |sorted| && sorted[i] == x;
      var j :| 0 <= j < |top| && top[j] == y;
      assert sorted[j] == y;
      assert top == sorted[..|top|];
      assert i >= |top|;
    }
  }

  /** `s.sort(by descending key).slice(0, n)` selects the `n` best elements of `s` (all of them
      when there are fewer), best first. */
  lemma TopK<T>(s: seq<T>, key: T -> int, n: int)
    requires n >= 0
    ensures |Take(SortDesc(s, key), n)| == if n < |s| then n else |s|
    ensures SortedDesc(Take(SortDesc(s, key), n), key)
    ensures forall x :: x in Take(SortDesc(s, key), n) ==> x in s
    ensures forall x :: x in s && x !in Take(SortDesc(s, key), n) ==>
              |Take(SortDesc(s, key), n)| == n &&
              forall y :: y in Take(SortDesc(s, key), n) ==> key(y) >= key(x)
  {
    SortDescCorrect(s, key);
    TakeSorted(SortDesc(s, key), key, n);
    TakeSortDescTop(s, key, n);
    forall x | x in Take(SortDesc(s, key), n) ensures x in s {
      var i :| 0 <= i < |Take(SortDesc(s, key), n)| && Take(SortDesc(s, key), n)[i] == x;
      assert SortDesc(s, key)[i] == x;
    }
  }

  // ---------------------------------------------------------------------------------------
  // find / upsert over a store

  /** `s.findIndex(p)`. */
  function IndexWhere<T>(s: seq<T>, p: T -> bool): (r: int)
    ensures -1 <= r < |s|
    ensures 0 <= r ==> p(s[r]) && forall j :: 0 <= j < r ==> !p(s[j])
    ensures r == -1 ==> forall j :: 0 <= j < |s| ==> !p(s[j])
  {
    if s == [] then -1
    else if p(s[0]) then 0
    else
      var k := IndexWhere(s[1..], p);
      if k == -1 then -1 else k + 1
  }

  /** `s.find(p)`: the first element satisfying `p`. */
  function Find<T>(s: seq<T>, p: T -> bool): (r: Option<T>)
    ensures r.Some? ==> r.value in s && p(r.value)
    ensures r.None? <==> forall x :: x in s ==> !p(x)
  {
    var i := IndexWhere(s, p);
    if i < 0 then None else Some(s[i])
  }

  /** `find` returns the first match: nothing before it satisfies the predicate. */
  lemma FindFirst<T>(s: seq<T>, p: T -> bool)
    ensures Find(s, p).Some? ==> exists i :: 0 <= i < |s| && s[i] == Find(s, p).value && forall j :: 0 <= j < i ==> !p(s[j])
  {
    var i := IndexWhere(s, p);
  }

  /** Predicates that agree on every element find the same index. */
  lemma {:induction false} IndexWhereCongruent<T>(s: seq<T>, p: T -> bool, q: T -> bool)
    requires forall x :: x in s ==> p(x) == q(x)
    ensures IndexWhere(s, p) == IndexWhere(s, q)
  {
    if s != [] {
      assert s[0] in s;
      forall x | x in s[1..] ensures p(x) == q(x) {
        assert x in s;
      }
      IndexWhereCongruent(s[1..], p, q);
    }
  }

  /** No two elements share a key. */
  ghost predicate UniqueKeys<T, K>(s: seq<T>, key: T -> K)
  {
    forall i, j :: 0 <= i < j < |s| ==> key(s[i]) != key(s[j])
  }

  /** The elements sharing `x`'s key. */
  function SameKey<T, K(==)>(key: T -> K, x: T): T -> bool
  {
    y => key(y) == key(x)
  }

  /** `existing = s.find(y => key(y) === key(x)); existing ? Object.assign(existing, x) : s.push(x)`,
      where the assignment copies every field, so the element is replaced where it stands. */
  function UpsertBy<T, K(==)>(s: seq<T>, x: T, key: T -> K): seq<T>
  {
    var i := IndexWhere(s, SameKey(key, x));
    if i < 0 then s + [x] else s[i := x]
  }

  /** An upsert stores `x`, keeps every element with another key where it was, grows the store
      only for a new key, and never creates a second element with one key. */
  lemma UpsertByFacts<T, K>(s: seq<T>, x: T, key: T -> K)
    ensures x in UpsertBy(s, x, key)
    ensures (exists y :: y in s && key(y) == key(x)) ==> |UpsertBy(s, x, key)| == |s|
    ensures (forall y :: y in s ==> key(y) != key(x)) ==> UpsertBy(s, x, key) == s + [x]
    ensures forall i :: 0 <= i < |s| && key(s[i]) != key(x) ==> UpsertBy(s, x, key)[i] == s[i]
    ensures forall y :: y in UpsertBy(s, x, key) ==> y == x || y in s
    ensures UniqueKeys(s, key) ==> UniqueKeys(UpsertBy(s, x, key), key)
  {
    var i := IndexWhere(s, SameKey(key, x));
    var r := UpsertBy(s, x, key);
    if i < 0 {
      assert r == s + [x];
      assert r[|s|] == x;
    } else {
      assert r[i] == x;
    }
  }

  /** An upsert of an element whose `other` key is new keeps the `other` keys unique too. */
  lemma UpsertFreshKeepsUnique<T, K, J>(s: seq<T>, x: T, key: T -> K, other: T -> J)
    requires UniqueKeys(s, other)
    requires forall y :: y in s ==> other(y) != other(x)
    ensures UniqueKeys(UpsertBy(s, x, key), other)
  {
    var i := IndexWhere(s, SameKey(key, x));
    var r := UpsertBy(s, x, key);
    forall a, b | 0 <= a < b < |r| ensures other(r[a]) != other(r[b]) {
      if i < 0 {
        assert r[a] == s[a];
        if b < |s| {
          assert r[b] == s[b];
        }
      } else if a == i {
        assert r[b] == s[b];
      } else if b == i {
        assert r[a] == s[a];
      } else {
        assert r[a] == s[a] && r[b] == s[b];
      }
    }
  }

  /** After an upsert, looking the key up finds the stored element. */
  lemma UpsertThenFind<T, K>(s: seq<T>, x: T, key: T -> K)
    ensures Find(UpsertBy(s, x, key), SameKey(key, x)) == Some(x)
  {
    var i := IndexWhere(s, SameKey(key, x));
    var r := UpsertBy(s, x, key);
    if i < 0 {
      assert r == s + [x];
      assert IndexWhere(r, SameKey(key, x)) == |s| by {
        assert forall j :: 0 <= j < |s| ==> r[j] == s[j];
        assert r[|s|] == x;
      }
    } else {
      assert IndexWhere(r, SameKey(key, x)) == i by {
        assert forall j :: 0 <= j < i ==> r[j] == s[j];
        assert r[i] == x;
      }
    }
  }

  /** Removing elements never creates a shared key. */
  lemma {:induction false} FilterKeepsUnique<T, K>(s: seq<T>, p: T -> bool, key: T -> K)
    requires UniqueKeys(s, key)
    ensures UniqueKeys(Filter(s, p), key)
  {
    if s != [] {
      FilterKeepsUnique(s[1..], p, key);
      var rest := Filter(s[1..], p);
      forall y | y in rest ensures key(y) != key(s[0]) {
        FilterMember(s[1..], p, y);
        var j :| 0 <= j < |s[1..]| && s[1..][j] == y;
        assert s[j + 1] == y;
      }
      if p(s[0]) {
        var r := [s[0]] + rest;
        forall i, j | 0 <= i < j < |r| ensures key(r[i]) != key(r[j]) {
          assert r[j] == rest[j - 1];
          if i > 0 {
            assert r[i] == rest[i - 1];
          } else {
            assert r[j] in rest;
          }
        }
      }
    }
  }
}
