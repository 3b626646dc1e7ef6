/**
 The two sorts the scripts rely on: `sorted(..., key=...)` on a number
 (listing entries by their time stamp, local files by modification time), and
 `list.sort()` on file names. Both are insertion sorts that put an element in
 front of every element with an equal key, so, like Python's sort, they keep
 the original order among equal keys.
 */
module Sorting {
  import opened Strings

  /** No element occurs twice. */
  predicate Distinct<T(==)>(s: seq<T>)
  {
    forall i, j :: 0 <= i < j < |s| ==> s[i] != s[j]
  }

  predicate SortedByKey<T>(s: seq<T>, key: T -> int)
  {
    forall i, j :: 0 <= i < j < |s| ==> key(s[i]) <= key(s[j])
  }

  function InsertByKey<T(==)>(x: T, s: seq<T>, key: T -> int): (r: seq<T>)
    requires SortedByKey(s, key)
    ensures multiset(r) == multiset(s) + multiset{x}
    ensures forall y :: y in r ==> y == x || y in s
    ensures SortedByKey(r, key)
  {
    if |s| == 0 || key(x) <= key(s[0]) then [x] + s
    else
      var rest := InsertByKey(x, s[1..], key);
      assert s == [s[0]] + s[1..];
      forall j | 0 <= j < |rest| ensures key(s[0]) <= key(rest[j]) {
        assert rest[j] in rest;
      }
      [s[0]] + rest
  }

  /** `sorted(s, key=key)`: ordered by key, and a permutation of `s`. */
  function SortByKey<T(==)>(s: seq<T>, key: T -> int): (r: seq<T>)
    ensures multiset(r) == multiset(s)
    ensures SortedByKey(r, key)
  {
    if |s| == 0 then []
    else
      assert s == [s[0]] + s[1..];
      InsertByKey(s[0], SortByKey(s[1..], key), key)
  }

  lemma {:induction false} InsertByKeyDistinct<T>(x: T, s: seq<T>, key: T -> int)
    requires SortedByKey(s, key) && Distinct(s) && x !in s
    ensures Distinct(InsertByKey(x, s, key))
  {
    if |s| > 0 && key(s[0]) < key(x) {
      InsertByKeyDistinct(x, s[1..], key);
      assert s[0] !in InsertByKey(x, s[1..], key);
    }
  }

  /** Sorting a sequence without repetitions gives one without repetitions. */
  lemma {:induction false} SortByKeyDistinct<T>(s: seq<T>, key: T -> int)
    requires Distinct(s)
    ensures Distinct(SortByKey(s, key))
  {
    if |s| > 0 {
      SortByKeyDistinct(s[1..], key);
      assert s[0] !in multiset(SortByKey(s[1..], key));
      InsertByKeyDistinct(s[0], SortByKey(s[1..], key), key);
    }
  }

  /** Python's `<=` on strings, as "not greater". */
  predicate NotAfter(a: string, b: string)
  {
    !Less(b, a)
  }

  lemma NotAfterTransitive(a: string, b: string, c: string)
    requires NotAfter(a, b) && NotAfter(b, c)
    ensures NotAfter(a, c)
  {
    if Less(c, a) {
      LessTrichotomy(a, b);
      LessTrichotomy(b, c);
      if a != b && b != c {
        LessTransitive(a, b, c);
        LessTrichotomy(a, c);
      }
    }
  }

  predicate SortedByName<T>(s: seq<T>, name: T -> string)
  {
    forall i, j :: 0 <= i < j < |s| ==> NotAfter(name(s[i]), name(s[j]))
  }

  function InsertByName<T(==)>(x: T, s: seq<T>, name: T -> string): (r: seq<T>)
    requires SortedByName(s, name)
    ensures multiset(r) == multiset(s) + multiset{x}
    ensures forall y :: y in r ==> y == x || y in s
    ensures SortedByName(r, name)
  {
    if |s| == 0 || NotAfter(name(x), name(s[0])) then
      forall j | 0 <= j < |s| ensures NotAfter(name(x), name(s[j])) {
        if j > 0 {
          NotAfterTransitive(name(x), name(s[0]), name(s[j]));
        }
      }
      [x] + s
    else
      var rest := InsertByName(x, s[1..], name);
      assert s == [s[0]] + s[1..];
      LessTrichotomy(name(x), name(s[0]));
      forall j | 0 <= j < |rest| ensures NotAfter(name(s[0]), name(rest[j])) {
        assert rest[j] in rest;
      }
      [s[0]] + rest
  }

  /** `names.sort()` on strings, through the `name` of each element. */
  function SortByName<T(==)>(s: seq<T>, name: T -> string): (r: seq<T>)
    ensures multiset(r) == multiset(s)
    ensures SortedByName(r, name)
  {
    if |s| == 0 then []
    else
      assert s == [s[0]] + s[1..];
      InsertByName(s[0], SortByName(s[1..], name), name)
  }
}
