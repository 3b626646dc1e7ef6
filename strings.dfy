/** Optional values: an attribute that may never have been assigned, a reply that may be missing. */
module Wrappers {
  datatype Option<+T> = None | Some(value: T)
}

/**
 Text helpers used by the record codec, the directory-listing parser and the
 file-name logic: Python's `str.split(sep)`, `bytes.split()`, substring search,
 the "keep ASCII only" filter, and Python's ordering of strings.
 */
module Strings {

  /** Python's `<` on `str`: lexicographic by code point, a proper prefix first. */
  predicate Less(a: string, b: string)
  {
    if |a| == 0 then |b| > 0
    else if |b| == 0 then false
    else if a[0] != b[0] then a[0] < b[0]
    else Less(a[1..], b[1..])
  }

  lemma {:induction false} LessIrreflexive(a: string)
    ensures !Less(a, a)
  {
    if |a| > 0 {
      LessIrreflexive(a[1..]);
    }
  }

  lemma {:induction false} LessTransitive(a: string, b: string, c: string)
    requires Less(a, b) && Less(b, c)
    ensures Less(a, c)
  {
    if |a| > 0 && a[0] == b[0] && b[0] == c[0] {
      LessTransitive(a[1..], b[1..], c[1..]);
    }
  }

  /** Any two strings are equal or ordered one way exactly. */
  lemma {:induction false} LessTrichotomy(a: string, b: string)
    ensures a == b || Less(a, b) || Less(b, a)
    ensures !(Less(a, b) && Less(b, a))
  {
    if |a| > 0 && |b| > 0 && a[0] == b[0] {
      LessTrichotomy(a[1..], b[1..]);
      if a[1..] == b[1..] {
        assert a == [a[0]] + a[1..] && b == [b[0]] + b[1..];
      }
    }
  }

  /** A common prefix does not change the order of two strings. */
  lemma {:induction false} LessCommonPrefix(p: string, a: string, b: string)
    ensures Less(p + a, p + b) <==> Less(a, b)
  {
    if |p| > 0 {
      assert (p + a)[1..] == p[1..] + a;
      assert (p + b)[1..] == p[1..] + b;
      LessCommonPrefix(p[1..], a, b);
    } else {
      assert p + a == a && p + b == b;
    }
  }

  /** Between two different strings of the same length, what follows them does not matter. */
  lemma {:induction false} LessSameLength(a: string, b: string, x: string, y: string)
    requires |a| == |b| && a != b
    ensures Less(a + x, b + y) <==> Less(a, b)
  {
    if a[0] == b[0] {
      assert a[1..] != b[1..];
      assert (a + x)[1..] == a[1..] + x;
      assert (b + y)[1..] == b[1..] + y;
      LessSameLength(a[1..], b[1..], x, y);
    }
  }

  /** How often `c` occurs in `s`. */
  function Count(s: string, c: char): nat
  {
    if |s| == 0 then 0 else (if s[0] == c then 1 else 0) + Count(s[1..], c)
  }

  /** Python's `s.split(sep)` for a one-character separator: empty fields are kept. */
  function Split(s: string, sep: char): (r: seq<string>)
    ensures |r| == Count(s, sep) + 1
    ensures forall i :: 0 <= i < |r| ==> sep !in r[i]
  {
    if |s| == 0 then [""]
    else
      var rest := Split(s[1..], sep);
      if s[0] == sep then [""] + rest
      else [[s[0]] + rest[0]] + rest[1..]
  }

  /** Python's `sep.join(parts)`. */
  function Join(parts: seq<string>, sep: char): string
  {
    if |parts| == 0 then ""
    else if |parts| == 1 then parts[0]
    else parts[0] + [sep] + Join(parts[1..], sep)
  }

  lemma {:induction false} JoinCons(x: string, parts: seq<string>, sep: char)
    requires |parts| > 0
    ensures Join([x] + parts, sep) == x + [sep] + Join(parts, sep)
  {
    assert ([x] + parts)[1..] == parts;
  }

  /** Splitting loses nothing: joining the fields back gives the line. */
  lemma {:induction false} JoinSplit(s: string, sep: char)
    ensures Join(Split(s, sep), sep) == s
  {
    if |s| > 0 {
      var rest := Split(s[1..], sep);
      JoinSplit(s[1..], sep);
      if s[0] == sep {
        JoinCons("", rest, sep);
        assert s == [s[0]] + s[1..];
      } else if |rest| == 1 {
        assert s == [s[0]] + s[1..];
      } else {
        var head := [s[0]] + rest[0];
        assert rest == [rest[0]] + rest[1..];
        JoinCons(rest[0], rest[1..], sep);
        JoinCons(head, rest[1..], sep);
        assert s == [s[0]] + s[1..];
      }
    }
  }

  /** Fields that do not hold the separator come back unchanged from a join and a split. */
  lemma {:induction false} SplitJoin(parts: seq<string>, sep: char)
    requires |parts| > 0
    requires forall i :: 0 <= i < |parts| ==> sep !in parts[i]
    ensures Split(Join(parts, sep), sep) == parts
  {
    if |parts| == 1 {
      SplitNoSeparator(parts[0], sep);
    } else {
      SplitJoin(parts[1..], sep);
      SplitFieldThenRest(parts[0], Join(parts[1..], sep), sep);
      assert parts == [parts[0]] + parts[1..];
    }
  }

  /** Text with no separator appended to a line only lengthens its last field. */
  lemma {:induction false} SplitAppendTail(s: string, t: string, sep: char)
    requires sep !in t
    ensures var a := Split(s, sep);
      Split(s + t, sep) == a[..|a| - 1] + [a[|a| - 1] + t]
  {
    if |s| == 0 {
      assert s + t == t;
      SplitNoSeparator(t, sep);
    } else {
      assert (s + t)[0] == s[0] && (s + t)[1..] == s[1..] + t;
      SplitAppendTail(s[1..], t, sep);
      var a := Split(s, sep);
      var b := Split(s[1..], sep);
      var b' := Split(s[1..] + t, sep);
      assert b' == b[..|b| - 1] + [b[|b| - 1] + t];
      if s[0] == sep {
        SplitTailSep(a, b, b', t);
      } else {
        SplitTailChar(a, b, b', t, s[0]);
      }
    }
  }

  /** The step of `SplitAppendTail` when the line starts with the separator. */
  lemma SplitTailSep(a: seq<string>, b: seq<string>, b': seq<string>, t: string)
    requires |b| > 0 && a == [""] + b && b' == b[..|b| - 1] + [b[|b| - 1] + t]
    ensures [""] + b' == a[..|a| - 1] + [a[|a| - 1] + t]
  {
    assert a[..|a| - 1] == [""] + b[..|b| - 1];
  }

  /** The step of `SplitAppendTail` when the line starts with another character. */
  lemma SplitTailChar(a: seq<string>, b: seq<string>, b': seq<string>, t: string, c: char)
    requires |b| > 0 && a == [[c] + b[0]] + b[1..] && b' == b[..|b| - 1] + [b[|b| - 1] + t]
    ensures [[c] + b'[0]] + b'[1..] == a[..|a| - 1] + [a[|a| - 1] + t]
  {
    if |b| == 1 {
      assert [c] + b[0] + t == [c] + (b[0] + t);
    } else {
      assert a[..|a| - 1] == [[c] + b[0]] + b[1..|b| - 1];
      assert b'[1..] == b[1..|b| - 1] + [b[|b| - 1] + t];
    }
  }

  lemma {:induction false} SplitNoSeparator(s: string, sep: char)
    requires sep !in s
    ensures Split(s, sep) == [s]
  {
    if |s| > 0 {
      SplitNoSeparator(s[1..], sep);
      assert s == [s[0]] + s[1..];
    }
  }

  lemma {:induction false} SplitFieldThenRest(f: string, rest: string, sep: char)
    requires sep !in f
    ensures Split(f + [sep] + rest, sep) == [f] + Split(rest, sep)
  {
    if |f| == 0 {
      assert f + [sep] + rest == [sep] + rest;
      assert ([sep] + rest)[1..] == rest;
    } else {
      assert (f + [sep] + rest)[1..] == f[1..] + [sep] + rest;
      SplitFieldThenRest(f[1..], rest, sep);
      assert f == [f[0]] + f[1..];
    }
  }

  /** The white space of Python's `bytes.split()` with no argument. */
  predicate IsSpace(c: char)
  {
    c == ' ' || c == '\t' || c == '\n' || c == '\r' || c == 11 as char || c == 12 as char
  }

  /** The longest prefix of `s` that holds no white space. */
  function WordPrefix(s: string): (w: string)
    ensures |w| <= |s| && w == s[..|w|]
    ensures forall i :: 0 <= i < |w| ==> !IsSpace(w[i])
    ensures |w| < |s| ==> IsSpace(s[|w|])
  {
    if |s| == 0 || IsSpace(s[0]) then "" else [s[0]] + WordPrefix(s[1..])
  }

  /** Python's `s.split()`: runs of white space separate the words, and no word is empty. */
  function Words(s: string): (r: seq<string>)
    ensures forall i :: 0 <= i < |r| ==> |r[i]| > 0 && forall k :: 0 <= k < |r[i]| ==> !IsSpace(r[i][k])
    decreases |s|
  {
    if |s| == 0 then []
    else if IsSpace(s[0]) then Words(s[1..])
    else
      var w := WordPrefix(s);
      [w] + Words(s[|w|..])
  }

  /** A run of non-space characters ended by white space or by the end of the text is the word prefix. */
  lemma {:induction false} WordPrefixOf(w: string, s: string)
    requires forall k :: 0 <= k < |w| ==> !IsSpace(w[k])
    requires |s| == 0 || IsSpace(s[0])
    ensures WordPrefix(w + s) == w
  {
    if |w| > 0 {
      assert (w + s)[1..] == w[1..] + s;
      WordPrefixOf(w[1..], s);
      assert w == [w[0]] + w[1..];
    } else {
      assert w + s == s;
    }
  }

  /** Leading white space is skipped. */
  lemma WordsSpace(c: char, s: string)
    requires IsSpace(c)
    ensures Words([c] + s) == Words(s)
  {
    assert ([c] + s)[1..] == s;
  }

  /**
   A maximal run of non-space characters at the front is the first word, and the
   words of the rest follow it: `split()` gives the runs in order.
   */
  lemma WordsWord(w: string, s: string)
    requires |w| > 0 && forall k :: 0 <= k < |w| ==> !IsSpace(w[k])
    requires |s| == 0 || IsSpace(s[0])
    ensures Words(w + s) == [w] + Words(s)
  {
    WordPrefixOf(w, s);
    assert (w + s)[|w|..] == s;
  }

  /** Python's `s.find(p) != -1`. */
  predicate Contains(s: string, p: string)
  {
    |p| <= |s| && (s[..|p|] == p || Contains(s[1..], p))
  }

  lemma {:induction false} ContainsAt(s: string, p: string, k: nat)
    requires k + |p| <= |s| && s[k..k + |p|] == p
    ensures Contains(s, p)
  {
    if k > 0 {
      assert s[1..][k - 1..k - 1 + |p|] == s[k..k + |p|];
      ContainsAt(s[1..], p, k - 1);
    }
  }

  /** `line.encode("ascii", "ignore")`: every character outside ASCII is dropped. */
  function Ascii(s: string): (r: string)
    ensures |r| <= |s|
    ensures forall i :: 0 <= i < |r| ==> r[i] < 128 as char
  {
    if |s| == 0 then ""
    else if s[0] < 128 as char then [s[0]] + Ascii(s[1..])
    else Ascii(s[1..])
  }

  /** One character: kept when it is ASCII, dropped otherwise. */
  lemma AsciiChar(c: char)
    ensures Ascii([c]) == if c < 128 as char then [c] else []
  {
    assert [c][1..] == [];
  }

  /**
   The filter works character by character: filtering a concatenation is
   concatenating the filtered parts, so with `AsciiChar` every ASCII character
   is kept, in order, and every other one dropped.
   */
  lemma {:induction false} AsciiAppend(a: string, b: string)
    ensures Ascii(a + b) == Ascii(a) + Ascii(b)
  {
    if |a| == 0 {
      assert a + b == b;
    } else {
      assert (a + b)[1..] == a[1..] + b;
      AsciiAppend(a[1..], b);
    }
  }

  /** Filtering twice is filtering once; on ASCII text the filter is the identity. */
  lemma {:induction false} AsciiOfAscii(s: string)
    requires forall i :: 0 <= i < |s| ==> s[i] < 128 as char
    ensures Ascii(s) == s
  {
    if |s| > 0 {
      AsciiOfAscii(s[1..]);
      assert s == [s[0]] + s[1..];
    }
  }
}
