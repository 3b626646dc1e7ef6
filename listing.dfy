/**
 The device's directory listing as dataHandler.py's `get_OLA_file_list` reads
 it, and the rule that decides when a listing is trusted.

 The listing is a dictionary from file name to size (with a second dictionary
 from file name to time stamp). Both are modelled together as one sequence of
 entries with unique names, in the dictionary's insertion order; `update` on a
 name that is already present keeps its position and replaces its values.
 */
module Listing {
  import opened Wrappers
  import opened Strings
  import opened Sorting
  import opened Codec

  /** One `dataLog` file on the device: its name, its size and its time stamp. */
  datatype Entry = Entry(name: string, size: int, time: Instant)

  function EntryTime(e: Entry): int { e.time }

  function Names(es: seq<Entry>): seq<string>
  {
    if |es| == 0 then [] else [es[0].name] + Names(es[1..])
  }

  /** A dictionary never holds a key twice. */
  predicate UniqueNames(es: seq<Entry>)
  {
    forall i, j :: 0 <= i < j < |es| ==> es[i].name != es[j].name
  }

  lemma {:induction false} NamesMembers(es: seq<Entry>, n: string)
    ensures n in Names(es) <==> exists e :: e in es && e.name == n
  {
    if |es| > 0 {
      NamesMembers(es[1..], n);
      assert es == [es[0]] + es[1..];
      if n in Names(es[1..]) {
        var e :| e in es[1..] && e.name == n;
        assert e in es;
      }
    }
  }

  /**
   `d.update({e.name: ...})`: a new name goes last, a name already present
   keeps its position and takes the new values.
   */
  function Upsert(es: seq<Entry>, e: Entry): (r: seq<Entry>)
    ensures e in r
    ensures forall f :: f in r ==> f == e || f in es
    ensures UniqueNames(es) ==> UniqueNames(r)
  {
    if |es| == 0 then [e]
    else if es[0].name == e.name then
      assert UniqueNames(es) ==> UniqueNames([e] + es[1..]) by {
        if UniqueNames(es) {
          forall i, j | 0 <= i < j < |es| ensures ([e] + es[1..])[i].name != ([e] + es[1..])[j].name {
            assert ([e] + es[1..])[j] == es[j];
          }
        }
      }
      [e] + es[1..]
    else
      var rest := Upsert(es[1..], e);
      assert es == [es[0]] + es[1..];
      assert UniqueNames(es) ==> forall f :: f in rest ==> f.name != es[0].name by {
        if UniqueNames(es) {
          forall f | f in rest ensures f.name != es[0].name {
            if f != e {
              var k :| 1 <= k < |es| && es[k] == f;
            }
          }
        }
      }
      [es[0]] + rest
  }

  /** On a dictionary, `update` replaces the entry of the same name and keeps every other one. */
  lemma {:induction false} UpsertMembers(es: seq<Entry>, e: Entry, f: Entry)
    requires UniqueNames(es)
    ensures f in Upsert(es, e) <==> f == e || (f in es && f.name != e.name)
  {
    if |es| > 0 {
      assert es == [es[0]] + es[1..];
      if es[0].name != e.name {
        UpsertMembers(es[1..], e, f);
      } else if f in es[1..] {
        var k :| 1 <= k < |es| && es[k] == f;
      }
    }
  }

  /** `update` keeps the insertion order of the keys: only a new name is added, at the end. */
  lemma {:induction false} UpsertNames(es: seq<Entry>, e: Entry)
    ensures Names(Upsert(es, e)) == if e.name in Names(es) then Names(es) else Names(es) + [e.name]
  {
    if |es| > 0 {
      assert es == [es[0]] + es[1..];
      var r := Upsert(es, e);
      if es[0].name == e.name {
        assert r[1..] == es[1..];
      } else {
        UpsertNames(es[1..], e);
        assert r[1..] == Upsert(es[1..], e);
      }
    }
  }

  /**
   The dictionary as `==` compares it: a mapping from name to size. Time
   stamps and order do not take part in the comparison.
   */
  function AsMap(es: seq<Entry>): map<string, int>
  {
    if |es| == 0 then map[] else AsMap(es[..|es| - 1])[es[|es| - 1].name := es[|es| - 1].size]
  }

  /** On a dictionary, the mapping holds exactly the entries' names, each with its own size. */
  lemma {:induction false} AsMapOfUnique(es: seq<Entry>)
    requires UniqueNames(es)
    ensures forall i :: 0 <= i < |es| ==> es[i].name in AsMap(es) && AsMap(es)[es[i].name] == es[i].size
    ensures forall n :: n in AsMap(es) ==> exists i :: 0 <= i < |es| && es[i].name == n
  {
    if |es| > 0 {
      var init := es[..|es| - 1];
      AsMapOfUnique(init);
      forall i | 0 <= i < |es| ensures es[i].name in AsMap(es) && AsMap(es)[es[i].name] == es[i].size {
        if i < |es| - 1 {
          assert init[i] == es[i];
        }
      }
      forall n | n in AsMap(es) ensures exists i :: 0 <= i < |es| && es[i].name == n {
        if n != es[|es| - 1].name {
          var i :| 0 <= i < |init| && init[i].name == n;
          assert es[i] == init[i];
        }
      }
    }
  }

  /** What one line of the listing contributes. */
  datatype ListingLine =
    | Skip          // no `dataLog` in the line
    | Item(e: Entry)
    | Bad           // too few words, or a time stamp or size that does not convert: the parser raises

  /**
   A line holding `dataLog` is split on white space; word 3 is the name,
   word 2 the size (`int`), words 0 and 1 the time stamp.
   */
  function ParseListingLine(conv: Converters, ll: string): ListingLine
  {
    if !Contains(ll, "dataLog") then Skip
    else
      var w := Words(ll);
      if |w| < 4 then Bad
      else
        match conv.listingTime(w[0] + " " + w[1])
        case None => Bad
        case Some(t) =>
          match conv.toInt(w[2])
          case None => Bad
          case Some(n) => Item(Entry(w[3], n, t))
  }

  /** The listing's `Item` line `i` names `n`. */
  predicate ItemNamed(l: ListingLine, n: string)
  {
    l.Item? && l.e.name == n
  }

  /** The dictionary after the first `|lines|` lines, or None once a line has raised. */
  function Collect(conv: Converters, lines: seq<string>): (r: Option<seq<Entry>>)
    ensures r.Some? ==> UniqueNames(r.value)
  {
    if |lines| == 0 then Some([])
    else
      match Collect(conv, lines[..|lines| - 1])
      case None => None
      case Some(d) =>
        match ParseListingLine(conv, lines[|lines| - 1])
        case Skip => Some(d)
        case Bad => None
        case Item(e) => Some(Upsert(d, e))
  }

  /** `get_OLA_file_list`: the dictionary ordered by time stamp, or None when it raises. */
  function FileList(conv: Converters, lines: seq<string>): Option<seq<Entry>>
  {
    match Collect(conv, lines)
    case None => None
    case Some(d) => Some(SortByKey(d, EntryTime))
  }

  /** Line `i` gives entry `e`, and no later line names the same file. */
  predicate LastItem(conv: Converters, lines: seq<string>, e: Entry)
  {
    exists i :: 0 <= i < |lines| && ParseListingLine(conv, lines[i]) == Item(e)
      && forall j :: i < j < |lines| ==> !ItemNamed(ParseListingLine(conv, lines[j]), e.name)
  }

  /** The listing raises exactly when one of its `dataLog` lines is malformed. */
  lemma {:induction false} CollectFailsIff(conv: Converters, lines: seq<string>)
    ensures Collect(conv, lines).None? <==> exists i :: 0 <= i < |lines| && ParseListingLine(conv, lines[i]) == Bad
  {
    if |lines| > 0 {
      var init := lines[..|lines| - 1];
      CollectFailsIff(conv, init);
      forall i | 0 <= i < |init| ensures init[i] == lines[i] { }
      if Collect(conv, init).None? {
        var i :| 0 <= i < |init| && ParseListingLine(conv, init[i]) == Bad;
        assert ParseListingLine(conv, lines[i]) == Bad;
      } else if ParseListingLine(conv, lines[|lines| - 1]) != Bad {
        assert forall i :: 0 <= i < |lines| ==> ParseListingLine(conv, lines[i]) != Bad by {
          forall i | 0 <= i < |lines| ensures ParseListingLine(conv, lines[i]) != Bad {
            if i < |init| {
              assert ParseListingLine(conv, init[i]) != Bad;
            }
          }
        }
      }
    }
  }

  /**
   Last one wins: the dictionary holds exactly the entries of the `dataLog`
   lines that no later line overrides.
   */
  lemma {:induction false} CollectLastWins(conv: Converters, lines: seq<string>, e: Entry)
    requires Collect(conv, lines).Some?
    ensures e in Collect(conv, lines).value <==> LastItem(conv, lines, e)
  {
    if |lines| > 0 {
      var init := lines[..|lines| - 1];
      var last := lines[|lines| - 1];
      assert lines == init + [last];
      var d := Collect(conv, init).value;
      CollectLastWins(conv, init, e);
      var p := ParseListingLine(conv, last);
      if p.Skip? {
        assert Collect(conv, lines).value == d;
        LastItemSkipLine(conv, init, last, e);
      } else {
        var x := p.e;
        assert Collect(conv, lines).value == Upsert(d, x);
        UpsertMembers(d, x, e);
        if x == e {
          assert ParseListingLine(conv, lines[|lines| - 1]) == Item(e);
        } else if x.name == e.name {
          LastItemOverridden(conv, init, last, e, x);
        } else {
          LastItemSkipLine(conv, init, last, e);
        }
      }
    }
  }

  /** A last line that names another file (or none) does not change which lines are last for `e`. */
  lemma {:induction false} LastItemSkipLine(conv: Converters, init: seq<string>, last: string, e: Entry)
    requires !ItemNamed(ParseListingLine(conv, last), e.name)
    ensures LastItem(conv, init + [last], e) <==> LastItem(conv, init, e)
  {
    var lines := init + [last];
    if LastItem(conv, init, e) {
      var i :| 0 <= i < |init| && ParseListingLine(conv, init[i]) == Item(e)
        && forall j :: i < j < |init| ==> !ItemNamed(ParseListingLine(conv, init[j]), e.name);
      assert lines[i] == init[i];
      forall j | i < j < |lines| ensures !ItemNamed(ParseListingLine(conv, lines[j]), e.name) {
        if j < |init| {
          assert lines[j] == init[j];
        }
      }
    }
    if LastItem(conv, lines, e) {
      var i :| 0 <= i < |lines| && ParseListingLine(conv, lines[i]) == Item(e)
        && forall j :: i < j < |lines| ==> !ItemNamed(ParseListingLine(conv, lines[j]), e.name);
      assert i < |init|;
      assert init[i] == lines[i];
      forall j | i < j < |init| ensures !ItemNamed(ParseListingLine(conv, init[j]), e.name) {
        assert lines[j] == init[j];
      }
    }
  }

  /** A last line that gives the same name another entry overrides `e`. */
  lemma LastItemOverridden(conv: Converters, init: seq<string>, last: string, e: Entry, x: Entry)
    requires ParseListingLine(conv, last) == Item(x) && x.name == e.name && x != e
    ensures !LastItem(conv, init + [last], e)
  {
    var lines := init + [last];
    forall i | 0 <= i < |lines| && ParseListingLine(conv, lines[i]) == Item(e)
      ensures exists j :: i < j < |lines| && ItemNamed(ParseListingLine(conv, lines[j]), e.name)
    {
      assert lines[|lines| - 1] == last;
      assert i < |lines| - 1;
      assert ItemNamed(ParseListingLine(conv, lines[|lines| - 1]), e.name);
    }
  }

  /**
   The file list is ordered by time stamp, names each file once, and holds
   exactly the entries of the `dataLog` lines that no later line overrides.
   */
  lemma FileListSpec(conv: Converters, lines: seq<string>)
    requires FileList(conv, lines).Some?
    ensures var r := FileList(conv, lines).value;
      && SortedByKey(r, EntryTime)
      && UniqueNames(r)
      && forall e :: e in r <==> LastItem(conv, lines, e)
  {
    var d := Collect(conv, lines).value;
    var r := FileList(conv, lines).value;
    assert r == SortByKey(d, EntryTime);
    SortKeepsUniqueNames(d);
    forall e ensures e in r <==> LastItem(conv, lines, e) {
      CollectLastWins(conv, lines, e);
      assert e in r <==> e in multiset(r);
    }
  }

  lemma SortKeepsUniqueNames(d: seq<Entry>)
    requires UniqueNames(d)
    ensures UniqueNames(SortByKey(d, EntryTime))
  {
    var r := SortByKey(d, EntryTime);
    assert Distinct(d);
    SortByKeyDistinct(d, EntryTime);
    forall i, j | 0 <= i < j < |r| ensures r[i].name != r[j].name {
      assert r[i] in multiset(d) && r[j] in multiset(d);
      var a :| 0 <= a < |d| && d[a] == r[i];
      var b :| 0 <= b < |d| && d[b] == r[j];
      assert a != b;
    }
  }

  /** `get_OLA_file_list(ss)` on the lines before "End of Directory". */
  method GetOlaFileList(conv: Converters, blines: seq<string>) returns (r: Option<seq<Entry>>)
    ensures r == FileList(conv, blines)
  {
    var fileDict: seq<Entry> := [];
    var i := 0;
    while i < |blines|
      invariant 0 <= i <= |blines|
      invariant Collect(conv, blines[..i]) == Some(fileDict)
    {
      assert blines[..i + 1][..i] == blines[..i];
      match ParseListingLine(conv, blines[i]) {
        case Skip =>
        case Bad =>
          assert Collect(conv, blines[..i + 1]) == None;
          CollectStaysFailed(conv, blines, i + 1);
          return None;
        case Item(e) =>
          fileDict := Upsert(fileDict, e);
      }
      i := i + 1;
    }
    assert blines[..i] == blines;
    r := Some(SortByKey(fileDict, EntryTime));
  }

  /** Once a line has raised, the listing stays failed whatever follows. */
  lemma {:induction false} CollectStaysFailed(conv: Converters, lines: seq<string>, k: nat)
    requires k <= |lines| && Collect(conv, lines[..k]) == None
    ensures Collect(conv, lines) == None
    decreases |lines| - k
  {
    if k < |lines| {
      assert lines[..k + 1][..k] == lines[..k];
      CollectStaysFailed(conv, lines, k + 1);
    } else {
      assert lines[..k] == lines;
    }
  }

  /** How the listing fetches of one download cycle end. */
  datatype Fetched =
    | Stable(listing: seq<Entry>)   // two consecutive fetches agreed; the earlier one is kept
    | Unstable                      // six fetches without agreement: the cycle is abandoned
    | FetchRaised                   // a fetch raised

  /**
   The loop from fetch `i + 1` on, holding `cur`, the listing of fetch `i`.
   `fetch(k)` is what the `k`-th call of `get_OLA_file_list` returns.
   */
  function TrustFrom(fetch: nat -> Option<seq<Entry>>, cur: seq<Entry>, i: nat): Fetched
    requires i < 5
    decreases 5 - i
  {
    match fetch(i + 1)
    case None => FetchRaised
    case Some(nxt) =>
      if AsMap(cur) == AsMap(nxt) then Stable(cur)
      else if i == 4 then Unstable
      else TrustFrom(fetch, nxt, i + 1)
  }

  /** One fetch, then up to five more until two consecutive ones are equal as dictionaries. */
  function TrustedListing(fetch: nat -> Option<seq<Entry>>): Fetched
  {
    match fetch(0)
    case None => FetchRaised
    case Some(first) => TrustFrom(fetch, first, 0)
  }

  /** Fetches `0..k+1` all returned, fetches `k` and `k+1` agree, and no earlier pair did. */
  predicate FirstAgreement(fetch: nat -> Option<seq<Entry>>, k: nat)
  {
    && (forall j :: 0 <= j <= k + 1 ==> fetch(j).Some?)
    && AsMap(fetch(k).value) == AsMap(fetch(k + 1).value)
    && forall j :: 0 <= j < k ==> AsMap(fetch(j).value) != AsMap(fetch(j + 1).value)
  }

  lemma {:induction false} TrustFromStable(fetch: nat -> Option<seq<Entry>>, i: nat, k: nat)
    requires i <= k < 5 && FirstAgreement(fetch, k)
    ensures TrustFrom(fetch, fetch(i).value, i) == Stable(fetch(k).value)
    decreases k - i
  {
    if i < k {
      TrustFromStable(fetch, i + 1, k);
    }
  }

  lemma {:induction false} TrustFromStableOnly(fetch: nat -> Option<seq<Entry>>, i: nat, l: seq<Entry>)
    requires i < 5 && fetch(i).Some?
    requires forall j :: 0 <= j <= i ==> fetch(j).Some?
    requires forall j :: 0 <= j < i ==> AsMap(fetch(j).value) != AsMap(fetch(j + 1).value)
    requires TrustFrom(fetch, fetch(i).value, i) == Stable(l)
    ensures exists k :: i <= k < 5 && FirstAgreement(fetch, k) && l == fetch(k).value
    decreases 5 - i
  {
    if AsMap(fetch(i).value) == AsMap(fetch(i + 1).value) {
      assert FirstAgreement(fetch, i);
    } else {
      TrustFromStableOnly(fetch, i + 1, l);
    }
  }

  /**
   A listing is trusted exactly when, within the first six fetches, two
   consecutive ones agree as dictionaries; the trusted listing is the earlier
   of the first such pair.
   */
  lemma TrustedStableIff(fetch: nat -> Option<seq<Entry>>, l: seq<Entry>)
    ensures TrustedListing(fetch) == Stable(l) <==>
      exists k :: 0 <= k < 5 && FirstAgreement(fetch, k) && l == fetch(k).value
  {
    if TrustedListing(fetch) == Stable(l) {
      TrustFromStableOnly(fetch, 0, l);
    }
    if exists k :: 0 <= k < 5 && FirstAgreement(fetch, k) && l == fetch(k).value {
      var k :| 0 <= k < 5 && FirstAgreement(fetch, k) && l == fetch(k).value;
      TrustFromStable(fetch, 0, k);
    }
  }

  /** Six fetches, no two consecutive ones equal. */
  predicate NeverAgrees(fetch: nat -> Option<seq<Entry>>)
  {
    && (forall j :: 0 <= j <= 5 ==> fetch(j).Some?)
    && forall j :: 0 <= j < 5 ==> AsMap(fetch(j).value) != AsMap(fetch(j + 1).value)
  }

  lemma {:induction false} TrustFromUnstable(fetch: nat -> Option<seq<Entry>>, i: nat)
    requires i < 5 && fetch(i).Some?
    ensures NeverAgrees(fetch) ==> TrustFrom(fetch, fetch(i).value, i) == Unstable
    ensures TrustFrom(fetch, fetch(i).value, i) == Unstable ==>
      && (forall j :: i <= j <= 5 ==> fetch(j).Some?)
      && forall j :: i <= j < 5 ==> AsMap(fetch(j).value) != AsMap(fetch(j + 1).value)
    decreases 5 - i
  {
    if i < 4 && fetch(i + 1).Some? {
      TrustFromUnstable(fetch, i + 1);
    }
  }

  /** The cycle is abandoned as unstable exactly when six fetches never agree. */
  lemma TrustedUnstableIff(fetch: nat -> Option<seq<Entry>>)
    ensures TrustedListing(fetch) == Unstable <==> NeverAgrees(fetch)
  {
    if fetch(0).Some? {
      TrustFromUnstable(fetch, 0);
    }
  }

  lemma {:induction false} TrustFromLooksAtSix(f: nat -> Option<seq<Entry>>, g: nat -> Option<seq<Entry>>, cur: seq<Entry>, i: nat)
    requires i < 5
    requires forall j :: 0 <= j <= 5 ==> f(j) == g(j)
    ensures TrustFrom(f, cur, i) == TrustFrom(g, cur, i)
    decreases 5 - i
  {
    assert f(i + 1) == g(i + 1);
    if i < 4 && f(i + 1).Some? {
      TrustFromLooksAtSix(f, g, f(i + 1).value, i + 1);
    }
  }

  /** At most six fetches: the decision depends on the first six replies only. */
  lemma AtMostSixFetches(f: nat -> Option<seq<Entry>>, g: nat -> Option<seq<Entry>>)
    requires forall j :: 0 <= j <= 5 ==> f(j) == g(j)
    ensures TrustedListing(f) == TrustedListing(g)
  {
    assert f(0) == g(0);
    if f(0).Some? {
      TrustFromLooksAtSix(f, g, f(0).value, 0);
    }
  }

  /**
   The fetch loop of `download_data_files` (dataHandler.py). `fetches` is how
   many times the listing was requested.
   */
  method FetchStableListing(fetch: nat -> Option<seq<Entry>>) returns (r: Fetched, fetches: nat)
    ensures r == TrustedListing(fetch)
    ensures 1 <= fetches <= 6
    ensures r.Unstable? ==> fetches == 6
  {
    fetches := 1;
    var olaFdict: seq<Entry>;
    match fetch(0)
    case None =>
      return FetchRaised, fetches;
    case Some(first) =>
      olaFdict := first;
    for i := 0 to 5
      invariant fetches == i + 1
      invariant i < 5 ==> TrustedListing(fetch) == TrustFrom(fetch, olaFdict, i)
      invariant i == 5 ==> TrustedListing(fetch) == Unstable
    {
      fetches := fetches + 1;
      match fetch(i + 1)
      case None =>
        return FetchRaised, fetches;
      case Some(olaFdict2) =>
        if AsMap(olaFdict) == AsMap(olaFdict2) {
          return Stable(olaFdict), fetches;
        }
        olaFdict := olaFdict2;
    }
    // the fifth disagreement: `if i == 4: return prevData`
    r := Unstable;
  }
}
