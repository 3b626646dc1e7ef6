/**
 The catch-up replay over downloaded data files, in its three variants:
 dataHandler.py's `update_db_from_data_files` (anchor from the database, a
 one-second margin), update_db_from_data_files_with_timedelta.py (every time
 stamp shifted by a fixed amount, each write retried once) and
 update_db_from_data_files.py (the older ten-token records, a fixed window).

 All three read the files matching `dataLog?????.TXT` in ascending name order,
 line by line, skip lines that do not parse, publish a record only when its
 time is past the current threshold, move the threshold to every published
 record's time, and stop at the first write that fails. A write is a number of
 POST attempts; `post(k)` is whether the `k`-th attempt of the run succeeds.
 */
module Replay {
  import opened Wrappers
  import opened Strings
  import opened Sorting
  import opened Codec

  /** A downloaded file: its base name and its lines, as a text-mode read returns them. */
  datatype DataFile = DataFile(name: string, lines: seq<string>)

  function FileName(f: DataFile): string { f.name }

  /** `glob('.../dataLog?????.TXT')` on a base name. */
  predicate MatchesDataLog(n: string)
  {
    |n| == 16 && n[..7] == "dataLog" && n[12..] == ".TXT"
  }

  /** The files of `dir` whose name the pattern accepts, in directory order. */
  function Glob(dir: seq<DataFile>, pattern: string -> bool): (r: seq<DataFile>)
    ensures forall f :: f in r ==> f in dir && pattern(f.name)
    ensures forall f :: f in dir && pattern(f.name) ==> f in r
  {
    if |dir| == 0 then []
    else
      assert dir == [dir[0]] + dir[1..];
      (if pattern(dir[0].name) then [dir[0]] else []) + Glob(dir[1..], pattern)
  }

  /** The lines of the files one after the other: the nested `for` loops read them in this order. */
  function Flatten(fs: seq<DataFile>): seq<string>
  {
    if |fs| == 0 then [] else fs[0].lines + Flatten(fs[1..])
  }

  lemma {:induction false} FlattenSnoc(fs: seq<DataFile>, i: nat)
    requires i < |fs|
    ensures Flatten(fs[..i + 1]) == Flatten(fs[..i]) + fs[i].lines
  {
    if i > 0 {
      assert fs[..i + 1][1..] == fs[1..][..i];
      assert fs[..i][1..] == fs[1..][..i - 1];
      FlattenSnoc(fs[1..], i - 1);
    } else {
      assert fs[..1] == [fs[0]] && fs[..0] == [];
      assert Flatten([fs[0]]) == fs[0].lines + Flatten([]);
    }
  }

  lemma {:induction false} FlattenSplit(fs: seq<DataFile>, i: nat)
    requires i <= |fs|
    ensures Flatten(fs) == Flatten(fs[..i]) + Flatten(fs[i..])
  {
    if i > 0 {
      FlattenSplit(fs[1..], i - 1);
      assert fs[..i][1..] == fs[1..][..i - 1];
      assert fs[1..][i - 1..] == fs[i..];
    } else {
      assert fs[..0] == [] && fs[0..] == fs;
    }
  }

  /** What distinguishes the three replays. */
  datatype Policy = Policy(
    /** The record layout the script's parser expects. */
    layout: Layout,
    /** A record is published only when its time is past the threshold by more than this. */
    margin: int,
    /** Added to every parsed time stamp before it is compared or published. */
    shift: int,
    /** POST attempts per write. */
    maxTries: nat,
    /** dataHandler's `DB_URL` starting with "no": nothing is posted, every write succeeds. */
    noLogging: bool)

  /** The parser and the database the replay talks to. */
  datatype Setup = Setup(conv: Converters, policy: Policy, post: nat -> bool)

  /** Whether a bounded retry succeeded, and how many tries it made. */
  datatype Retry = Retry(ok: bool, used: nat)

  /**
   Up to `n` tries from try `start` on, stopping at the first that succeeds:
   `write_database` of the time-shift utility with `MAX_TRIES` = n, where a try
   is a POST, and `exit_zmodem` with three tries.
   */
  function BoundedRetry(post: nat -> bool, start: nat, n: nat): (w: Retry)
    ensures w.used <= n
    ensures w.ok <==> exists k :: start <= k < start + n && post(k)
    ensures w.ok ==> 1 <= w.used && post(start + w.used - 1)
    ensures !w.ok ==> w.used == n
    ensures forall k :: start <= k < start + w.used - 1 ==> !post(k)
    decreases n
  {
    if n == 0 then Retry(false, 0)
    else if post(start) then
      assert start <= start < start + n && post(start);
      Retry(true, 1)
    else
      var w := BoundedRetry(post, start + 1, n - 1);
      Retry(w.ok, w.used + 1)
  }

  /** One write of a record: no attempt at all when not logging. */
  function Write(p: Policy, post: nat -> bool, start: nat): Retry
  {
    if p.noLogging then Retry(true, 0) else BoundedRetry(post, start, p.maxTries)
  }

  /**
   The replay's variables: the threshold `lastDate`, the returned `prevData`,
   the records the database accepted, the POST attempts made, and whether a
   failed write ended the replay.
   */
  datatype Progress = Progress(last: Instant, prev: OlaData, published: seq<OlaData>, posts: nat, stopped: bool)

  function Start(anchor: Instant): Progress
  {
    Progress(anchor, Empty, [], 0, false)
  }

  /** `OLAdata(fline.encode("ascii", "ignore"))`. */
  function Observe(s: Setup, line: string): OlaData
  {
    NewOlaData(s.conv, s.policy.layout, Ascii(line))
  }

  /** The time a published record carries (every published record has one). */
  function When(r: OlaData): Instant
  {
    if r.obsDateTime.Some? then r.obsDateTime.value else 0
  }

  /** The body of the inner loop for one line. */
  function Step(s: Setup, st: Progress, line: string): Progress
  {
    if st.stopped then st
    else
      var r := Observe(s, line);
      if !r.Parsed() then st
      else
        var t := r.obsDateTime.value + s.policy.shift;
        if t <= st.last + s.policy.margin then st
        else
          var rec := r.(obsDateTime := Some(t));
          var w := Write(s.policy, s.post, st.posts);
          if w.ok then Progress(t, rec, st.published + [rec], st.posts + w.used, false)
          else st.(posts := st.posts + w.used, stopped := true)
  }

  /** The replay over `lines` from state `st`. */
  function Run(s: Setup, st: Progress, lines: seq<string>): Progress
  {
    if |lines| == 0 then st
    else Step(s, Run(s, st, lines[..|lines| - 1]), lines[|lines| - 1])
  }

  lemma {:induction false} RunSnoc(s: Setup, st: Progress, lines: seq<string>, line: string)
    ensures Run(s, st, lines + [line]) == Step(s, Run(s, st, lines), line)
  {
    assert (lines + [line])[..|lines|] == lines;
  }

  /** Reading `a` then `b` is reading `a + b`. */
  lemma {:induction false} RunAppend(s: Setup, st: Progress, a: seq<string>, b: seq<string>)
    ensures Run(s, st, a + b) == Run(s, Run(s, st, a), b)
  {
    if |b| == 0 {
      assert a + b == a;
    } else {
      var init, x := b[..|b| - 1], b[|b| - 1];
      assert b == init + [x];
      assert a + b == (a + init) + [x];
      RunSnoc(s, st, a + init, x);
      RunAppend(s, st, a, init);
      RunSnoc(s, Run(s, st, a), init, x);
    }
  }

  /** After a failed write nothing else is read, written or changed. */
  lemma {:induction false} RunStopped(s: Setup, st: Progress, lines: seq<string>)
    requires st.stopped
    ensures Run(s, st, lines) == st
  {
    if |lines| > 0 {
      RunStopped(s, st, lines[..|lines| - 1]);
    }
  }

  /** The first failed write ends the replay: what follows it is never read. */
  lemma StopAbsorbs(s: Setup, st: Progress, a: seq<string>, b: seq<string>)
    requires Run(s, st, a).stopped
    ensures Run(s, st, a + b) == Run(s, st, a)
  {
    RunAppend(s, st, a, b);
    RunStopped(s, Run(s, st, a), b);
  }

  /** Reading more never takes back a published record, and never resumes after a stop. */
  lemma {:induction false} RunGrows(s: Setup, st: Progress, lines: seq<string>)
    ensures var r := Run(s, st, lines);
      && st.published <= r.published
      && st.posts <= r.posts
      && (st.stopped ==> r.stopped)
  {
    if |lines| > 0 {
      RunGrows(s, st, lines[..|lines| - 1]);
    }
  }

  /** Published prefixes: the records published after `a` open those published after `a + b`. */
  lemma PrefixMonotone(s: Setup, st: Progress, a: seq<string>, b: seq<string>)
    ensures Run(s, st, a).published <= Run(s, st, a + b).published
  {
    RunAppend(s, st, a, b);
    RunGrows(s, Run(s, st, a), b);
  }

  /** The record a parsed line publishes: the line's own record, its time moved by the policy's shift. */
  function Shifted(s: Setup, line: string): OlaData
    requires Observe(s, line).Parsed()
  {
    var r := Observe(s, line);
    r.(obsDateTime := Some(r.obsDateTime.value + s.policy.shift))
  }

  /** One line publishes nothing, or its own shifted record and nothing else. */
  lemma StepPublishesOwnLine(s: Setup, st: Progress, line: string)
    ensures var n := Step(s, st, line);
      || n.published == st.published
      || (Observe(s, line).Parsed() && n.published == st.published + [Shifted(s, line)])
  {
  }

  /**
   `idx` picks, in strictly increasing order, the parsed lines whose shifted
   records make up `recs`.
   */
  predicate PublishedAt(s: Setup, lines: seq<string>, recs: seq<OlaData>, idx: seq<int>)
  {
    && |idx| == |recs|
    && (forall k :: 0 <= k < |idx| ==> 0 <= idx[k] < |lines| && Observe(s, lines[idx[k]]).Parsed())
    && (forall k :: 0 <= k < |idx| ==> recs[k] == Shifted(s, lines[idx[k]]))
    && (forall k :: 0 < k < |idx| ==> idx[k - 1] < idx[k])
  }

  /** Reading one more line keeps a choice of earlier lines valid. */
  lemma PublishedAtWiden(s: Setup, init: seq<string>, x: string, recs: seq<OlaData>, idx: seq<int>)
    requires PublishedAt(s, init, recs, idx)
    ensures PublishedAt(s, init + [x], recs, idx)
  {
    assert forall k :: 0 <= k < |idx| ==> (init + [x])[idx[k]] == init[idx[k]];
  }

  /** Publishing the new line's record extends the choice by that line. */
  lemma PublishedAtSnoc(s: Setup, init: seq<string>, x: string, recs: seq<OlaData>, idx: seq<int>)
    requires PublishedAt(s, init, recs, idx) && Observe(s, x).Parsed()
    ensures PublishedAt(s, init + [x], recs + [Shifted(s, x)], idx + [|init|])
  {
    PublishedAtWiden(s, init, x, recs, idx);
    assert (init + [x])[|init|] == x;
  }

  /** The records published past a prefix, after one more record is published. */
  lemma SuffixSnoc(pre: seq<OlaData>, mid: seq<OlaData>, rec: OlaData)
    requires pre <= mid
    ensures pre <= mid + [rec] && (mid + [rec])[|pre|..] == mid[|pre|..] + [rec]
  {
  }

  /**
   What a replay publishes is its lines' own records, with the shift applied,
   in line order, each line at most once: the records past `st.published` are
   the shifted records of a strictly increasing choice of parsed lines.
   */
  lemma {:induction false} RunPublishesLines(s: Setup, st: Progress, lines: seq<string>)
    ensures var r := Run(s, st, lines);
      && st.published <= r.published
      && exists idx :: PublishedAt(s, lines, r.published[|st.published|..], idx)
  {
    if |lines| == 0 {
      assert PublishedAt(s, lines, st.published[|st.published|..], []);
    } else {
      var init, x := lines[..|lines| - 1], lines[|lines| - 1];
      assert lines == init + [x];
      RunPublishesLines(s, st, init);
      var mid := Run(s, st, init).published;
      var fin := Run(s, st, lines).published;
      var idx :| PublishedAt(s, init, mid[|st.published|..], idx);
      StepPublishesOwnLine(s, Run(s, st, init), x);
      if fin == mid {
        PublishedAtWiden(s, init, x, mid[|st.published|..], idx);
      } else {
        SuffixSnoc(st.published, mid, Shifted(s, x));
        PublishedAtSnoc(s, init, x, mid[|st.published|..], idx);
      }
    }
  }

  /** Every record a replay publishes is the shifted record of one of its parsed lines. */
  lemma RunPublishedRecord(s: Setup, st: Progress, lines: seq<string>, k: nat)
    requires |st.published| <= k < |Run(s, st, lines).published|
    ensures exists j ::
      && 0 <= j < |lines|
      && Observe(s, lines[j]).Parsed()
      && Run(s, st, lines).published[k] == Shifted(s, lines[j])
  {
    RunPublishesLines(s, st, lines);
    var r := Run(s, st, lines);
    var idx :| PublishedAt(s, lines, r.published[|st.published|..], idx);
    var j := idx[k - |st.published|];
    assert r.published[k] == r.published[|st.published|..][k - |st.published|];
    assert Observe(s, lines[j]).Parsed() && r.published[k] == Shifted(s, lines[j]);
  }

  /** Each published record parsed and is past its predecessor (the first one: the anchor) by more than the margin. */
  predicate Chain(margin: int, anchor: Instant, pub: seq<OlaData>)
  {
    && (forall i :: 0 <= i < |pub| ==> pub[i].Parsed() && pub[i].obsDateTime.Some?)
    && (|pub| > 0 ==> When(pub[0]) > anchor + margin)
    && forall i :: 0 < i < |pub| ==> When(pub[i]) > When(pub[i - 1]) + margin
  }

  /**
   The replay's variables agree with what was published: the threshold is the
   last published time (the anchor before any), and `prevData` is the last
   published record (the empty record before any).
   */
  predicate Consistent(s: Setup, anchor: Instant, st: Progress)
  {
    && Chain(s.policy.margin, anchor, st.published)
    && st.last == (if |st.published| == 0 then anchor else When(st.published[|st.published| - 1]))
    && st.prev == (if |st.published| == 0 then Empty else st.published[|st.published| - 1])
  }

  lemma StepConsistent(s: Setup, anchor: Instant, st: Progress, line: string)
    requires Consistent(s, anchor, st)
    ensures Consistent(s, anchor, Step(s, st, line))
  {
    var r := Step(s, st, line);
    if r.published != st.published {
      var n := |st.published|;
      assert r.published == st.published + [r.prev];
      assert r.published[n] == r.prev;
      forall i | 0 <= i < n ensures r.published[i] == st.published[i] { }
    }
  }

  /** The replay from the anchor keeps the variables consistent with what it published. */
  lemma {:induction false} RunConsistent(s: Setup, anchor: Instant, lines: seq<string>)
    ensures Consistent(s, anchor, Run(s, Start(anchor), lines))
  {
    if |lines| > 0 {
      RunConsistent(s, anchor, lines[..|lines| - 1]);
      StepConsistent(s, anchor, Run(s, Start(anchor), lines[..|lines| - 1]), lines[|lines| - 1]);
    }
  }

  lemma {:induction false} ChainIncreasing(margin: int, anchor: Instant, pub: seq<OlaData>, i: nat, j: nat)
    requires margin >= 0 && Chain(margin, anchor, pub)
    requires i < j < |pub|
    ensures When(pub[i]) + margin < When(pub[j])
    decreases j - i
  {
    if i + 1 < j {
      ChainIncreasing(margin, anchor, pub, i, j - 1);
    }
  }

  /**
   Published times strictly increase, each past the anchor by more than the
   margin, and the replay returns the last published record, or the empty one.
   */
  lemma PublishedIncreasing(s: Setup, anchor: Instant, lines: seq<string>)
    requires s.policy.margin >= 0
    ensures var r := Run(s, Start(anchor), lines);
      && (forall i, j :: 0 <= i < j < |r.published| ==> When(r.published[i]) + s.policy.margin < When(r.published[j]))
      && (forall i :: 0 <= i < |r.published| ==> When(r.published[i]) > anchor + s.policy.margin)
      && r.prev == (if |r.published| == 0 then Empty else r.published[|r.published| - 1])
  {
    var r := Run(s, Start(anchor), lines);
    RunConsistent(s, anchor, lines);
    forall i, j | 0 <= i < j < |r.published| ensures When(r.published[i]) + s.policy.margin < When(r.published[j]) {
      ChainIncreasing(s.policy.margin, anchor, r.published, i, j);
    }
    forall i | 0 <= i < |r.published| ensures When(r.published[i]) > anchor + s.policy.margin {
      if i > 0 {
        ChainIncreasing(s.policy.margin, anchor, r.published, 0, i);
      }
    }
  }

  /** Every line that parses has a time no later than `bound` plus the margin. */
  predicate Covered(s: Setup, lines: seq<string>, bound: Instant)
  {
    forall i :: 0 <= i < |lines| && Observe(s, lines[i]).Parsed() ==>
      Observe(s, lines[i]).obsDateTime.value + s.policy.shift <= bound + s.policy.margin
  }

  /** One line that does not stop the replay: the threshold only moves forward, and past the line's time less the margin. */
  lemma StepCovers(s: Setup, st: Progress, line: string)
    requires s.policy.margin >= 0
    requires !Step(s, st, line).stopped
    ensures !st.stopped && st.last <= Step(s, st, line).last
    ensures Observe(s, line).Parsed() ==>
      Observe(s, line).obsDateTime.value + s.policy.shift <= Step(s, st, line).last + s.policy.margin
  {
  }

  /** A replay that did not stop has seen nothing later than its threshold plus the margin. */
  lemma {:induction false} RunCovers(s: Setup, st: Progress, lines: seq<string>)
    requires s.policy.margin >= 0
    requires !Run(s, st, lines).stopped
    ensures st.last <= Run(s, st, lines).last
    ensures Covered(s, lines, Run(s, st, lines).last)
  {
    if |lines| > 0 {
      var init, x := lines[..|lines| - 1], lines[|lines| - 1];
      var mid := Run(s, st, init);
      var fin := Run(s, st, lines);
      assert fin == Step(s, mid, x);
      StepCovers(s, mid, x);
      RunCovers(s, st, init);
      forall i | 0 <= i < |lines| && Observe(s, lines[i]).Parsed()
        ensures Observe(s, lines[i]).obsDateTime.value + s.policy.shift <= fin.last + s.policy.margin
      {
        if i < |init| {
          assert lines[i] == init[i];
        }
      }
    }
  }

  /** Replaying lines that are all covered by the threshold changes nothing. */
  lemma {:induction false} CoveredRunIsIdle(s: Setup, st: Progress, lines: seq<string>)
    requires !st.stopped && Covered(s, lines, st.last)
    ensures Run(s, st, lines) == st
  {
    if |lines| > 0 {
      var init := lines[..|lines| - 1];
      assert Covered(s, init, st.last) by {
        forall i | 0 <= i < |init| ensures lines[i] == init[i] { }
      }
      CoveredRunIsIdle(s, st, init);
    }
  }

  /**
   Running a replay again over the same lines, from where it ended, publishes
   nothing and changes nothing: the threshold suppresses every duplicate.
   */
  lemma ReplayIdempotent(s: Setup, st: Progress, lines: seq<string>)
    requires s.policy.margin >= 0
    requires !Run(s, st, lines).stopped
    ensures Run(s, Run(s, st, lines), lines) == Run(s, st, lines)
  {
    RunCovers(s, st, lines);
    CoveredRunIsIdle(s, Run(s, st, lines), lines);
  }

  /**
   A later call starts from a fresh anchor, not from where this replay ended.
   If that anchor is at or above the threshold this replay ended at, the same
   lines publish nothing and post nothing; below it, lines may be posted again.
   */
  lemma ReanchoredReplayIdle(s: Setup, st: Progress, lines: seq<string>, anchor: Instant)
    requires s.policy.margin >= 0
    requires !Run(s, st, lines).stopped
    requires anchor >= Run(s, st, lines).last
    ensures Run(s, Start(anchor), lines) == Start(anchor)
  {
    RunCovers(s, st, lines);
    CoveredRunIsIdle(s, Start(anchor), lines);
  }

  /** The lines that parse, in their order. */
  function ParsedOnly(s: Setup, lines: seq<string>): (r: seq<string>)
    ensures forall l :: l in r ==> l in lines && Observe(s, l).Parsed()
    ensures forall l :: l in lines && Observe(s, l).Parsed() ==> l in r
  {
    if |lines| == 0 then []
    else
      var init := ParsedOnly(s, lines[..|lines| - 1]);
      var last := lines[|lines| - 1];
      assert lines == lines[..|lines| - 1] + [last];
      if Observe(s, last).Parsed() then init + [last] else init
  }

  /** The filter keeps the order: the parsed lines of `a + b` are those of `a`, then those of `b`. */
  lemma {:induction false} ParsedOnlyAppend(s: Setup, a: seq<string>, b: seq<string>)
    ensures ParsedOnly(s, a + b) == ParsedOnly(s, a) + ParsedOnly(s, b)
  {
    if |b| == 0 {
      assert a + b == a;
    } else {
      var init := b[..|b| - 1];
      assert (a + b)[..|a + b| - 1] == a + init;
      ParsedOnlyAppend(s, a, init);
    }
  }

  /** Lines that do not parse are skipped: dropping them changes no outcome. */
  lemma {:induction false} RunIgnoresUnparsed(s: Setup, st: Progress, lines: seq<string>)
    ensures Run(s, st, lines) == Run(s, st, ParsedOnly(s, lines))
  {
    if |lines| > 0 {
      var init := lines[..|lines| - 1];
      var last := lines[|lines| - 1];
      RunIgnoresUnparsed(s, st, init);
      if Observe(s, last).Parsed() {
        RunSnoc(s, st, ParsedOnly(s, init), last);
      }
    }
  }

  /**
   `write_database` of the time-shift utility: a bounded retry loop. `used`
   counts every POST made, the successful one included.
   */
  method WriteDatabase(post: nat -> bool, start: nat, maxTries: nat) returns (success: bool, used: nat)
    ensures Retry(success, used) == BoundedRetry(post, start, maxTries)
  {
    success := false;
    used := 0;
    while used < maxTries
      invariant used <= maxTries
      invariant BoundedRetry(post, start, maxTries) == (var w := BoundedRetry(post, start + used, maxTries - used); Retry(w.ok, w.used + used))
    {
      if post(start + used) {
        success := true;
        used := used + 1;
        break;
      }
      used := used + 1;
    }
  }

  /** The files the replay reads, in the order it reads them. */
  function ReplayOrder(dir: seq<DataFile>): (r: seq<DataFile>)
    ensures SortedByName(r, FileName)
    ensures forall f :: f in r ==> f in dir && MatchesDataLog(f.name)
    ensures forall f :: f in dir && MatchesDataLog(f.name) ==> f in r
  {
    var g := Glob(dir, MatchesDataLog);
    var r := SortByName(g, FileName);
    assert forall f :: f in r <==> f in multiset(g);
    r
  }

  /** The replay of a directory from the anchor. */
  function ReplayDir(s: Setup, anchor: Instant, dir: seq<DataFile>): Progress
  {
    Run(s, Start(anchor), Flatten(ReplayOrder(dir)))
  }

  /**
   The database receives the files' own records, shifted, in the order the
   files and their lines are read, each line at most once.
   */
  lemma ReplayDirPublishesLines(s: Setup, anchor: Instant, dir: seq<DataFile>)
    ensures exists idx :: PublishedAt(s, Flatten(ReplayOrder(dir)), ReplayDir(s, anchor, dir).published, idx)
  {
    var r := ReplayDir(s, anchor, dir);
    RunPublishesLines(s, Start(anchor), Flatten(ReplayOrder(dir)));
    assert r.published[|Start(anchor).published|..] == r.published;
  }

  /** The body of the inner loop: parse, compare with the threshold, write. */
  method ReplayLine(s: Setup, st: Progress, line: string) returns (next: Progress)
    requires !st.stopped
    ensures next == Step(s, st, line)
  {
    next := st;
    var fdata := Observe(s, line);
    if fdata.Parsed() {
      var t := fdata.obsDateTime.value + s.policy.shift;
      if t > st.last + s.policy.margin {
        var ok: bool, used: nat;
        if s.policy.noLogging {
          ok, used := true, 0;
        } else {
          ok, used := WriteDatabase(s.post, st.posts, s.policy.maxTries);
        }
        if ok {
          var rec := fdata.(obsDateTime := Some(t));
          next := Progress(t, rec, st.published + [rec], st.posts + used, false);
        } else {
          next := st.(posts := st.posts + used, stopped := true);
        }
      }
    }
  }

  /** The `for fline in f` loop over one file, from state `st`; a failed write ends it. */
  method ReplayFile(s: Setup, st: Progress, lines: seq<string>) returns (next: Progress)
    requires !st.stopped
    ensures next == Run(s, st, lines)
  {
    next := st;
    for j := 0 to |lines|
      invariant !next.stopped
      invariant Run(s, st, lines[..j]) == next
    {
      RunPrefixStep(s, st, lines, j);
      next := ReplayLine(s, next, lines[j]);
      if next.stopped {
        StopAtPrefix(s, st, lines, j + 1);
        return;
      }
    }
    assert lines[..|lines|] == lines;
  }

  /** One more line of a file: the replay of the longer prefix is one step further. */
  lemma RunPrefixStep(s: Setup, st: Progress, lines: seq<string>, j: nat)
    requires j < |lines|
    ensures Run(s, st, lines[..j + 1]) == Step(s, Run(s, st, lines[..j]), lines[j])
  {
    assert lines[..j + 1] == lines[..j] + [lines[j]];
    RunSnoc(s, st, lines[..j], lines[j]);
  }

  /** A prefix that ends in a failed write decides the whole file. */
  lemma StopAtPrefix(s: Setup, st: Progress, lines: seq<string>, k: nat)
    requires k <= |lines| && Run(s, st, lines[..k]).stopped
    ensures Run(s, st, lines) == Run(s, st, lines[..k])
  {
    assert lines == lines[..k] + lines[k..];
    StopAbsorbs(s, st, lines[..k], lines[k..]);
  }

  /**
   The `for fn in flist` loop shared by the three `update_db_from_data_files`;
   returns `prevData` and the records the database received.
   */
  method ReplayFiles(s: Setup, anchor: Instant, dir: seq<DataFile>) returns (prevData: OlaData, published: seq<OlaData>)
    ensures prevData == ReplayDir(s, anchor, dir).prev
    ensures published == ReplayDir(s, anchor, dir).published
  {
    var flist := ReplayOrder(dir);
    var st := Start(anchor);
    for i := 0 to |flist|
      invariant !st.stopped
      invariant Run(s, Start(anchor), Flatten(flist[..i])) == st
    {
      FlattenSnoc(flist, i);
      RunAppend(s, Start(anchor), Flatten(flist[..i]), flist[i].lines);
      st := ReplayFile(s, st, flist[i].lines);
      if st.stopped {
        FlattenSplit(flist, i + 1);
        StopAbsorbs(s, Start(anchor), Flatten(flist[..i + 1]), Flatten(flist[i + 1..]));
        return st.prev, st.published;
      }
    }
    assert flist[..|flist|] == flist;
    return st.prev, st.published;
  }

  /** UTC to the gateway's local time: the fixed five hours dataHandler.py subtracts. */
  const UtcToEst: int := 5 * OneHour

  /**
   dataHandler.py: the threshold is the latest database time minus five hours,
   or one day before now when not logging; None when the database query fails.
   */
  function DataHandlerAnchor(noLogging: bool, latest: Option<Instant>, now: Instant): Option<Instant>
  {
    if noLogging then Some(now - OneDay)
    else match latest
      case None => None
      case Some(t) => Some(t - UtcToEst)
  }

  function DataHandlerPolicy(noLogging: bool): Policy
  {
    Policy(Bar02, OneSecond, 0, 1, noLogging)
  }

  /** dataHandler.py `update_db_from_data_files`: the empty record when the database query fails. */
  method DataHandlerUpdateDbFromDataFiles(conv: Converters, noLogging: bool, latest: Option<Instant>, now: Instant,
                                          post: nat -> bool, dir: seq<DataFile>)
    returns (prevData: OlaData, published: seq<OlaData>)
    ensures DataHandlerAnchor(noLogging, latest, now).None? ==> prevData == Empty && published == []
    ensures DataHandlerAnchor(noLogging, latest, now).Some? ==>
      var r := ReplayDir(Setup(conv, DataHandlerPolicy(noLogging), post), DataHandlerAnchor(noLogging, latest, now).value, dir);
      prevData == r.prev && published == r.published
    ensures exists idx :: PublishedAt(Setup(conv, DataHandlerPolicy(noLogging), post), Flatten(ReplayOrder(dir)), published, idx)
  {
    var anchor := DataHandlerAnchor(noLogging, latest, now);
    if anchor.None? {
      assert PublishedAt(Setup(conv, DataHandlerPolicy(noLogging), post), Flatten(ReplayOrder(dir)), [], []);
      return Empty, [];
    }
    prevData, published := ReplayFiles(Setup(conv, DataHandlerPolicy(noLogging), post), anchor.value, dir);
    ReplayDirPublishesLines(Setup(conv, DataHandlerPolicy(noLogging), post), anchor.value, dir);
  }

  /** `TD` of the time-shift utility: 2024-07-28 07:41:35 minus 2000-01-05 18:26:27. */
  const TimeShift: int := 775055708 * OneSecond

  /** The time-shift utility's `DAYS_AGO`. */
  const YearWindow: int := 365 * OneDay

  const TimeShiftPolicy: Policy := Policy(Bar02, 0, TimeShift, 2, false)

  /** update_db_from_data_files_with_timedelta.py `update_db_from_data_files`. */
  method TimeShiftUpdateDbFromDataFiles(conv: Converters, now: Instant, post: nat -> bool, dir: seq<DataFile>)
    returns (prevData: OlaData, published: seq<OlaData>)
    ensures var r := ReplayDir(Setup(conv, TimeShiftPolicy, post), now - YearWindow, dir);
      prevData == r.prev && published == r.published
    ensures exists idx :: PublishedAt(Setup(conv, TimeShiftPolicy, post), Flatten(ReplayOrder(dir)), published, idx)
  {
    prevData, published := ReplayFiles(Setup(conv, TimeShiftPolicy, post), now - YearWindow, dir);
    ReplayDirPublishesLines(Setup(conv, TimeShiftPolicy, post), now - YearWindow, dir);
  }

  /** The older utility's `DAYS_AGO` = 1.5. */
  const ShortWindow: int := 36 * OneHour

  const WindowPolicy: Policy := Policy(MicroPressure, 0, 0, 1, false)

  /** update_db_from_data_files.py `update_db_from_data_files`. */
  method WindowUpdateDbFromDataFiles(conv: Converters, now: Instant, post: nat -> bool, dir: seq<DataFile>)
    returns (prevData: OlaData, published: seq<OlaData>)
    ensures var r := ReplayDir(Setup(conv, WindowPolicy, post), now - ShortWindow, dir);
      prevData == r.prev && published == r.published
    ensures exists idx :: PublishedAt(Setup(conv, WindowPolicy, post), Flatten(ReplayOrder(dir)), published, idx)
  {
    prevData, published := ReplayFiles(Setup(conv, WindowPolicy, post), now - ShortWindow, dir);
    ReplayDirPublishesLines(Setup(conv, WindowPolicy, post), now - ShortWindow, dir);
  }
}
