/**
 dataHandler.py's `download_data_files`: fetch a trusted listing from the
 device, drop the files already held locally at the same size, archive the
 local files when the device's numbering seems to have restarted, drop
 every file named after the last one still pending, request the rest, then
 replay the downloaded files into the database.

 The device (menu, ZModem prompt, listing replies, `sendline`), the transfer
 program and the file system are oracles; the local directory is a sequence of
 files with a name, a size and a modification time.
 */
module Reconcile {
  import opened Wrappers
  import opened Strings
  import opened Sorting
  import opened Codec
  import opened Listing
  import opened Replay

  /** A regular file of the download directory. */
  datatype LocalFile = LocalFile(name: string, size: int, mtime: int)

  function Mtime(f: LocalFile): int { f.mtime }

  /** File names in a directory are unique. */
  predicate UniqueLocal(local: seq<LocalFile>)
  {
    forall i, j :: 0 <= i < j < |local| ==> local[i].name != local[j].name
  }

  /** `sorted(filter(os.path.isfile, os.listdir(fileDir)), key=os.path.getmtime)`. */
  function ByMtime(local: seq<LocalFile>): (r: seq<LocalFile>)
    ensures SortedByKey(r, Mtime)
    ensures |r| == |local|
    ensures forall f :: f in r ==> f in local
    ensures forall f :: f in local ==> f in r
  {
    var r := SortByKey(local, Mtime);
    assert forall f :: f in r <==> f in multiset(local);
    assert |r| == |multiset(r)| == |multiset(local)| == |local|;
    r
  }

  /** `ola_fdict.pop(n, None)`. */
  function Pop(d: seq<Entry>, n: string): (r: seq<Entry>)
    ensures forall e :: e in r ==> e in d && e.name != n
    ensures forall e :: e in d && e.name != n ==> e in r
    ensures UniqueNames(d) ==> UniqueNames(r)
  {
    if |d| == 0 then []
    else
      var rest := Pop(d[1..], n);
      assert d == [d[0]] + d[1..];
      assert UniqueNames(d) ==> UniqueNames([d[0]] + rest) by {
        if UniqueNames(d) {
          HeadNameFresh(d);
          ConsUnique(d[0], rest);
        }
      }
      if d[0].name == n then rest else [d[0]] + rest
  }

  /** In a dictionary, no later entry has the first entry's name. */
  lemma HeadNameFresh(d: seq<Entry>)
    requires UniqueNames(d) && |d| > 0
    ensures UniqueNames(d[1..])
    ensures forall e :: e in d[1..] ==> e.name != d[0].name
  {
    forall e | e in d[1..] ensures e.name != d[0].name {
      var k :| 0 <= k < |d[1..]| && d[1..][k] == e;
      assert d[k + 1] == e;
    }
  }

  /** An entry whose name is not among a dictionary's keys can go in front of it. */
  lemma ConsUnique(x: Entry, r: seq<Entry>)
    requires UniqueNames(r) && forall e :: e in r ==> e.name != x.name
    ensures UniqueNames([x] + r)
  {
    forall i, j | 0 <= i < j < |[x] + r| ensures ([x] + r)[i].name != ([x] + r)[j].name {
      assert ([x] + r)[j] == r[j - 1];
      if i > 0 {
        assert ([x] + r)[i] == r[i - 1];
      } else {
        assert r[j - 1] in r;
      }
    }
  }

  lemma {:induction false} PopAbsent(d: seq<Entry>, n: string)
    requires forall e :: e in d ==> e.name != n
    ensures Pop(d, n) == d
  {
    if |d| > 0 {
      assert d == [d[0]] + d[1..];
      PopAbsent(d[1..], n);
    }
  }

  lemma {:induction false} PopAppend(a: seq<Entry>, b: seq<Entry>, n: string)
    ensures Pop(a + b, n) == Pop(a, n) + Pop(b, n)
  {
    if |a| == 0 {
      assert a + b == b;
    } else {
      assert (a + b)[1..] == a[1..] + b;
      PopAppend(a[1..], b, n);
    }
  }

  /** `ola_fdict.get(n)`. */
  function Lookup(d: seq<Entry>, n: string): (r: Option<int>)
    ensures r.Some? <==> exists e :: e in d && e.name == n
    ensures r.Some? ==> exists e :: e in d && e.name == n && e.size == r.value
  {
    if |d| == 0 then None
    else
      assert d == [d[0]] + d[1..];
      if d[0].name == n then Some(d[0].size) else Lookup(d[1..], n)
  }

  /** Some local file has this entry's name and size. */
  predicate Matched(e: Entry, flist: seq<LocalFile>)
  {
    exists f :: f in flist && f.name == e.name && f.size == e.size
  }

  /** The entries still to download: those no local file matches by name and size, in listing order. */
  function Pending(d: seq<Entry>, flist: seq<LocalFile>): (r: seq<Entry>)
    ensures forall e :: e in r ==> e in d && !Matched(e, flist)
    ensures forall e :: e in d && !Matched(e, flist) ==> e in r
    ensures UniqueNames(d) ==> UniqueNames(r)
  {
    if |d| == 0 then []
    else
      var rest := Pending(d[1..], flist);
      assert d == [d[0]] + d[1..];
      assert UniqueNames(d) ==> UniqueNames([d[0]] + rest) by {
        if UniqueNames(d) {
          HeadNameFresh(d);
          ConsUnique(d[0], rest);
        }
      }
      if Matched(d[0], flist) then rest else [d[0]] + rest
  }

  /** Popping a name whose size matches one more local file is filtering with that file added. */
  lemma {:induction false} PendingSnoc(d: seq<Entry>, flist: seq<LocalFile>, x: LocalFile)
    requires UniqueNames(d)
    ensures Lookup(Pending(d, flist), x.name) == Some(x.size) ==> Pending(d, flist + [x]) == Pop(Pending(d, flist), x.name)
    ensures Lookup(Pending(d, flist), x.name) != Some(x.size) ==> Pending(d, flist + [x]) == Pending(d, flist)
  {
    if |d| > 0 {
      assert d == [d[0]] + d[1..];
      PendingSnoc(d[1..], flist, x);
      var rest := Pending(d[1..], flist);
      MatchedSnoc(d[0], flist, x);
      HeadNameFresh(d);
      if !Matched(d[0], flist) && d[0].name == x.name {
        PopAbsent(rest, x.name);
      }
    }
  }

  /** One more local file matches an entry iff it is the one that matches or an earlier one did. */
  lemma MatchedSnoc(e: Entry, flist: seq<LocalFile>, x: LocalFile)
    ensures Matched(e, flist + [x]) <==> Matched(e, flist) || (e.name == x.name && e.size == x.size)
  {
    if Matched(e, flist + [x]) {
      var f :| f in flist + [x] && f.name == e.name && f.size == e.size;
    }
    if Matched(e, flist) {
      var f :| f in flist && f.name == e.name && f.size == e.size;
      assert f in flist + [x];
    }
    if e.name == x.name && e.size == x.size {
      assert x in flist + [x];
    }
  }

  /** The diff over the first `i + 1` local files, from the diff over the first `i`. */
  lemma PendingPrefixStep(d: seq<Entry>, flist: seq<LocalFile>, i: nat)
    requires UniqueNames(d) && i < |flist|
    ensures var p := Pending(d, flist[..i]);
      Pending(d, flist[..i + 1]) == if Lookup(p, flist[i].name) == Some(flist[i].size) then Pop(p, flist[i].name) else p
  {
    assert flist[..i + 1] == flist[..i] + [flist[i]];
    PendingSnoc(d, flist[..i], flist[i]);
  }

  /** The loop at the top of the reconciliation: pop every listed file held locally at the same size. */
  method RemoveLocalMatches(olaFdict: seq<Entry>, flist: seq<LocalFile>) returns (d: seq<Entry>)
    requires UniqueNames(olaFdict)
    ensures d == Pending(olaFdict, flist)
  {
    d := olaFdict;
    assert Pending(olaFdict, []) == olaFdict by {
      PendingNoLocal(olaFdict);
    }
    for i := 0 to |flist|
      invariant d == Pending(olaFdict, flist[..i])
    {
      var fn := flist[i].name;
      var sz := flist[i].size;
      PendingPrefixStep(olaFdict, flist, i);
      if Lookup(d, fn) == Some(sz) {
        d := Pop(d, fn);
      }
    }
    assert flist[..|flist|] == flist;
  }

  lemma {:induction false} PendingNoLocal(d: seq<Entry>)
    ensures Pending(d, []) == d
  {
    if |d| > 0 {
      PendingNoLocal(d[1..]);
      assert d == [d[0]] + d[1..];
    }
  }

  /** What the restart check at dataHandler.py:409 decides. */
  datatype ResetCheck = NoReset | ArchiveAll | IndexError

  /**
   The check as written: the first pending name against the newest local file
   (by modification time); reading the first pending name of an empty list
   raises.
   */
  function ResetCheckAsWritten(pending: seq<Entry>, flist: seq<LocalFile>): ResetCheck
  {
    if |flist| == 0 then NoReset
    else if |pending| == 0 then IndexError
    else if Less(pending[0].name, flist[|flist| - 1].name) then ArchiveAll
    else NoReset
  }

  /** The check with the evidently intended guard: nothing pending, nothing to compare. */
  function ResetCheckGuarded(pending: seq<Entry>, flist: seq<LocalFile>): (r: ResetCheck)
    ensures r != IndexError
    ensures r == ArchiveAll <==> |flist| > 0 && |pending| > 0 && Less(pending[0].name, flist[|flist| - 1].name)
    ensures |pending| > 0 ==> r == ResetCheckAsWritten(pending, flist)
  {
    if |flist| > 0 && |pending| > 0 && Less(pending[0].name, flist[|flist| - 1].name) then ArchiveAll else NoReset
  }

  /**
   The check raises exactly when the local directory is not empty and every
   listed file is already held locally at the same size: the steady state
   after a complete download.
   */
  lemma IndexErrorIff(listing: seq<Entry>, local: seq<LocalFile>)
    ensures ResetCheckAsWritten(Pending(listing, ByMtime(local)), ByMtime(local)) == IndexError <==>
      |local| > 0 && forall e :: e in listing ==> Matched(e, ByMtime(local))
  {
    var pending := Pending(listing, ByMtime(local));
    if |pending| > 0 {
      assert pending[0] in pending;
    }
  }

  /** One listed file, already downloaded: the check raises. */
  lemma IndexErrorExample()
    ensures var listing := [Entry("dataLog00001.TXT", 10, 0)];
      var local := [LocalFile("dataLog00001.TXT", 10, 0)];
      ResetCheckAsWritten(Pending(listing, ByMtime(local)), ByMtime(local)) == IndexError
  {
    var listing := [Entry("dataLog00001.TXT", 10, 0)];
    var local := [LocalFile("dataLog00001.TXT", 10, 0)];
    IndexErrorIff(listing, local);
    assert ByMtime(local)[0] == local[0];
    assert forall e :: e in listing ==> Matched(e, ByMtime(local)) by {
      assert ByMtime(local)[0] in ByMtime(local);
    }
  }

  /**
   After a device reset that restarted its numbering, the first pending file
   sorts before the newest local one and everything local is archived; while
   the device is ahead of every local file, nothing is.
   */
  lemma ResetScenarios(pending: seq<Entry>, flist: seq<LocalFile>)
    requires |pending| > 0 && |flist| > 0
    ensures Less(pending[0].name, flist[|flist| - 1].name) ==> ResetCheckGuarded(pending, flist) == ArchiveAll
    ensures (forall f :: f in flist ==> !Less(pending[0].name, f.name)) ==> ResetCheckGuarded(pending, flist) == NoReset
  {
    assert flist[|flist| - 1] in flist;
  }

  /** `mv *.* archive_dir`: the shell pattern takes every name with a dot that does not start with one. */
  predicate MovedByArchive(n: string)
  {
    |n| > 0 && n[0] != '.' && '.' in n
  }

  /** The download directory after archiving. */
  function Archive(local: seq<LocalFile>): (r: seq<LocalFile>)
    ensures forall f :: f in r ==> f in local && !MovedByArchive(f.name)
    ensures forall f :: f in local && !MovedByArchive(f.name) ==> f in r
  {
    if |local| == 0 then []
    else
      assert local == [local[0]] + local[1..];
      (if MovedByArchive(local[0].name) then [] else [local[0]]) + Archive(local[1..])
  }

  /** Archiving leaves no data file behind, so the next cycle downloads every listed file. */
  lemma ArchiveClearsDataFiles(local: seq<LocalFile>)
    ensures forall f :: f in Archive(local) ==> !MatchesDataLog(f.name)
  {
    forall f | f in local ensures MatchesDataLog(f.name) ==> MovedByArchive(f.name) {
      DataLogIsMoved(f.name);
    }
  }

  lemma DataLogIsMoved(n: string)
    ensures MatchesDataLog(n) ==> MovedByArchive(n)
  {
    if MatchesDataLog(n) {
      assert n[12] == n[12..][0] == '.';
      assert n[0] == n[..7][0] == 'd';
    }
  }

  /** The entries whose name is not after `bound`, in order. */
  function NotAbove(d: seq<Entry>, bound: string): (r: seq<Entry>)
    ensures forall e :: e in r ==> e in d && !Less(bound, e.name)
    ensures forall e :: e in d && !Less(bound, e.name) ==> e in r
  {
    if |d| == 0 then []
    else
      var init := NotAbove(d[..|d| - 1], bound);
      assert d == d[..|d| - 1] + [d[|d| - 1]];
      if Less(bound, d[|d| - 1].name) then init else init + [d[|d| - 1]]
  }

  /** Lines 419-422: every pending name after the last pending one is dropped. */
  function UpperBound(pending: seq<Entry>): seq<Entry>
  {
    if |pending| == 0 then [] else NotAbove(pending, pending[|pending| - 1].name)
  }

  /**
   The bound keeps the last pending file and every file not after it, and
   drops every file named after it; nothing is added.
   */
  lemma UpperBoundSpec(pending: seq<Entry>)
    requires |pending| > 0
    ensures var last := pending[|pending| - 1];
      && last in UpperBound(pending)
      && (forall e :: e in UpperBound(pending) ==> e in pending && NotAfter(e.name, last.name))
      && (forall e :: e in pending && !Less(last.name, e.name) ==> e in UpperBound(pending))
  {
    var last := pending[|pending| - 1];
    LessIrreflexive(last.name);
    assert last in pending;
  }

  /** One pass of the loop below, on the copy `k` whose last entry is `last`. */
  lemma DropStep(k: seq<Entry>, i: nat, last: Entry)
    requires UniqueNames(k) && i < |k| && k[|k| - 1] == last
    ensures Less(last.name, k[i].name) ==>
      Pop(NotAbove(k[..i], last.name) + k[i..], k[i].name) == NotAbove(k[..i + 1], last.name) + k[i + 1..]
    ensures !Less(last.name, k[i].name) ==>
      NotAbove(k[..i], last.name) + k[i..] == NotAbove(k[..i + 1], last.name) + k[i + 1..]
  {
    var fn := k[i].name;
    var kept := NotAbove(k[..i], last.name);
    assert k[..i + 1] == k[..i] + [k[i]];
    assert k[i..] == [k[i]] + k[i + 1..];
    if Less(last.name, fn) {
      OthersNamedElse(k, i);
      PopAppend(kept, k[i..], fn);
      PopAppend([k[i]], k[i + 1..], fn);
      PopAbsent(kept, fn);
      PopAbsent(k[i + 1..], fn);
    }
  }

  /** In a dictionary, the entries before and after position `i` have other names than entry `i`. */
  lemma OthersNamedElse(k: seq<Entry>, i: nat)
    requires UniqueNames(k) && i < |k|
    ensures forall e :: e in k[..i] ==> e.name != k[i].name
    ensures forall e :: e in k[i + 1..] ==> e.name != k[i].name
  {
    forall e | e in k[..i] ensures e.name != k[i].name {
      var j :| 0 <= j < i && k[..i][j] == e;
    }
    forall e | e in k[i + 1..] ensures e.name != k[i].name {
      var j :| 0 <= j < |k[i + 1..]| && k[i + 1..][j] == e;
      assert k[i + 1 + j] == e;
    }
  }

  lemma LastOfRest(kept: seq<Entry>, rest: seq<Entry>)
    requires |rest| > 0
    ensures (kept + rest)[|kept + rest| - 1] == rest[|rest| - 1]
  {
  }

  /**
   The loop over a copy of the pending dictionary; it reads the last key of
   the dictionary it is popping from on every pass, which the pops never
   change, since the last key is never after itself.
   */
  method DropAboveLast(olaFdict: seq<Entry>) returns (d: seq<Entry>)
    requires UniqueNames(olaFdict)
    ensures d == UpperBound(olaFdict)
  {
    d := olaFdict;
    var k := olaFdict;
    if |k| == 0 {
      return;
    }
    ghost var last := k[|k| - 1];
    LessIrreflexive(last.name);
    for i := 0 to |k|
      invariant d == NotAbove(k[..i], last.name) + k[i..]
    {
      var fn := k[i].name;
      DropStep(k, i, last);
      LastOfRest(NotAbove(k[..i], last.name), k[i..]);
      if Less(d[|d| - 1].name, fn) {
        d := Pop(d, fn);
      }
    }
    assert k[..|k|] == k;
  }

  /** The names for which the transfer program ran: every file up to the first `sendline` that raised. */
  function Requested(todo: seq<Entry>, sendOk: nat -> bool): (r: seq<string>)
    ensures |r| <= |todo|
    ensures forall i :: 0 <= i < |r| ==> r[i] == todo[i].name && sendOk(i)
    ensures |r| < |todo| ==> !sendOk(|r|)
  {
    RequestedFrom(todo, sendOk, 0)
  }

  function RequestedFrom(todo: seq<Entry>, sendOk: nat -> bool, i: nat): (r: seq<string>)
    requires i <= |todo|
    ensures i + |r| <= |todo|
    ensures forall j :: 0 <= j < |r| ==> r[j] == todo[i + j].name && sendOk(i + j)
    ensures i + |r| < |todo| ==> !sendOk(i + |r|)
    decreases |todo| - i
  {
    if i == |todo| || !sendOk(i) then []
    else [todo[i].name] + RequestedFrom(todo, sendOk, i + 1)
  }

  /** How a download cycle ended. */
  datatype CycleEnd =
    | NoMenu            // the main menu never came
    | NoZModem          // no ZModem prompt after 's'
    | ListingFailed     // a listing fetch raised
    | ListingUnstable   // six fetches never agreed
    | SendFailed        // a `sendline` raised during the transfers
    | Replayed          // every transfer was requested and the files were replayed

  /** The device's side of a cycle. */
  datatype Device = Device(
    menuOk: bool,
    zmodemOk: bool,
    /** The text before "End of Directory" for the `k`-th `dir` command, None when it timed out. */
    replies: nat -> Option<seq<string>>,
    /** Whether the `sendline('sz ' + fn)` for the `k`-th pending file returns. */
    sendOk: nat -> bool)

  /** The inputs of the replay that ends the cycle. */
  datatype ReplayInputs = ReplayInputs(noLogging: bool, latest: Option<Instant>, now: Instant, post: nat -> bool, downloaded: seq<DataFile>)

  /** What a cycle returns and does. */
  datatype Cycle = Cycle(prev: OlaData, requested: seq<string>, archived: bool, exitedZModem: bool, end: CycleEnd)

  datatype CycleOutcome = Completed(cycle: Cycle) | CrashedAt409

  /** The `k`-th listing fetch. */
  function Fetch(conv: Converters, replies: nat -> Option<seq<string>>, k: nat): Option<seq<Entry>>
  {
    match replies(k)
    case None => None
    case Some(lines) => FileList(conv, lines)
  }

  function Fetcher(conv: Converters, replies: nat -> Option<seq<string>>): nat -> Option<seq<Entry>>
  {
    (k: nat) => Fetch(conv, replies, k)
  }

  /** `update_db_from_data_files()` at the end of the cycle. */
  function ReplayAfterTransfer(conv: Converters, rp: ReplayInputs): OlaData
  {
    match DataHandlerAnchor(rp.noLogging, rp.latest, rp.now)
    case None => Empty
    case Some(anchor) => ReplayDir(Setup(conv, DataHandlerPolicy(rp.noLogging), rp.post), anchor, rp.downloaded).prev
  }

  /** The transfers and the replay, once the restart check has decided. */
  function Transfer(conv: Converters, dev: Device, pending: seq<Entry>, archived: bool, rp: ReplayInputs): Cycle
  {
    var todo := UpperBound(pending);
    var sent := Requested(todo, dev.sendOk);
    if |sent| < |todo| then Cycle(Empty, sent, archived, false, SendFailed)
    else Cycle(ReplayAfterTransfer(conv, rp), sent, archived, true, Replayed)
  }

  /** `download_data_files()` as written, with the restart check that can raise. */
  function CycleAsWritten(conv: Converters, dev: Device, local: seq<LocalFile>, rp: ReplayInputs): CycleOutcome
  {
    if !dev.menuOk then Completed(Cycle(Empty, [], false, false, NoMenu))
    else if !dev.zmodemOk then Completed(Cycle(Empty, [], false, true, NoZModem))
    else
      match TrustedListing(Fetcher(conv, dev.replies))
      case FetchRaised => Completed(Cycle(Empty, [], false, true, ListingFailed))
      case Unstable => Completed(Cycle(Empty, [], false, false, ListingUnstable))
      case Stable(listing) => AfterListing(conv, dev, local, listing, rp)
  }

  /** The cycle as written once the listing is trusted: the restart check, the transfers and the replay. */
  function AfterListing(conv: Converters, dev: Device, local: seq<LocalFile>, listing: seq<Entry>, rp: ReplayInputs): CycleOutcome
  {
    var flist := ByMtime(local);
    var pending := Pending(listing, flist);
    match ResetCheckAsWritten(pending, flist)
    case IndexError => CrashedAt409
    case NoReset => Completed(Transfer(conv, dev, pending, false, rp))
    case ArchiveAll => Completed(Transfer(conv, dev, pending, true, rp))
  }

  /** `download_data_files()` with the guarded restart check. */
  function DownloadCycle(conv: Converters, dev: Device, local: seq<LocalFile>, rp: ReplayInputs): Cycle
  {
    if !dev.menuOk then Cycle(Empty, [], false, false, NoMenu)
    else if !dev.zmodemOk then Cycle(Empty, [], false, true, NoZModem)
    else
      match TrustedListing(Fetcher(conv, dev.replies))
      case FetchRaised => Cycle(Empty, [], false, true, ListingFailed)
      case Unstable => Cycle(Empty, [], false, false, ListingUnstable)
      case Stable(listing) =>
        var flist := ByMtime(local);
        var pending := Pending(listing, flist);
        Transfer(conv, dev, pending, ResetCheckGuarded(pending, flist) == ArchiveAll, rp)
  }

  /**
   The guarded cycle never raises and does what the cycle as written does
   whenever that one does not raise.
   */
  lemma GuardedCycleAgrees(conv: Converters, dev: Device, local: seq<LocalFile>, rp: ReplayInputs)
    ensures CycleAsWritten(conv, dev, local, rp).Completed? ==>
      CycleAsWritten(conv, dev, local, rp).cycle == DownloadCycle(conv, dev, local, rp)
  {
  }

  /**
   Every way out of a cycle but the last returns the empty record; only a
   cycle that requested every pending file replays, and only the two listing
   failures after the ZModem prompt and a completed cycle leave the ZModem menu.
   */
  lemma EarlyExitsReturnEmpty(conv: Converters, dev: Device, local: seq<LocalFile>, rp: ReplayInputs)
    ensures var c := DownloadCycle(conv, dev, local, rp);
      && (c.end != Replayed ==> c.prev == Empty)
      && (c.exitedZModem <==> c.end in {NoZModem, ListingFailed, Replayed})
      && (c.end != SendFailed && c.end != Replayed ==> c.requested == [] && !c.archived)
  {
  }

  /** With a trusted listing, the cycle requests the pending files under the bound, up to the first failing send. */
  lemma CycleRequests(conv: Converters, dev: Device, local: seq<LocalFile>, rp: ReplayInputs, listing: seq<Entry>)
    requires dev.menuOk && dev.zmodemOk
    requires TrustedListing(Fetcher(conv, dev.replies)) == Stable(listing)
    ensures DownloadCycle(conv, dev, local, rp).requested == Requested(UpperBound(Pending(listing, ByMtime(local))), dev.sendOk)
  {
  }

  /**
   Every file requested is pending (so not held locally at the same size,
   by `Pending`), requested in order, and not named after the last pending file.
   */
  lemma RequestedArePending(pending: seq<Entry>, sendOk: nat -> bool)
    ensures var sent := Requested(UpperBound(pending), sendOk);
      && |sent| <= |pending|
      && forall i :: 0 <= i < |sent| ==>
           exists e :: e in pending && e.name == sent[i] && NotAfter(e.name, pending[|pending| - 1].name)
  {
    var todo := UpperBound(pending);
    var sent := Requested(todo, sendOk);
    if |pending| > 0 {
      NotAboveShorter(pending, pending[|pending| - 1].name);
      forall i | 0 <= i < |sent|
        ensures exists e :: e in pending && e.name == sent[i] && NotAfter(e.name, pending[|pending| - 1].name)
      {
        assert todo[i] in todo;
      }
    }
  }

  lemma {:induction false} NotAboveShorter(d: seq<Entry>, bound: string)
    ensures |NotAbove(d, bound)| <= |d|
  {
    if |d| > 0 {
      NotAboveShorter(d[..|d| - 1], bound);
    }
  }

  /** `Requested` is the only prefix of requests that stops at the first failing send. */
  lemma RequestedUnique(todo: seq<Entry>, sendOk: nat -> bool, sent: seq<string>)
    requires |sent| <= |todo|
    requires forall i :: 0 <= i < |sent| ==> sent[i] == todo[i].name && sendOk(i)
    requires |sent| < |todo| ==> !sendOk(|sent|)
    ensures sent == Requested(todo, sendOk)
  {
    var r := Requested(todo, sendOk);
  }

  /** The `for fn in ola_fdict` transfer loop; the transfer program's exit status is not looked at. */
  method SendFiles(todo: seq<Entry>, sendOk: nat -> bool) returns (sent: seq<string>, raised: bool)
    ensures sent == Requested(todo, sendOk)
    ensures raised <==> |sent| < |todo|
  {
    sent := [];
    for i := 0 to |todo|
      invariant |sent| == i
      invariant forall j :: 0 <= j < i ==> sent[j] == todo[j].name && sendOk(j)
    {
      if !sendOk(i) {
        RequestedUnique(todo, sendOk, sent);
        return sent, true;
      }
      sent := sent + [todo[i].name];
    }
    RequestedUnique(todo, sendOk, sent);
    raised := false;
  }

  /** A trusted listing came from the parser, so it names each file once. */
  lemma StableListingUnique(conv: Converters, replies: nat -> Option<seq<string>>, listing: seq<Entry>)
    requires TrustedListing(Fetcher(conv, replies)) == Stable(listing)
    ensures UniqueNames(listing)
  {
    TrustedStableIff(Fetcher(conv, replies), listing);
    var k :| 0 <= k < 5 && FirstAgreement(Fetcher(conv, replies), k) && listing == Fetcher(conv, replies)(k).value;
    FileListSpec(conv, replies(k).value);
  }

  /** `download_data_files()` as written. */
  method DownloadDataFiles(conv: Converters, dev: Device, local: seq<LocalFile>, rp: ReplayInputs) returns (r: CycleOutcome)
    ensures r == CycleAsWritten(conv, dev, local, rp)
  {
    if !dev.menuOk {
      return Completed(Cycle(Empty, [], false, false, NoMenu));
    }
    if !dev.zmodemOk {
      return Completed(Cycle(Empty, [], false, true, NoZModem));
    }
    var fetched, _ := FetchStableListing(Fetcher(conv, dev.replies));
    match fetched
    case FetchRaised =>
      return Completed(Cycle(Empty, [], false, true, ListingFailed));
    case Unstable =>
      return Completed(Cycle(Empty, [], false, false, ListingUnstable));
    case Stable(listing) =>
      StableListingUnique(conv, dev.replies, listing);
      r := DiffAndTransfer(conv, dev, local, listing, rp);
  }

  /** Lines 393-447: the local diff, the restart check, the upper bound, the transfers and the replay. */
  method DiffAndTransfer(conv: Converters, dev: Device, local: seq<LocalFile>, listing: seq<Entry>, rp: ReplayInputs)
    returns (r: CycleOutcome)
    requires UniqueNames(listing)
    ensures r == AfterListing(conv, dev, local, listing, rp)
  {
    var flist := ByMtime(local);
    var pending := RemoveLocalMatches(listing, flist);
    var archived := false;
    if |flist| > 0 {
      if |pending| == 0 {
        return CrashedAt409;
      }
      archived := Less(pending[0].name, flist[|flist| - 1].name);
    }
    var c := SendAndReplay(conv, dev, pending, archived, rp);
    return Completed(c);
  }

  /** Lines 419-447: drop the names above the last pending one, request the rest, then replay. */
  method SendAndReplay(conv: Converters, dev: Device, pending: seq<Entry>, archived: bool, rp: ReplayInputs)
    returns (c: Cycle)
    requires UniqueNames(pending)
    ensures c == Transfer(conv, dev, pending, archived, rp)
  {
    var todo := DropAboveLast(pending);
    var sent, raised := SendFiles(todo, dev.sendOk);
    if raised {
      return Cycle(Empty, sent, archived, false, SendFailed);
    }
    var prev, _ := DataHandlerUpdateDbFromDataFiles(conv, rp.noLogging, rp.latest, rp.now, rp.post, rp.downloaded);
    return Cycle(prev, sent, archived, true, Replayed);
  }
}
