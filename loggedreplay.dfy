/**
 dataHandler.py's `update_db_from_logged_files`: the catch-up from the daily
 files the live loop appends every sequential record to.

 Unlike the data-file replay it insists on consecutive sequence numbers: a
 line is written only when it is past the threshold by more than a second AND
 its number is one more than the last number written. It reads only the files
 whose `YYYYMMDD` name is not before the threshold's day (the day of the
 current threshold, which moves as records are written), and it reads
 `obsDateTime` without first checking that the line parsed: a line whose token
 count is wrong never had that attribute assigned, and reading it raises.
 */
module LoggedReplay {
  import opened Wrappers
  import opened Strings
  import opened Sorting
  import opened Codec
  import opened Replay

  /** `glob('.../20??????.txt')` on a base name. */
  predicate MatchesDaily(n: string)
  {
    |n| == 12 && n[..2] == "20" && n[8..] == ".txt"
  }

  /** The database's latest measurement: its UTC time and its sequence number. */
  datatype Latest = Latest(date: Instant, seqNum: int)

  /** The parser, the database, and `strftime("%Y%m%d")` read back as an integer. */
  datatype LoggedSetup = LoggedSetup(conv: Converters, noLogging: bool, post: nat -> bool, dayOf: Instant -> int)

  datatype Halt =
    | Running
    | WriteFailed   // `return success` with success = False
    | Crashed       // the AttributeError on a line that never had a time

  /** The function's variables: `lastDate`, `lastSeqNum`, `success`, plus the records written and the POSTs made. */
  datatype Logged = Logged(lastDate: Instant, lastSeq: int, success: bool, written: seq<OlaData>, posts: nat, halt: Halt)

  function Begin(latest: Latest): Logged
  {
    Logged(latest.date - UtcToEst, latest.seqNum, false, [], 0, Running)
  }

  /** One line of an eligible file. */
  function LineStep(c: LoggedSetup, st: Logged, line: string): Logged
  {
    if st.halt != Running then st
    else
      var fdata := NewOlaData(c.conv, Bar02, Ascii(line));
      match fdata.obsDateTime
      case None => st.(halt := Crashed)
      case Some(t) =>
        if t <= st.lastDate + OneSecond then st.(success := false)
        else if fdata.obsNum != st.lastSeq + 1 then st.(success := false)
        else
          var w := Write(DataHandlerPolicy(c.noLogging), c.post, st.posts);
          if w.ok then Logged(t, fdata.obsNum, true, st.written + [fdata], st.posts + w.used, Running)
          else st.(success := false, posts := st.posts + w.used, halt := WriteFailed)
  }

  function Lines(c: LoggedSetup, st: Logged, lines: seq<string>): Logged
  {
    if |lines| == 0 then st
    else LineStep(c, Lines(c, st, lines[..|lines| - 1]), lines[|lines| - 1])
  }

  /** `int(os.path.splitext(name)[0])` for a name the glob accepted. */
  function DayOfName(c: LoggedSetup, name: string): Option<int>
  {
    if |name| < 4 then None else c.conv.toInt(name[..|name| - 4])
  }

  /** One file: skipped when its name is not a number or its day is before the threshold's day. */
  function FileStep(c: LoggedSetup, st: Logged, f: DataFile): Logged
  {
    if st.halt != Running then st
    else
      match DayOfName(c, f.name)
      case None => st
      case Some(d) => if d >= c.dayOf(st.lastDate) then Lines(c, st, f.lines) else st
  }

  function Files(c: LoggedSetup, st: Logged, fs: seq<DataFile>): Logged
  {
    if |fs| == 0 then st
    else FileStep(c, Files(c, st, fs[..|fs| - 1]), fs[|fs| - 1])
  }

  /** The daily files, in the order the catch-up reads them. */
  function DailyOrder(dir: seq<DataFile>): (r: seq<DataFile>)
    ensures SortedByName(r, FileName)
    ensures forall f :: f in r ==> f in dir && MatchesDaily(f.name)
    ensures forall f :: f in dir && MatchesDaily(f.name) ==> f in r
  {
    var g := Glob(dir, MatchesDaily);
    var r := SortByName(g, FileName);
    assert forall f :: f in r <==> f in multiset(g);
    r
  }

  /** What `update_db_from_logged_files` ends with. */
  datatype CatchUpResult =
    | Returned(success: bool, written: seq<OlaData>)
    | Raised(written: seq<OlaData>)

  /** The whole catch-up; None for `latest` is a failed database query. */
  function CatchUpSpec(c: LoggedSetup, latest: Option<Latest>, dir: seq<DataFile>): CatchUpResult
  {
    match latest
    case None => Returned(false, [])
    case Some(l) =>
      var st := Files(c, Begin(l), DailyOrder(dir));
      if st.halt == Crashed then Raised(st.written) else Returned(st.success, st.written)
  }

  /**
   What holds between the catch-up's variables and what it has written: the
   numbers written run on from the database's latest number without a gap, the
   times climb by more than a second each, and the variables hold the last
   record written. `success` is only ever set by a write.
   */
  predicate Tracks(date0: Instant, seq0: int, st: Logged)
  {
    var w := st.written;
    && st.lastSeq == seq0 + |w|
    && (forall i :: 0 <= i < |w| ==> w[i].obsNum == seq0 + i + 1 && w[i].obsDateTime.Some?)
    && (|w| > 0 ==> When(w[0]) > date0 + OneSecond)
    && (forall i :: 0 < i < |w| ==> When(w[i]) > When(w[i - 1]) + OneSecond)
    && st.lastDate == (if |w| == 0 then date0 else When(w[|w| - 1]))
    && (st.success ==> |w| > 0)
  }

  lemma LineStepTracks(c: LoggedSetup, date0: Instant, seq0: int, st: Logged, line: string)
    requires Tracks(date0, seq0, st)
    ensures Tracks(date0, seq0, LineStep(c, st, line))
  {
    if st.halt == Running {
      var fdata := NewOlaData(c.conv, Bar02, Ascii(line));
      if fdata.obsDateTime.Some? {
        var t := fdata.obsDateTime.value;
        if t > st.lastDate + OneSecond && fdata.obsNum == st.lastSeq + 1 {
          var w := Write(DataHandlerPolicy(c.noLogging), c.post, st.posts);
          if w.ok {
            TracksSnoc(date0, seq0, st, fdata, st.posts + w.used);
          }
        }
      }
    }
  }

  /** Writing one more record, numbered next and past the last time by more than a second, keeps the tracking. */
  lemma TracksSnoc(date0: Instant, seq0: int, st: Logged, rec: OlaData, posts: nat)
    requires Tracks(date0, seq0, st)
    requires rec.obsDateTime.Some? && rec.obsDateTime.value > st.lastDate + OneSecond
    requires rec.obsNum == st.lastSeq + 1
    ensures Tracks(date0, seq0, Logged(rec.obsDateTime.value, rec.obsNum, true, st.written + [rec], posts, Running))
  {
    var w := st.written + [rec];
    forall i | 0 <= i < |st.written| ensures w[i] == st.written[i] { }
  }

  lemma {:induction false} LinesTracks(c: LoggedSetup, date0: Instant, seq0: int, st: Logged, lines: seq<string>)
    requires Tracks(date0, seq0, st)
    ensures Tracks(date0, seq0, Lines(c, st, lines))
  {
    if |lines| > 0 {
      LinesTracks(c, date0, seq0, st, lines[..|lines| - 1]);
      LineStepTracks(c, date0, seq0, Lines(c, st, lines[..|lines| - 1]), lines[|lines| - 1]);
    }
  }

  lemma {:induction false} FilesTracks(c: LoggedSetup, date0: Instant, seq0: int, st: Logged, fs: seq<DataFile>)
    requires Tracks(date0, seq0, st)
    ensures Tracks(date0, seq0, Files(c, st, fs))
  {
    if |fs| > 0 {
      FilesTracks(c, date0, seq0, st, fs[..|fs| - 1]);
      var mid := Files(c, st, fs[..|fs| - 1]);
      if mid.halt == Running {
        LinesTracks(c, date0, seq0, mid, fs[|fs| - 1].lines);
      }
    }
  }

  /**
   The records written carry consecutive sequence numbers starting right after
   the database's latest one, at strictly increasing times past the shifted
   anchor; a True result means at least one record was written.
   */
  lemma CatchUpConsecutive(c: LoggedSetup, l: Latest, dir: seq<DataFile>)
    ensures var r := CatchUpSpec(c, Some(l), dir);
      && (forall i :: 0 <= i < |r.written| ==> r.written[i].obsNum == l.seqNum + 1 + i)
      && (forall i :: 0 < i < |r.written| ==> When(r.written[i - 1]) + OneSecond < When(r.written[i]))
      && (|r.written| > 0 ==> When(r.written[0]) > l.date - UtcToEst + OneSecond)
      && (r.Returned? && r.success ==> |r.written| > 0)
  {
    FilesTracks(c, l.date - UtcToEst, l.seqNum, Begin(l), DailyOrder(dir));
  }

  /** Every line of the file carries a time: true of a daily file that only ever received parsed records. */
  predicate AllTimed(c: LoggedSetup, lines: seq<string>)
  {
    forall i :: 0 <= i < |lines| ==> NewOlaData(c.conv, Bar02, Ascii(lines[i])).obsDateTime.Some?
  }

  lemma {:induction false} LinesNoCrash(c: LoggedSetup, st: Logged, lines: seq<string>)
    requires st.halt != Crashed && AllTimed(c, lines)
    ensures Lines(c, st, lines).halt != Crashed
  {
    if |lines| > 0 {
      var init := lines[..|lines| - 1];
      assert AllTimed(c, init) by {
        forall i | 0 <= i < |init| ensures init[i] == lines[i] { }
      }
      LinesNoCrash(c, st, init);
      assert NewOlaData(c.conv, Bar02, Ascii(lines[|lines| - 1])).obsDateTime.Some?;
    }
  }

  lemma {:induction false} FilesNoCrash(c: LoggedSetup, st: Logged, fs: seq<DataFile>)
    requires st.halt != Crashed
    requires forall f :: f in fs ==> AllTimed(c, f.lines)
    ensures Files(c, st, fs).halt != Crashed
  {
    if |fs| > 0 {
      FilesNoCrash(c, st, fs[..|fs| - 1]);
      assert fs[|fs| - 1] in fs;
      LinesNoCrash(c, Files(c, st, fs[..|fs| - 1]), fs[|fs| - 1].lines);
    }
  }

  /**
   The catch-up only raises on a line without a time: when every daily file
   holds only lines with a time stamp, it returns.
   */
  lemma CatchUpReturnsOnTimedFiles(c: LoggedSetup, latest: Option<Latest>, dir: seq<DataFile>)
    requires forall f :: f in dir && MatchesDaily(f.name) ==> AllTimed(c, f.lines)
    ensures CatchUpSpec(c, latest, dir).Returned?
  {
    if latest.Some? {
      FilesNoCrash(c, Begin(latest.value), DailyOrder(dir));
    }
  }

  /** A line with no time stamp raises as soon as it is read. */
  lemma UntimedLineRaises(c: LoggedSetup, st: Logged, line: string)
    requires st.halt == Running
    requires Count(Ascii(line), ',') + 1 != Bar02.tokens
    ensures LineStep(c, st, line).halt == Crashed
  {
    assert |Split(Ascii(line), ',')| != Bar02.tokens;
  }

  /**
   `success` reports the last line examined: after a line that does not raise,
   it holds exactly when that line was written, and a line adds at most one
   record, the one it parses to.
   */
  lemma LastLineDecides(c: LoggedSetup, st: Logged, line: string)
    requires st.halt == Running
    requires LineStep(c, st, line).halt != Crashed
    ensures var n := LineStep(c, st, line);
      && (n.success <==> |n.written| == |st.written| + 1)
      && (n.written == st.written || n.written == st.written + [NewOlaData(c.conv, Bar02, Ascii(line))])
  {
  }

  /** The inner `for fline in f` loop; a failed write or the AttributeError ends it. */
  method CatchUpFile(c: LoggedSetup, st: Logged, lines: seq<string>) returns (next: Logged)
    requires st.halt == Running
    ensures next == Lines(c, st, lines)
  {
    next := st;
    for j := 0 to |lines|
      invariant next.halt == Running
      invariant Lines(c, st, lines[..j]) == next
    {
      assert lines[..j + 1][..j] == lines[..j];
      var fdata := NewOlaData(c.conv, Bar02, Ascii(lines[j]));
      if fdata.obsDateTime.None? {
        next := next.(halt := Crashed);
      } else if fdata.obsDateTime.value > next.lastDate + OneSecond {
        if fdata.obsNum == next.lastSeq + 1 {
          var ok: bool, used: nat;
          if c.noLogging {
            ok, used := true, 0;
          } else {
            ok, used := WriteDatabase(c.post, next.posts, 1);
          }
          if ok {
            next := Logged(fdata.obsDateTime.value, fdata.obsNum, true, next.written + [fdata], next.posts + used, Running);
          } else {
            next := next.(success := false, posts := next.posts + used, halt := WriteFailed);
          }
        } else {
          next := next.(success := false);
        }
      } else {
        next := next.(success := false);
      }
      if next.halt != Running {
        LinesHalted(c, st, lines, j + 1);
        return;
      }
    }
    assert lines[..|lines|] == lines;
  }

  /** Once halted, the rest of the lines change nothing. */
  lemma {:induction false} LinesHalted(c: LoggedSetup, st: Logged, lines: seq<string>, k: nat)
    requires k <= |lines| && Lines(c, st, lines[..k]).halt != Running
    ensures Lines(c, st, lines) == Lines(c, st, lines[..k])
    decreases |lines| - k
  {
    if k < |lines| {
      assert lines[..k + 1][..k] == lines[..k];
      LinesHalted(c, st, lines, k + 1);
    } else {
      assert lines[..k] == lines;
    }
  }

  /** Once halted, the rest of the files change nothing. */
  lemma {:induction false} FilesHalted(c: LoggedSetup, st: Logged, fs: seq<DataFile>, k: nat)
    requires k <= |fs| && Files(c, st, fs[..k]).halt != Running
    ensures Files(c, st, fs) == Files(c, st, fs[..k])
    decreases |fs| - k
  {
    if k < |fs| {
      assert fs[..k + 1][..k] == fs[..k];
      FilesHalted(c, st, fs, k + 1);
    } else {
      assert fs[..k] == fs;
    }
  }

  /** The outer `for fn in flist` loop, from state `st0`; a halt ends it. */
  method CatchUpFiles(c: LoggedSetup, st0: Logged, flist: seq<DataFile>) returns (st: Logged)
    requires st0.halt == Running
    ensures st == Files(c, st0, flist)
  {
    st := st0;
    for i := 0 to |flist|
      invariant st.halt == Running
      invariant Files(c, st0, flist[..i]) == st
    {
      assert flist[..i + 1][..i] == flist[..i];
      assert Files(c, st0, flist[..i + 1]) == FileStep(c, st, flist[i]);
      var fnInt := DayOfName(c, flist[i].name);
      if fnInt.Some? && fnInt.value >= c.dayOf(st.lastDate) {
        st := CatchUpFile(c, st, flist[i].lines);
        if st.halt != Running {
          FilesHalted(c, st0, flist, i + 1);
          return;
        }
      }
    }
    assert flist[..|flist|] == flist;
  }

  /** `update_db_from_logged_files()`. */
  method UpdateDbFromLoggedFiles(c: LoggedSetup, latest: Option<Latest>, dir: seq<DataFile>) returns (r: CatchUpResult)
    ensures r == CatchUpSpec(c, latest, dir)
  {
    if latest.None? {
      return Returned(false, []);
    }
    var st := CatchUpFiles(c, Begin(latest.value), DailyOrder(dir));
    if st.halt == Crashed {
      r := Raised(st.written);
    } else {
      r := Returned(st.success, st.written);
    }
  }
}
