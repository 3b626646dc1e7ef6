/**
 The main loop of dataHandler.py: one pass per event, with the flags
 `keepPrevData`, `want_file_download` and `DB_OUT_OF_SYNC` and the two records
 `prevData` and `newData`.

 Each pass sees one of three things: the serial port raising, no bytes
 waiting, or bytes waiting. With bytes waiting the pass either runs a download
 (when one is wanted) or reads and handles one line. The download's result,
 the raw line, the logged-file catch-up's result and the database write's
 result come in with the event; what the pass does with them is recorded as
 a list of actions.
 */
module LiveLoop {
  import opened Strings
  import opened Codec

  datatype Event =
    | PortError   // `ser.in_waiting` raised
    | NoBytes     // nothing waiting
    | BytesWaiting(
        /** What `download_data_files()` returns, if this pass downloads. */
        downloaded: OlaData,
        /** The line `read_until(b'\n')` returns, if this pass reads one. */
        raw: string,
        /** What `update_db_from_logged_files()` returns, if this pass calls it. */
        caughtUp: bool,
        /** What `write_database(newData)` returns, if this pass calls it. */
        written: bool)

  datatype Action =
    | Download                  // `download_data_files()`
    | AppendLocal(rec: OlaData) // `write_local_file(newData)`
    | CatchUp                   // `update_db_from_logged_files()`
    | WriteDb(rec: OlaData)     // `write_database(newData)`

  datatype Flags = Flags(prevData: OlaData, newData: OlaData, keepPrevData: bool, wantFileDownload: bool, dbOutOfSync: bool)

  datatype Outcome = Outcome(next: Flags, actions: seq<Action>)

  /** The state before the first pass: both records empty, a download wanted. */
  const Init: Flags := Flags(Empty, Empty, true, true, false)

  /** The record the next line is checked against: `prevData`, or `newData` when that is about to replace it. */
  function Candidate(s: Flags): OlaData
  {
    if s.keepPrevData then s.prevData else s.newData
  }

  /** The record a received line becomes once reduced to ASCII. */
  function LineRecord(conv: Converters, raw: string): OlaData
  {
    NewOlaData(conv, Bar02, Ascii(raw))
  }

  /** A sequential record: append it locally, then catch up if out of sync, then write it if in sync. */
  function Record(s: Flags, prev: OlaData, rec: OlaData, caughtUp: bool, written: bool): Outcome
  {
    var catchUp := if s.dbOutOfSync then [CatchUp] else [];
    if !s.dbOutOfSync || caughtUp then
      Outcome(Flags(prev, rec, false, false, !written), [AppendLocal(rec)] + catchUp + [WriteDb(rec)])
    else
      Outcome(Flags(prev, rec, false, false, true), [AppendLocal(rec)] + catchUp)
  }

  /** One pass of the `while True` loop. */
  function Next(conv: Converters, s: Flags, ev: Event): Outcome
  {
    match ev
    case PortError => Outcome(s, [])
    case NoBytes => Outcome(s, [])
    case BytesWaiting(downloaded, raw, caughtUp, written) =>
      if s.wantFileDownload then
        Outcome(s.(prevData := downloaded, wantFileDownload := false, keepPrevData := true), [Download])
      else if |Ascii(raw)| == 0 then Outcome(s, [])
      else
        var prev := Candidate(s);
        var rec := LineRecord(conv, raw);
        if !rec.Parsed() then Outcome(Flags(prev, rec, true, false, s.dbOutOfSync), [])
        else if !IsSequential(rec, prev) then Outcome(Flags(prev, rec, true, true, s.dbOutOfSync), [])
        else Record(s, prev, rec, caughtUp, written)
  }

  /**
   Whenever `prevData` is about to be replaced by `newData`, `newData` is a
   parsed record that follows `prevData`: a record that failed to parse or
   broke the sequence never becomes `prevData`.
   */
  predicate Inv(s: Flags)
  {
    !s.keepPrevData ==> s.newData.Parsed() && IsSequential(s.newData, s.prevData)
  }

  lemma InitInv()
    ensures Inv(Init) && !Init.dbOutOfSync && Init.wantFileDownload && Candidate(Init) == Empty
  {
  }

  lemma NextKeepsInv(conv: Converters, s: Flags, ev: Event)
    requires Inv(s)
    ensures Inv(Next(conv, s, ev).next)
  {
  }

  /**
   With bytes waiting and a download wanted, the pass downloads and reads
   nothing; afterwards no download is wanted and the downloaded record is
   kept as `prevData`, whatever the download returned.
   */
  lemma DownloadComesFirst(conv: Converters, s: Flags, ev: Event)
    requires ev.BytesWaiting? && s.wantFileDownload
    ensures var o := Next(conv, s, ev);
      && o.actions == [Download]
      && !o.next.wantFileDownload && o.next.keepPrevData
      && o.next.prevData == ev.downloaded && Candidate(o.next) == ev.downloaded
      && o.next.newData == s.newData && o.next.dbOutOfSync == s.dbOutOfSync
  {
  }

  /** A line that is empty once reduced to ASCII changes nothing. */
  lemma EmptyLineSkipped(conv: Converters, s: Flags, ev: Event)
    requires ev.BytesWaiting? && !s.wantFileDownload && |Ascii(ev.raw)| == 0
    ensures Next(conv, s, ev) == Outcome(s, [])
  {
  }

  /**
   Handling a line: it becomes `newData`; a parse failure keeps the candidate
   and wants no download; a parsed record that does not follow the candidate
   keeps it and wants a download; a record that follows it is appended and the
   candidate becomes that record. Exactly one of "want a download" and
   "append" happens to a parsed record.
   */
  lemma LineHandling(conv: Converters, s: Flags, ev: Event)
    requires ev.BytesWaiting? && !s.wantFileDownload && |Ascii(ev.raw)| > 0
    ensures var o := Next(conv, s, ev);
      var rec := LineRecord(conv, ev.raw);
      && o.next.newData == rec
      && o.next.prevData == Candidate(s)
      && (!rec.Parsed() ==> o.actions == [] && o.next.keepPrevData && !o.next.wantFileDownload)
      && (rec.Parsed() && !IsSequential(rec, Candidate(s)) ==>
            o.actions == [] && o.next.keepPrevData && o.next.wantFileDownload)
      && (rec.Parsed() && IsSequential(rec, Candidate(s)) ==>
            o.actions[0] == AppendLocal(rec) && Candidate(o.next) == rec && !o.next.wantFileDownload)
      && (rec.Parsed() ==> (o.next.wantFileDownload <==> !(|o.actions| > 0 && o.actions[0] == AppendLocal(rec))))
  {
  }

  /**
   The database side of a sequential record: the catch-up runs exactly when
   the database was out of sync, the direct write runs exactly when it was in
   sync or the catch-up returned True, and the new flag is "the write failed",
   or still set when the write was not attempted. Both run after the local append.
   */
  lemma DatabaseFlag(conv: Converters, s: Flags, ev: Event)
    requires ev.BytesWaiting? && !s.wantFileDownload && |Ascii(ev.raw)| > 0
    requires LineRecord(conv, ev.raw).Parsed() && IsSequential(LineRecord(conv, ev.raw), Candidate(s))
    ensures var o := Next(conv, s, ev);
      var rec := LineRecord(conv, ev.raw);
      && o.actions[0] == AppendLocal(rec)
      && (CatchUp in o.actions <==> s.dbOutOfSync)
      && (WriteDb(rec) in o.actions <==> !s.dbOutOfSync || ev.caughtUp)
      && o.next.dbOutOfSync == (if !s.dbOutOfSync || ev.caughtUp then !ev.written else true)
      && (forall i :: 0 < i < |o.actions| ==> o.actions[i] in {CatchUp, WriteDb(rec)})
  {
  }

  /** What becomes the candidate after a pass: the download's result, the appended record, or the same one. */
  lemma CandidateTracks(conv: Converters, s: Flags, ev: Event)
    ensures var o := Next(conv, s, ev);
      && (Download in o.actions ==> Candidate(o.next) == ev.downloaded)
      && (forall r :: AppendLocal(r) in o.actions ==> Candidate(o.next) == r && IsSequential(r, Candidate(s)) && r.Parsed())
      && (Download !in o.actions && (forall r :: AppendLocal(r) !in o.actions) ==> Candidate(o.next) == Candidate(s))
  {
  }

  /** The records a list of actions appended to the local log, in order. */
  function Appended(actions: seq<Action>): (r: seq<OlaData>)
    ensures |r| <= |actions|
  {
    if |actions| == 0 then []
    else
      var init := Appended(actions[..|actions| - 1]);
      match actions[|actions| - 1]
      case AppendLocal(rec) => init + [rec]
      case _ => init
  }

  lemma {:induction false} AppendedConcat(a: seq<Action>, b: seq<Action>)
    ensures Appended(a + b) == Appended(a) + Appended(b)
    decreases |b|
  {
    if |b| == 0 {
      assert a + b == a;
    } else {
      assert (a + b)[..|a + b| - 1] == a + b[..|b| - 1];
      AppendedConcat(a, b[..|b| - 1]);
    }
  }

  /** Passes one after another, with every action in order. */
  function Run(conv: Converters, s: Flags, evs: seq<Event>): Outcome
  {
    if |evs| == 0 then Outcome(s, [])
    else
      var o := Run(conv, s, evs[..|evs| - 1]);
      var p := Next(conv, o.next, evs[|evs| - 1]);
      Outcome(p.next, o.actions + p.actions)
  }

  /** Every event brings a line whose record parses and is numbered `base + 1 + i`. */
  predicate InOrder(conv: Converters, base: int, evs: seq<Event>)
  {
    forall i :: 0 <= i < |evs| ==>
      && evs[i].BytesWaiting? && |Ascii(evs[i].raw)| > 0
      && LineRecord(conv, evs[i].raw).Parsed()
      && LineRecord(conv, evs[i].raw).obsNum == base + 1 + i
  }

  /**
   A consecutive stream flows straight through: when no download is wanted
   and each line is numbered one more than the previous one, starting one
   after the candidate, every record is appended, in order, and no download
   is wanted afterwards.
   */
  lemma {:induction false} ConsecutiveStream(conv: Converters, s: Flags, evs: seq<Event>)
    requires !s.wantFileDownload && InOrder(conv, Candidate(s).obsNum, evs)
    ensures var o := Run(conv, s, evs);
      && !o.next.wantFileDownload
      && Candidate(o.next).obsNum == Candidate(s).obsNum + |evs|
      && |Appended(o.actions)| == |evs|
      && forall i :: 0 <= i < |evs| ==> Appended(o.actions)[i] == LineRecord(conv, evs[i].raw)
  {
    if |evs| > 0 {
      var init := evs[..|evs| - 1];
      var last := evs[|evs| - 1];
      assert InOrder(conv, Candidate(s).obsNum, init) by {
        forall i | 0 <= i < |init| ensures init[i] == evs[i] {
        }
      }
      ConsecutiveStream(conv, s, init);
      var o := Run(conv, s, init);
      var rec := LineRecord(conv, last.raw);
      assert rec.obsNum == Candidate(o.next).obsNum + 1;
      var p := Next(conv, o.next, last);
      SequentialLine(conv, o.next, last);
      AppendedConcat(o.actions, p.actions);
      var fin := Run(conv, s, evs);
      assert fin == Outcome(p.next, o.actions + p.actions);
      var a := Appended(o.actions);
      assert Appended(fin.actions) == a + [rec];
      forall i | 0 <= i < |evs| ensures Appended(fin.actions)[i] == LineRecord(conv, evs[i].raw) {
        if i < |init| {
          assert evs[i] == init[i];
          assert (a + [rec])[i] == a[i];
        }
      }
    }
  }

  /** A sequential line, with no download wanted, appends exactly its record and keeps streaming. */
  lemma SequentialLine(conv: Converters, s: Flags, ev: Event)
    requires ev.BytesWaiting? && !s.wantFileDownload && |Ascii(ev.raw)| > 0
    requires LineRecord(conv, ev.raw).Parsed() && IsSequential(LineRecord(conv, ev.raw), Candidate(s))
    ensures var o := Next(conv, s, ev);
      && !o.next.wantFileDownload
      && Candidate(o.next) == LineRecord(conv, ev.raw)
      && Appended(o.actions) == [LineRecord(conv, ev.raw)]
  {
    LineHandling(conv, s, ev);
    DatabaseFlag(conv, s, ev);
    AppendedOfRecord(Next(conv, s, ev).actions, LineRecord(conv, ev.raw));
  }

  lemma AppendedOfRecord(actions: seq<Action>, rec: OlaData)
    requires |actions| > 0 && actions[0] == AppendLocal(rec)
    requires forall i :: 0 < i < |actions| ==> actions[i] in {CatchUp, WriteDb(rec)}
    ensures Appended(actions) == [rec]
  {
    AppendedNone(actions[1..]);
    assert actions == [AppendLocal(rec)] + actions[1..];
    AppendedConcat([AppendLocal(rec)], actions[1..]);
    assert Appended([AppendLocal(rec)]) == Appended([]) + [rec];
  }

  lemma {:induction false} AppendedNone(actions: seq<Action>)
    requires forall i :: 0 <= i < |actions| ==> !actions[i].AppendLocal?
    ensures Appended(actions) == []
  {
    if |actions| > 0 {
      AppendedNone(actions[..|actions| - 1]);
    }
  }

  /**
   A parsed record that does not follow the candidate is not appended and
   sets the download flag, so the next pass with bytes waiting downloads.
   */
  lemma GapTriggersDownload(conv: Converters, s: Flags, ev: Event, ev2: Event)
    requires ev.BytesWaiting? && !s.wantFileDownload && |Ascii(ev.raw)| > 0
    requires LineRecord(conv, ev.raw).Parsed() && !IsSequential(LineRecord(conv, ev.raw), Candidate(s))
    requires ev2.BytesWaiting?
    ensures Next(conv, s, ev).actions == []
    ensures Next(conv, Next(conv, s, ev).next, ev2).actions == [Download]
  {
  }

  /**
   The first pass with bytes waiting downloads. When that download fails early
   and returns the empty record, the next parsed line counts as a gap, and asks
   for another download, unless it is numbered -998.
   */
  lemma StartupDownloads(conv: Converters, ev1: Event, ev2: Event)
    requires ev1.BytesWaiting? && ev1.downloaded == Empty
    requires ev2.BytesWaiting? && |Ascii(ev2.raw)| > 0 && LineRecord(conv, ev2.raw).Parsed()
    ensures Next(conv, Init, ev1).actions == [Download]
    ensures var o := Next(conv, Next(conv, Init, ev1).next, ev2);
      o.next.wantFileDownload <==> LineRecord(conv, ev2.raw).obsNum != -998
  {
    SequentialAfterSentinel(LineRecord(conv, ev2.raw), Empty);
  }

  /** The main loop's variables. `actions` is what the passes so far have done, in order. */
  class DataHandlerLoop {
    var prevData: OlaData
    var newData: OlaData
    var keepPrevData: bool
    var wantFileDownload: bool
    var dbOutOfSync: bool
    var actions: seq<Action>

    function State(): Flags
      reads this
    {
      Flags(prevData, newData, keepPrevData, wantFileDownload, dbOutOfSync)
    }

    constructor ()
      ensures State() == Init && actions == []
    {
      prevData := Empty;
      newData := Empty;
      keepPrevData := true;
      wantFileDownload := true;
      dbOutOfSync := false;
      actions := [];
    }

    /** One pass of the loop, with the two separate `check_sequential` tests of the source. */
    method Pass(conv: Converters, ev: Event)
      modifies this
      ensures State() == Next(conv, old(State()), ev).next
      ensures actions == old(actions) + Next(conv, old(State()), ev).actions
    {
      if !ev.BytesWaiting? {
        return;
      }
      if wantFileDownload {
        prevData := ev.downloaded;
        wantFileDownload := false;
        keepPrevData := true;
        actions := actions + [Download];
        return;
      }
      var incomingLine := Ascii(ev.raw);
      if |incomingLine| == 0 {
        return;
      }
      if !keepPrevData {
        prevData := newData;
      }
      newData := NewOlaData(conv, Bar02, incomingLine);
      if !newData.Parsed() {
        keepPrevData := true;
        return;
      }
      keepPrevData := false;
      if !IsSequential(newData, prevData) {
        wantFileDownload := true;
        keepPrevData := true;
      }
      if IsSequential(newData, prevData) {
        StoreRecord(ev.caughtUp, ev.written);
      }
    }

    /** The sequential branch: append `newData` locally, catch up when out of sync, then write it when in sync. */
    method StoreRecord(caughtUp: bool, written: bool)
      modifies this`actions, this`dbOutOfSync
      ensures var o := Record(old(State()), prevData, newData, caughtUp, written);
        actions == old(actions) + o.actions && dbOutOfSync == o.next.dbOutOfSync
    {
      actions := actions + [AppendLocal(newData)];
      if dbOutOfSync {
        actions := actions + [CatchUp];
        if caughtUp {
          dbOutOfSync := false;
        }
      }
      if !dbOutOfSync {
        actions := actions + [WriteDb(newData)];
        dbOutOfSync := !written;
      }
    }
  }
}
