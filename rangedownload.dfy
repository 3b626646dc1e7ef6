/**
 downloadFiles.py: the variant that does not ask the device for its
 directory. It requests the files numbered `startFile` to `endFile`, retries
 each transfer until the transfer program reports success, advances the
 global `startFile` once per transferred file, and leaves the ZModem menu
 with up to three tries. Its main loop wants a download after every
 non-empty line.
 */
module RangeDownload {
  import opened Wrappers
  import opened Strings
  import opened Sorting
  import opened Codec
  import opened Replay

  /** The first and last file numbers the script starts with. */
  const StartFile: nat := 80
  const EndFile: nat := 266

  function Digit(d: nat): (c: char)
    requires d < 10
    ensures '0' <= c <= '9'
  {
    ('0' as int + d) as char
  }

  predicate IsDigits(s: string)
  {
    forall k :: 0 <= k < |s| ==> '0' <= s[k] <= '9'
  }

  /** `str(i)`: the decimal digits of `i`, without leading zeros. */
  function DecimalString(i: nat): (s: string)
    ensures 1 <= |s| && IsDigits(s)
  {
    if i < 10 then [Digit(i)] else DecimalString(i / 10) + [Digit(i % 10)]
  }

  function Pow10(n: nat): (p: nat)
    ensures p >= 1
  {
    if n == 0 then 1 else 10 * Pow10(n - 1)
  }

  /** The number a string of decimal digits denotes, leading zeros included. */
  function DecimalValue(s: string): nat
    requires IsDigits(s)
  {
    if |s| == 0 then 0
    else
      DigitsTail(s);
      var d: nat := s[0] as int - '0' as int;
      d * Pow10(|s| - 1) + DecimalValue(s[1..])
  }

  lemma DigitsTail(s: string)
    requires IsDigits(s) && |s| > 0
    ensures IsDigits(s[1..])
  {
    forall k | 0 <= k < |s| - 1 ensures '0' <= s[1..][k] <= '9' {
      assert s[1..][k] == s[k + 1];
    }
  }

  /** A digit times a power of ten, plus less than that power, is below ten times the power. */
  lemma DigitPlace(d: int, p: int, x: int)
    requires 0 <= d <= 9 && 0 <= x < p
    ensures d * p + x < 10 * p
  {
    assert d * p <= 9 * p;
  }

  lemma {:induction false} DecimalValueBound(s: string)
    requires IsDigits(s)
    ensures DecimalValue(s) < Pow10(|s|)
  {
    if |s| > 0 {
      DigitsTail(s);
      DecimalValueBound(s[1..]);
      DigitPlace(s[0] as int - '0' as int, Pow10(|s| - 1), DecimalValue(s[1..]));
    }
  }

  lemma {:induction false} DecimalValueSnoc(s: string, c: char)
    requires IsDigits(s) && '0' <= c <= '9'
    ensures IsDigits(s + [c])
    ensures DecimalValue(s + [c]) == 10 * DecimalValue(s) + (c as int - '0' as int)
  {
    var t := s + [c];
    if |s| > 0 {
      assert t[0] == s[0] && t[1..] == s[1..] + [c];
      DecimalValueSnoc(s[1..], c);
      var d := s[0] as int - '0' as int;
      var p := Pow10(|s| - 1);
      assert DecimalValue(t) == d * Pow10(|s|) + DecimalValue(s[1..] + [c]);
      assert DecimalValue(s) == d * p + DecimalValue(s[1..]);
      ScaleByTen(d, p);
    } else {
      assert t[1..] == [];
    }
  }

  lemma ScaleByTen(d: int, p: int)
    ensures d * (10 * p) == 10 * (d * p)
  {
  }

  /** `int(str(i)) == i`. */
  lemma {:induction false} DecimalRoundTrip(i: nat)
    ensures DecimalValue(DecimalString(i)) == i
  {
    if i >= 10 {
      DecimalRoundTrip(i / 10);
      DecimalValueSnoc(DecimalString(i / 10), Digit(i % 10));
    } else {
      assert DecimalString(i)[1..] == [];
    }
  }

  /** Below `10^k`, `str(i)` has at most `k` digits. */
  lemma {:induction false} DecimalStringLength(i: nat, k: nat)
    requires 1 <= k && i < Pow10(k)
    ensures |DecimalString(i)| <= k
  {
    if i >= 10 {
      DecimalStringLength(i / 10, k - 1);
    }
  }

  /** `s.zfill(width)` on a string of digits: zeros in front up to `width` characters. */
  function ZFill(s: string, width: nat): (r: string)
    ensures |r| == if |s| < width then width else |s|
    decreases width
  {
    if |s| >= width then s else "0" + ZFill(s, width - 1)
  }

  lemma {:induction false} ZFillValue(s: string, width: nat)
    requires IsDigits(s)
    ensures IsDigits(ZFill(s, width)) && DecimalValue(ZFill(s, width)) == DecimalValue(s)
    decreases width
  {
    if |s| < width {
      ZFillValue(s, width - 1);
      assert ("0" + ZFill(s, width - 1))[1..] == ZFill(s, width - 1);
    }
  }

  /** The five-digit field of a file name. */
  function Field(i: nat): string
  {
    ZFill(DecimalString(i), 5)
  }

  lemma FieldValue(i: nat)
    ensures IsDigits(Field(i)) && DecimalValue(Field(i)) == i
  {
    ZFillValue(DecimalString(i), 5);
    DecimalRoundTrip(i);
  }

  /** `'dataLog' + str(i).zfill(5) + '.TXT'`. */
  function Name(i: nat): string
  {
    "dataLog" + Field(i) + ".TXT"
  }

  /** The number in a file name: what lies between "dataLog" and ".TXT". */
  function NumberOf(name: string): int
    requires |name| >= 11 && IsDigits(name[7..|name| - 4])
  {
    DecimalValue(name[7..|name| - 4])
  }

  /** The number can be read back from the name; so two numbers never share a name. */
  lemma NameRoundTrip(i: nat)
    ensures |Name(i)| >= 11 && IsDigits(Name(i)[7..|Name(i)| - 4]) && NumberOf(Name(i)) == i
  {
    FieldValue(i);
    assert Name(i)[7..|Name(i)| - 4] == Field(i);
  }

  lemma NameInjective(i: nat, j: nat)
    requires Name(i) == Name(j)
    ensures i == j
  {
    NameRoundTrip(i);
    NameRoundTrip(j);
  }

  /** Below 100000 the names are the ones the replay's file pattern accepts. */
  lemma NameMatchesDataLog(i: nat)
    requires i < 100000
    ensures MatchesDataLog(Name(i))
  {
    DecimalStringLength(i, 5);
    assert |Field(i)| == 5;
    assert Name(i)[..7] == "dataLog";
    assert Name(i)[12..] == ".TXT";
  }

  /** A smaller leading digit gives a smaller number, whatever follows it. */
  lemma LeadingDigit(da: int, db: int, ra: int, rb: int, p: int)
    requires 0 <= da < db && 0 <= ra < p && 0 <= rb
    ensures da * p + ra < db * p + rb
  {
    assert (da + 1) * p <= db * p;
  }

  /** Between digit strings of one length, string order is number order. */
  lemma {:induction false} DigitsOrder(a: string, b: string)
    requires IsDigits(a) && IsDigits(b) && |a| == |b|
    ensures Less(a, b) <==> DecimalValue(a) < DecimalValue(b)
  {
    if |a| > 0 {
      var da := a[0] as int - '0' as int;
      var db := b[0] as int - '0' as int;
      var p := Pow10(|a| - 1);
      var ra := DecimalValue(a[1..]);
      var rb := DecimalValue(b[1..]);
      assert DecimalValue(a) == da * p + ra;
      assert DecimalValue(b) == db * p + rb;
      DecimalValueBound(a[1..]);
      DecimalValueBound(b[1..]);
      if da < db {
        LeadingDigit(da, db, ra, rb, p);
      } else if db < da {
        LeadingDigit(db, da, rb, ra, p);
      } else {
        DigitsOrder(a[1..], b[1..]);
      }
    }
  }

  /** Below 100000, names sort as their numbers do, so ascending name order is ascending number order. */
  lemma NameOrder(i: nat, j: nat)
    requires i < 100000 && j < 100000
    ensures Less(Name(i), Name(j)) <==> i < j
  {
    DecimalStringLength(i, 5);
    DecimalStringLength(j, 5);
    FieldValue(i);
    FieldValue(j);
    if i == j {
      LessIrreflexive(Name(i));
    } else {
      assert Field(i) != Field(j);
      assert Name(i) == "dataLog" + (Field(i) + ".TXT");
      assert Name(j) == "dataLog" + (Field(j) + ".TXT");
      LessCommonPrefix("dataLog", Field(i) + ".TXT", Field(j) + ".TXT");
      LessSameLength(Field(i), Field(j), ".TXT", ".TXT");
      DigitsOrder(Field(i), Field(j));
    }
  }

  /** `get_OLA_file_list()`: the names numbered `start` to `end` inclusive, in order (each with size 0). */
  function FileRange(start: nat, end: int): (r: seq<string>)
    ensures |r| == if start <= end then end - start + 1 else 0
    ensures forall k :: 0 <= k < |r| ==> r[k] == Name(start + k)
  {
    if start > end then [] else seq(end - start + 1, k requires 0 <= k => Name(start + k))
  }

  /** No name is listed twice. */
  lemma FileRangeDistinct(start: nat, end: int)
    ensures Distinct(FileRange(start, end))
  {
    var r := FileRange(start, end);
    forall i, j | 0 <= i < j < |r| ensures r[i] != r[j] {
      if r[i] == r[j] {
        NameInjective(start + i, start + j);
      }
    }
  }

  /**
   Resuming: after `k` files of the list were transferred, the list from
   `start + k` is what was left of the list from `start`.
   */
  lemma FileRangeResume(start: nat, end: int, k: nat)
    requires k <= |FileRange(start, end)|
    ensures FileRange(start + k, end) == FileRange(start, end)[k..]
  {
  }

  /** One round of the retry loop: `sendline('sz ' + fn)` raised, or `os.system('rz ...')` returned a status. */
  datatype Attempt = Status(code: nat) | SendRaised

  /** `(result >> 8) == 0`: the wait status is below 256, so the transfer program exited with status 0. */
  predicate Succeeded(a: Attempt)
  {
    a.Status? && a.code < 256
  }

  /** A round that ends a file's retry loop: a success or an exception. */
  predicate Settles(a: Attempt)
  {
    a.SendRaised? || Succeeded(a)
  }

  datatype TransferEnd =
    | AllSent         // every listed file was transferred
    | Interrupted     // a `sendline` raised: the cycle returns at once
    | StillRetrying   // the rounds observed end while a file is still being retried

  /** How the loop ended, how many files it transferred, and the index of the first round it did not use. */
  datatype Transfers = Transfers(done: nat, used: nat, end: TransferEnd)

  /** How many rounds in `tries[lo..hi]` succeeded. */
  function CountSucceeded(tries: seq<Attempt>, lo: nat, hi: nat): nat
    requires lo <= hi <= |tries|
    decreases hi
  {
    if lo == hi then 0
    else CountSucceeded(tries, lo, hi - 1) + if Succeeded(tries[hi - 1]) then 1 else 0
  }

  /** The index of the first round at or after `lo` that settles, or `|tries|`. */
  function SettleFrom(tries: seq<Attempt>, lo: nat): (r: nat)
    requires lo <= |tries|
    ensures lo <= r <= |tries|
    ensures r < |tries| ==> Settles(tries[r])
    decreases |tries| - lo
  {
    if lo == |tries| || Settles(tries[lo]) then lo else SettleFrom(tries, lo + 1)
  }

  /** Every round before the one that settles neither succeeded nor raised. */
  lemma {:induction false} SettleFromFirst(tries: seq<Attempt>, lo: nat)
    requires lo <= |tries|
    ensures forall j :: lo <= j < SettleFrom(tries, lo) ==> !Settles(tries[j])
    decreases |tries| - lo
  {
    if lo < |tries| && !Settles(tries[lo]) {
      SettleFromFirst(tries, lo + 1);
    }
  }

  /** The transfer loop over `count` more files, from round `next` on: each file takes rounds until one settles. */
  function TransferFrom(count: nat, tries: seq<Attempt>, next: nat): (r: Transfers)
    requires next <= |tries|
    ensures r.done <= count && next <= r.used <= |tries|
    ensures r.done == count <==> r.end == AllSent
    ensures r.end == Interrupted ==> next < r.used && tries[r.used - 1].SendRaised?
    ensures r.end == StillRetrying ==> r.used == |tries|
    decreases count
  {
    if count == 0 then Transfers(0, next, AllSent)
    else
      var k := SettleFrom(tries, next);
      if k == |tries| then Transfers(0, |tries|, StillRetrying)
      else if tries[k].SendRaised? then Transfers(0, k + 1, Interrupted)
      else
        var rest := TransferFrom(count - 1, tries, k + 1);
        Transfers(rest.done + 1, rest.used, rest.end)
  }

  /** A later part of the transfer loop, seen as part of the whole: `i` more files done before it. */
  function Shift(r: Transfers, i: nat): Transfers
  {
    r.(done := r.done + i)
  }

  /** One file of the transfer loop, seen from the whole loop with `i` files already done. */
  lemma ShiftStep(whole: Transfers, m: nat, tries: seq<Attempt>, next: nat, i: nat)
    requires 0 < m && next <= |tries|
    requires whole == Shift(TransferFrom(m, tries, next), i)
    ensures SettleFrom(tries, next) == |tries| ==> whole == Transfers(i, |tries|, StillRetrying)
    ensures SettleFrom(tries, next) < |tries| && tries[SettleFrom(tries, next)].SendRaised? ==>
      whole == Transfers(i, SettleFrom(tries, next) + 1, Interrupted)
    ensures SettleFrom(tries, next) < |tries| && !tries[SettleFrom(tries, next)].SendRaised? ==>
      whole == Shift(TransferFrom(m - 1, tries, SettleFrom(tries, next) + 1), i + 1)
  {
  }

  lemma ShiftNone(r: Transfers)
    ensures Shift(r, 0) == r
  {
  }

  /** The loop over `count` files from the first round. */
  function TransferAll(count: nat, tries: seq<Attempt>): Transfers
  {
    TransferFrom(count, tries, 0)
  }

  lemma {:induction false} NoneSucceeded(tries: seq<Attempt>, lo: nat, hi: nat)
    requires lo <= hi <= |tries|
    requires forall j :: lo <= j < hi ==> !Succeeded(tries[j])
    ensures CountSucceeded(tries, lo, hi) == 0
    decreases hi
  {
    if lo < hi {
      NoneSucceeded(tries, lo, hi - 1);
    }
  }

  lemma {:induction false} CountSucceededSplit(tries: seq<Attempt>, a: nat, b: nat, c: nat)
    requires a <= b <= c <= |tries|
    ensures CountSucceeded(tries, a, c) == CountSucceeded(tries, a, b) + CountSucceeded(tries, b, c)
    decreases c
  {
    if b < c {
      CountSucceededSplit(tries, a, b, c - 1);
    }
  }

  /** No round before the first one that settles succeeded. */
  lemma NoneBeforeSettle(tries: seq<Attempt>, lo: nat)
    requires lo <= |tries|
    ensures CountSucceeded(tries, lo, SettleFrom(tries, lo)) == 0
  {
    SettleFromFirst(tries, lo);
    NoneSucceeded(tries, lo, SettleFrom(tries, lo));
  }

  /**
   Every file counted as transferred is one round whose status was 0: the
   files done are the successful rounds among those used.
   */
  lemma {:induction false} TransferCounts(count: nat, tries: seq<Attempt>, next: nat)
    requires next <= |tries|
    ensures TransferFrom(count, tries, next).done == CountSucceeded(tries, next, TransferFrom(count, tries, next).used)
    decreases count
  {
    if count > 0 {
      var k := SettleFrom(tries, next);
      NoneBeforeSettle(tries, next);
      if k == |tries| {
      } else if tries[k].SendRaised? {
        assert CountSucceeded(tries, next, k + 1) == CountSucceeded(tries, next, k);
      } else {
        var rest := TransferFrom(count - 1, tries, k + 1);
        TransferCounts(count - 1, tries, k + 1);
        assert CountSucceeded(tries, next, k + 1) == 1;
        CountSucceededSplit(tries, next, k + 1, rest.used);
      }
    }
  }

  /**
   `exit_zmodem`: at most three tries, stopping at the first that sees the
   main menu; `seen(k)` is whether try `k` saw it. Returns how many tries
   were made and whether one succeeded.
   */
  method ExitZModem(seen: nat -> bool) returns (ok: bool, tries: nat)
    ensures Retry(ok, tries) == BoundedRetry(seen, 0, 3)
  {
    ok, tries := false, 0;
    for t := 0 to 3
      invariant tries == t && !ok
      invariant forall k :: 0 <= k < t ==> !seen(k)
    {
      tries := tries + 1;
      if seen(t) {
        ok := true;
        AttemptsStopAt(seen, t);
        return;
      }
    }
    AttemptsNone(seen);
  }

  lemma AttemptsStopAt(seen: nat -> bool, t: nat)
    requires t < 3 && seen(t) && forall k :: 0 <= k < t ==> !seen(k)
    ensures BoundedRetry(seen, 0, 3) == Retry(true, t + 1)
  {
    var w := BoundedRetry(seen, 0, 3);
    assert w.used - 1 <= t;
  }

  lemma AttemptsNone(seen: nat -> bool)
    requires forall k :: 0 <= k < 3 ==> !seen(k)
    ensures BoundedRetry(seen, 0, 3) == Retry(false, 3)
  {
  }

  /** The device's side of a download cycle. */
  datatype RangeDevice = RangeDevice(
    menuOk: bool,
    zmodemOk: bool,
    /** The retry-loop rounds, in order, across all files. */
    tries: seq<Attempt>,
    /** Whether try `k` of `exit_zmodem` sees the main menu. */
    exitSeen: nat -> bool)

  datatype RangeEnd = NoMenu | NoZModem | Transferred(run: Transfers)

  /** A cycle from file `start`: how it ended and how many `exit_zmodem` tries it made. */
  datatype RangeCycle = RangeCycle(end: RangeEnd, exitTries: nat)

  function RangeCycleSpec(start: nat, dev: RangeDevice): RangeCycle
  {
    if !dev.menuOk then RangeCycle(NoMenu, 0)
    else if !dev.zmodemOk then RangeCycle(NoZModem, BoundedRetry(dev.exitSeen, 0, 3).used)
    else
      var run := TransferAll(|FileRange(start, EndFile)|, dev.tries);
      RangeCycle(Transferred(run), if run.end == AllSent then BoundedRetry(dev.exitSeen, 0, 3).used else 0)
  }

  /** How many files a cycle transferred. */
  function Done(c: RangeCycle): nat
  {
    if c.end.Transferred? then c.end.run.done else 0
  }

  /**
   After a cycle, `startFile` names the first file not transferred, so the
   next cycle's list is what is left of this one's; a cycle leaves the ZModem
   menu unless it failed to reach the menu or was interrupted.
   */
  lemma CycleResumes(start: nat, dev: RangeDevice)
    ensures var c := RangeCycleSpec(start, dev);
      && Done(c) <= |FileRange(start, EndFile)|
      && FileRange(start + Done(c), EndFile) == FileRange(start, EndFile)[Done(c)..]
      && (c.exitTries > 0 <==> c.end == NoZModem || (c.end.Transferred? && c.end.run.end == AllSent))
      && c.exitTries <= 3
  {
    var c := RangeCycleSpec(start, dev);
    FileRangeResume(start, EndFile, Done(c));
  }

  /** The flag state of downloadFiles.py's main loop, and the global `startFile`. */
  datatype RangeFlags = RangeFlags(startFile: nat, prevData: OlaData, keepPrevData: bool, wantFileDownload: bool)

  const RangeInit: RangeFlags := RangeFlags(StartFile, Empty, true, true)

  datatype RangeEvent =
    | PortError
    | NoBytes
    /** `read` is None when `read_until` raised. */
    | BytesWaiting(dev: RangeDevice, read: Option<string>)

  /** One pass of the loop. */
  function RangeNext(s: RangeFlags, ev: RangeEvent): RangeFlags
  {
    match ev
    case PortError => s
    case NoBytes => s
    case BytesWaiting(dev, read) =>
      if s.wantFileDownload then
        s.(startFile := s.startFile + Done(RangeCycleSpec(s.startFile, dev)),
           prevData := Empty, wantFileDownload := false, keepPrevData := true)
      else match read
        case None => s
        case Some(raw) => if |Ascii(raw)| == 0 then s else s.(wantFileDownload := true)
  }

  /**
   With a download wanted, bytes waiting start a download before any read, and
   the download clears the flag; every download returns the empty record; every
   non-empty line asks for a download; `startFile` never goes back.
   */
  lemma RangeFlagLogic(s: RangeFlags, ev: RangeEvent)
    ensures var n := RangeNext(s, ev);
      && n.startFile >= s.startFile
      && (ev.BytesWaiting? && s.wantFileDownload ==> !n.wantFileDownload && n.prevData == Empty && n.keepPrevData)
      && (ev.BytesWaiting? && !s.wantFileDownload && ev.read.Some? && |Ascii(ev.read.value)| > 0 ==> n.wantFileDownload)
      && (n.startFile != s.startFile ==> ev.BytesWaiting? && s.wantFileDownload)
      && (n.prevData == s.prevData || n.prevData == Empty)
  {
  }

  /** The script's global and main's variables. */
  class Downloader {
    var startFile: nat
    var prevData: OlaData
    var keepPrevData: bool
    var wantFileDownload: bool

    function State(): RangeFlags
      reads this
    {
      RangeFlags(startFile, prevData, keepPrevData, wantFileDownload)
    }

    constructor ()
      ensures State() == RangeInit
    {
      startFile := StartFile;
      prevData := Empty;
      keepPrevData := true;
      wantFileDownload := true;
    }

    /**
     The `for fn in ola_fdict` loop with its retry loop: advances `startFile`
     once per file whose transfer reported success.
     */
    method TransferFiles(names: seq<string>, tries: seq<Attempt>) returns (run: Transfers)
      modifies this`startFile
      ensures run == TransferAll(|names|, tries)
      ensures startFile == old(startFile) + run.done
    {
      var next: nat := 0;
      ghost var whole := TransferAll(|names|, tries);
      ShiftNone(whole);
      for i := 0 to |names|
        invariant next <= |tries|
        invariant startFile == old(startFile) + i
        invariant whole == Shift(TransferFrom(|names| - i, tries, next), i)
      {
        // `sendline('sz ' + fn)` and the first `rz`, then the retry loop
        var k := SettleFile(tries, next);
        ShiftStep(whole, |names| - i, tries, next, i);
        if k == |tries| {
          return Transfers(i, |tries|, StillRetrying);
        }
        if tries[k].SendRaised? {
          return Transfers(i, k + 1, Interrupted);
        }
        startFile := startFile + 1;
        next := k + 1;
      }
      run := Transfers(|names|, next, AllSent);
    }

    /** `download_data_files(ss)`: always returns the empty record. */
    method DownloadDataFiles(dev: RangeDevice) returns (r: OlaData, c: RangeCycle)
      modifies this
      ensures r == Empty
      ensures c == RangeCycleSpec(old(startFile), dev)
      ensures startFile == old(startFile) + Done(c)
      ensures prevData == old(prevData) && keepPrevData == old(keepPrevData) && wantFileDownload == old(wantFileDownload)
    {
      r := Empty;
      if !dev.menuOk {
        return r, RangeCycle(NoMenu, 0);
      }
      if !dev.zmodemOk {
        var _, exitTries := ExitZModem(dev.exitSeen);
        return r, RangeCycle(NoZModem, exitTries);
      }
      var names := FileRange(startFile, EndFile);
      var run := TransferFiles(names, dev.tries);
      if run.end != AllSent {
        return r, RangeCycle(Transferred(run), 0);
      }
      var _, exitTries := ExitZModem(dev.exitSeen);
      return r, RangeCycle(Transferred(run), exitTries);
    }

    /** One pass of main's loop. */
    method Pass(ev: RangeEvent)
      modifies this
      ensures State() == RangeNext(old(State()), ev)
    {
      if !ev.BytesWaiting? {
        return;
      }
      if wantFileDownload {
        var r, _ := DownloadDataFiles(ev.dev);
        prevData := r;
        wantFileDownload := false;
        keepPrevData := true;
        return;
      }
      if ev.read.None? {
        return;
      }
      var incomingLine := Ascii(ev.read.value);
      if |incomingLine| == 0 {
        return;
      }
      wantFileDownload := true;
    }
  }

  /** The retry loop for one file: the first round from `from` that settles. */
  method SettleFile(tries: seq<Attempt>, from: nat) returns (k: nat)
    requires from <= |tries|
    ensures k == SettleFrom(tries, from)
  {
    k := from;
    while k < |tries| && !Settles(tries[k])
      invariant from <= k <= |tries|
      invariant SettleFrom(tries, from) == SettleFrom(tries, k)
      decreases |tries| - k
    {
      k := k + 1;
    }
  }
}
