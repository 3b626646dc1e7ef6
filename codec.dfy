/**
 The observation record as the scripts' `OLAdata` object holds it, its parser
 (`OLAdata.__init__` and `parseData`), and `check_sequential`.

 A record line is a comma-separated row: date, time, seven (Bar02 sensor) or
 six (older micro-pressure sensor) numeric fields, the sequence number, and the
 line ending after a trailing comma, which `split(',')` makes one more token.
 The parser assigns the attributes one after the other and clears `inString`
 on the first conversion that raises, so a record that fails keeps whatever was
 assigned before the failure: its `obsNum` stays -999, but `obsDateTime` is
 already set when only a later field failed.
 */
module Codec {
  import opened Wrappers
  import opened Strings

  /** A naive local date-time, in microseconds. */
  type Instant = int

  const OneSecond: int := 1_000_000
  const OneHour: int := 3600 * OneSecond
  const OneDay: int := 24 * OneHour

  /**
   The library conversions the parser and the listing parser call. They are
   not modelled; only whether each one raises, and the value it returns.
   */
  datatype Converters = Converters(
    /** `datetime.strptime(s, "%m/%d/%Y %H:%M:%S.%f")`, None when it raises. */
    recordTime: string -> Option<Instant>,
    /** `datetime.strptime(s, '%Y-%m-%d %H:%M')` on a directory-listing line. */
    listingTime: string -> Option<Instant>,
    /** `float(s)` does not raise. */
    isFloat: string -> bool,
    /** `int(s)`, None when it raises. */
    toInt: string -> Option<int>)

  /** How many tokens `split(',')` must give, and which one is the sequence number. */
  datatype LayoutShape = Layout(tokens: nat, seqIndex: nat)

  /** The sequence number comes after the date and time tokens and before the line-ending token. */
  type Layout = l: LayoutShape | 2 <= l.seqIndex && l.seqIndex + 1 < l.tokens witness Layout(4, 2)

  /** Bar02 sensor: ten fields and the line-ending token (dataHandler.py, downloadFiles.py, the time-shift utility). */
  const Bar02: Layout := Layout(11, 9)

  /** Older micro-pressure sensor: no water temperature, sequence number in token 8. */
  const MicroPressure: Layout := Layout(10, 8)

  /** The sequence number an `OLAdata` object starts with. */
  const NoObsNum: int := -999

  /**
   The attributes of an `OLAdata` object that the reconciliation logic reads.
   `inString` is the record text, or "" when parsing failed; `obsDateTime` is
   None while that attribute has never been assigned.
   */
  datatype OlaData = OlaData(inString: string, obsNum: int, obsDateTime: Option<Instant>)
  {
    /** The scripts' test `inString != ''`. */
    predicate Parsed() { inString != "" }
  }

  /** `OLAdata('')`: the empty record. */
  const Empty: OlaData := OlaData("", NoObsNum, None)

  /** Every numeric field between the time and the sequence number converts with `float`. */
  predicate FloatsConvert(conv: Converters, l: seq<string>, layout: Layout)
    requires layout.seqIndex <= |l|
  {
    forall i :: 2 <= i < layout.seqIndex ==> conv.isFloat(l[i])
  }

  /** `OLAdata(line)` for a non-empty bytes argument: decode, then `parseData`. */
  function NewOlaData(conv: Converters, layout: Layout, line: string): (r: OlaData)
    ensures r.inString == "" || r.inString == line
    ensures r.Parsed() ==> r.obsDateTime.Some?
  {
    var l := Split(line, ',');
    if |l| != layout.tokens then OlaData("", NoObsNum, None)
    else
      match conv.recordTime(l[0] + " " + l[1])
      case None => OlaData("", NoObsNum, None)
      case Some(t) =>
        if !FloatsConvert(conv, l, layout) then OlaData("", NoObsNum, Some(t))
        else
          match conv.toInt(l[layout.seqIndex])
          case None => OlaData("", NoObsNum, Some(t))
          case Some(n) => OlaData(line, n, Some(t))
  }

  /** Every conversion of a line's tokens succeeds. */
  predicate TokensConvert(conv: Converters, layout: Layout, l: seq<string>)
    requires |l| == layout.tokens
  {
    conv.recordTime(l[0] + " " + l[1]).Some? && FloatsConvert(conv, l, layout)
    && conv.toInt(l[layout.seqIndex]).Some?
  }

  /**
   A line parses exactly when it has one comma fewer than the layout's token
   count and every conversion succeeds; the record then keeps the line as its
   text and takes its number and time from the converted tokens.
   */
  lemma ParsedIff(conv: Converters, layout: Layout, line: string)
    ensures var r := NewOlaData(conv, layout, line);
      && (r.Parsed() <==> line != "" && Count(line, ',') + 1 == layout.tokens && TokensConvert(conv, layout, Split(line, ',')))
      && (r.Parsed() ==>
            (&& r.inString == line
             && Some(r.obsNum) == conv.toInt(Split(line, ',')[layout.seqIndex])
             && r.obsDateTime == conv.recordTime(Split(line, ',')[0] + " " + Split(line, ',')[1])))
  {
    if line == "" {
      assert Split(line, ',') == [""];
    }
  }

  /** A record that fails to parse always carries the sentinel -999, whatever went wrong. */
  lemma UnparsedHasSentinel(conv: Converters, layout: Layout, line: string)
    ensures var r := NewOlaData(conv, layout, line);
      !r.Parsed() ==> r.obsNum == NoObsNum && r.inString == ""
  {
  }

  /**
   `obsDateTime` is assigned exactly when the token count is right and the
   time converts, whether or not a later field then fails; a parsed record
   always has it.
   */
  lemma TimeAssignedIff(conv: Converters, layout: Layout, line: string)
    ensures var r := NewOlaData(conv, layout, line);
      && (r.obsDateTime.Some? <==>
            (|Split(line, ',')| == layout.tokens
             && conv.recordTime(Split(line, ',')[0] + " " + Split(line, ',')[1]).Some?))
      && (r.Parsed() ==> r.obsDateTime.Some?)
  {
  }

  /**
   The line ending is the last token, which no conversion reads: two lines that
   differ only after their last comma give records that differ only in their
   text. The live loop appends a received line, "\r\n" and all, to the local
   log, and the logged-file replay reads it back in text mode, which turns the
   "\r\n" into "\n": the replay sees the same parse outcome, number and time.
   */
  lemma {:induction false} LineEndingIgnored(conv: Converters, layout: Layout, body: string, e1: string, e2: string)
    requires ',' !in e1 && ',' !in e2
    ensures var r1 := NewOlaData(conv, layout, body + e1);
      var r2 := NewOlaData(conv, layout, body + e2);
      && (r1.Parsed() <==> r2.Parsed())
      && r1.obsNum == r2.obsNum && r1.obsDateTime == r2.obsDateTime
      && (r1.Parsed() ==> r1.inString == body + e1 && r2.inString == body + e2)
  {
    var a := Split(body, ',');
    SplitAppendTail(body, e1, ',');
    SplitAppendTail(body, e2, ',');
    var l1, l2 := Split(body + e1, ','), Split(body + e2, ',');
    if |a| == layout.tokens {
      var n := |a| - 1;
      assert l1[..n] == a[..n] == l2[..n];
      assert l1[0] == l2[0] && l1[1] == l2[1] && l1[layout.seqIndex] == l2[layout.seqIndex] by {
        assert l1[0] == l1[..n][0] && l2[0] == l2[..n][0];
        assert l1[1] == l1[..n][1] && l2[1] == l2[..n][1];
        assert l1[layout.seqIndex] == l1[..n][layout.seqIndex] && l2[layout.seqIndex] == l2[..n][layout.seqIndex];
      }
      assert FloatsConvert(conv, l1, layout) == FloatsConvert(conv, l2, layout) by {
        forall i | 2 <= i < layout.seqIndex ensures l1[i] == l2[i] {
          assert l1[i] == l1[..n][i] && l2[i] == l2[..n][i];
        }
      }
      assert body + e2 != "" by {
        assert |body| > 0;
      }
    }
  }

  /**
   The two sensor layouts never accept the same line, so the older utility
   rejects every Bar02 record and the Bar02 scripts reject every older one.
   */
  lemma LayoutsExclusive(conv: Converters, line: string)
    ensures !(NewOlaData(conv, Bar02, line).Parsed() && NewOlaData(conv, MicroPressure, line).Parsed())
  {
  }

  /** `check_sequential(newData, prevData)`. */
  predicate IsSequential(newData: OlaData, prevData: OlaData)
  {
    newData.obsNum == prevData.obsNum + 1
  }

  /**
   After the empty record, the only record that counts as sequential is one
   numbered -998; and a record that failed to parse follows no record but one
   numbered -1000.
   */
  lemma SequentialAfterSentinel(newData: OlaData, prevData: OlaData)
    ensures prevData == Empty ==> (IsSequential(newData, prevData) <==> newData.obsNum == -998)
    ensures newData.obsNum == NoObsNum ==> (IsSequential(newData, prevData) <==> prevData.obsNum == -1000)
  {
  }
}
