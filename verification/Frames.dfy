// The bytes of a reply: response frames decode to exactly their echo and result, and a dump is a
// rectangular table of guarded reads.

module Frames {
  import opened Basics
  import opened Text
  import opened Streams
  import opened Framing
  import opened Systems
  import opened Dispatch
  import opened SystemCore
  import opened Commands

  // ---------- Response frames ----------

  function ResultText(r: Result): string {
    match r
    case Value(v) => Numeral(v)
    case Err(e) => "E" + Numeral(e)
  }

  function EchoLine(echo: string): string {
    if echo == "" then "" else echo + "\n"
  }

  /** Start mark, echo line unless empty, result line, end mark. */
  function Frame(echo: string, r: Result): string {
    STX + "\n" + EchoLine(echo) + (ResultText(r) + "\n" + ETX)
  }

  lemma PrintedNumeral<S>(cfg: Config<S>, v: int32)
    requires cfg.txLen >= 12
    ensures Printed(cfg, Numeral(v)) == Numeral(v)
  {
    NumeralLength(v);
  }

  lemma ConcatOne(p: string)
    ensures Concat([p]) == p
  {
    assert [p][1..] == [];
    NilUnit(p);
  }

  lemma ConcatTwo(p: string, q: string)
    ensures Concat([p, q]) == p + q
  {
    assert [p, q][1..] == [q];
    ConcatOne(q);
  }

  lemma ConcatHead(echo: string)
    ensures Concat(HeadPieces(echo)) == STX + "\n" + EchoLine(echo)
  {
    ConcatTwo(STX, "\n");
    if echo == "" {
      NilUnit([STX, "\n"]);
    } else {
      ConcatTwo(echo, "\n");
      ConcatAppend([STX, "\n"], [echo, "\n"]);
    }
  }

  lemma ConcatResult<S>(cfg: Config<S>, r: Result)
    requires cfg.txLen >= 12
    ensures Concat(ResultPieces(cfg, r)) == ResultText(r)
  {
    match r
    case Value(v) =>
      PrintedNumeral(cfg, v);
      ConcatOne(Numeral(v));
    case Err(e) =>
      PrintedNumeral(cfg, e);
      ConcatTwo("E", Numeral(e));
  }

  lemma ConcatResponse<S>(cfg: Config<S>, echo: string, r: Result)
    requires cfg.txLen >= 12
    ensures Concat(ResponsePieces(cfg, echo, r)) == Frame(echo, r)
  {
    ConcatHead(echo);
    ConcatResult(cfg, r);
    ConcatTwo("\n", ETX);
    ConcatAppend(HeadPieces(echo), ResultPieces(cfg, r));
    ConcatAppend(HeadPieces(echo) + ResultPieces(cfg, r), ["\n", ETX]);
    Assoc(STX + "\n" + EchoLine(echo), ResultText(r), "\n" + ETX);
    Assoc(ResultText(r), "\n", ETX);
  }

  /** The whole frame reaches the sink if and only if every write reports success and there is room for it. */
  lemma FrameSentIff<S>(cfg: Config<S>, l: Link, echo: string, r: Result)
    requires cfg.txLen >= 12
    ensures SendAll(l, ResponsePieces(cfg, echo, r)).link.out == l.out + Frame(echo, r)
      <==> Ready(l) && |Frame(echo, r)| <= l.room
  {
    var pieces, frame := ResponsePieces(cfg, echo, r), Frame(echo, r);
    ConcatResponse(cfg, echo, r);
    if Ready(l) {
      SendAllReady(l, pieces);
      if |frame| <= l.room {
        assert Cut(frame, l.room) == frame;
      }
    } else {
      SendAllNotReady(l, pieces);
      assert pieces[0] == STX && |frame| > 1;
    }
  }

  // ---------- Decoding ----------

  datatype Decoded = Decoded(echo: string, result: Result, rest: string)

  function ParseResult(s: string): Result {
    if s != "" && s[0] == 'E' then Err(Strtol(s[1..]).val) else Value(Strtol(s).val)
  }

  /** The index of the first newline, or the length. */
  function ToNewline(s: string): (n: nat)
    ensures n <= |s|
  {
    if s == "" || s[0] == '\n' then 0 else 1 + ToNewline(s[1..])
  }

  /** Reads one frame off the front of a byte stream. */
  function Decode(bytes: string): (d: Option<Decoded>)
    ensures d.Some? ==> |d.value.rest| < |bytes|
  {
    if !(STX + "\n" <= bytes) then None
    else
      var body := bytes[2..];
      var n := ToNewline(body);
      if n == |body| then None
      else
        var first, next := body[..n], body[n + 1..];
        if ETX <= next then Some(Decoded("", ParseResult(first), next[1..]))
        else
          var k := ToNewline(next);
          if k == |next| || !(ETX <= next[k + 1..]) then None
          else Some(Decoded(first, ParseResult(next[..k]), next[k + 1..][1..]))
  }

  ghost predicate OneLine(s: string) {
    forall i :: 0 <= i < |s| ==> s[i] != '\n'
  }

  lemma {:induction false} ToNewlineOf(a: string, rest: string)
    requires OneLine(a)
    ensures ToNewline(a + "\n" + rest) == |a|
  {
    if a == "" {
      assert (a + "\n" + rest)[0] == '\n';
    } else {
      assert (a + "\n" + rest)[1..] == a[1..] + "\n" + rest;
      ToNewlineOf(a[1..], rest);
    }
  }

  lemma DigitsOneLine(n: nat)
    ensures OneLine(Decimal(n))
  {
    var s := Decimal(n);
    assert forall i :: 0 <= i < |s| ==> IsDigit(s[i]);
  }

  lemma ResultOneLine(r: Result)
    ensures OneLine(ResultText(r)) && ResultText(r) != "" && ResultText(r)[0] != '\U{03}' && ResultText(r)[0] != '\t'
  {
    var v := match r case Value(v) => v case Err(e) => e;
    DigitsOneLine(Abs(v));
    assert Decimal(Abs(v)) != "" && IsDigit(Decimal(Abs(v))[0]);
  }

  /** Values and errors are never confused. */
  lemma ResultRoundTrip(r: Result)
    ensures ParseResult(ResultText(r)) == r
  {
    var v := match r case Value(v) => v case Err(e) => e;
    NilUnit(Numeral(v));
    StrtolNumeral(v, "");
    match r
    case Value(v) =>
      assert Numeral(v)[0] == '-' || IsDigit(Numeral(v)[0]);
    case Err(e) =>
      assert ("E" + Numeral(e))[1..] == Numeral(e);
  }

  lemma NewlineSplits(a: string, rest: string)
    ensures var s := a + "\n" + rest;
      |a| < |s| && s[..|a|] == a && s[|a| + 1..] == rest
  {}

  lemma EndMark(more: string)
    ensures ETX <= ETX + more && (ETX + more)[1..] == more
  {}

  lemma DecodeOne(bytes: string, text: string, more: string)
    requires STX + "\n" <= bytes && bytes[2..] == text + "\n" + (ETX + more) && OneLine(text)
    ensures Decode(bytes) == Some(Decoded("", ParseResult(text), more))
  {
    ToNewlineOf(text, ETX + more);
    NewlineSplits(text, ETX + more);
    EndMark(more);
  }

  lemma DecodeTwo(bytes: string, echo: string, text: string, more: string)
    requires STX + "\n" <= bytes && bytes[2..] == echo + "\n" + (text + "\n" + (ETX + more))
    requires OneLine(echo) && OneLine(text) && text != "" && text[0] != '\U{03}'
    ensures Decode(bytes) == Some(Decoded(echo, ParseResult(text), more))
  {
    var tail := text + "\n" + (ETX + more);
    ToNewlineOf(echo, tail);
    NewlineSplits(echo, tail);
    assert tail[0] == text[0];
    ToNewlineOf(text, ETX + more);
    NewlineSplits(text, ETX + more);
    EndMark(more);
  }

  lemma FrameBody(line: string, text: string, more: string)
    ensures var f := STX + "\n" + line + (text + "\n" + ETX) + more;
      STX + "\n" <= f && f[2..] == line + (text + "\n" + (ETX + more))
  {}

  /** A frame, whatever follows it, decodes to exactly its echo and its result. */
  lemma FrameRoundTrip(echo: string, r: Result, more: string)
    requires OneLine(echo)
    ensures Decode(Frame(echo, r) + more) == Some(Decoded(echo, r, more))
  {
    var text := ResultText(r);
    ResultOneLine(r);
    ResultRoundTrip(r);
    FrameBody(EchoLine(echo), text, more);
    if echo == "" {
      NilUnit(text + "\n" + (ETX + more));
      DecodeOne(Frame(echo, r) + more, text, more);
    } else {
      DecodeTwo(Frame(echo, r) + more, echo, text, more);
    }
  }

  /** No two replies look alike. */
  lemma FramesUnambiguous(e: string, r: Result, e': string, r': Result)
    requires OneLine(e) && OneLine(e') && Frame(e, r) == Frame(e', r')
    ensures e == e' && r == r'
  {
    FrameRoundTrip(e, r, "");
    FrameRoundTrip(e', r', "");
  }

  /** The echo is the whole trimmed command if and only if that has at most 255 characters. */
  lemma EchoExactIff(s: string)
    ensures EchoCut(s) == s[..TrimLen(s)] <==> TrimLen(s) <= 0xFF
  {
    if TrimLen(s) <= 0xFF {
      Low8Small(TrimLen(s));
    }
  }

  // ---------- Dumps ----------

  /** The tab-separated fields of a line: one more than it has tabs. */
  function Fields(s: string): seq<string>
    decreases |s|
  {
    var n := ToTab(s);
    if n == |s| then [s] else [s[..n]] + Fields(s[n + 1..])
  }

  function ToTab(s: string): (n: nat)
    ensures n <= |s|
  {
    if s == "" || s[0] == '\t' then 0 else 1 + ToTab(s[1..])
  }

  ghost predicate Plain(s: string) {
    forall i :: 0 <= i < |s| ==> s[i] != '\t' && !IsBreak(s[i])
  }

  lemma {:induction false} ToTabOf(a: string, rest: string)
    requires Plain(a) && (rest == "" || rest[0] == '\t')
    ensures ToTab(a + rest) == |a|
  {
    if a == "" {
      assert a + rest == rest;
    } else {
      assert (a + rest)[1..] == a[1..] + rest;
      ToTabOf(a[1..], rest);
    }
  }

  lemma FieldsPlain(a: string)
    requires Plain(a)
    ensures Fields(a) == [a]
  {
    ToTabOf(a, "");
    NilUnit(a);
  }

  lemma FieldsCons(a: string, rest: string)
    requires Plain(a)
    ensures Fields(a + ("\t" + rest)) == [a] + Fields(rest)
  {
    ToTabOf(a, "\t" + rest);
    assert (a + ("\t" + rest))[..|a|] == a && (a + ("\t" + rest))[|a| + 1..] == rest;
  }

  function HeaderFields<S>(cfg: Config<S>, j: nat): (r: seq<string>)
    requires j <= cfg.headerCount
    ensures |r| == cfg.headerCount - j
    decreases cfg.headerCount - j
  {
    if j == cfg.headerCount then [] else [Numeral(j)] + HeaderFields(cfg, j + 1)
  }

  /** The guarded reads of all columns, printed. */
  function Readings<S>(cfg: Config<S>, sys: System<S>, m: seq<S>, k: Kind): seq<string>
    requires Fits(Leaves(sys), |m|)
  {
    seq(cfg.headerCount, (j: nat) requires j < cfg.headerCount && Fits(Leaves(sys), |m|) =>
      ResultText(GuardedRead(sys, m, k, j)))
  }

  function Tabbed(cells: seq<string>): string {
    if cells == [] then "" else "\t" + cells[0] + Tabbed(cells[1..])
  }

  function Title(id: u8, k: Kind): string {
    "s" + Numeral(id) + (if k.Input? then ".x" else ".y")
  }

  function RowLine<S>(cfg: Config<S>, id: u8, sys: System<S>, m: seq<S>, k: Kind): string
    requires Fits(Leaves(sys), |m|)
  {
    Title(id, k) + Tabbed(Readings(cfg, sys, m, k))
  }

  function RowLines<S>(cfg: Config<S>, entries: seq<Entry<S>>, m: seq<S>): (ls: seq<string>)
    requires Dumpable(entries, |m|)
    ensures |ls| == 2 * |entries|
  {
    if entries == [] then []
    else
      var e := entries[0];
      [RowLine(cfg, e.id, e.system.value, m, Input), RowLine(cfg, e.id, e.system.value, m, Output)]
        + RowLines(cfg, entries[1..], m)
  }

  function TableLines<S>(cfg: Config<S>, entries: seq<Entry<S>>, m: seq<S>): seq<string>
    requires Dumpable(entries, |m|)
  {
    ["sys" + Tabbed(HeaderFields(cfg, 0))] + RowLines(cfg, entries, m)
  }

  lemma {:induction false} TabbedFields(a: string, cells: seq<string>)
    requires Plain(a) && forall i :: 0 <= i < |cells| ==> Plain(cells[i])
    ensures Fields(a + Tabbed(cells)) == [a] + cells
    decreases |cells|
  {
    if cells == [] {
      NilUnit(a);
      NilUnit([a]);
      FieldsPlain(a);
    } else {
      TabbedFields(cells[0], cells[1..]);
      FieldsCons(a, cells[0] + Tabbed(cells[1..]));
      Assoc("\t", cells[0], Tabbed(cells[1..]));
      assert cells == [cells[0]] + cells[1..];
    }
  }

  lemma ResultPlain(r: Result)
    ensures Plain(ResultText(r))
  {
    NumeralPlain(match r case Value(v) => v case Err(e) => e);
  }

  lemma NumeralPlain(v: int)
    ensures Plain(Numeral(v))
  {
    var s := Numeral(v);
    forall i | 0 <= i < |s| ensures s[i] != '\t' && !IsBreak(s[i]) {
      assert s[i] == '-' || IsDigit(s[i]);
    }
  }

  lemma TitlePlain(id: u8, k: Kind)
    ensures Plain(Title(id, k))
  {
    NumeralPlain(id);
  }

  lemma {:induction false} HeaderPlain<S>(cfg: Config<S>, j: nat, i: nat)
    requires j <= i < cfg.headerCount
    ensures HeaderFields(cfg, j)[i - j] == Numeral(i) && Plain(Numeral(i))
    decreases i - j
  {
    NumeralPlain(i);
    if j < i {
      HeaderPlain(cfg, j + 1, i);
    }
  }

  /** The fields of a row: its title and the printed guarded read of each member. */
  ghost predicate Rectangular<S>(cfg: Config<S>, line: string, id: u8, sys: System<S>, m: seq<S>, k: Kind)
    requires Fits(Leaves(sys), |m|)
  {
    var fields := Fields(line);
    && |fields| == cfg.headerCount + 1 && fields[0] == Title(id, k)
    && forall j :: 0 <= j < cfg.headerCount ==> fields[1 + j] == ResultText(GuardedRead(sys, m, k, j))
  }

  lemma RowFields<S>(cfg: Config<S>, id: u8, sys: System<S>, m: seq<S>, k: Kind)
    requires Fits(Leaves(sys), |m|)
    ensures Rectangular(cfg, RowLine(cfg, id, sys, m, k), id, sys, m, k)
  {
    var cells := Readings(cfg, sys, m, k);
    TitlePlain(id, k);
    forall i | 0 <= i < |cells| ensures Plain(cells[i]) {
      ResultPlain(GuardedRead(sys, m, k, i));
    }
    TabbedFields(Title(id, k), cells);
    TitleIs(id, k);
  }

  lemma TitleIs(id: u8, k: Kind)
    ensures Title(id, k) == "s" + Decimal(id) + (if k.Input? then ".x" else ".y")
  {}

  /** A dump is rectangular: every line has exactly `headerCount` tabs. */
  lemma {:induction false} RowsRectangular<S>(cfg: Config<S>, entries: seq<Entry<S>>, m: seq<S>, i: nat)
    requires Dumpable(entries, |m|) && i < 2 * |entries|
    ensures var e := entries[i / 2];
      Rectangular(cfg, RowLines(cfg, entries, m)[i], e.id, e.system.value, m, if i % 2 == 0 then Input else Output)
    decreases i
  {
    if i < 2 {
      var e := entries[0];
      var k := if i == 0 then Input else Output;
      RowFields(cfg, e.id, e.system.value, m, k);
    } else {
      RowsRectangular(cfg, entries[1..], m, i - 2);
      assert RowLines(cfg, entries, m)[i] == RowLines(cfg, entries[1..], m)[i - 2];
      assert (i - 2) / 2 == i / 2 - 1 && entries[1..][(i - 2) / 2] == entries[i / 2];
    }
  }

  // ---------- The bytes of a dump are those lines ----------

  lemma {:induction false} HeaderFlat<S>(cfg: Config<S>, j: nat)
    requires cfg.txLen >= 12 && j <= cfg.headerCount
    ensures Concat(HeaderCells(cfg, j)) == Tabbed(HeaderFields(cfg, j))
    decreases cfg.headerCount - j
  {
    if j < cfg.headerCount {
      HeaderFlat(cfg, j + 1);
      DecimalLength(j, 3);
      assert Pow10(3) == 1000;
      assert Printed(cfg, "\t" + Numeral(j)) == "\t" + Numeral(j);
      assert HeaderCells(cfg, j)[1..] == HeaderCells(cfg, j + 1);
      assert HeaderFields(cfg, j)[1..] == HeaderFields(cfg, j + 1);
    }
  }

  lemma {:induction false} CellsFlat<S>(cfg: Config<S>, sys: System<S>, m: seq<S>, k: Kind, j: nat)
    requires cfg.txLen >= 12 && j <= cfg.headerCount && Fits(Leaves(sys), |m|)
    ensures Concat(Cells(cfg, sys, m, k, j)) == Tabbed(Readings(cfg, sys, m, k)[j..])
    decreases cfg.headerCount - j
  {
    if j < cfg.headerCount {
      var r := GuardedRead(sys, m, k, j);
      CellsFlat(cfg, sys, m, k, j + 1);
      ConcatResult(cfg, r);
      ConcatOne("\t");
      ConcatAppend(["\t"], ResultPieces(cfg, r));
      ConcatAppend(["\t"] + ResultPieces(cfg, r), Cells(cfg, sys, m, k, j + 1));
      var all := Readings(cfg, sys, m, k);
      assert all[j..][1..] == all[j + 1..] && all[j..][0] == ResultText(r);
    }
  }

  lemma RowFlat<S>(cfg: Config<S>, id: u8, sys: System<S>, m: seq<S>, k: Kind)
    requires cfg.txLen >= 12 && Fits(Leaves(sys), |m|)
    ensures Concat(Row(cfg, id, sys, m, k)) == RowLine(cfg, id, sys, m, k) + "\n"
  {
    DecimalLength(id, 3);
    assert Pow10(3) == 1000;
    var title := Title(id, k);
    assert Printed(cfg, title) == title;
    CellsFlat(cfg, sys, m, k, 0);
    assert Readings(cfg, sys, m, k)[0..] == Readings(cfg, sys, m, k);
    ConcatOne(title);
    ConcatOne("\n");
    ConcatAppend([title], Cells(cfg, sys, m, k, 0));
    ConcatAppend([title] + Cells(cfg, sys, m, k, 0), ["\n"]);
  }

  lemma JoinedTwo(x: string, y: string, rows: seq<string>)
    ensures Joined([x, y] + rows) == x + "\n" + (y + "\n" + Joined(rows))
  {
    assert [x, y] + rows == [x] + ([y] + rows);
    assert ([x] + ([y] + rows))[1..] == [y] + rows && ([y] + rows)[1..] == rows;
  }

  lemma ConcatThree(a: seq<string>, b: seq<string>, c: seq<string>)
    ensures Concat(a + b + c) == Concat(a) + (Concat(b) + Concat(c))
  {
    ConcatAppend(a, b);
    ConcatAppend(a + b, c);
    Assoc(Concat(a), Concat(b), Concat(c));
  }

  lemma {:induction false} RowsFlat<S>(cfg: Config<S>, entries: seq<Entry<S>>, m: seq<S>)
    requires cfg.txLen >= 12 && Dumpable(entries, |m|)
    ensures Concat(Rows(cfg, entries, m)) == Joined(RowLines(cfg, entries, m))
  {
    if entries != [] {
      var e := entries[0];
      RowFlat(cfg, e.id, e.system.value, m, Input);
      RowFlat(cfg, e.id, e.system.value, m, Output);
      RowsFlat(cfg, entries[1..], m);
      ConcatThree(Row(cfg, e.id, e.system.value, m, Input), Row(cfg, e.id, e.system.value, m, Output), Rows(cfg, entries[1..], m));
      JoinedTwo(RowLine(cfg, e.id, e.system.value, m, Input), RowLine(cfg, e.id, e.system.value, m, Output),
        RowLines(cfg, entries[1..], m));
    }
  }

  lemma HeaderLineFlat<S>(cfg: Config<S>)
    requires cfg.txLen >= 12
    ensures Concat([Printed(cfg, "sys")] + HeaderCells(cfg, 0) + ["\n"]) == "sys" + Tabbed(HeaderFields(cfg, 0)) + "\n"
  {
    var cells := HeaderCells(cfg, 0);
    assert Printed(cfg, "sys") == "sys";
    HeaderFlat(cfg, 0);
    ConcatOne("sys");
    ConcatOne("\n");
    ConcatAppend(["sys"], cells);
    ConcatAppend(["sys"] + cells, ["\n"]);
  }

  lemma HeaderLineFields<S>(cfg: Config<S>)
    ensures Fields("sys" + Tabbed(HeaderFields(cfg, 0))) == ["sys"] + HeaderFields(cfg, 0)
  {
    forall i | 0 <= i < cfg.headerCount ensures Plain(HeaderFields(cfg, 0)[i]) {
      HeaderPlain(cfg, 0, i);
    }
    TabbedFields("sys", HeaderFields(cfg, 0));
  }

  lemma {:induction false} TabbedUnbroken(cells: seq<string>)
    requires forall i :: 0 <= i < |cells| ==> Plain(cells[i])
    ensures Unbroken(Tabbed(cells))
  {
    if cells != [] {
      TabbedUnbroken(cells[1..]);
    }
  }

  lemma RowUnbroken<S>(cfg: Config<S>, id: u8, sys: System<S>, m: seq<S>, k: Kind)
    requires Fits(Leaves(sys), |m|)
    ensures Unbroken(RowLine(cfg, id, sys, m, k))
  {
    var cells := Readings(cfg, sys, m, k);
    TitlePlain(id, k);
    forall i | 0 <= i < |cells| ensures Plain(cells[i]) {
      ResultPlain(GuardedRead(sys, m, k, i));
    }
    TabbedUnbroken(cells);
  }

  lemma {:induction false} RowsUnbroken<S>(cfg: Config<S>, entries: seq<Entry<S>>, m: seq<S>, i: nat)
    requires Dumpable(entries, |m|) && i < 2 * |entries|
    ensures Unbroken(RowLines(cfg, entries, m)[i])
    decreases i
  {
    var e := entries[0];
    if i < 2 {
      RowUnbroken(cfg, e.id, e.system.value, m, if i == 0 then Input else Output);
    } else {
      RowsUnbroken(cfg, entries[1..], m, i - 2);
      assert RowLines(cfg, entries, m)[i] == RowLines(cfg, entries[1..], m)[i - 2];
    }
  }

  lemma TableUnbroken<S>(cfg: Config<S>, entries: seq<Entry<S>>, m: seq<S>, i: nat)
    requires Dumpable(entries, |m|) && i <= 2 * |entries|
    ensures Unbroken(TableLines(cfg, entries, m)[i])
  {
    if i == 0 {
      forall j | 0 <= j < cfg.headerCount ensures Plain(HeaderFields(cfg, 0)[j]) {
        HeaderPlain(cfg, 0, j);
      }
      TabbedUnbroken(HeaderFields(cfg, 0));
    } else {
      RowsUnbroken(cfg, entries, m, i - 1);
    }
  }

  /** The lines of a dump body are exactly the header line and two lines for each system, each ended by a
      newline; the header names the columns. */
  lemma DumpIsTable<S>(cfg: Config<S>, entries: seq<Entry<S>>, m: seq<S>)
    requires cfg.txLen >= 12 && Dumpable(entries, |m|)
    ensures Concat(DumpBody(cfg, entries, m)) == Joined(TableLines(cfg, entries, m))
    ensures Lines(Concat(DumpBody(cfg, entries, m))) == TableLines(cfg, entries, m)
    ensures Unfinished(Concat(DumpBody(cfg, entries, m))) == ""
    ensures |TableLines(cfg, entries, m)| == 1 + 2 * |entries|
    ensures Fields(TableLines(cfg, entries, m)[0]) == ["sys"] + HeaderFields(cfg, 0)
    ensures |HeaderFields(cfg, 0)| == cfg.headerCount
  {
    var top, rows := [Printed(cfg, "sys")] + HeaderCells(cfg, 0) + ["\n"], Rows(cfg, entries, m);
    HeaderLineFlat(cfg);
    HeaderLineFields(cfg);
    RowsFlat(cfg, entries, m);
    ConcatAppend(top, rows);
    assert TableLines(cfg, entries, m)[1..] == RowLines(cfg, entries, m);
    forall i | 0 <= i <= 2 * |entries| ensures Unbroken(TableLines(cfg, entries, m)[i]) {
      TableUnbroken(cfg, entries, m, i);
    }
    JoinedLines(TableLines(cfg, entries, m));
  }
}
