/**
 * The Sherdog profile extractor (fetch.py): a profile page, as the list of its text lines,
 * gives the attribute table, the win/loss breakdown, the biography properties and the
 * professional and amateur fight histories. The code is Python 2: `/` on integers floors,
 * and a slice with a negative bound counts from the end of the list.
 */
module Sherdog {
  import opened Text
  import opened Records
  import opened Fightmetric

  // ===========================================================================
  // parse_fighter_stats (fetch.py:60-124)
  // ===========================================================================

  /** `parse_fighter_stats`: the attribute table of `parse_stats`, with the converters of this
      file, which have no `--` guard. */
  method ParseFighterStats(page: seq<string>) returns (r: Result<map<string, Value>>)
    ensures r == StatsOf(page, Metrics, false)
    ensures r.Ok? ==> r.value.Keys == set m | m in Metrics
    ensures r.Ok? ==> forall m :: m in Metrics ==> StatValue(page, m, false) == Ok(r.value[m])
    ensures r.Ok? <==> forall m :: m in Metrics ==> StatValue(page, m, false).Ok?
  {
    r := ParseStats(page, Metrics, false);
    StatsOfSpec(page, Metrics, false);
  }

  /** The table holds exactly the listed attributes, each with its own converted value, and it
      exists exactly when each of them converts. */
  lemma {:induction false} StatsOfSpec(page: seq<string>, metrics: seq<string>, guard: bool)
    ensures StatsOf(page, metrics, guard).Ok? ==> StatsOf(page, metrics, guard).value.Keys == set m | m in metrics
    ensures StatsOf(page, metrics, guard).Ok? ==>
      forall m :: m in metrics ==> StatValue(page, m, guard) == Ok(StatsOf(page, metrics, guard).value[m])
    ensures StatsOf(page, metrics, guard).Ok? <==> forall m :: m in metrics ==> StatValue(page, m, guard).Ok?
  {
    var f := m => StatValue(page, m, guard);
    assert StatsOf(page, metrics, guard) == Tabulate(metrics, f);
    TabulateOk(metrics, f);
    assert forall m :: m in metrics ==> f(m) == StatValue(page, m, guard);
  }

  /** Without the guard a value converts no more often than with it, and where the two differ
      the guarded one is the placeholder 0. */
  lemma {:induction false} GuardOnlyRescues(metric: string, v: string)
    ensures ConvertStat(metric, v, false).Ok? ==> ConvertStat(metric, v, true).Ok?
    ensures ConvertStat(metric, v, true) != ConvertStat(metric, v, false) ==> ConvertStat(metric, v, true) == Ok(Num(0.0))
    ensures ConvertStat(metric, v, true) != ConvertStat(metric, v, false) && metric != "Height" ==>
      ConvertStat(metric, v, false).Err?
  {
    if !Contains(v, "%") {
      if metric == "Height" {
        HeightGuard(v);
      } else if metric == "Weight" {
        WeightGuard(v);
      } else if metric == "Reach" {
        ReachGuard(v);
      }
    }
  }

  /** A `--` token past the first two is ignored without the guard but zeroes the height with it. */
  lemma {:induction false} HeightGuard(v: string)
    ensures FtToCm(v, false).Ok? ==> FtToCm(v, true).Ok?
    ensures FtToCm(v, true) != FtToCm(v, false) ==> FtToCm(v, true) == Ok(0.0)
  {
    var tokens := Split(Replace(Replace(v, "\"", ""), "'", ""));
    if "--" in tokens {
      var j :| 0 <= j < |tokens| && tokens[j] == "--";
      BadToken(tokens, j);
    }
  }

  lemma {:induction false} ReachGuard(v: string)
    ensures InToCm(v, false).Ok? ==> InToCm(v, true) == InToCm(v, false)
    ensures InToCm(v, true) != InToCm(v, false) ==> InToCm(v, true) == Ok(0.0) && InToCm(v, false).Err?
  {
    if Replace(v, "\"", "") == "--" {
      NotANumber("--");
    }
  }

  lemma {:induction false} WeightGuard(v: string)
    ensures LbsToKg(v, false).Ok? ==> LbsToKg(v, true) == LbsToKg(v, false)
    ensures LbsToKg(v, true) != LbsToKg(v, false) ==> LbsToKg(v, true) == Ok(0.0) && LbsToKg(v, false).Err?
  {
    if Replace(v, "lbs.", "") == "--" {
      NotANumber("--");
    }
  }

  lemma {:induction false} NotANumber(s: string)
    requires s == "--"
    ensures ToNumber(s).Err?
  {
    StripNoSpace(s);
  }

  /** A `--` among the first two tokens makes the unguarded height fail; a later one is never read. */
  lemma {:induction false} BadToken(tokens: seq<string>, j: nat)
    requires j < |tokens| && tokens[j] == "--"
    ensures FeetInches(tokens, false).Ok? ==> j >= 2
    ensures FeetInches(tokens, true) == Ok(0.0)
  {
    assert "--" in tokens;
    NotANumber("--");
  }

  // ===========================================================================
  // Python's list slice
  // ===========================================================================

  /** A slice bound: a negative one counts from the end, and the result is clamped to the list. */
  function Bound(i: int, n: nat): (r: nat)
    ensures r <= n
    ensures 0 <= i <= n ==> r == i
  {
    if i < 0 then (if i + n < 0 then 0 else i + n)
    else if i > n then n
    else i
  }

  /** `s[start:stop]`, with None for an omitted stop. */
  function Slice<T>(s: seq<T>, start: int, stop: Option<int>): (r: seq<T>)
    ensures |r| <= |s|
  {
    var a := Bound(start, |s|);
    var b := match stop case None => |s| case Some(e) => Bound(e, |s|);
    if a < b then s[a..b] else []
  }

  // ===========================================================================
  // parse_fighthistory (fetch.py:171-220)
  // ===========================================================================

  const FightHistoryMark: string := "Fight History"
  const AmateurMark: string := "Amateur Fights"
  const TableOpen: string := "<table"
  const TableClose: string := "</table>"
  const ModuleBlack: string := "<div class=\"module black\">"

  /** The scan variables: which section is current, and the last table start and stop line seen
      in each section (None while unassigned). */
  datatype Sections = Sections(ufc: bool, amateur: bool,
    ufcStart: Option<nat>, ufcStop: Option<nat>, amaStart: Option<nat>, amaStop: Option<nat>)

  const NoSections: Sections := Sections(false, false, None, None, None, None)

  /** One line `p` at index `i`: a section heading switches the section; a table tag updates the
      current section's index. */
  function SectionStep(st: Sections, i: nat, p: string): Sections
  {
    var ufc := if Contains(p, FightHistoryMark) then true else if Contains(p, AmateurMark) then false else st.ufc;
    var amateur := if Contains(p, FightHistoryMark) then false else if Contains(p, AmateurMark) then true else st.amateur;
    var opens := Contains(p, TableOpen);
    var closes := Contains(p, TableClose);
    Sections(ufc, amateur,
      if opens && ufc then Some(i) else st.ufcStart,
      if closes && ufc then Some(i) else st.ufcStop,
      if opens && !ufc && amateur then Some(i) else st.amaStart,
      if closes && !ufc && amateur then Some(i) else st.amaStop)
  }

  /** The variables after the first `n` lines. */
  function SectionsUpTo(page: seq<string>, n: nat): Sections
    requires n <= |page|
  {
    if n == 0 then NoSections
    else SectionStep(SectionsUpTo(page, n - 1), n - 1, page[n - 1])
  }

  /** The number of lines the loop reads: through the first `module black` line, or all. */
  function LinesRead(page: seq<string>, i: nat): (n: nat)
    requires i <= |page|
    decreases |page| - i
    ensures i <= n <= |page|
    ensures forall j :: i <= j < n - 1 ==> !Contains(page[j], ModuleBlack)
    ensures n < |page| ==> n > i && Contains(page[n - 1], ModuleBlack)
  {
    if i == |page| then i
    else if Contains(page[i], ModuleBlack) then i + 1
    else LinesRead(page, i + 1)
  }

  /** The four index variables by name. */
  datatype Slot = UfcStart | UfcStop | AmaStart | AmaStop

  function SlotOf(st: Sections, s: Slot): Option<nat>
  {
    match s
    case UfcStart => st.ufcStart
    case UfcStop => st.ufcStop
    case AmaStart => st.amaStart
    case AmaStop => st.amaStop
  }

  /** Line `j` is one the slot records: it holds the slot's tag, and the section current after
      reading it is the slot's section. */
  predicate Marks(page: seq<string>, j: nat, s: Slot)
    requires j < |page|
  {
    var st := SectionsUpTo(page, j + 1);
    Contains(page[j], if s == UfcStart || s == AmaStart then TableOpen else TableClose)
    && (if s == UfcStart || s == UfcStop then st.ufc else !st.ufc && st.amateur)
  }

  /** At most one section is current at any time. */
  lemma {:induction false} OneSection(page: seq<string>, n: nat)
    requires n <= |page|
    ensures !(SectionsUpTo(page, n).ufc && SectionsUpTo(page, n).amateur)
  {
    if n > 0 {
      OneSection(page, n - 1);
    }
  }

  /** One line moves a slot to that line exactly when the line is one the slot records. */
  lemma {:induction false} SlotStep(page: seq<string>, n: nat, s: Slot)
    requires 0 < n <= |page|
    ensures SlotOf(SectionsUpTo(page, n), s)
      == if Marks(page, n - 1, s) then Some(n - 1) else SlotOf(SectionsUpTo(page, n - 1), s)
  {
  }

  /** Each index variable, once assigned, holds the last line among those read that the slot
      records. */
  lemma {:induction false} SlotIsLast(page: seq<string>, n: nat, s: Slot)
    requires n <= |page|
    ensures SlotOf(SectionsUpTo(page, n), s).Some? ==>
      (SlotOf(SectionsUpTo(page, n), s).value < n
      && Marks(page, SlotOf(SectionsUpTo(page, n), s).value, s)
      && forall j :: SlotOf(SectionsUpTo(page, n), s).value < j < n ==> !Marks(page, j, s))
  {
    if n > 0 {
      SlotIsLast(page, n - 1, s);
      SlotStep(page, n, s);
      var before := SlotOf(SectionsUpTo(page, n - 1), s);
      if !Marks(page, n - 1, s) && before.Some? {
        forall j | before.value < j < n ensures !Marks(page, j, s) {
          if j < n - 1 {
            assert before.value < j < n - 1;
          }
        }
      }
    }
  }

  /** An index variable is unassigned only when no line read is one the slot records. */
  lemma {:induction false} SlotUnset(page: seq<string>, n: nat, s: Slot)
    requires n <= |page|
    ensures SlotOf(SectionsUpTo(page, n), s).None? ==> forall j :: 0 <= j < n ==> !Marks(page, j, s)
  {
    if n > 0 {
      SlotUnset(page, n - 1, s);
      SlotStep(page, n, s);
      if SlotOf(SectionsUpTo(page, n), s).None? {
        forall j | 0 <= j < n ensures !Marks(page, j, s) {
          if j < n - 1 {
            assert 0 <= j < n - 1;
          }
        }
      }
    }
  }

  /** Python's `strip_html(k).strip()` on each line, keeping the non-empty results. */
  function Cells(lines: seq<string>): (r: seq<string>)
    ensures |r| <= |lines|
    ensures forall c :: c in r ==> c != ""
  {
    if lines == [] then []
    else
      var c := Strip(StripHtml(lines[|lines| - 1]));
      Cells(lines[..|lines| - 1]) + (if c != "" then [c] else [])
  }

  /** `{hstring[i]: hstring[i + k*6] for i in range(0, 6)}` with the shift `k*6` given as
      `at`: later headers overwrite earlier equal ones. */
  function RowDict(cells: seq<string>, at: nat, i: nat): (r: map<string, string>)
    requires i <= 6 && at + 6 <= |cells|
    ensures r.Keys == set j | 0 <= j < i :: cells[j]
  {
    if i == 0 then map[] else RowDict(cells, at, i - 1)[cells[i - 1] := cells[at + i - 1]]
  }

  /** Python 2's `len(hstring)/6 - 1` as a count for `range`: negative counts give no rows. */
  function RowCount(cells: seq<string>): (n: nat)
    ensures 6 * (n + 1) <= |cells| || n == 0
  {
    if |cells| / 6 >= 1 then |cells| / 6 - 1 else 0
  }

  /** The records as the comprehension builds them: record k reads line `i + k*6`, so record 0
      pairs each header with itself and the last row is never read. */
  function RecordsAsWritten(cells: seq<string>): (r: seq<map<string, string>>)
  {
    seq(RowCount(cells), k requires 0 <= k < RowCount(cells) => RowDict(cells, 6 * k, 6))
  }

  /** The records the header row implies: record k pairs header i with line `i + (k+1)*6`, the
      k-th row under the header. */
  function TableRecords(cells: seq<string>): (r: seq<map<string, string>>)
  {
    seq(RowCount(cells), k requires 0 <= k < RowCount(cells) => RowDict(cells, 6 * (k + 1), 6))
  }

  /** With six distinct headers, each header maps to the cell below it in its row. */
  lemma {:induction false} RowDictReads(cells: seq<string>, at: nat, i: nat, j: nat)
    requires i <= 6 && at + 6 <= |cells| && j < i
    requires forall a, b :: 0 <= a < b < 6 ==> cells[a] != cells[b]
    ensures RowDict(cells, at, i)[cells[j]] == cells[at + j]
  {
    if j < i - 1 {
      RowDictReads(cells, at, i - 1, j);
    }
  }

  /** The corrected table: one record per row under the header, each holding its row's cells
      under the six headers. */
  lemma {:induction false} TableRecordsSpec(cells: seq<string>)
    requires |cells| >= 6 && forall a, b :: 0 <= a < b < 6 ==> cells[a] != cells[b]
    ensures |TableRecords(cells)| == |cells| / 6 - 1
    ensures forall k :: 0 <= k < |TableRecords(cells)| ==> TableRecords(cells)[k].Keys == set j | 0 <= j < 6 :: cells[j]
    ensures forall k, j :: 0 <= k < |TableRecords(cells)| && 0 <= j < 6 ==>
      TableRecords(cells)[k][cells[j]] == cells[6 * (k + 1) + j]
  {
    forall k, j | 0 <= k < |TableRecords(cells)| && 0 <= j < 6
      ensures TableRecords(cells)[k][cells[j]] == cells[6 * (k + 1) + j]
    {
      RowDictReads(cells, 6 * (k + 1), 6, j);
    }
  }

  /** The records as written: record k holds line `6k + i` under header i, so the first record
      is the header row itself and each later record is the corrected record before it. */
  lemma {:induction false} RecordsAsWrittenSpec(cells: seq<string>)
    requires |cells| >= 6 && forall a, b :: 0 <= a < b < 6 ==> cells[a] != cells[b]
    ensures |RecordsAsWritten(cells)| == |cells| / 6 - 1
    ensures forall k :: 0 <= k < |RecordsAsWritten(cells)| ==> RecordsAsWritten(cells)[k].Keys == set j | 0 <= j < 6 :: cells[j]
    ensures forall k, j :: 0 <= k < |RecordsAsWritten(cells)| && 0 <= j < 6 ==>
      RecordsAsWritten(cells)[k][cells[j]] == cells[6 * k + j]
    ensures forall k :: 0 < k < |RecordsAsWritten(cells)| ==> RecordsAsWritten(cells)[k] == TableRecords(cells)[k - 1]
  {
    forall k, j | 0 <= k < |RecordsAsWritten(cells)| && 0 <= j < 6
      ensures RecordsAsWritten(cells)[k][cells[j]] == cells[6 * k + j]
    {
      RowDictReads(cells, 6 * k, 6, j);
    }
  }

  /** As written, a table with one row under its header gives one record that pairs each header
      with itself, so none of the row's cells appears in the result. */
  lemma {:induction false} RecordsAsWrittenLoseRow(cells: seq<string>)
    requires |cells| == 12 && forall a, b :: 0 <= a < b < 6 ==> cells[a] != cells[b]
    ensures |RecordsAsWritten(cells)| == 1
    ensures forall j :: 0 <= j < 6 ==> RecordsAsWritten(cells)[0][cells[j]] == cells[j]
    ensures forall j :: 0 <= j < 6 ==> TableRecords(cells)[0][cells[j]] == cells[6 + j]
  {
    forall j | 0 <= j < 6 ensures RecordsAsWritten(cells)[0][cells[j]] == cells[j] {
      RowDictReads(cells, 0, 6, j);
    }
    TableRecordsSpec(cells);
  }

  /** The records of one section as the comprehension builds them: none without a table; a
      table start without a stop leaves the stop variable unbound. */
  function Section(page: seq<string>, start: Option<nat>, stop: Option<nat>, stopName: string): Result<seq<map<string, string>>>
  {
    match start
    case None => Ok([])
    case Some(a) =>
      match stop
      case None => Err(NameError(stopName))
      case Some(b) => Ok(RecordsAsWritten(Cells(Slice(page, a, Some(b + 1)))))
  }

  /** `parse_fighthistory`: the professional and the amateur records. */
  function FightHistory(page: seq<string>): Result<(seq<map<string, string>>, seq<map<string, string>>)>
  {
    var st := SectionsUpTo(page, LinesRead(page, 0));
    match Section(page, st.ufcStart, st.ufcStop, "ufc_table_stop")
    case Err(e) => Err(e)
    case Ok(ufc) =>
      match Section(page, st.amaStart, st.amaStop, "amateur_table_stop")
      case Err(e) => Err(e)
      case Ok(ama) => Ok((ufc, ama))
  }

  /** A section's table runs from its last `<table` line through its last `</table>` line. */
  lemma {:induction false} SectionLines(page: seq<string>, a: nat, b: nat)
    requires a <= b < |page|
    ensures Slice(page, a, Some(b + 1)) == page[a..b + 1]
  {
  }

  /** `parse_fighthistory`: the loop over lines with its section flags, stopped by the first
      `module black` line, then the records of each section. */
  method ParseFightHistory(page: seq<string>) returns (r: Result<(seq<map<string, string>>, seq<map<string, string>>)>)
    ensures r == FightHistory(page)
  {
    var ufcStart, amateurStart := false, false;
    var ufcTableStart: Option<nat>, ufcTableStop: Option<nat> := None, None;
    var amateurTableStart: Option<nat>, amateurTableStop: Option<nat> := None, None;
    var i := 0;
    while i < |page|
      invariant 0 <= i <= |page|
      invariant SectionsUpTo(page, i) == Sections(ufcStart, amateurStart, ufcTableStart, ufcTableStop, amateurTableStart, amateurTableStop)
      invariant LinesRead(page, 0) == LinesRead(page, i)
    {
      var p := page[i];
      ufcStart, amateurStart, ufcTableStart, ufcTableStop, amateurTableStart, amateurTableStop :=
        HistoryLine(ufcStart, amateurStart, ufcTableStart, ufcTableStop, amateurTableStart, amateurTableStop, i, p);
      i := i + 1;
      if Contains(p, ModuleBlack) {
        break;
      }
    }
    var ufc := SectionRecords(page, ufcTableStart, ufcTableStop, "ufc_table_stop");
    if ufc.Err? {
      return Err(ufc.error);
    }
    var ama := SectionRecords(page, amateurTableStart, amateurTableStop, "amateur_table_stop");
    if ama.Err? {
      return Err(ama.error);
    }
    r := Ok((ufc.value, ama.value));
  }

  /** The body of the line loop: the section flags, then the table indices. */
  method HistoryLine(ufcStart: bool, amateurStart: bool, ufcTableStart: Option<nat>, ufcTableStop: Option<nat>,
    amateurTableStart: Option<nat>, amateurTableStop: Option<nat>, i: nat, p: string)
    returns (ufc: bool, amateur: bool, ufcOpen: Option<nat>, ufcClose: Option<nat>, amateurOpen: Option<nat>, amateurClose: Option<nat>)
    ensures Sections(ufc, amateur, ufcOpen, ufcClose, amateurOpen, amateurClose)
      == SectionStep(Sections(ufcStart, amateurStart, ufcTableStart, ufcTableStop, amateurTableStart, amateurTableStop), i, p)
  {
    ufc, amateur := ufcStart, amateurStart;
    ufcOpen, ufcClose, amateurOpen, amateurClose := ufcTableStart, ufcTableStop, amateurTableStart, amateurTableStop;
    if Contains(p, FightHistoryMark) {
      ufc, amateur := true, false;
    } else if Contains(p, AmateurMark) {
      ufc, amateur := false, true;
    }
    if Contains(p, TableOpen) {
      if ufc {
        ufcOpen := Some(i);
      } else if amateur {
        amateurOpen := Some(i);
      }
    }
    if Contains(p, TableClose) {
      if ufc {
        ufcClose := Some(i);
      } else if amateur {
        amateurClose := Some(i);
      }
    }
  }

  /** One section's records: its lines stripped, the empty ones dropped, then six cells a row. */
  method SectionRecords(page: seq<string>, start: Option<nat>, stop: Option<nat>, stopName: string)
    returns (r: Result<seq<map<string, string>>>)
    ensures r == Section(page, start, stop, stopName)
  {
    if start.None? {
      return Ok([]);
    }
    if stop.None? {
      return Err(NameError(stopName));
    }
    var history := Slice(page, start.value, Some(stop.value + 1));
    var cells := GatherCells(history);
    var records := ReadRecords(cells);
    r := Ok(records);
  }

  /** The non-empty stripped lines of a section, collected line by line. */
  method GatherCells(history: seq<string>) returns (cells: seq<string>)
    ensures cells == Cells(history)
  {
    cells := [];
    var i := 0;
    while i < |history|
      invariant 0 <= i <= |history|
      invariant cells == Cells(history[..i])
    {
      assert history[..i + 1][..i] == history[..i];
      var c := Strip(StripHtml(history[i]));
      if c != "" {
        cells := cells + [c];
      }
      i := i + 1;
    }
    assert history[..i] == history;
  }

  /** The outer comprehension: one dict per `k in range(len(hstring)/6 - 1)`. */
  method ReadRecords(cells: seq<string>) returns (records: seq<map<string, string>>)
    ensures records == RecordsAsWritten(cells)
  {
    records := [];
    var k := 0;
    while k < RowCount(cells)
      invariant 0 <= k <= RowCount(cells)
      invariant records == RecordsAsWritten(cells)[..k]
    {
      var row := ReadRow(cells, 6 * k);
      records := records + [row];
      k := k + 1;
    }
  }

  /** The inner comprehension `{hstring[i]: hstring[i + at] for i in range(0, 6)}`. */
  method ReadRow(cells: seq<string>, at: nat) returns (row: map<string, string>)
    requires at + 6 <= |cells|
    ensures row == RowDict(cells, at, 6)
  {
    row := map[];
    var j := 0;
    while j < 6
      invariant 0 <= j <= 6
      invariant row == RowDict(cells, at, j)
    {
      row := row[cells[j] := cells[at + j]];
      j := j + 1;
    }
  }

  // ===========================================================================
  // parse_spanclass (fetch.py:288-313)
  // ===========================================================================

  const SpanClose: string := "</span>"
  const SpanLimit: nat := 100

  /** The regular expression `<span class="cls">`, which has no special characters. */
  function SpanTag(cls: string): string
  {
    "<span class=\"" + cls + "\">"
  }

  /** The offset, from `k` on, of the first `</span>` after `start`, or the limit if there is
      none before it. The 7-character slice stripped equals `</span>` exactly when `</span>`
      occurs there. */
  function SpanEnd(p: string, start: nat, k: nat): (e: nat)
    requires k <= SpanLimit
    decreases SpanLimit - k
    ensures k <= e <= SpanLimit
  {
    if k == SpanLimit then SpanLimit
    else if OccursAt(p, SpanClose, start + k) then k
    else SpanEnd(p, start, k + 1)
  }

  /** `SpanEnd` is the first `</span>` from `k` on, within the limit. */
  lemma {:induction false} SpanEndSpec(p: string, start: nat, k: nat)
    requires k <= SpanLimit
    decreases SpanLimit - k
    ensures forall i :: start + k <= i < start + SpanEnd(p, start, k) ==> !OccursAt(p, SpanClose, i)
    ensures SpanEnd(p, start, k) < SpanLimit ==> OccursAt(p, SpanClose, start + SpanEnd(p, start, k))
  {
    if k < SpanLimit && !OccursAt(p, SpanClose, start + k) {
      SpanEndSpec(p, start, k + 1);
    }
  }

  /** The characters the inner loop collects from `start`: those before the first `</span>`, at
      most 100 of them; a line that ends first makes `p[start + k]` raise IndexError. */
  function RawSpan(p: string, start: nat): (r: Result<string>)
    ensures r.Ok? ==> start + |r.value| <= |p| && r.value == p[start..start + |r.value|]
    ensures r.Ok? ==> |r.value| == SpanEnd(p, start, 0)
    ensures r.Err? ==> r.error == IndexError && start + SpanEnd(p, start, 0) > |p|
  {
    var e := SpanEnd(p, start, 0);
    if start + e > |p| then Err(IndexError) else Ok(p[start..start + e])
  }

  /** One line: nothing if the tag does not occur, else the tag-stripped text after its first
      occurrence. */
  function SpanOf(p: string, tag: string): Option<Result<string>>
  {
    match IndexFrom(p, tag, 0)
    case None => None
    case Some(m) =>
      match RawSpan(p, m + |tag|)
      case Err(e) => Some(Err(e))
      case Ok(raw) => Some(Ok(StripHtml(raw)))
  }

  /** `parse_spanclass`: the texts of the lines that hold the tag, in order. */
  function Spans(lines: seq<string>, cls: string): Result<seq<string>>
  {
    if lines == [] then Ok([])
    else
      match Spans(lines[..|lines| - 1], cls)
      case Err(e) => Err(e)
      case Ok(texts) =>
        match SpanOf(lines[|lines| - 1], SpanTag(cls))
        case None => Ok(texts)
        case Some(Err(e)) => Err(e)
        case Some(Ok(t)) => Ok(texts + [t])
  }

  /** The number of lines that contain `key`. */
  function CountLines(lines: seq<string>, key: string): (n: nat)
    ensures n <= |lines|
  {
    if lines == [] then 0
    else CountLines(lines[..|lines| - 1], key) + (if Contains(lines[|lines| - 1], key) then 1 else 0)
  }

  /** One text per line that holds the tag, each at most 100 characters before tag stripping,
      and the whole fails exactly when some such line ends before its `</span>`. */
  lemma {:induction false} SpansSpec(lines: seq<string>, cls: string)
    ensures Spans(lines, cls).Ok? ==> |Spans(lines, cls).value| == CountLines(lines, SpanTag(cls))
    ensures Spans(lines, cls).Ok? <==> forall i :: 0 <= i < |lines| ==> SpanOf(lines[i], SpanTag(cls)) != Some(Err(IndexError))
    ensures Spans(lines, cls).Err? ==> Spans(lines, cls).error == IndexError
  {
    if lines != [] {
      var n := |lines| - 1;
      SpansSpec(lines[..n], cls);
      assert forall i :: 0 <= i < n ==> lines[..n][i] == lines[i];
      var m := IndexFrom(lines[n], SpanTag(cls), 0);
      if m.Some? {
        var raw := RawSpan(lines[n], m.value + |SpanTag(cls)|);
      }
    }
  }

  /** `parse_spanclass`: each line searched for the tag, then the character loop after it. */
  method ParseSpanclass(lines: seq<string>, cls: string) returns (r: Result<seq<string>>)
    ensures r == Spans(lines, cls)
  {
    var tag := SpanTag(cls);
    var texts: seq<string> := [];
    var i := 0;
    while i < |lines|
      invariant 0 <= i <= |lines|
      invariant Spans(lines[..i], cls) == Ok(texts)
    {
      assert lines[..i + 1][..i] == lines[..i];
      var found := SpanLine(lines[i], tag);
      match found {
        case None =>
        case Some(Err(e)) =>
          SpansAborts(lines, cls, i + 1);
          return Err(e);
        case Some(Ok(t)) =>
          texts := texts + [t];
      }
      i := i + 1;
    }
    assert lines[..i] == lines;
    r := Ok(texts);
  }

  /** `re.search` for the tag, then the character loop from the end of the match. */
  method SpanLine(p: string, tag: string) returns (r: Option<Result<string>>)
    ensures r == SpanOf(p, tag)
  {
    var m := IndexFrom(p, tag, 0);
    if m.None? {
      return None;
    }
    var raw := CollectSpan(p, m.value + |tag|);
    if raw.Err? {
      return Some(Err(raw.error));
    }
    r := Some(Ok(StripHtml(raw.value)));
  }

  /** The character loop: stop at `</span>`, else append the next character. */
  method CollectSpan(p: string, start: nat) returns (r: Result<string>)
    requires start <= |p|
    ensures r == RawSpan(p, start)
  {
    var text: string := [];
    var k := 0;
    while k < SpanLimit
      invariant 0 <= k <= SpanLimit
      invariant SpanEnd(p, start, 0) == SpanEnd(p, start, k)
      invariant start + k <= |p| && text == p[start..start + k]
    {
      var closes := OccursAt(p, SpanClose, start + k);
      SpanEndStep(p, start, k, closes);
      if closes {
        break;
      }
      if start + k >= |p| {
        return Err(IndexError);
      }
      assert p[start..start + k + 1] == text + [p[start + k]];
      text := text + [p[start + k]];
      k := k + 1;
    }
    r := Ok(text);
  }

  /** One step of the scan for `</span>`. */
  lemma {:induction false} SpanEndStep(p: string, start: nat, k: nat, closes: bool)
    requires k < SpanLimit && closes == OccursAt(p, SpanClose, start + k)
    ensures closes ==> SpanEnd(p, start, k) == k
    ensures !closes ==> SpanEnd(p, start, k) == SpanEnd(p, start, k + 1)
  {
  }

  lemma {:induction false} SpansAborts(lines: seq<string>, cls: string, k: nat)
    requires k <= |lines| && Spans(lines[..k], cls).Err?
    ensures Spans(lines, cls) == Spans(lines[..k], cls)
  {
    if k < |lines| {
      var front := lines[..|lines| - 1];
      assert front[..k] == lines[..k];
      SpansAborts(front, cls, k);
    } else {
      assert lines[..k] == lines;
    }
  }
}
