/**
 * The Fightmetric profile extractor (fightmetric.py): a profile page, as the
 * list of its text lines, becomes a list of attribute values, a list of bouts
 * and the set of profile links it mentions.
 */
module Fightmetric {
  import opened Text
  import opened Records

  // ===========================================================================
  // Unit conversions (fightmetric.py:302-344)
  // ===========================================================================

  const InchToCm: real := 2.54
  const FootToCm: real := 30.48
  const KgPerLb: real := 0.454

  /** `mins_to_sec`: "m:ss" becomes 60*m + ss. Fewer than two numbers raise IndexError. */
  function MinsToSec(s: string): (r: Result<real>)
  {
    MinutesSeconds(Split(Replace(s, ":", " ")))
  }

  /** The two leading fields of a time, read as minutes and seconds. */
  function MinutesSeconds(parts: seq<string>): (r: Result<real>)
  {
    if |parts| == 0 then Err(IndexError)
    else match ToNumber(parts[0])
      case Err(e) => Err(e)
      case Ok(mins) =>
        if |parts| < 2 then Err(IndexError)
        else match ToNumber(parts[1])
          case Err(e) => Err(e)
          case Ok(secs) => Ok(mins * 60.0 + secs)
  }

  /** `percent_to_prop`: "65%" becomes 0.65. */
  function PercentToProp(s: string): (r: Result<real>)
  {
    match ToNumber(Replace(s, "%", ""))
    case Err(e) => Err(e)
    case Ok(x) => Ok(x / 100.0)
  }

  /** `ft_to_cm`: quotes are deleted and the rest split into feet and inches. With
      `guard` (the Fightmetric copy) a `--` token means unknown and gives 0; the copy
      in fetch.py has no such guard. */
  function FtToCm(s: string, guard: bool): (r: Result<real>)
  {
    FeetInches(Split(Replace(Replace(s, "\"", ""), "'", "")), guard)
  }

  /** The two leading fields of a height, read as feet and inches. */
  function FeetInches(tokens: seq<string>, guard: bool): (r: Result<real>)
  {
    if guard && "--" in tokens then Ok(0.0)
    else if |tokens| == 0 then Err(IndexError)
    else match ToNumber(tokens[0])
      case Err(e) => Err(e)
      case Ok(feet) =>
        if |tokens| < 2 then Err(IndexError)
        else match ToNumber(tokens[1])
          case Err(e) => Err(e)
          case Ok(inches) => Ok(feet * FootToCm + inches * InchToCm)
  }

  /** `in_to_cm`: a reach such as 74" becomes centimetres; exactly `--` gives 0 when guarded. */
  function InToCm(s: string, guard: bool): (r: Result<real>)
  {
    var v := Replace(s, "\"", "");
    if guard && v == "--" then Ok(0.0)
    else match ToNumber(v)
      case Err(e) => Err(e)
      case Ok(inches) => Ok(inches * InchToCm)
  }

  /** `lbs_to_kg`: "185 lbs." becomes kilograms; exactly `--` gives 0 when guarded. */
  function LbsToKg(s: string, guard: bool): (r: Result<real>)
  {
    var v := Replace(s, "lbs.", "");
    if guard && v == "--" then Ok(0.0)
    else match ToNumber(v)
      case Err(e) => Err(e)
      case Ok(lbs) => Ok(lbs * KgPerLb)
  }

  /** A number printed in decimal: a non-empty run of digits. */
  predicate Numeral(s: string)
  {
    |s| > 0 && AllDigits(s)
  }

  lemma {:induction false} NumeralIsWord(s: string)
    requires Numeral(s)
    ensures IsWord(s) && s != "--"
  {
    forall j | 0 <= j < |s| ensures !IsSpace(s[j]) {
      assert IsDigit(s[j]);
    }
    assert IsDigit(s[0]);
  }

  lemma {:induction false} NoDigitIn(s: string, c: char)
    requires AllDigits(s) && !IsDigit(c)
    ensures c !in s
  {
    forall j | 0 <= j < |s| ensures s[j] != c {
      assert IsDigit(s[j]);
    }
  }

  /** Deleting a character that does not occur changes nothing. */
  lemma {:induction false} DeleteAbsent(s: string, c: char, rep: string)
    requires c !in s
    ensures Replace(s, [c], rep) == s
  {
    forall i: nat ensures !OccursAt(s, [c], i) {
      if i < |s| { assert s[i..i + 1] == [s[i]]; }
    }
    ReplaceAbsent(s, [c], rep);
  }

  /** Deleting a character from the end of a string that has it nowhere else. */
  lemma {:induction false} DropLast(s: string, c: char)
    requires c !in s
    ensures Replace(s + [c], [c], "") == s
  {
    ReplaceSkip(s, [c], [c], "");
    ReplaceHead([], [c], "");
    assert [c] + [] == [c];
  }

  /** Replacing the one occurrence of a character. */
  lemma {:induction false} ReplaceSeparator(a: string, b: string, c: char, rep: string)
    requires c !in a && c !in b
    ensures Replace(a + [c] + b, [c], rep) == a + rep + b
  {
    assert a + [c] + b == a + ([c] + b);
    ReplaceSkip(a, [c] + b, [c], rep);
    ReplaceHead(b, [c], rep);
    DeleteAbsent(b, c, rep);
    assert a + (rep + b) == a + rep + b;
  }

  lemma {:induction false} ToNumberNat(n: nat)
    ensures Numeral(NatToString(n)) && ToNumber(NatToString(n)) == Ok(n as real)
  {
    ParseNatToString(n);
  }

  lemma {:induction false} ToNumberSpace(s: string)
    requires Numeral(s)
    ensures ParseNumber(s + " ") == ParseNumber(s)
  {
    NumeralIsWord(s);
    assert (s + " ")[..|s + " "| - 1] == s;
    assert StripLeft(s + " ") == s + " ";
    assert !IsSpace(s[|s| - 1]);
    assert Strip(s + " ") == StripRight(s);
    assert Strip(s) == s by { StripNoSpace(s); }
    assert Strip(s + " ") == Strip(s);
  }

  lemma {:induction false} MinutesSecondsPair(a: string, b: string, x: real, y: real)
    requires ToNumber(a) == Ok(x) && ToNumber(b) == Ok(y)
    ensures MinutesSeconds([a, b]) == Ok(x * 60.0 + y)
  {
  }

  lemma {:induction false} MinutesSecondsNat(m: nat, sec: nat)
    ensures MinutesSeconds([NatToString(m), NatToString(sec)]) == Ok(m as real * 60.0 + sec as real)
  {
    ToNumberNat(m);
    ToNumberNat(sec);
    MinutesSecondsPair(NatToString(m), NatToString(sec), m as real, sec as real);
  }

  lemma {:induction false} FeetInchesPair(a: string, b: string, x: real, y: real, guard: bool)
    requires ToNumber(a) == Ok(x) && ToNumber(b) == Ok(y) && a != "--" && b != "--"
    ensures FeetInches([a, b], guard) == Ok(x * 30.48 + y * 2.54)
  {
  }

  /** "m:ss" with numerals on both sides splits into exactly those two fields. */
  lemma {:induction false} MinsToSecNumerals(a: string, b: string)
    requires Numeral(a) && Numeral(b)
    ensures MinsToSec(a + ":" + b) == MinutesSeconds([a, b])
  {
    NoDigitIn(a, ':');
    NoDigitIn(b, ':');
    ReplaceSeparator(a, b, ':', " ");
    assert a + [':'] + b == a + ":" + b;
    NumeralIsWord(a);
    NumeralIsWord(b);
    SplitTwoWords(a, b);
  }

  /** "m:ss" as Fightmetric prints a bout time converts to seconds. */
  lemma {:induction false} MinsToSecFormat(m: nat, sec: nat)
    ensures MinsToSec(NatToString(m) + ":" + NatToString(sec)) == Ok(m as real * 60.0 + sec as real)
  {
    ToNumberNat(m);
    ToNumberNat(sec);
    MinsToSecNumerals(NatToString(m), NatToString(sec));
    MinutesSecondsNat(m, sec);
  }

  /** A percentage as Fightmetric prints it converts to a proportion: "65%" gives 0.65. */
  lemma {:induction false} PercentFormat(n: nat)
    ensures PercentToProp(NatToString(n) + "%") == Ok(n as real / 100.0)
  {
    ToNumberNat(n);
    NoDigitIn(NatToString(n), '%');
    DropLast(NatToString(n), '%');
  }

  /** feet' inches" with numerals splits into exactly those two fields. */
  lemma {:induction false} FtToCmNumerals(a: string, b: string, guard: bool)
    requires Numeral(a) && Numeral(b)
    ensures FtToCm(a + "' " + b + "\"", guard) == FeetInches([a, b], guard)
  {
    var s1 := a + "' " + b;
    NoDigitIn(a, '"');
    NoDigitIn(b, '"');
    assert '"' !in s1;
    DropLast(s1, '"');
    assert s1 + ['"'] == a + "' " + b + "\"";
    NoDigitIn(a, '\'');
    NoDigitIn(b, '\'');
    assert '\'' !in " " + b;
    ReplaceSeparator(a, " " + b, '\'', "");
    assert a + ['\''] + (" " + b) == s1;
    assert a + "" + (" " + b) == a + " " + b;
    NumeralIsWord(a);
    NumeralIsWord(b);
    SplitTwoWords(a, b);
  }

  lemma {:induction false} FeetInchesNat(feet: nat, inches: nat, guard: bool)
    ensures FeetInches([NatToString(feet), NatToString(inches)], guard)
         == Ok(feet as real * 30.48 + inches as real * 2.54)
  {
    ToNumberNat(feet);
    ToNumberNat(inches);
    NumeralIsWord(NatToString(feet));
    NumeralIsWord(NatToString(inches));
    FeetInchesPair(NatToString(feet), NatToString(inches), feet as real, inches as real, guard);
  }

  /** A height printed as feet' inches" converts to centimetres: feet*30.48 + inches*2.54. */
  lemma {:induction false} FtToCmFormat(feet: nat, inches: nat, guard: bool)
    ensures FtToCm(NatToString(feet) + "' " + NatToString(inches) + "\"", guard)
         == Ok(feet as real * 30.48 + inches as real * 2.54)
  {
    ToNumberNat(feet);
    ToNumberNat(inches);
    FtToCmNumerals(NatToString(feet), NatToString(inches), guard);
    FeetInchesNat(feet, inches, guard);
  }

  /** A reach printed as inches" converts to centimetres. */
  lemma {:induction false} InToCmFormat(n: nat, guard: bool)
    ensures InToCm(NatToString(n) + "\"", guard) == Ok(n as real * 2.54)
  {
    var a := NatToString(n);
    ToNumberNat(n);
    NoDigitIn(a, '"');
    DropLast(a, '"');
    NumeralIsWord(a);
  }

  /** A weight printed as "N lbs." converts to kilograms. */
  lemma {:induction false} LbsToKgFormat(n: nat, guard: bool)
    ensures LbsToKg(NatToString(n) + " lbs.", guard) == Ok(n as real * 0.454)
  {
    var a := NatToString(n);
    ToNumberNat(n);
    NoDigitIn(a, 'l');
    assert a + " lbs." == (a + " ") + "lbs.";
    assert 'l' !in a + " ";
    ReplaceSkip(a + " ", "lbs.", "lbs.", "");
    ReplaceHead([], "lbs.", "");
    assert "lbs." + [] == "lbs.";
    assert Replace(a + " lbs.", "lbs.", "") == a + " ";
    assert a + " " != "--" by { assert IsDigit(a[0]); }
    ToNumberSpace(a);
  }


  /** The unknown-value placeholder: exactly `--` gives 0 under the guard and a
      ValueError without it (the fetch.py copies). */
  lemma {:induction false} PlaceholderGuard()
    ensures FtToCm("--", true) == Ok(0.0) && FtToCm("--", false).Err?
    ensures InToCm("--", true) == Ok(0.0) && InToCm("--", false).Err?
    ensures LbsToKg("--", true) == Ok(0.0) && LbsToKg("--", false).Err?
  {
    var d := "--";
    ReplaceAbsent(d, "\"", "") by {
      forall i: nat ensures !OccursAt(d, "\"", i) {
        if i < 2 { assert d[i..i + 1] == "-"; }
      }
    }
    ReplaceAbsent(d, "'", "") by {
      forall i: nat ensures !OccursAt(d, "'", i) {
        if i < 2 { assert d[i..i + 1] == "-"; }
      }
    }
    ReplaceShort(d, "lbs.", "");
    assert IsWord(d);
    SplitOneWord(d);
    StripNoSpace(d);
  }

  // ===========================================================================
  // Profile attributes: parse_stats (fightmetric.py:101-153)
  // ===========================================================================

  /** The attribute labels, in the order the source lists them. */
  const Metrics: seq<string> := ["Height", "Weight", "Reach", "STANCE", "DOB", "SLpM",
    "Str. Acc.", "SApM", "Str. Def", "TD Avg.", "TD Acc.", "TD Def.", "Sub. Avg."]

  /** How many lines below its label a metric's value is printed. */
  function Offset(metric: string): nat
  {
    if metric == "DOB" || metric == "SLpM" then 3 else 2
  }

  /** The indices, from `i` on, of the lines that contain `key`, in ascending order. */
  function MatchIndices(page: seq<string>, key: string, i: nat): (r: seq<nat>)
    decreases |page| - i
    ensures forall j :: j in r <==> i <= j < |page| && Contains(page[j], key)
    ensures forall a, b :: 0 <= a < b < |r| ==> r[a] < r[b]
  {
    if i >= |page| then []
    else
      var rest := MatchIndices(page, key, i + 1);
      if Contains(page[i], key) then
        assert forall a :: 0 <= a < |rest| ==> i < rest[a] by {
          forall a | 0 <= a < |rest| ensures i < rest[a] {
            assert rest[a] in rest;
          }
        }
        [i] + rest
      else rest
  }

  /** An ascending sequence lies between its first and its last element. */
  lemma {:induction false} SortedEnds(r: seq<nat>)
    requires forall a, b :: 0 <= a < b < |r| ==> r[a] < r[b]
    ensures forall j :: j in r ==> r[0] <= j <= r[|r| - 1]
  {
    forall j | j in r
      ensures r[0] <= j <= r[|r| - 1]
    {
      var a :| 0 <= a < |r| && r[a] == j;
      assert a == 0 || r[0] < r[a];
      assert a == |r| - 1 || r[a] < r[|r| - 1];
    }
  }

  /** `[page[i+k] for i,p in enumerate(page) if metric+':' in p][0]`: the comprehension reads the
      line k below EVERY matching line, so a match too close to the end raises IndexError even when
      an earlier match would do; no match at all raises IndexError on `[0]`. */
  function RawValue(page: seq<string>, metric: string): (r: Result<string>)
    ensures r.Err? ==> r.error == IndexError
    ensures r.Ok? <==>
      (exists i :: 0 <= i < |page| && Contains(page[i], metric + ":")) &&
      (forall i :: 0 <= i < |page| && Contains(page[i], metric + ":") ==> i + Offset(metric) < |page|)
    ensures r.Ok? ==> exists i :: (0 <= i < |page| && Contains(page[i], metric + ":")
      && (forall j :: 0 <= j < i ==> !Contains(page[j], metric + ":"))
      && i + Offset(metric) < |page| && r.value == page[i + Offset(metric)])
  {
    var k := Offset(metric);
    var ms := MatchIndices(page, metric + ":", 0);
    SortedEnds(ms);
    if ms == [] || ms[|ms| - 1] + k >= |page| then
      assert ms != [] ==> ms[|ms| - 1] in ms;
      Err(IndexError)
    else
      assert ms[0] in ms;
      Ok(page[ms[0] + k])
  }

  /** The unit dispatch of one attribute value (already stripped). A value with '%' is a
      proportion whatever the metric; Height, Weight and Reach have their own converters;
      DOB and STANCE stay text; everything else is a plain number. */
  function ConvertStat(metric: string, v: string, guard: bool): (r: Result<Value>)
  {
    if Contains(v, "%") then AsNumber(PercentToProp(v))
    else if metric == "Height" then AsNumber(FtToCm(v, guard))
    else if metric == "Weight" then AsNumber(LbsToKg(v, guard))
    else if metric == "Reach" then AsNumber(InToCm(v, guard))
    else if metric != "DOB" && metric != "STANCE" then AsNumber(ToNumber(v))
    else Ok(Str(v))
  }

  /** A converted number as a table value. */
  function AsNumber(x: Result<real>): Result<Value>
  {
    match x
    case Ok(v) => Ok(Value.Num(v))
    case Err(e) => Err(e)
  }

  /** One attribute: the raw line below its label, stripped and converted. */
  function StatValue(page: seq<string>, metric: string, guard: bool): Result<Value>
  {
    match RawValue(page, metric)
    case Err(e) => Err(e)
    case Ok(raw) => ConvertStat(metric, Strip(raw), guard)
  }

  /** The dispatch order: '%' wins over every metric-specific rule, only DOB and STANCE
      can come out as text, and every other successful value is a number. */
  lemma {:induction false} StatDispatch(metric: string, v: string, guard: bool)
    ensures Contains(v, "%") ==> ConvertStat(metric, v, guard) == AsNumber(PercentToProp(v))
    ensures (ConvertStat(metric, v, guard).Ok? && ConvertStat(metric, v, guard).value.Str?)
        <==> ((metric == "DOB" || metric == "STANCE") && !Contains(v, "%"))
    ensures ConvertStat(metric, v, guard).Ok? && metric != "DOB" && metric != "STANCE"
        ==> ConvertStat(metric, v, guard).value.Num?
  {
  }

  /** A table filled key by key from `f`, in order; the first key whose value fails aborts. */
  function Tabulate(keys: seq<string>, f: string -> Result<Value>): Result<map<string, Value>>
  {
    if keys == [] then Ok(map[])
    else
      var k := keys[|keys| - 1];
      match Tabulate(keys[..|keys| - 1], f)
      case Err(e) => Err(e)
      case Ok(table) =>
        match f(k)
        case Err(e) => Err(e)
        case Ok(v) => Ok(table[k := v])
  }

  /** The table is built exactly when every key's value is defined, and then it holds
      exactly the keys, each with its own value. */
  lemma {:induction false} TabulateOk(keys: seq<string>, f: string -> Result<Value>)
    ensures Tabulate(keys, f).Ok? <==> forall i :: 0 <= i < |keys| ==> f(keys[i]).Ok?
    ensures Tabulate(keys, f).Ok? ==> Tabulate(keys, f).value.Keys == set k | k in keys
    ensures Tabulate(keys, f).Ok? ==> forall k :: k in keys ==> Tabulate(keys, f).value[k] == f(k).value
  {
    if keys != [] {
      var n := |keys| - 1;
      var front := keys[..n];
      TabulateOk(front, f);
      assert keys == front + [keys[n]];
      assert forall i :: 0 <= i < n ==> front[i] == keys[i];
      if Tabulate(keys, f).Ok? {
        var table := Tabulate(front, f).value;
        assert Tabulate(keys, f).value == table[keys[n] := f(keys[n]).value];
        assert (set k | k in keys) == (set k | k in front) + {keys[n]};
      }
    }
  }

  /** Otherwise the error is that of the first key that fails. */
  lemma {:induction false} TabulateErr(keys: seq<string>, f: string -> Result<Value>)
    ensures Tabulate(keys, f).Err? ==> exists j :: (0 <= j < |keys|
      && f(keys[j]) == Err(Tabulate(keys, f).error)
      && forall i :: 0 <= i < j ==> f(keys[i]).Ok?)
  {
    if keys != [] {
      var n := |keys| - 1;
      var front := keys[..n];
      TabulateErr(front, f);
      TabulateOk(front, f);
      assert forall i :: 0 <= i < n ==> front[i] == keys[i];
      if Tabulate(front, f).Err? {
        var j :| 0 <= j < |front| && f(front[j]) == Err(Tabulate(front, f).error)
          && forall i :: 0 <= i < j ==> f(front[i]).Ok?;
        assert f(keys[j]) == Err(Tabulate(keys, f).error);
      }
    }
  }

  /** Once a key fails, the later ones are never reached. */
  lemma {:induction false} TabulateAborts(keys: seq<string>, f: string -> Result<Value>, k: nat)
    requires k <= |keys| && Tabulate(keys[..k], f).Err?
    ensures Tabulate(keys, f) == Tabulate(keys[..k], f)
  {
    if k < |keys| {
      var front := keys[..|keys| - 1];
      assert front[..k] == keys[..k];
      TabulateAborts(front, f, k);
    } else {
      assert keys[..k] == keys;
    }
  }

  /** The attribute table of a page. */
  function StatsOf(page: seq<string>, metrics: seq<string>, guard: bool): Result<map<string, Value>>
  {
    Tabulate(metrics, m => StatValue(page, m, guard))
  }

  /** `parse_stats` (with `guard`) and `parse_fighter_stats` in fetch.py (without), over the
      metric list both of them fix (`Metrics`). */
  method ParseStats(page: seq<string>, metrics: seq<string>, guard: bool) returns (r: Result<map<string, Value>>)
    ensures r == StatsOf(page, metrics, guard)
  {
    ghost var f := m => StatValue(page, m, guard);
    var stats: map<string, Value> := map[];
    var n := 0;
    while n < |metrics|
      invariant 0 <= n <= |metrics|
      invariant Tabulate(metrics[..n], f) == Ok(stats)
    {
      var metric := metrics[n];
      var v := StatValue(page, metric, guard);
      assert f(metric) == v;
      assert metrics[..n + 1][..n] == metrics[..n];
      if v.Err? {
        TabulateAborts(metrics, f, n + 1);
        return Err(v.error);
      }
      stats := stats[metric := v.value];
      n := n + 1;
    }
    assert metrics[..n] == metrics;
    return Ok(stats);
  }

  // ---------------------------------------------------------------------------
  // The bout table (parse_fights)
  // ---------------------------------------------------------------------------

  /** The scanner state of `parse_fights`: its counter, stored bouts, flags, header
      columns and text buffers. `current` is None while no bout has been opened yet
      (`current_fight` still unbound). */
  datatype Scan = Scan(
    ctr: nat,
    fights: seq<Fight>,
    openTd: bool,
    openOutcome: bool,
    openTh: bool,
    columns: seq<string>,
    currentTh: string,
    currentTd: string,
    current: Option<Fight>)

  const Start: Scan := Scan(0, [], false, false, false, [], "", "", None)

  /** Header cells: `<th` opens one, `</th` closes it and appends its text as a column
      name, and while one is open every line is gathered. */
  function HeaderStep(st: Scan, p: string): Scan
  {
    var st1 := if Contains(p, "<th") then st.(openTh := true, currentTh := "") else st;
    var st2 := if Contains(p, "</th") && st1.openTh
      then st1.(openTh := false, columns := st1.columns + [Strip(StripHtml(st1.currentTh))])
      else st1;
    if st2.openTh then st2.(currentTh := st2.currentTh + " " + p) else st2
  }

  /** A result marker starts a new bout holding only its outcome. */
  function OutcomeStep(st: Scan, p: string): Scan
  {
    var st1 := if Contains(p, "win<i")
      then st.(current := Some(map["outcome" := Scalar(Str("win"))]), openOutcome := true)
      else st;
    if Contains(p, "loss<i")
    then st1.(current := Some(map["outcome" := Scalar(Str("loss"))]), openOutcome := true)
    else st1
  }

  /** Inside a bout row, `<td` opens the next data cell. */
  function OpenCellStep(st: Scan, p: string): Scan
  {
    if Contains(p, "<td") && st.openOutcome
    then st.(ctr := st.ctr + 1, currentTd := "", openTd := true)
    else st
  }

  /** The text of a gathered cell: tags removed, stripped, newlines dropped. */
  function CellText(td: string): string
  {
    Replace(Strip(StripHtml(td)), "\n", "")
  }

  /** A cell's value by its column: Method stays text, Round is a number and Time a
      number of seconds (spaces removed first); every other column holds one value per
      fighter, the text cut in the middle with spaces removed from both halves, and
      those halves are numbers unless the column is W/L, Fighter or Event. */
  function ConvertCell(col: string, val: string): Result<Cell>
  {
    if col != "Method" && col != "Round" && col != "Time" then
      var mid := |val| / 2;
      var first := Replace(val[..mid], " ", "");
      var second := Replace(val[mid..], " ", "");
      if col != "W/L" && col != "Fighter" && col != "Event" then
        match ToNumber(first)
        case Err(e) => Err(e)
        case Ok(x) =>
          match ToNumber(second)
          case Err(e) => Err(e)
          case Ok(y) => Ok(Pair(Value.Num(x), Value.Num(y)))
      else Ok(Pair(Str(first), Str(second)))
    else
      var v := Replace(val, " ", "");
      if col == "Time" then
        match MinsToSec(v)
        case Err(e) => Err(e)
        case Ok(t) => Ok(Scalar(Value.Num(t)))
      else if col == "Round" then
        match ToNumber(v)
        case Err(e) => Err(e)
        case Ok(t) => Ok(Scalar(Value.Num(t)))
      else Ok(Scalar(Str(v)))
  }

  /** `</td` inside an open cell of a bout row: the cell is stored under the column
      its counter points at. */
  function CloseCellStep(st: Scan, p: string): Result<Scan>
  {
    if Contains(p, "</td") && st.openOutcome && st.openTd then
      if st.ctr >= |st.columns| then Err(IndexError)
      else
        var col := st.columns[st.ctr];
        match ConvertCell(col, CellText(st.currentTd))
        case Err(e) => Err(e)
        case Ok(cell) =>
          match st.current
          case None => Err(NameError("current_fight"))
          case Some(f) => Ok(st.(openTd := false, current := Some(f[col := cell])))
    else Ok(st)
  }

  /** While a cell of a bout row is open, every line is gathered. */
  function GatherStep(st: Scan, p: string): Scan
  {
    if st.openTd && st.openOutcome then st.(currentTd := st.currentTd + " " + p) else st
  }

  /** The first index from `i` where a letter is directly followed by a capital or a
      digit: the first match of `[a-zA-Z][A-Z0-9]`. */
  function CamelJoint(name: string, i: nat): (r: Option<nat>)
    decreases |name| - i
    ensures r.Some? ==> i <= r.value && r.value + 1 < |name|
    ensures r.Some? ==> IsLetter(name[r.value]) && IsUpperOrDigit(name[r.value + 1])
    ensures r.Some? ==> forall j :: i <= j < r.value ==> !(IsLetter(name[j]) && IsUpperOrDigit(name[j + 1]))
    ensures r.None? ==> forall j :: i <= j && j + 1 < |name| ==> !(IsLetter(name[j]) && IsUpperOrDigit(name[j + 1]))
  {
    if i + 1 >= |name| then None
    else if IsLetter(name[i]) && IsUpperOrDigit(name[i + 1]) then Some(i)
    else CamelJoint(name, i + 1)
  }

  /** A fighter name as scraped runs first and last name together ("JonJones"): the
      first letter-capital pair, wherever it recurs, gets a space put between its two
      characters. A name without such a pair raises IndexError. */
  function FixName(name: string): (r: Result<string>)
    ensures r.Ok? <==> exists j :: 0 <= j && j + 1 < |name| && IsLetter(name[j]) && IsUpperOrDigit(name[j + 1])
    ensures r.Err? ==> r.error == IndexError
    ensures r.Ok? ==> ' ' in r.value
  {
    match CamelJoint(name, 0)
    case None => Err(IndexError)
    case Some(i) =>
      var pair := name[i..i + 2];
      var joined := [name[i], ' ', name[i + 1]];
      ReplaceInserts(name, pair, joined, i, ' ');
      Ok(Replace(name, pair, joined))
  }

  /** `FixName` on one entry of the Fighter list: only text can be fixed. */
  function FixNameValue(v: Value): (r: Result<Value>)
    ensures r.Ok? ==> v.Str? && r.value.Str? && ' ' in r.value.s
  {
    match v
    case Str(name) =>
      (match FixName(name)
       case Err(e) => Err(e)
       case Ok(fixed) => Ok(Str(fixed)))
    case _ => Err(TypeError)
  }

  /** Both fighter names of a finished bout, fixed in order. */
  function FixFighters(f: Fight): Result<Fight>
  {
    if "Fighter" !in f then Err(KeyError("Fighter"))
    else
      match f["Fighter"]
      case Pair(a, b) =>
        (match FixNameValue(a)
         case Err(e) => Err(e)
         case Ok(a1) =>
           match FixNameValue(b)
           case Err(e) => Err(e)
           case Ok(b1) => Ok(f["Fighter" := Pair(a1, b1)]))
      case Scalar(_) => Err(TypeError)
  }

  /** `</tr>` when the counter has reached the last column: the bout's names are fixed,
      the bout is stored and the row closes. */
  function EndRowStep(st: Scan, p: string): Result<Scan>
  {
    if Contains(p, "</tr>") && st.ctr == |st.columns| - 1 then
      match st.current
      case None => Err(NameError("current_fight"))
      case Some(f) =>
        match FixFighters(f)
        case Err(e) => Err(e)
        case Ok(g) => Ok(st.(fights := st.fights + [g], openOutcome := false, ctr := 0, current := Some(g)))
    else Ok(st)
  }

  /** The checks on a line before any cell closes. */
  function Marked(st: Scan, p: string): Scan
  {
    OpenCellStep(OutcomeStep(HeaderStep(st, p), p), p)
  }

  /** One line of the page, through the checks in the order the scanner makes them. */
  function Step(st: Scan, p: string): Result<Scan>
  {
    var st1 := Marked(st, p);
    match CloseCellStep(st1, p)
    case Err(e) => Err(e)
    case Ok(st2) => EndRowStep(GatherStep(st2, p), p)
  }

  /** The scanner over a list of lines; the first error aborts. */
  function Run(st: Scan, lines: seq<string>): Result<Scan>
    decreases |lines|
  {
    if lines == [] then Ok(st)
    else
      match Step(st, lines[0])
      case Err(e) => Err(e)
      case Ok(st1) => Run(st1, lines[1..])
  }

  /** The bouts of a profile page. */
  function FightsOf(page: seq<string>): Result<seq<Fight>>
  {
    match Run(Start, page)
    case Err(e) => Err(e)
    case Ok(st) => Ok(st.fights)
  }

  /** The loop over the Fighter list of a finished bout (`FixFighters`). */
  method FixFighterNames(fight: Fight) returns (r: Result<Fight>)
    ensures r == FixFighters(fight)
  {
    if "Fighter" !in fight {
      return Err(KeyError("Fighter"));
    }
    if fight["Fighter"].Scalar? {
      return Err(TypeError);
    }
    var names := [fight["Fighter"].first, fight["Fighter"].second];
    var k := 0;
    while k < 2
      invariant 0 <= k <= 2 && |names| == 2
      invariant k == 0 ==> names[0] == fight["Fighter"].first
      invariant k >= 1 ==> FixNameValue(fight["Fighter"].first) == Ok(names[0])
      invariant k <= 1 ==> names[1] == fight["Fighter"].second
      invariant k == 2 ==> FixNameValue(fight["Fighter"].second) == Ok(names[1])
    {
      var fixed := FixNameValue(names[k]);
      if fixed.Err? {
        return Err(fixed.error);
      }
      names := names[k := fixed.value];
      k := k + 1;
    }
    return Ok(fight["Fighter" := Pair(names[0], names[1])]);
  }

  /** A run continues from the state the first line produces, or stops at its error. */
  lemma {:induction false} RunFirst(st: Scan, lines: seq<string>)
    requires lines != []
    ensures Step(st, lines[0]).Err? ==> Run(st, lines) == Err(Step(st, lines[0]).error)
    ensures Step(st, lines[0]).Ok? ==> Run(st, lines) == Run(Step(st, lines[0]).value, lines[1..])
  {
  }

  /** A line's step after its first three checks: the cell check decides the rest. */
  lemma {:induction false} StepAfterOpen(st: Scan, p: string, st1: Scan)
    requires st1 == Marked(st, p)
    ensures CloseCellStep(st1, p).Err? ==> Step(st, p) == Err(CloseCellStep(st1, p).error)
    ensures CloseCellStep(st1, p).Ok? ==> Step(st, p) == EndRowStep(GatherStep(CloseCellStep(st1, p).value, p), p)
  {
  }

  /** The first checks on a line: header cells, result markers and the opening of a
      data cell. */
  method MarkLine(st: Scan, p: string) returns (r: Scan)
    ensures r == Marked(st, p)
  {
    r := st;
    if Contains(p, "<th") {
      r := r.(openTh := true, currentTh := "");
    }
    if Contains(p, "</th") && r.openTh {
      r := r.(openTh := false, columns := r.columns + [Strip(StripHtml(r.currentTh))]);
    }
    if r.openTh {
      r := r.(currentTh := r.currentTh + " " + p);
    }
    assert r == HeaderStep(st, p);
    if Contains(p, "win<i") {
      r := r.(current := Some(map["outcome" := Scalar(Str("win"))]), openOutcome := true);
    }
    if Contains(p, "loss<i") {
      r := r.(current := Some(map["outcome" := Scalar(Str("loss"))]), openOutcome := true);
    }
    assert r == OutcomeStep(HeaderStep(st, p), p);
    if Contains(p, "<td") && r.openOutcome {
      r := r.(ctr := r.ctr + 1, currentTd := "", openTd := true);
    }
  }

  /** The closing of a data cell: its text is converted and stored under its column. */
  method CloseCell(st: Scan, p: string) returns (r: Result<Scan>)
    ensures r == CloseCellStep(st, p)
  {
    if Contains(p, "</td") && st.openOutcome && st.openTd {
      if st.ctr >= |st.columns| {
        return Err(IndexError);
      }
      var col := st.columns[st.ctr];
      var cell := ConvertCell(col, CellText(st.currentTd));
      if cell.Err? {
        return Err(cell.error);
      }
      if st.current.None? {
        return Err(NameError("current_fight"));
      }
      return Ok(st.(openTd := false, current := Some(st.current.value[col := cell.value])));
    }
    return Ok(st);
  }

  /** The end of a bout row: the bout's names are fixed and the bout is stored. */
  method EndRow(st: Scan, p: string) returns (r: Result<Scan>)
    ensures r == EndRowStep(st, p)
  {
    if Contains(p, "</tr>") && st.ctr == |st.columns| - 1 {
      if st.current.None? {
        return Err(NameError("current_fight"));
      }
      var fixed := FixFighterNames(st.current.value);
      if fixed.Err? {
        return Err(fixed.error);
      }
      return Ok(st.(fights := st.fights + [fixed.value], openOutcome := false, ctr := 0, current := Some(fixed.value)));
    }
    return Ok(st);
  }

  /** The body of the scanner's loop: the checks made on one line, in order. */
  method ScanLine(st: Scan, p: string) returns (r: Result<Scan>)
    ensures r == Step(st, p)
  {
    var st1 := MarkLine(st, p);
    StepAfterOpen(st, p, st1);
    var st2 := CloseCell(st1, p);
    if st2.Err? {
      return Err(st2.error);
    }
    var st3 := st2.value;
    if st3.openTd && st3.openOutcome {
      st3 := st3.(currentTd := st3.currentTd + " " + p);
    }
    r := EndRow(st3, p);
  }

  /** `parse_fights`: one pass over the page, line by line. */
  method ParseFights(page: seq<string>) returns (r: Result<seq<Fight>>)
    ensures r == FightsOf(page)
  {
    var st := Start;
    var i := 0;
    while i < |page|
      invariant 0 <= i <= |page|
      invariant Run(Start, page) == Run(st, page[i..])
    {
      assert page[i..][0] == page[i] && page[i..][1..] == page[i + 1..];
      RunFirst(st, page[i..]);
      var next := ScanLine(st, page[i]);
      if next.Err? {
        return Err(next.error);
      }
      st := next.value;
      i := i + 1;
    }
    assert page[i..] == [];
    return Ok(st.fights);
  }

  /** The shape of a stored cell: Method, Round and Time hold one value (Method as text,
      the other two as numbers); every other column holds a pair, of texts for W/L,
      Fighter and Event and of numbers otherwise. */
  lemma {:induction false} CellShape(col: string, val: string)
    ensures ConvertCell(col, val).Ok? && (col == "Method" || col == "Round" || col == "Time")
      ==> ConvertCell(col, val).value.Scalar? && (ConvertCell(col, val).value.v.Str? <==> col == "Method")
    ensures ConvertCell(col, val).Ok? && col != "Method" && col != "Round" && col != "Time"
      ==> (ConvertCell(col, val).value.Pair?
        && (ConvertCell(col, val).value.first.Str? <==> (col == "W/L" || col == "Fighter" || col == "Event"))
        && (ConvertCell(col, val).value.second.Str? <==> (col == "W/L" || col == "Fighter" || col == "Event")))
  {
  }

  /** A text pair is the cell cut in the middle: together the two halves hold every
      non-space character of the cell, in order, and neither holds a space. */
  lemma {:induction false} TextCellHalves(col: string, val: string)
    requires col == "W/L" || col == "Fighter" || col == "Event"
    ensures ConvertCell(col, val).Ok? && ConvertCell(col, val).value.Pair?
    ensures ConvertCell(col, val).value.first.Str? && ConvertCell(col, val).value.second.Str?
    ensures ConvertCell(col, val).value.first.s + ConvertCell(col, val).value.second.s == Replace(val, " ", "")
    ensures ' ' !in ConvertCell(col, val).value.first.s && ' ' !in ConvertCell(col, val).value.second.s
    ensures |ConvertCell(col, val).value.first.s| <= |val| / 2
  {
    var mid := |val| / 2;
    assert val == val[..mid] + val[mid..];
    ReplaceCharConcat(val[..mid], val[mid..], ' ', "");
    DeleteChar(val[..mid], ' ');
    DeleteChar(val[mid..], ' ');
  }

  /** A stored bout: it has its outcome and two fighter names, each with a space put in. */
  predicate WellFormedBout(f: Fight)
  {
    && "outcome" in f
    && "Fighter" in f
    && f["Fighter"].Pair?
    && f["Fighter"].first.Str? && ' ' in f["Fighter"].first.s
    && f["Fighter"].second.Str? && ' ' in f["Fighter"].second.s
  }

  /** What the scanner keeps true: an open row has its bout, a bout has its outcome, and
      every stored bout is well formed. */
  predicate Consistent(st: Scan)
  {
    && (st.openOutcome ==> st.current.Some?)
    && (st.current.Some? ==> "outcome" in st.current.value)
    && (forall f :: f in st.fights ==> WellFormedBout(f))
  }

  /** Fixing the names of a bout that has its outcome gives a well-formed bout. */
  lemma {:induction false} FixFightersWellFormed(f: Fight)
    requires "outcome" in f && FixFighters(f).Ok?
    ensures WellFormedBout(FixFighters(f).value)
  {
    var a := FixNameValue(f["Fighter"].first);
    var b := FixNameValue(f["Fighter"].second);
    assert FixFighters(f).value == f["Fighter" := Pair(a.value, b.value)];
  }

  /** Each line keeps the scanner consistent. */
  lemma {:induction false} StepConsistent(st: Scan, p: string)
    requires Consistent(st) && Step(st, p).Ok?
    ensures Consistent(Step(st, p).value)
  {
    var st1 := Marked(st, p);
    MarkedConsistent(st, p);
    StepAfterOpen(st, p, st1);
    CloseConsistent(st1, p);
    EndRowConsistent(GatherStep(CloseCellStep(st1, p).value, p), p);
  }

  lemma {:induction false} MarkedConsistent(st: Scan, p: string)
    requires Consistent(st)
    ensures Consistent(Marked(st, p))
  {
    var h := HeaderStep(st, p);
    HeaderKeepsRow(st, p);
    assert Consistent(h);
    var o := OutcomeStep(h, p);
    assert Consistent(o);
    CellOpenCounts(o, p);
  }

  lemma {:induction false} CloseConsistent(st: Scan, p: string)
    requires Consistent(st) && CloseCellStep(st, p).Ok?
    ensures Consistent(GatherStep(CloseCellStep(st, p).value, p))
  {
  }

  lemma {:induction false} EndRowConsistent(st: Scan, p: string)
    requires Consistent(st) && EndRowStep(st, p).Ok?
    ensures Consistent(EndRowStep(st, p).value)
  {
    if Contains(p, "</tr>") && st.ctr == |st.columns| - 1 {
      FixFightersWellFormed(st.current.value);
    }
  }

  /** A whole run keeps the scanner consistent. */
  lemma {:induction false} RunConsistent(st: Scan, lines: seq<string>)
    requires Consistent(st) && Run(st, lines).Ok?
    ensures Consistent(Run(st, lines).value)
    decreases |lines|
  {
    if lines != [] {
      StepConsistent(st, lines[0]);
      RunConsistent(Step(st, lines[0]).value, lines[1..]);
    }
  }

  /** Every bout `parse_fights` returns has its outcome and both fighters' names, each
      with first and last name separated. */
  lemma {:induction false} FightsWellFormed(page: seq<string>)
    requires FightsOf(page).Ok?
    ensures forall f :: f in FightsOf(page).value ==> WellFormedBout(f)
  {
    RunConsistent(Start, page);
  }

  /** Whether a bout row is open once a line's result markers are seen. */
  predicate RowOpen(st: Scan, p: string)
  {
    st.openOutcome || Contains(p, "win<i") || Contains(p, "loss<i")
  }

  /** The row counter after a line's `<td`, counted only inside an open row. */
  function CellsCounted(st: Scan, p: string): nat
  {
    st.ctr + if Contains(p, "<td") && RowOpen(st, p) then 1 else 0
  }

  /** How one line moves the row counter: a bout is stored exactly when `</tr>` comes
      with the counter (after this line's `<td`) at the last column; then the counter
      resets and the row closes. Otherwise no bout is stored, the counter only counts
      the line's `<td` inside an open row, and a result marker opens the row. */
  lemma {:induction false} StepRow(st: Scan, p: string)
    requires Step(st, p).Ok?
    ensures Contains(p, "</tr>") && CellsCounted(st, p) == |Step(st, p).value.columns| - 1
      ==> (|Step(st, p).value.fights| == |st.fights| + 1
        && Step(st, p).value.fights[..|st.fights|] == st.fights
        && Step(st, p).value.ctr == 0 && !Step(st, p).value.openOutcome)
    ensures !(Contains(p, "</tr>") && CellsCounted(st, p) == |Step(st, p).value.columns| - 1)
      ==> (Step(st, p).value.fights == st.fights
        && Step(st, p).value.ctr == CellsCounted(st, p)
        && Step(st, p).value.openOutcome == RowOpen(st, p))
    ensures st.columns <= Step(st, p).value.columns
  {
    var st1 := Marked(st, p);
    MarkedCounts(st, p);
    StepAfterOpen(st, p, st1);
    CloseKeepsRow(st1, p);
    var st3 := GatherStep(CloseCellStep(st1, p).value, p);
    EndRowCounts(st3, p);
  }

  /** The first checks count the line's `<td` and open the row; they store no bout. */
  lemma {:induction false} MarkedCounts(st: Scan, p: string)
    ensures Marked(st, p).ctr == CellsCounted(st, p)
    ensures Marked(st, p).openOutcome == RowOpen(st, p)
    ensures Marked(st, p).fights == st.fights
    ensures st.columns <= Marked(st, p).columns
  {
    var h := HeaderStep(st, p);
    HeaderKeepsRow(st, p);
    OutcomeOpens(h, p);
    CellOpenCounts(OutcomeStep(h, p), p);
  }

  /** Header cells touch only the header state, and columns only grow. */
  lemma {:induction false} HeaderKeepsRow(st: Scan, p: string)
    ensures HeaderStep(st, p).(openTh := st.openTh, currentTh := st.currentTh, columns := st.columns) == st
    ensures st.columns <= HeaderStep(st, p).columns
  {
  }

  /** A result marker opens the row. */
  lemma {:induction false} OutcomeOpens(st: Scan, p: string)
    ensures OutcomeStep(st, p).openOutcome == (st.openOutcome || Contains(p, "win<i") || Contains(p, "loss<i"))
    ensures OutcomeStep(st, p).(openOutcome := st.openOutcome, current := st.current) == st
  {
  }

  /** `<td` inside an open row counts a cell. */
  lemma {:induction false} CellOpenCounts(st: Scan, p: string)
    ensures OpenCellStep(st, p).ctr == st.ctr + if Contains(p, "<td") && st.openOutcome then 1 else 0
    ensures OpenCellStep(st, p).(ctr := st.ctr, currentTd := st.currentTd, openTd := st.openTd) == st
  {
  }

  /** Closing and gathering a cell touch neither the counter, the row nor the bouts. */
  lemma {:induction false} CloseKeepsRow(st: Scan, p: string)
    requires CloseCellStep(st, p).Ok?
    ensures GatherStep(CloseCellStep(st, p).value, p).ctr == st.ctr
    ensures GatherStep(CloseCellStep(st, p).value, p).openOutcome == st.openOutcome
    ensures GatherStep(CloseCellStep(st, p).value, p).fights == st.fights
    ensures GatherStep(CloseCellStep(st, p).value, p).columns == st.columns
  {
  }

  /** The end of a row stores one bout and resets the counter, or changes nothing. */
  lemma {:induction false} EndRowCounts(st: Scan, p: string)
    requires EndRowStep(st, p).Ok?
    ensures EndRowStep(st, p).value.columns == st.columns
    ensures Contains(p, "</tr>") && st.ctr == |st.columns| - 1
      ==> (|EndRowStep(st, p).value.fights| == |st.fights| + 1
        && EndRowStep(st, p).value.fights[..|st.fights|] == st.fights
        && EndRowStep(st, p).value.ctr == 0 && !EndRowStep(st, p).value.openOutcome)
    ensures !(Contains(p, "</tr>") && st.ctr == |st.columns| - 1) ==> EndRowStep(st, p) == Ok(st)
  {
    if Contains(p, "</tr>") && st.ctr == |st.columns| - 1 {
      var g := FixFighters(st.current.value).value;
      assert (st.fights + [g])[..|st.fights|] == st.fights;
    }
  }

  /** Bouts once stored are never changed or dropped, and header columns only grow. */
  lemma {:induction false} RunKeepsBouts(st: Scan, lines: seq<string>)
    requires Run(st, lines).Ok?
    ensures st.fights <= Run(st, lines).value.fights
    ensures st.columns <= Run(st, lines).value.columns
    decreases |lines|
  {
    if lines != [] {
      var next := Step(st, lines[0]).value;
      StepRow(st, lines[0]);
      assert st.fights <= next.fights;
      RunKeepsBouts(next, lines[1..]);
    }
  }

  // ---------------------------------------------------------------------------
  // Profile links (find_url, get_fighter_urls)
  // ---------------------------------------------------------------------------

  /** The literal part of the link pattern `fightmetric.com/fighter-details/`. */
  const LinkPrefix: string := "fightmetric.com/fighter-details/"

  /** The pattern matches at `i`: every character as written, except that the `.` at
      index 11 is a regex wildcard (any character but a newline). */
  predicate PrefixAt(s: string, i: nat)
  {
    && i + |LinkPrefix| <= |s|
    && (forall k :: 0 <= k < |LinkPrefix| && k != 11 ==> s[i + k] == LinkPrefix[k])
    && s[i + 11] != '\n'
  }

  /** The end of the line segment that starts at `j`: the first newline from `j` on, or
      the end of the text. */
  function SegmentEnd(s: string, j: nat): (r: nat)
    requires j <= |s|
    decreases |s| - j
    ensures j <= r <= |s|
    ensures forall k :: j <= k < r ==> s[k] != '\n'
    ensures r < |s| ==> s[r] == '\n'
  {
    if j == |s| || s[j] == '\n' then j else SegmentEnd(s, j + 1)
  }

  /** The last `"` in `s[lo..hi]`. */
  function LastQuote(s: string, lo: nat, hi: nat): (r: Option<nat>)
    requires lo <= hi <= |s|
    decreases hi - lo
    ensures r.Some? ==> lo <= r.value < hi && s[r.value] == '"'
    ensures r.Some? ==> forall k :: r.value < k < hi ==> s[k] != '"'
    ensures r.None? ==> forall k :: lo <= k < hi ==> s[k] != '"'
  {
    if lo == hi then None
    else if s[hi - 1] == '"' then Some(hi - 1)
    else LastQuote(s, lo, hi - 1)
  }

  lemma {:induction false} PrefixHasNoNewline()
    ensures '\n' !in LinkPrefix
  {
  }

  /** A match of `fightmetric.com/fighter-details/.*"` starting at `i`: the greedy `.*`
      runs to the last `"` before the next newline; the result is the index of that quote. */
  function MatchAt(s: string, i: nat): (r: Option<nat>)
    ensures r.Some? ==> PrefixAt(s, i) && i + |LinkPrefix| <= r.value < |s| && s[r.value] == '"'
    ensures r.Some? ==> forall k :: i <= k < r.value ==> s[k] != '\n'
  {
    if PrefixAt(s, i) then
      var j := i + |LinkPrefix|;
      PrefixHasNoNewline();
      assert forall k :: i <= k < j ==> s[k] != '\n' by {
        forall k | i <= k < j ensures s[k] != '\n' {
          if k - i != 11 {
            assert s[k] == LinkPrefix[k - i];
          }
        }
      }
      LastQuote(s, j, SegmentEnd(s, j))
    else None
  }

  /** `re.findall` of the link pattern from index `i`, each match without its closing
      quote: matches are tried left to right and the scan resumes after each one. */
  function FindUrlsFrom(s: string, i: nat): (r: seq<string>)
    decreases |s| - i
  {
    if i + |LinkPrefix| > |s| then []
    else
      match MatchAt(s, i)
      case Some(q) => [s[i..q]] + FindUrlsFrom(s, q + 1)
      case None => FindUrlsFrom(s, i + 1)
  }

  /** `find_url`: the links of one line. */
  function FindUrl(s: string): seq<string>
  {
    FindUrlsFrom(s, 0)
  }

  /** A link as found: it starts with the pattern, holds no newline, and in the line it is
      followed by a `"`. */
  predicate IsLink(u: string)
  {
    PrefixAt(u, 0) && '\n' !in u
  }

  /** `u` occurs in `s` directly before a `"`. */
  predicate QuotedIn(u: string, s: string)
  {
    exists j: nat :: j <= |s| && u + ['"'] <= s[j..]
  }

  /** Every link `find_url` returns has the link's shape and stood before a quote. */
  lemma {:induction false} FindUrlsShape(s: string, i: nat)
    ensures forall u :: u in FindUrlsFrom(s, i) ==> IsLink(u) && QuotedIn(u, s)
    decreases |s| - i
  {
    if i + |LinkPrefix| <= |s| {
      match MatchAt(s, i)
      case Some(q) =>
        FindUrlsShape(s, q + 1);
        var u := s[i..q];
        assert PrefixAt(u, 0) by {
          forall k | 0 <= k < |LinkPrefix| && k != 11 ensures u[k] == LinkPrefix[k] {
            assert u[k] == s[i + k];
          }
          assert u[11] == s[i + 11];
        }
        assert '\n' !in u by {
          forall k | 0 <= k < |u| ensures u[k] != '\n' {
            assert u[k] == s[i + k];
          }
        }
        assert s[i..][..|u| + 1] == u + ['"'];
        assert QuotedIn(u, s);
      case None =>
        FindUrlsShape(s, i + 1);
    }
  }

  /** A line whose only newline, if any, is its last character yields at most one link:
      the greedy match already runs to the line's last quote. */
  lemma {:induction false} OneLinkPerLine(s: string)
    requires forall k :: 0 <= k < |s| - 1 ==> s[k] != '\n'
    ensures |FindUrl(s)| <= 1
  {
    OneLinkFrom(s, 0);
  }

  lemma {:induction false} OneLinkFrom(s: string, i: nat)
    requires forall k :: 0 <= k < |s| - 1 ==> s[k] != '\n'
    ensures |FindUrlsFrom(s, i)| <= 1
    decreases |s| - i
  {
    if i + |LinkPrefix| <= |s| {
      match MatchAt(s, i)
      case Some(q) =>
        NoLinkAfterLastQuote(s, i, q, q + 1);
      case None =>
        OneLinkFrom(s, i + 1);
    }
  }

  /** After a match that ends at the line's last quote, nothing else matches. */
  lemma {:induction false} NoLinkAfterLastQuote(s: string, i: nat, q: nat, m: nat)
    requires forall k :: 0 <= k < |s| - 1 ==> s[k] != '\n'
    requires MatchAt(s, i) == Some(q) && q < m
    ensures FindUrlsFrom(s, m) == []
    decreases |s| - m
  {
    if m + |LinkPrefix| <= |s| {
      var j := i + |LinkPrefix|;
      var e := SegmentEnd(s, j);
      assert e == |s| || e == |s| - 1;
      assert MatchAt(s, m).None?;
      NoLinkAfterLastQuote(s, i, q, m + 1);
    }
  }

  /** The first link found from `i` is the match at some start `m >= i`. */
  /** `u` is the link the pattern match at `m` yields. */
  predicate FoundAt(s: string, m: nat, u: string)
  {
    MatchAt(s, m).Some? && u == s[m..MatchAt(s, m).value]
  }

  lemma {:induction false} FirstLinkFrom(s: string, i: nat)
    requires FindUrlsFrom(s, i) != []
    ensures exists m: nat :: i <= m && FoundAt(s, m, FindUrlsFrom(s, i)[0])
    decreases |s| - i
  {
    if MatchAt(s, i).None? {
      FirstLinkFrom(s, i + 1);
    } else {
      assert FoundAt(s, i, FindUrlsFrom(s, i)[0]);
    }
  }

  /** `u` starts at `m` with the pattern, is followed by a `"`, and no `"` comes after. */
  predicate EndsAtLastQuote(s: string, m: nat, u: string)
  {
    && PrefixAt(s, m) && m + |u| < |s|
    && s[m..m + |u|] == u && s[m + |u|] == '"'
    && forall k :: m + |u| < k < |s| ==> s[k] != '"'
  }

  /** On a line whose only newline ends it, the link runs from the pattern up to, and
      not including, the last `"` of the line. */
  lemma {:induction false} LinkRunsToLastQuote(s: string)
    requires forall k :: 0 <= k < |s| - 1 ==> s[k] != '\n'
    requires FindUrl(s) != []
    ensures exists m: nat :: EndsAtLastQuote(s, m, FindUrl(s)[0])
  {
    FirstLinkFrom(s, 0);
    var m: nat :| FoundAt(s, m, FindUrl(s)[0]);
    FoundEndsAtLastQuote(s, m, FindUrl(s)[0]);
  }

  /** A match on such a line ends at the line's last quote. */
  lemma {:induction false} FoundEndsAtLastQuote(s: string, m: nat, u: string)
    requires forall k :: 0 <= k < |s| - 1 ==> s[k] != '\n'
    requires FoundAt(s, m, u)
    ensures EndsAtLastQuote(s, m, u)
  {
    var q := MatchAt(s, m).value;
    var e := SegmentEnd(s, m + |LinkPrefix|);
    assert LastQuote(s, m + |LinkPrefix|, e) == Some(q);
    forall k | q < k < |s| ensures s[k] != '"' {
      if k >= e {
        assert k == e && s[e] == '\n';
      }
    }
  }

  /** `get_fighter_urls`: the set of all links on the page. */
  function FighterUrls(page: seq<string>): (r: set<string>)
    ensures forall u :: u in r ==> IsLink(u)
  {
    forall j | 0 <= j < |page| ensures forall u :: u in FindUrl(page[j]) ==> IsLink(u) {
      FindUrlsShape(page[j], 0);
    }
    set j, u | 0 <= j < |page| && u in FindUrl(page[j]) :: u
  }

  // ---------------------------------------------------------------------------
  // The whole page (parse_page) and its fetch (get_page)
  // ---------------------------------------------------------------------------

  /** What `parse_page` returns: the attribute table (to which the source adds the bouts
      under 'Fights' and the name under 'Name'), and the set of profile links. */
  datatype Profile = Profile(stats: map<string, Value>, fights: seq<Fight>, name: string, urls: set<string>)

  /** `parse_page`: attributes first, then bouts; the fighter's name is the first name of
      the first bout, or 'Unknown fighter' when there is none. */
  function ProfileOf(page: seq<string>): Result<Profile>
  {
    match StatsOf(page, Metrics, true)
    case Err(e) => Err(e)
    case Ok(stats) =>
      match FightsOf(page)
      case Err(e) => Err(e)
      case Ok(fights) =>
        var name := if fights == [] then "Unknown fighter" else FirstName(fights[0]);
        Ok(Profile(stats, fights, name, FighterUrls(page)))
  }

  /** The first fighter's name of a bout (`fight['Fighter'][0]`). */
  function FirstName(f: Fight): string
  {
    if "Fighter" in f && f["Fighter"].Pair? && f["Fighter"].first.Str? then f["Fighter"].first.s else ""
  }

  /** The lookup of the name cannot fail (the source's IndexError handler is dead code):
      every stored bout carries its two names, so a page with bouts is named after its
      first bout's first fighter, and that name has its space put in. */
  lemma {:induction false} ProfileName(page: seq<string>)
    requires ProfileOf(page).Ok?
    ensures ProfileOf(page).value.fights == [] ==> ProfileOf(page).value.name == "Unknown fighter"
    ensures ProfileOf(page).value.fights != [] ==> (WellFormedBout(ProfileOf(page).value.fights[0])
      && ProfileOf(page).value.name == ProfileOf(page).value.fights[0]["Fighter"].first.s
      && ' ' in ProfileOf(page).value.name)
  {
    var fights := FightsOf(page).value;
    if fights != [] {
      FightsWellFormed(page);
      assert fights[0] in fights;
    }
  }

  /** `parse_page`, calling the two scanners in turn. */
  method ParsePage(page: seq<string>) returns (r: Result<Profile>)
    ensures r == ProfileOf(page)
  {
    var stats := ParseStats(page, Metrics, true);
    if stats.Err? {
      return Err(stats.error);
    }
    var fights := ParseFights(page);
    if fights.Err? {
      return Err(fights.error);
    }
    var name := "Unknown fighter";
    if |fights.value| > 0 {
      name := FirstName(fights.value[0]);
    }
    return Ok(Profile(stats.value, fights.value, name, FighterUrls(page)));
  }

  /** `t` occurs in `s` at `i`, so `s` contains it. */
  lemma {:induction false} ContainsAt(s: string, t: string, i: nat)
    requires OccursAt(s, t, i)
    ensures Contains(s, t)
  {
    ContainsIff(s, t);
  }

  /** The URL normalisation of `get_page`: a URL that does not mention the site is taken
      as a path on it, and a URL without `http://` gets it prepended. The result names
      both, and a URL that already does is left as it is. */
  function NormalizeUrl(url: string): (r: string)
    ensures Contains(r, "fightmetric") && Contains(r, "http://")
    ensures Contains(url, "fightmetric") && Contains(url, "http://") ==> r == url
  {
    var site := "http://fightmetric.com/";
    var u1 := if Contains(url, "fightmetric") then url else site + url;
    assert Contains(u1, "fightmetric") by {
      if !Contains(url, "fightmetric") {
        assert (site + url)[7..18] == "fightmetric";
        ContainsAt(site + url, "fightmetric", 7);
      }
    }
    var r := if Contains(u1, "http://") then u1 else "http://" + u1;
    assert Contains(r, "fightmetric") && Contains(r, "http://") by {
      if !Contains(u1, "http://") {
        assert ("http://" + u1)[0..7] == "http://";
        ContainsAt("http://" + u1, "http://", 0);
        ContainsConcat("http://", u1, "fightmetric");
      }
    }
    r
  }

  /** Normalising twice changes nothing. */
  lemma {:induction false} NormalizeUrlIdempotent(url: string)
    ensures NormalizeUrl(NormalizeUrl(url)) == NormalizeUrl(url)
  {
  }

  /** A request for `url` at attempt `k`: the lines served, or None when it raises IOError. */
  type Fetcher = (string, nat) -> Option<seq<string>>

  /** The sentinel page of a URL that could not be fetched. */
  const EmptyPage: seq<string> := ["Empty page"]

  const Attempts: nat := 3

  /** The page of the first attempt from `k` on that succeeds, or the sentinel. */
  function FirstFetch(url: string, fetch: Fetcher, k: nat): seq<string>
    decreases Attempts - k
  {
    if k >= Attempts then EmptyPage
    else
      match fetch(url, k)
      case Some(page) => page
      case None => FirstFetch(url, fetch, k + 1)
  }

  /** The page is the one served at the first attempt that succeeds; when all three
      attempts fail, it is the sentinel. */
  lemma {:induction false} FirstFetchSpec(url: string, fetch: Fetcher, k: nat)
    requires k <= Attempts
    ensures (forall j :: k <= j < Attempts ==> fetch(url, j).None?) ==> FirstFetch(url, fetch, k) == EmptyPage
    ensures forall j :: (k <= j < Attempts && fetch(url, j).Some? && (forall i :: k <= i < j ==> fetch(url, i).None?)
      ==> FirstFetch(url, fetch, k) == fetch(url, j).value)
    decreases Attempts - k
  {
    if k < Attempts {
      FirstFetchSpec(url, fetch, k + 1);
    }
  }

  /** `get_page` with its request abstracted as `fetch`: the URL is normalised, then up to
      three attempts are made and the first success is kept. */
  method GetPage(url: string, fetch: Fetcher) returns (page: seq<string>)
    ensures page == FirstFetch(NormalizeUrl(url), fetch, 0)
  {
    var u := NormalizeUrl(url);
    page := EmptyPage;
    var k := 0;
    while k < Attempts
      invariant 0 <= k <= Attempts
      invariant FirstFetch(u, fetch, 0) == FirstFetch(u, fetch, k)
      invariant page == EmptyPage
    {
      var got := fetch(u, k);
      if got.Some? {
        page := got.value;
        return;
      }
      k := k + 1;
    }
  }
}
