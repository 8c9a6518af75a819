/**
 * The win and loss breakdown of the Sherdog extractor (fetch.py, `parse_fightrecord`). Two
 * loops of at most 100 lines start at the first `bio_graph` div and at the first
 * `bio_graph loser` div; on every line each label it names sets a number read from the line
 * itself or the line below, and a loop stops once the dict holds 4 (wins) or 8 (losses)
 * entries.
 */
module WinLoss {
  import opened Text
  import opened Records

  const WinMark: string := "<div class=\"bio_graph\">"
  const LossMark: string := "<div class=\"bio_graph loser\">"
  /** Each loop looks at no more than this many lines. */
  const ScanLimit: nat := 100

  // ===========================================================================
  // First matching line
  // ===========================================================================

  /** The first line at or after `i` that contains `key`. */
  function FirstLine(lines: seq<string>, i: nat, key: string): (r: Option<nat>)
    requires i <= |lines|
    decreases |lines| - i
    ensures r.Some? ==> i <= r.value < |lines|
  {
    if i == |lines| then None
    else if Contains(lines[i], key) then Some(i)
    else FirstLine(lines, i + 1, key)
  }

  /** `[i for i, k in enumerate(page) if key in k][0]` from line `i` on: the result contains
      the key, no line between `i` and it does, and there is none exactly when no line from
      `i` on contains the key. */
  lemma {:induction false} FirstLineSpec(lines: seq<string>, i: nat, key: string)
    requires i <= |lines|
    decreases |lines| - i
    ensures FirstLine(lines, i, key).Some? ==> Contains(lines[FirstLine(lines, i, key).value], key)
    ensures FirstLine(lines, i, key).Some? ==>
      forall j :: i <= j < FirstLine(lines, i, key).value ==> !Contains(lines[j], key)
    ensures FirstLine(lines, i, key).None? <==> forall j :: i <= j < |lines| ==> !Contains(lines[j], key)
  {
    if i < |lines| && !Contains(lines[i], key) {
      FirstLineSpec(lines, i + 1, key);
    }
  }

  /** The search for the first line holding `key`. */
  method FindFirst(lines: seq<string>, key: string) returns (r: Option<nat>)
    ensures r == FirstLine(lines, 0, key)
  {
    var i := 0;
    while i < |lines|
      invariant 0 <= i <= |lines|
      invariant FirstLine(lines, 0, key) == FirstLine(lines, i, key)
    {
      if Contains(lines[i], key) {
        return Some(i);
      }
      i := i + 1;
    }
    return None;
  }

  // ===========================================================================
  // Labels and values
  // ===========================================================================

  /** A label and how many lines below the line naming it its value sits. */
  datatype RecordRule = RecordRule(name: string, offset: nat)

  /** The labels of `parse_fightrecord`, in the order the model visits them. */
  const RecordRules: seq<RecordRule> := [
    RecordRule("Wins", 1), RecordRule("Losses", 1), RecordRule("KO/TKO", 0),
    RecordRule("SUBMISSIONS", 0), RecordRule("DECISIONS", 0)
  ]

  /** One of the two loops: the label whose whole text is its value and which is stored under
      its own name, the prefix of every other label's key, and the dict size that stops the
      loop. */
  datatype Half = Half(total: string, prefix: string, size: nat)

  const WinHalf: Half := Half("Wins", "WIN ", 4)
  const LossHalf: Half := Half("Losses", "LOSS ", 8)

  /** The key a label's value is stored under. */
  function RecordKey(name: string, half: Half): (k: string)
    ensures name != half.total ==> |k| == |half.prefix| + |name| && k[|half.prefix|..] == name
  {
    if name == half.total then name else half.prefix + name
  }

  /** The text of a value line: tags stripped, trimmed, and every occurrence of the label
      deleted. Deleting the empty string leaves a text unchanged. */
  function RecordText(raw: string, name: string): string
  {
    var v := Strip(StripHtml(raw));
    if |name| > 0 && Contains(v, name) then Replace(v, name, "") else v
  }

  /** The number for a label: the whole text for the total, the first word otherwise, which
      must exist. */
  function RecordValue(raw: string, rule: RecordRule, half: Half): (r: Result<real>)
    ensures rule.name == half.total ==> r == ToNumber(RecordText(raw, rule.name))
    ensures rule.name != half.total && Split(RecordText(raw, rule.name)) == [] ==> r == Err(IndexError)
    ensures rule.name != half.total && Split(RecordText(raw, rule.name)) != [] ==>
      r == ToNumber(Split(RecordText(raw, rule.name))[0])
  {
    var v := RecordText(raw, rule.name);
    if rule.name == half.total then ToNumber(v)
    else
      var words := Split(v);
      if words == [] then Err(IndexError) else ToNumber(words[0])
  }

  // ===========================================================================
  // The folds
  // ===========================================================================

  /** The innermost step for line `j` and one label: reading line `j` fails past the end; a
      line naming the label sets its key from the line `offset` below, which must exist. */
  function RecordEntry(page: seq<string>, j: nat, rule: RecordRule, props: map<string, real>, half: Half,
                       read: (string, RecordRule, Half) -> Result<real>): Result<map<string, real>>
  {
    if j >= |page| then Err(IndexError)
    else if !Contains(page[j], rule.name) then Ok(props)
    else if j + rule.offset >= |page| then Err(IndexError)
    else
      match read(page[j + rule.offset], rule, half)
      case Err(e) => Err(e)
      case Ok(x) => Ok(props[RecordKey(rule.name, half) := x])
  }

  /** The loop over the labels from the `k`-th on, for line `j`. */
  function RecordLine(page: seq<string>, j: nat, rules: seq<RecordRule>, k: nat, props: map<string, real>, half: Half,
                      read: (string, RecordRule, Half) -> Result<real>): Result<map<string, real>>
    requires k <= |rules|
    decreases |rules| - k
  {
    if k == |rules| then Ok(props)
    else
      match RecordEntry(page, j, rules[k], props, half, read)
      case Err(e) => Err(e)
      case Ok(m) => RecordLine(page, j, rules, k + 1, m, half, read)
  }

  /** The loop over lines `start + i` onwards: after each line it stops when the dict has
      `half.size` entries, and after line `start + ScanLimit - 1` in any case. */
  function RecordScan(page: seq<string>, start: nat, i: nat, props: map<string, real>, rules: seq<RecordRule>, half: Half,
                      read: (string, RecordRule, Half) -> Result<real>): Result<map<string, real>>
    requires i <= ScanLimit
    decreases ScanLimit - i
  {
    if i == ScanLimit then Ok(props)
    else
      match RecordLine(page, start + i, rules, 0, props, half, read)
      case Err(e) => Err(e)
      case Ok(m) => if |m| == half.size then Ok(m) else RecordScan(page, start, i + 1, m, rules, half, read)
  }

  /** Both loops, given where the two graphs start: a missing graph is an IndexError, the win
      graph's first. */
  function Breakdown(page: seq<string>, win: Option<nat>, loss: Option<nat>, rules: seq<RecordRule>, wh: Half, lh: Half,
                     read: (string, RecordRule, Half) -> Result<real>): Result<map<string, real>>
  {
    match win
    case None => Err(IndexError)
    case Some(w) =>
      match loss
      case None => Err(IndexError)
      case Some(l) =>
        match RecordScan(page, w, 0, map[], rules, wh, read)
        case Err(e) => Err(e)
        case Ok(m) => RecordScan(page, l, 0, m, rules, lh, read)
  }

  /** `parse_fightrecord`. */
  function FightRecord(page: seq<string>): Result<map<string, real>>
  {
    Breakdown(page, FirstLine(page, 0, WinMark), FirstLine(page, 0, LossMark), RecordRules, WinHalf, LossHalf, RecordValue)
  }

  // ===========================================================================
  // What the folds keep
  // ===========================================================================

  /** Line `j` names the label and `x` is what reading its value line gives. */
  predicate ReadAt(page: seq<string>, j: nat, rule: RecordRule, half: Half, x: real,
                   read: (string, RecordRule, Half) -> Result<real>)
  {
    j + rule.offset < |page| && Contains(page[j], rule.name) && read(page[j + rule.offset], rule, half) == Ok(x)
  }

  /** The keys of the labels from the `k`-th on that line `j` names. */
  function NamedKeys(page: seq<string>, j: nat, rules: seq<RecordRule>, k: nat, half: Half): set<string>
  {
    set a | k <= a < |rules| && j < |page| && Contains(page[j], rules[a].name) :: RecordKey(rules[a].name, half)
  }

  lemma {:induction false} NamedKeysStep(page: seq<string>, j: nat, rules: seq<RecordRule>, k: nat, half: Half)
    requires k < |rules| && j < |page|
    ensures NamedKeys(page, j, rules, k, half) ==
      (if Contains(page[j], rules[k].name) then {RecordKey(rules[k].name, half)} else {}) + NamedKeys(page, j, rules, k + 1, half)
  {
  }

  /** A line adds exactly the keys of the labels it names, and fails when it lies past the
      end of the page (there being a label to look for). */
  lemma {:induction false} RecordLineKeys(page: seq<string>, j: nat, rules: seq<RecordRule>, k: nat, props: map<string, real>,
                                          half: Half, read: (string, RecordRule, Half) -> Result<real>)
    requires k <= |rules|
    decreases |rules| - k
    ensures k < |rules| && j >= |page| ==> RecordLine(page, j, rules, k, props, half, read) == Err(IndexError)
    ensures RecordLine(page, j, rules, k, props, half, read).Ok? ==>
      RecordLine(page, j, rules, k, props, half, read).value.Keys == props.Keys + NamedKeys(page, j, rules, k, half)
  {
    if k < |rules| && j < |page| {
      NamedKeysStep(page, j, rules, k, half);
      var e := RecordEntry(page, j, rules[k], props, half, read);
      if e.Ok? {
        RecordLineKeys(page, j, rules, k + 1, e.value, half, read);
      }
    }
  }

  /** Every entry after a line is an old one or was read below a label the line names. */
  /** Line `j` names one of the labels from the `k`-th on whose key for this loop is `key`, and
      reading below it gave `x`. */
  predicate ReadOnLine(page: seq<string>, j: nat, rules: seq<RecordRule>, k: nat, half: Half, key: string, x: real,
                       read: (string, RecordRule, Half) -> Result<real>)
  {
    exists a :: k <= a < |rules| && RecordKey(rules[a].name, half) == key && ReadAt(page, j, rules[a], half, x, read)
  }

  /** Every entry of `m` is the entry of `props` or was read below line `j` for one of the
      labels from the `k`-th on. */
  predicate FromLine(page: seq<string>, j: nat, rules: seq<RecordRule>, k: nat, half: Half,
                     props: map<string, real>, m: map<string, real>, read: (string, RecordRule, Half) -> Result<real>)
  {
    forall key :: key in m ==> (key in props && m[key] == props[key]) || ReadOnLine(page, j, rules, k, half, key, m[key], read)
  }

  lemma {:induction false} RecordLineValues(page: seq<string>, j: nat, rules: seq<RecordRule>, k: nat, props: map<string, real>,
                                            half: Half, read: (string, RecordRule, Half) -> Result<real>)
    requires k <= |rules|
    decreases |rules| - k
    ensures RecordLine(page, j, rules, k, props, half, read).Ok? ==>
      FromLine(page, j, rules, k, half, props, RecordLine(page, j, rules, k, props, half, read).value, read)
  {
    if k < |rules| {
      var e := RecordEntry(page, j, rules[k], props, half, read);
      if e.Ok? {
        RecordLineValues(page, j, rules, k + 1, e.value, half, read);
      }
    }
  }

  /** A line that reads without an error lies on the page, there being a label to look for. */
  lemma {:induction false} RecordLineInPage(page: seq<string>, j: nat, rules: seq<RecordRule>, props: map<string, real>,
                         half: Half, read: (string, RecordRule, Half) -> Result<real>)
    requires rules != []
    ensures RecordLine(page, j, rules, 0, props, half, read).Ok? ==> j < |page|
  {
  }

  /** A scan that ends without an error and short of `half.size` entries looked at all
      `ScanLimit` lines, so every one of them exists. */
  lemma {:induction false} RecordScanLength(page: seq<string>, start: nat, i: nat, props: map<string, real>,
                                            rules: seq<RecordRule>, half: Half, read: (string, RecordRule, Half) -> Result<real>)
    requires i <= ScanLimit && rules != []
    decreases ScanLimit - i
    ensures RecordScan(page, start, i, props, rules, half, read).Ok? &&
            |RecordScan(page, start, i, props, rules, half, read).value| != half.size &&
            i < ScanLimit ==>
      start + ScanLimit <= |page|
  {
    if i < ScanLimit {
      RecordLineInPage(page, start + i, rules, props, half, read);
      var line := RecordLine(page, start + i, rules, 0, props, half, read);
      if line.Ok? && |line.value| != half.size && i + 1 < ScanLimit {
        RecordScanLength(page, start, i + 1, line.value, rules, half, read);
      }
    }
  }

  /** A line only adds keys. */
  lemma {:induction false} RecordLineGrows(page: seq<string>, j: nat, rules: seq<RecordRule>, k: nat, props: map<string, real>,
                                           half: Half, read: (string, RecordRule, Half) -> Result<real>)
    requires k <= |rules|
    decreases |rules| - k
    ensures RecordLine(page, j, rules, k, props, half, read).Ok? ==>
      props.Keys <= RecordLine(page, j, rules, k, props, half, read).value.Keys
  {
    if k < |rules| {
      var e := RecordEntry(page, j, rules[k], props, half, read);
      if e.Ok? {
        RecordLineGrows(page, j, rules, k + 1, e.value, half, read);
      }
    }
  }

  /** The keys only grow along a scan. */
  lemma {:induction false} RecordScanGrows(page: seq<string>, start: nat, i: nat, props: map<string, real>,
                                           rules: seq<RecordRule>, half: Half, read: (string, RecordRule, Half) -> Result<real>)
    requires i <= ScanLimit
    decreases ScanLimit - i
    ensures RecordScan(page, start, i, props, rules, half, read).Ok? ==>
      props.Keys <= RecordScan(page, start, i, props, rules, half, read).value.Keys
  {
    if i < ScanLimit {
      RecordLineGrows(page, start + i, rules, 0, props, half, read);
      var line := RecordLine(page, start + i, rules, 0, props, half, read);
      if line.Ok? && |line.value| != half.size {
        RecordScanGrows(page, start, i + 1, line.value, rules, half, read);
      }
    }
  }

  /** Some line from `lo` up to `hi` names a label whose key for this loop is `key`, and
      reading below it gave `x`. */
  predicate ReadIn(page: seq<string>, lo: nat, hi: nat, rules: seq<RecordRule>, half: Half, key: string, x: real,
                   read: (string, RecordRule, Half) -> Result<real>)
  {
    exists j :: lo <= j < hi && ReadOnLine(page, j, rules, 0, half, key, x, read)
  }

  /** Every entry of `m` is the entry of `props` or was read on one of the lines from `lo` up
      to `hi`. */
  predicate FromLines(page: seq<string>, lo: nat, hi: nat, rules: seq<RecordRule>, half: Half,
                      props: map<string, real>, m: map<string, real>, read: (string, RecordRule, Half) -> Result<real>)
  {
    forall key :: key in m ==> (key in props && m[key] == props[key]) || ReadIn(page, lo, hi, rules, half, key, m[key], read)
  }

  /** Where one line's entries and the rest of the scan's entries come from, put together. */
  lemma {:induction false} ScanStep(page: seq<string>, lo: nat, next: nat, hi: nat, rules: seq<RecordRule>, half: Half,
                 props: map<string, real>, line: map<string, real>, m: map<string, real>,
                 read: (string, RecordRule, Half) -> Result<real>)
    requires next == lo + 1 && lo < hi
    requires FromLine(page, lo, rules, 0, half, props, line, read)
    requires FromLines(page, next, hi, rules, half, line, m, read)
    ensures FromLines(page, lo, hi, rules, half, props, m, read)
  {
    forall key | key in m && !(key in props && m[key] == props[key])
      ensures ReadIn(page, lo, hi, rules, half, key, m[key], read)
    {
      if key in line && m[key] == line[key] {
        assert ReadOnLine(page, lo, rules, 0, half, key, m[key], read);
      } else {
        var j :| lo + 1 <= j < hi && ReadOnLine(page, j, rules, 0, half, key, m[key], read);
      }
    }
  }

  /** Every entry after a scan is an old one or was read below a label on one of the scanned
      lines. */
  lemma {:induction false} RecordScanValues(page: seq<string>, start: nat, i: nat, props: map<string, real>,
                                            rules: seq<RecordRule>, half: Half, read: (string, RecordRule, Half) -> Result<real>)
    requires i <= ScanLimit
    decreases ScanLimit - i, 1
    ensures RecordScan(page, start, i, props, rules, half, read).Ok? ==>
      FromLines(page, start + i, start + ScanLimit, rules, half, props, RecordScan(page, start, i, props, rules, half, read).value, read)
  {
    if i < ScanLimit {
      RecordLineValues(page, start + i, rules, 0, props, half, read);
      var line := RecordLine(page, start + i, rules, 0, props, half, read);
      if line.Ok? {
        if |line.value| != half.size {
          ScanNext(page, start, i, props, line.value, rules, half, read);
        } else {
          ScanStop(page, start, i, props, line.value, rules, half, read);
        }
      }
    }
  }

  /** A line that leaves the dict short of `half.size` hands on to the next line. */
  lemma {:induction false} ScanNext(page: seq<string>, start: nat, i: nat, props: map<string, real>, line: map<string, real>,
                 rules: seq<RecordRule>, half: Half, read: (string, RecordRule, Half) -> Result<real>)
    requires i < ScanLimit && RecordLine(page, start + i, rules, 0, props, half, read) == Ok(line) && |line| != half.size
    requires FromLine(page, start + i, rules, 0, half, props, line, read)
    decreases ScanLimit - i, 0
    ensures RecordScan(page, start, i, props, rules, half, read).Ok? ==>
      FromLines(page, start + i, start + ScanLimit, rules, half, props, RecordScan(page, start, i, props, rules, half, read).value, read)
  {
    RecordScanValues(page, start, i + 1, line, rules, half, read);
    var m := RecordScan(page, start, i + 1, line, rules, half, read);
    assert RecordScan(page, start, i, props, rules, half, read) == m;
    if m.Ok? {
      ScanStep(page, start + i, start + (i + 1), start + ScanLimit, rules, half, props, line, m.value, read);
    }
  }

  /** A line that fills the dict ends the scan. */
  lemma {:induction false} ScanStop(page: seq<string>, start: nat, i: nat, props: map<string, real>, line: map<string, real>,
                 rules: seq<RecordRule>, half: Half, read: (string, RecordRule, Half) -> Result<real>)
    requires i < ScanLimit && RecordLine(page, start + i, rules, 0, props, half, read) == Ok(line) && |line| == half.size
    requires FromLine(page, start + i, rules, 0, half, props, line, read)
    ensures RecordScan(page, start, i, props, rules, half, read).Ok? ==>
      FromLines(page, start + i, start + ScanLimit, rules, half, props, RecordScan(page, start, i, props, rules, half, read).value, read)
  {
    assert RecordScan(page, start, i, props, rules, half, read) == Ok(line);
    ScanStep(page, start + i, start + i + 1, start + ScanLimit, rules, half, props, line, line, read);
  }

  // ===========================================================================
  // parse_fightrecord
  // ===========================================================================

  /** Without both graph divs there is no breakdown. */
  lemma {:induction false} FightRecordNeedsGraphs(page: seq<string>)
    ensures (forall j :: 0 <= j < |page| ==> !Contains(page[j], WinMark)) ==> FightRecord(page) == Err(IndexError)
    ensures (forall j :: 0 <= j < |page| ==> !Contains(page[j], LossMark)) ==> FightRecord(page) == Err(IndexError)
  {
    FirstLineSpec(page, 0, WinMark);
    FirstLineSpec(page, 0, LossMark);
  }

  /** Every value of the breakdown was read below a label on one of the first `ScanLimit`
      lines from the first win graph or from the first loss graph, and is stored under that
      label's key for that loop. */
  lemma {:induction false} BreakdownValues(page: seq<string>, win: nat, loss: nat, rules: seq<RecordRule>, wh: Half, lh: Half,
                        read: (string, RecordRule, Half) -> Result<real>)
    ensures Breakdown(page, Some(win), Some(loss), rules, wh, lh, read).Ok? ==>
      var m := Breakdown(page, Some(win), Some(loss), rules, wh, lh, read).value;
      forall key :: key in m ==>
        ReadIn(page, win, win + ScanLimit, rules, wh, key, m[key], read) ||
        ReadIn(page, loss, loss + ScanLimit, rules, lh, key, m[key], read)
  {
    var first := RecordScan(page, win, 0, map[], rules, wh, read);
    RecordScanValues(page, win, 0, map[], rules, wh, read);
    if first.Ok? {
      RecordScanValues(page, loss, 0, first.value, rules, lh, read);
      var m := RecordScan(page, loss, 0, first.value, rules, lh, read);
      if m.Ok? {
        forall key | key in m.value && !ReadIn(page, loss, loss + ScanLimit, rules, lh, key, m.value[key], read)
          ensures ReadIn(page, win, win + ScanLimit, rules, wh, key, m.value[key], read)
        {
          assert key in first.value && m.value[key] == first.value[key];
        }
      }
    }
  }

  /** Both loops ran to the end of a short page without filling the dict only if the page
      holds every line they looked at. */
  lemma {:induction false} BreakdownLength(page: seq<string>, win: nat, loss: nat, rules: seq<RecordRule>, wh: Half, lh: Half,
                        read: (string, RecordRule, Half) -> Result<real>)
    requires rules != []
    ensures Breakdown(page, Some(win), Some(loss), rules, wh, lh, read).Ok? &&
            |Breakdown(page, Some(win), Some(loss), rules, wh, lh, read).value| != lh.size ==>
      loss + ScanLimit <= |page|
  {
    var first := RecordScan(page, win, 0, map[], rules, wh, read);
    if first.Ok? {
      RecordScanLength(page, loss, 0, first.value, rules, lh, read);
    }
  }

  /** `parse_fightrecord`: the two searches for the graph divs, then the two scans. */
  method ParseFightrecord(page: seq<string>) returns (r: Result<map<string, real>>)
    ensures r == FightRecord(page)
  {
    var win := FindFirst(page, WinMark);
    var loss := FindFirst(page, LossMark);
    r := ScanBoth(page, win, loss, RecordRules, WinHalf, LossHalf, RecordValue);
  }

  method ScanBoth(page: seq<string>, win: Option<nat>, loss: Option<nat>, rules: seq<RecordRule>, wh: Half, lh: Half,
                  read: (string, RecordRule, Half) -> Result<real>) returns (r: Result<map<string, real>>)
    ensures r == Breakdown(page, win, loss, rules, wh, lh, read)
  {
    if win.None? || loss.None? {
      return Err(IndexError);
    }
    var first := ScanRecord(page, win.value, map[], rules, wh, read);
    if first.Err? {
      return first;
    }
    r := ScanRecord(page, loss.value, first.value, rules, lh, read);
  }

  /** One of the two `for i in range(100)` loops, with its `break`. */
  method ScanRecord(page: seq<string>, start: nat, before: map<string, real>, rules: seq<RecordRule>, half: Half,
                    read: (string, RecordRule, Half) -> Result<real>) returns (r: Result<map<string, real>>)
    ensures r == RecordScan(page, start, 0, before, rules, half, read)
  {
    var props := before;
    var i := 0;
    while i < ScanLimit
      invariant 0 <= i <= ScanLimit
      invariant RecordScan(page, start, 0, before, rules, half, read) == RecordScan(page, start, i, props, rules, half, read)
    {
      var line := ReadRecordLine(page, start + i, rules, props, half, read);
      if line.Err? {
        return line;
      }
      props := line.value;
      if |props| == half.size {
        break;
      }
      i := i + 1;
    }
    r := Ok(props);
  }

  /** The loop over the labels for line `j`. */
  method ReadRecordLine(page: seq<string>, j: nat, rules: seq<RecordRule>, before: map<string, real>, half: Half,
                        read: (string, RecordRule, Half) -> Result<real>) returns (r: Result<map<string, real>>)
    ensures r == RecordLine(page, j, rules, 0, before, half, read)
  {
    var props := before;
    var k := 0;
    while k < |rules|
      invariant 0 <= k <= |rules|
      invariant RecordLine(page, j, rules, 0, before, half, read) == RecordLine(page, j, rules, k, props, half, read)
    {
      var rule := rules[k];
      if j >= |page| {
        return Err(IndexError);
      }
      if Contains(page[j], rule.name) {
        if j + rule.offset >= |page| {
          return Err(IndexError);
        }
        var value := read(page[j + rule.offset], rule, half);
        if value.Err? {
          return Err(value.error);
        }
        props := props[RecordKey(rule.name, half) := value.value];
      }
      k := k + 1;
    }
    r := Ok(props);
  }
}
