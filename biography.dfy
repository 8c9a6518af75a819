/**
 * The biography reader of the Sherdog extractor (fetch.py): `parse_props` reads labelled
 * properties from a window of the page around the fighter's vcard. Python dicts become maps;
 * the reader is a fold over lines and, inside a line, over the labels.
 */
module Biography {
  import opened Text
  import opened Records
  import opened Sherdog

  // ===========================================================================
  // Line search
  // ===========================================================================

  /** The last of the first `n` lines that contains `key`: the value a loop that assigns on
      every match leaves after `n` lines. */
  function LastLine(lines: seq<string>, n: nat, key: string): (r: Option<nat>)
    requires n <= |lines|
    ensures r.Some? ==> r.value < n
  {
    if n == 0 then None
    else if Contains(lines[n - 1], key) then Some(n - 1)
    else LastLine(lines, n - 1, key)
  }

  /** No later line contains the key, and there is no match exactly when no line contains it. */
  lemma {:induction false} LastLineSpec(lines: seq<string>, n: nat, key: string)
    requires n <= |lines|
    ensures LastLine(lines, n, key).Some? ==> Contains(lines[LastLine(lines, n, key).value], key)
    ensures LastLine(lines, n, key).Some? ==>
      forall j :: LastLine(lines, n, key).value < j < n ==> !Contains(lines[j], key)
    ensures LastLine(lines, n, key).None? <==> forall j :: 0 <= j < n ==> !Contains(lines[j], key)
  {
    if n > 0 && !Contains(lines[n - 1], key) {
      LastLineSpec(lines, n - 1, key);
    }
  }

  // ===========================================================================
  // parse_props (fetch.py:227-285)
  // ===========================================================================

  /** A property label: its value is `offset` lines below the line naming it, and `kind` says
      how the value is read (0 text, 1 a number or None, 2 a number followed by a unit). */
  datatype PropRule = PropRule(name: string, offset: nat, kind: nat)

  const PropRules: seq<PropRule> := [
    PropRule("Weight", 2, 2), PropRule("Height", 2, 2), PropRule("Association", 1, 0),
    PropRule("AGE", 0, 1), PropRule("Class", 0, 0), PropRule("nationality", 0, 0),
    PropRule("Wins", 1, 1), PropRule("Losses", 1, 1)]

  const VcardMark: string := "<div class=\"module bio_fighter vcard\">"
  const BiographyMark: string := "<!-- Fighter Biography -->"
  const LookBack: nat := 300

  predicate NamesDistinct(rules: seq<PropRule>)
  {
    forall a, b :: 0 <= a < b < |rules| ==> rules[a].name != rules[b].name
  }

  lemma {:induction false} PropRulesDistinct()
    ensures NamesDistinct(PropRules)
  {
  }

  /** `stop`: one line before the last biography marker, if there is one. */
  function Stop(biography: Option<nat>): Option<int>
  {
    match biography
    case None => None
    case Some(b) => Some(b as int - 1)
  }

  /** `page[start:stop]` as written, for the last vcard line and the last biography marker:
      `start` is 300 lines before the vcard line, which is negative, and so counts from the
      end of the page, when that line is among the first 300; a page without a vcard line
      leaves `start` unbound. */
  function WindowAsWrittenAt(page: seq<string>, vcard: Option<nat>, biography: Option<nat>): Result<seq<string>>
  {
    match vcard
    case None => Err(NameError("start"))
    case Some(v) => Ok(Slice(page, v - LookBack, Stop(biography)))
  }

  /** The same window with the look-back clipped at the first line of the page. */
  function WindowAt(page: seq<string>, vcard: Option<nat>, biography: Option<nat>): Result<seq<string>>
  {
    match vcard
    case None => Err(NameError("start"))
    case Some(v) => Ok(Slice(page, if v < LookBack then 0 else v - LookBack, Stop(biography)))
  }

  function WindowAsWritten(page: seq<string>): Result<seq<string>>
  {
    WindowAsWrittenAt(page, LastLine(page, |page|, VcardMark), LastLine(page, |page|, BiographyMark))
  }

  function Window(page: seq<string>): Result<seq<string>>
  {
    WindowAt(page, LastLine(page, |page|, VcardMark), LastLine(page, |page|, BiographyMark))
  }

  /** The window runs from 300 lines before the vcard line (or the first line) to one line
      before the biography marker (or the last line), and fails only without a vcard line. */
  lemma {:induction false} WindowAtSpec(page: seq<string>, vcard: Option<nat>, biography: Option<nat>)
    requires vcard.Some? ==> vcard.value < |page|
    requires biography.Some? ==> biography.value < |page|
    ensures WindowAt(page, vcard, biography).Err? <==> vcard.None?
    ensures WindowAt(page, vcard, biography).Err? ==> WindowAt(page, vcard, biography).error == NameError("start")
    ensures WindowAt(page, vcard, biography).Ok? ==>
      var lo := if vcard.value < LookBack then 0 else vcard.value - LookBack;
      var hi := match biography case None => |page| case Some(b) => if b == 0 then |page| - 1 else b - 1;
      var w := WindowAt(page, vcard, biography).value;
      |w| == (if lo < hi then hi - lo else 0) && forall j :: 0 <= j < |w| ==> w[j] == page[lo + j]
  {
    if vcard.Some? {
      var v := vcard.value;
      var lo := if v < LookBack then 0 else v - LookBack;
      var hi: nat := match biography case None => |page| case Some(b) => if b == 0 then |page| - 1 else b - 1;
      assert WindowAt(page, vcard, biography).value == Slice(page, lo, Stop(biography));
      assert hi == match Stop(biography) case None => |page| case Some(e) => Bound(e, |page|);
      SliceStop(page, Stop(biography), hi);
    }
  }

  /** The window as written: a vcard line among the first 300 moves the start to the line
      `len(page) + i - 300` (or the first line), counted from the end of the page. */
  lemma {:induction false} WindowAsWrittenAtSpec(page: seq<string>, vcard: Option<nat>, biography: Option<nat>)
    requires vcard.Some? ==> vcard.value < |page|
    requires biography.Some? ==> biography.value < |page|
    ensures WindowAsWrittenAt(page, vcard, biography).Err? <==> vcard.None?
    ensures WindowAsWrittenAt(page, vcard, biography).Err? ==> WindowAsWrittenAt(page, vcard, biography).error == NameError("start")
    ensures WindowAsWrittenAt(page, vcard, biography).Ok? ==>
      var lo := if LookBack <= vcard.value then vcard.value - LookBack
        else if LookBack <= |page| + vcard.value then |page| + vcard.value - LookBack else 0;
      var hi := match biography case None => |page| case Some(b) => if b == 0 then |page| - 1 else b - 1;
      var w := WindowAsWrittenAt(page, vcard, biography).value;
      |w| == (if lo < hi then hi - lo else 0) && forall j :: 0 <= j < |w| ==> w[j] == page[lo + j]
  {
    if vcard.Some? {
      var v := vcard.value;
      var lo: nat := if LookBack <= v then v - LookBack else if LookBack <= |page| + v then |page| + v - LookBack else 0;
      var hi: nat := match biography case None => |page| case Some(b) => if b == 0 then |page| - 1 else b - 1;
      assert Bound(v as int - LookBack, |page|) == lo;
      assert WindowAsWrittenAt(page, vcard, biography).value == Slice(page, lo, Stop(biography));
      assert hi == match Stop(biography) case None => |page| case Some(e) => Bound(e, |page|);
      SliceStop(page, Stop(biography), hi);
    }
  }

  /** The two windows differ only when the vcard line is among the first 300. */
  lemma {:induction false} WindowsAgree(page: seq<string>, vcard: Option<nat>, biography: Option<nat>)
    requires vcard.Some? ==> vcard.value < |page|
    requires biography.Some? ==> biography.value < |page|
    requires vcard.Some? ==> LookBack <= vcard.value
    ensures WindowAsWrittenAt(page, vcard, biography) == WindowAt(page, vcard, biography)
  {
    if vcard.Some? {
      assert Bound(vcard.value as int - LookBack, |page|) == vcard.value - LookBack;
    }
  }

  lemma {:induction false} SliceStop(page: seq<string>, stop: Option<int>, hi: nat)
    requires hi == match stop case None => |page| case Some(e) => Bound(e, |page|)
    ensures forall lo: nat :: lo <= |page| ==> Slice(page, lo, stop) == if lo < hi then page[lo..hi] else []
  {
  }

  /** When the vcard line is among the first 300 and the biography marker comes before the
      wrapped-around start, the window as written is empty, while the clipped window is
      every line before the marker's previous line. */
  lemma {:induction false} WindowWraps(page: seq<string>, v: nat, b: nat)
    requires v < |page| && b < |page|
    requires v < LookBack <= |page| + v && 1 <= b && b - 1 <= |page| + v - LookBack
    ensures WindowAsWrittenAt(page, Some(v), Some(b)) == Ok([])
    ensures WindowAt(page, Some(v), Some(b)) == Ok(page[..b - 1])
  {
    assert Bound(v as int - LookBack, |page|) == |page| + v - LookBack;
    assert Bound(b as int - 1, |page|) == b - 1;
    assert page[0..b - 1] == page[..b - 1];
  }

  /** The text of a value line: tags stripped, trimmed, and `name: ` deleted when the name
      occurs in it. */
  function PropText(raw: string, name: string): string
  {
    var v := Strip(StripHtml(raw));
    if Contains(v, name) then Replace(v, name + ": ", "") else v
  }

  /** One property value. Kind 2 reads the first word as a number, except that an empty text
      stays the empty string (None is assigned to the misspelt `var`); kind 1 is a number or
      None; kind 0 is the text. */
  function PropValue(raw: string, rule: PropRule): (r: Result<Value>)
    ensures r.Err? ==> rule.kind == 2 && PropText(raw, rule.name) != []
    ensures rule.kind == 2 && r.Ok? ==> (r.value == Str("") <==> PropText(raw, rule.name) == [])
    ensures rule.kind == 2 && r.Ok? && r.value.Num? ==>
      Split(PropText(raw, rule.name)) != [] && ParseNumber(Split(PropText(raw, rule.name))[0]) == Some(r.value.x)
    ensures rule.kind == 1 ==> r.Ok? && (r.value == Null <==> ParseNumber(PropText(raw, rule.name)).None?)
    ensures rule.kind != 1 && rule.kind != 2 ==> r == Ok(Str(PropText(raw, rule.name)))
  {
    var v := PropText(raw, rule.name);
    if rule.kind == 2 then
      if v == [] then Ok(Str(v))
      else
        var t := Split(v);
        if t == [] then Err(IndexError)
        else match ToNumber(t[0])
          case Ok(x) => Ok(Num(x))
          case Err(e) => Err(e)
    else if rule.kind == 1 then
      match ParseNumber(v)
      case Some(x) => Ok(Num(x))
      case None => Ok(Null)
    else Ok(Str(v))
  }

  /** The inner loop body for line `i` and one label: a line naming the label sets the
      property from the line `offset` below it, which must exist. */
  function ApplyRule(w: seq<string>, i: nat, rule: PropRule, props: map<string, Value>, read: (string, PropRule) -> Result<Value>): Result<map<string, Value>>
    requires i < |w|
  {
    if !Contains(w[i], rule.name) then Ok(props)
    else if i + rule.offset >= |w| then Err(IndexError)
    else
      match read(w[i + rule.offset], rule)
      case Err(e) => Err(e)
      case Ok(v) => Ok(props[rule.name := v])
  }

  /** The inner loop over the first `j` labels for line `i`. */
  function LineProps(w: seq<string>, i: nat, rules: seq<PropRule>, j: nat, props: map<string, Value>,
                     read: (string, PropRule) -> Result<Value>): Result<map<string, Value>>
    requires i < |w| && j <= |rules|
  {
    if j == 0 then Ok(props)
    else
      match LineProps(w, i, rules, j - 1, props, read)
      case Err(e) => Err(e)
      case Ok(m) => ApplyRule(w, i, rules[j - 1], m, read)
  }

  /** The outer loop over the first `n` lines of the window. */
  function WindowProps(w: seq<string>, n: nat, rules: seq<PropRule>, read: (string, PropRule) -> Result<Value>)
    : Result<map<string, Value>>
    requires n <= |w|
  {
    if n == 0 then Ok(map[])
    else
      match WindowProps(w, n - 1, rules, read)
      case Err(e) => Err(e)
      case Ok(m) => LineProps(w, n - 1, rules, |rules|, m, read)
  }

  /** `props` holds, under the label, the value read `offset` lines below line `i`. */
  predicate ReadBelow(w: seq<string>, i: nat, rule: PropRule, props: map<string, Value>,
                      read: (string, PropRule) -> Result<Value>)
  {
    i + rule.offset < |w| && rule.name in props && read(w[i + rule.offset], rule) == Ok(props[rule.name])
  }

  /** The first `j` labels that line `i` names. */
  function Named(w: seq<string>, i: nat, rules: seq<PropRule>, j: nat): set<string>
    requires i < |w| && j <= |rules|
  {
    set a | 0 <= a < j && Contains(w[i], rules[a].name) :: rules[a].name
  }

  lemma {:induction false} NamedSnoc(w: seq<string>, i: nat, rules: seq<PropRule>, j: nat)
    requires i < |w| && 0 < j <= |rules|
    ensures Named(w, i, rules, j) ==
      Named(w, i, rules, j - 1) + (if Contains(w[i], rules[j - 1].name) then {rules[j - 1].name} else {})
  {
    forall k | k in Named(w, i, rules, j)
      ensures k in Named(w, i, rules, j - 1) || (Contains(w[i], rules[j - 1].name) && k == rules[j - 1].name)
    {
      var a :| 0 <= a < j && Contains(w[i], rules[a].name) && rules[a].name == k;
    }
  }

  /** One label on one line: it sets its own property, from its own value line, when the line
      names it, and nothing else. */
  lemma {:induction false} ApplyRuleSpec(w: seq<string>, i: nat, rule: PropRule, props: map<string, Value>, read: (string, PropRule) -> Result<Value>)
    requires i < |w|
    ensures ApplyRule(w, i, rule, props, read).Ok? ==>
      ApplyRule(w, i, rule, props, read).value.Keys == props.Keys + (if Contains(w[i], rule.name) then {rule.name} else {})
    ensures ApplyRule(w, i, rule, props, read).Ok? ==>
      forall k :: k in props && k != rule.name ==> ApplyRule(w, i, rule, props, read).value[k] == props[k]
    ensures ApplyRule(w, i, rule, props, read).Ok? && Contains(w[i], rule.name) ==>
      ReadBelow(w, i, rule, ApplyRule(w, i, rule, props, read).value, read)
  {
  }

  /** One line sets exactly the labels it names. */
  lemma {:induction false} LinePropsKeys(w: seq<string>, i: nat, rules: seq<PropRule>, j: nat, props: map<string, Value>,
                                         read: (string, PropRule) -> Result<Value>)
    requires i < |w| && j <= |rules|
    ensures LineProps(w, i, rules, j, props, read).Ok? ==>
      LineProps(w, i, rules, j, props, read).value.Keys == props.Keys + Named(w, i, rules, j)
  {
    if j > 0 {
      LinePropsKeys(w, i, rules, j - 1, props, read);
      var prev := LineProps(w, i, rules, j - 1, props, read);
      if prev.Ok? {
        ApplyRuleSpec(w, i, rules[j - 1], prev.value, read);
        NamedSnoc(w, i, rules, j);
      }
    }
  }

  /** One line leaves the properties of the labels it does not name alone. */
  lemma {:induction false} LinePropsKeeps(w: seq<string>, i: nat, rules: seq<PropRule>, j: nat, props: map<string, Value>,
                                          read: (string, PropRule) -> Result<Value>)
    requires i < |w| && j <= |rules|
    ensures LineProps(w, i, rules, j, props, read).Ok? ==>
      forall k :: k in props && k !in Named(w, i, rules, j) ==>
        k in LineProps(w, i, rules, j, props, read).value && LineProps(w, i, rules, j, props, read).value[k] == props[k]
  {
    if j > 0 {
      LinePropsKeeps(w, i, rules, j - 1, props, read);
      LinePropsKeys(w, i, rules, j - 1, props, read);
      var prev := LineProps(w, i, rules, j - 1, props, read);
      if prev.Ok? {
        ApplyRuleSpec(w, i, rules[j - 1], prev.value, read);
        NamedSnoc(w, i, rules, j);
      }
    }
  }

  /** Each label a line names gets the value read from its own value line. */
  lemma {:induction false} LinePropsValues(w: seq<string>, i: nat, rules: seq<PropRule>, j: nat, props: map<string, Value>,
                                           read: (string, PropRule) -> Result<Value>)
    requires i < |w| && j <= |rules| && NamesDistinct(rules)
    ensures LineProps(w, i, rules, j, props, read).Ok? ==>
      forall a :: 0 <= a < j && Contains(w[i], rules[a].name) ==>
        ReadBelow(w, i, rules[a], LineProps(w, i, rules, j, props, read).value, read)
  {
    if j > 0 {
      LinePropsValues(w, i, rules, j - 1, props, read);
      LinePropsKeys(w, i, rules, j - 1, props, read);
      var prev := LineProps(w, i, rules, j - 1, props, read);
      if prev.Ok? {
        ApplyRuleSpec(w, i, rules[j - 1], prev.value, read);
      }
    }
  }

  /** After the first `n` lines, every property is one of the labels. */
  lemma {:induction false} WindowPropsLabels(w: seq<string>, n: nat, rules: seq<PropRule>, read: (string, PropRule) -> Result<Value>)
    requires n <= |w|
    ensures WindowProps(w, n, rules, read).Ok? ==>
      forall k :: k in WindowProps(w, n, rules, read).value ==> exists a :: 0 <= a < |rules| && rules[a].name == k
  {
    if n > 0 {
      WindowPropsLabels(w, n - 1, rules, read);
      var prev := WindowProps(w, n - 1, rules, read);
      var r := WindowProps(w, n, rules, read);
      if prev.Ok? && r.Ok? {
        LinePropsKeys(w, n - 1, rules, |rules|, prev.value, read);
        NamedByIndex(w, n - 1, rules);
      }
    }
  }

  /** After the first `n` lines, a label has a property exactly when some of those lines
      names it. */
  lemma {:induction false} WindowPropsKeys(w: seq<string>, n: nat, rules: seq<PropRule>, read: (string, PropRule) -> Result<Value>)
    requires n <= |w|
    ensures WindowProps(w, n, rules, read).Ok? ==>
      forall a :: 0 <= a < |rules| ==> (rules[a].name in WindowProps(w, n, rules, read).value <==> LastLine(w, n, rules[a].name).Some?)
  {
    if n > 0 {
      WindowPropsKeys(w, n - 1, rules, read);
      var prev := WindowProps(w, n - 1, rules, read);
      var r := WindowProps(w, n, rules, read);
      if prev.Ok? && r.Ok? {
        LinePropsKeys(w, n - 1, rules, |rules|, prev.value, read);
        NamedByIndex(w, n - 1, rules);
      }
    }
  }

  /** After the first `n` lines, each label that some line names holds the value read below
      the last such line. */
  lemma {:induction false} WindowPropsValues(w: seq<string>, n: nat, rules: seq<PropRule>, read: (string, PropRule) -> Result<Value>)
    requires n <= |w| && NamesDistinct(rules)
    ensures WindowProps(w, n, rules, read).Ok? ==>
      forall a :: 0 <= a < |rules| && LastLine(w, n, rules[a].name).Some? ==>
        ReadBelow(w, LastLine(w, n, rules[a].name).value, rules[a], WindowProps(w, n, rules, read).value, read)
  {
    if n > 0 {
      WindowPropsValues(w, n - 1, rules, read);
      WindowPropsKeys(w, n - 1, rules, read);
      var prev := WindowProps(w, n - 1, rules, read);
      var r := WindowProps(w, n, rules, read);
      if prev.Ok? && r.Ok? {
        assert r == LineProps(w, n - 1, rules, |rules|, prev.value, read);
        LinePropsKeeps(w, n - 1, rules, |rules|, prev.value, read);
        LinePropsValues(w, n - 1, rules, |rules|, prev.value, read);
        NamedByIndex(w, n - 1, rules);
        forall a | 0 <= a < |rules| && LastLine(w, n, rules[a].name).Some?
          ensures ReadBelow(w, LastLine(w, n, rules[a].name).value, rules[a], r.value, read)
        {
          if !Contains(w[n - 1], rules[a].name) {
            assert rules[a].name !in Named(w, n - 1, rules, |rules|);
          }
        }
      }
    }
  }

  lemma {:induction false} NamedByIndex(w: seq<string>, i: nat, rules: seq<PropRule>)
    requires i < |w|
    ensures forall a :: 0 <= a < |rules| ==> (rules[a].name in Named(w, i, rules, |rules|) <==> Contains(w[i], rules[a].name))
    ensures forall k :: k in Named(w, i, rules, |rules|) ==> exists a :: 0 <= a < |rules| && rules[a].name == k
  {
  }

  lemma {:induction false} LinePropsAborts(w: seq<string>, i: nat, rules: seq<PropRule>, j: nat, props: map<string, Value>,
                                           read: (string, PropRule) -> Result<Value>)
    requires i < |w| && j <= |rules| && LineProps(w, i, rules, j, props, read).Err?
    ensures LineProps(w, i, rules, |rules|, props, read) == LineProps(w, i, rules, j, props, read)
    decreases |rules| - j
  {
    if j < |rules| {
      LinePropsAborts(w, i, rules, j + 1, props, read);
    }
  }

  lemma {:induction false} WindowPropsAborts(w: seq<string>, n: nat, rules: seq<PropRule>, read: (string, PropRule) -> Result<Value>)
    requires n <= |w| && WindowProps(w, n, rules, read).Err?
    ensures WindowProps(w, |w|, rules, read) == WindowProps(w, n, rules, read)
    decreases |w| - n
  {
    if n < |w| {
      WindowPropsAborts(w, n + 1, rules, read);
    }
  }

  /** The last step of `parse_props`: the labels are extended with the first `fn` span as
      Name and the first `nickname` span, or the text None, as Nickname; no `fn` span is an
      IndexError. Errors from the earlier steps pass through in order. */
  function Assemble(labels: Result<map<string, Value>>, names: Result<seq<string>>, nicks: Result<seq<string>>)
    : (r: Result<map<string, Value>>)
    ensures r.Ok? <==> labels.Ok? && names.Ok? && nicks.Ok? && names.value != []
    ensures r.Ok? ==> "Name" in r.value && r.value["Name"] == Str(names.value[0])
    ensures r.Ok? ==> ("Nickname" in r.value &&
      r.value["Nickname"] == Str(if nicks.value == [] then "None" else nicks.value[0]))
    ensures r.Ok? ==> forall k :: k != "Name" && k != "Nickname" ==>
      (k in r.value <==> k in labels.value) && (k in r.value ==> r.value[k] == labels.value[k])
    ensures labels.Ok? && names == Ok([]) && nicks.Ok? ==> r == Err(IndexError)
  {
    match labels
    case Err(e) => Err(e)
    case Ok(m) =>
      match names
      case Err(e) => Err(e)
      case Ok(names) =>
        match nicks
        case Err(e) => Err(e)
        case Ok(nicks) =>
          if names == [] then Err(IndexError)
          else Ok(m["Name" := Str(names[0])]["Nickname" := Str(if nicks == [] then "None" else nicks[0])])
  }

  /** The properties of one window. */
  function PropsOfWindow(w: seq<string>): Result<map<string, Value>>
  {
    Assemble(WindowProps(w, |w|, PropRules, PropValue), Spans(w, "fn"), Spans(w, "nickname"))
  }

  /** `parse_props` as written. */
  function PropsAsWritten(page: seq<string>): Result<map<string, Value>>
  {
    match WindowAsWritten(page)
    case Err(e) => Err(e)
    case Ok(w) => PropsOfWindow(w)
  }

  /** `parse_props` with the look-back clipped at the first line. */
  function Props(page: seq<string>): Result<map<string, Value>>
  {
    match Window(page)
    case Err(e) => Err(e)
    case Ok(w) => PropsOfWindow(w)
  }

  lemma {:induction false} PropRulesNotNames()
    ensures forall a :: 0 <= a < |PropRules| ==> PropRules[a].name != "Name" && PropRules[a].name != "Nickname"
  {
  }

  /** The properties of a window: each label is present exactly when a line of the window
      names it, with the value read below the last such line. */
  lemma {:induction false} PropsOfWindowSpec(w: seq<string>)
    ensures PropsOfWindow(w).Ok? ==>
      forall a :: 0 <= a < |PropRules| ==>
        (PropRules[a].name in PropsOfWindow(w).value <==> LastLine(w, |w|, PropRules[a].name).Some?)
    ensures PropsOfWindow(w).Ok? ==>
      forall a :: 0 <= a < |PropRules| && LastLine(w, |w|, PropRules[a].name).Some? ==>
        ReadBelow(w, LastLine(w, |w|, PropRules[a].name).value, PropRules[a], PropsOfWindow(w).value, PropValue)
  {
    if PropsOfWindow(w).Ok? {
      PropRulesDistinct();
      PropRulesNotNames();
      WindowPropsKeys(w, |w|, PropRules, PropValue);
      WindowPropsValues(w, |w|, PropRules, PropValue);
    }
  }

  /** Apart from Name and Nickname, every property is a label. */
  lemma {:induction false} PropsOfWindowKeys(w: seq<string>)
    ensures PropsOfWindow(w).Ok? ==>
      forall k :: k in PropsOfWindow(w).value && k != "Name" && k != "Nickname" ==>
        exists a :: 0 <= a < |PropRules| && PropRules[a].name == k
  {
    if PropsOfWindow(w).Ok? {
      WindowPropsLabels(w, |w|, PropRules, PropValue);
    }
  }

  /** The window as written loses the whole biography when the vcard line is among the first
      300 and the biography marker comes before the wrapped-around start: the slice is empty,
      so there is no `fn` span and `name[0]` raises IndexError. */
  lemma {:induction false} PropsAsWrittenLoseBiography(page: seq<string>, v: nat, b: nat)
    requires LastLine(page, |page|, VcardMark) == Some(v) && LastLine(page, |page|, BiographyMark) == Some(b)
    requires v < LookBack <= |page| + v && 1 <= b && b - 1 <= |page| + v - LookBack
    ensures WindowAsWritten(page) == Ok([])
    ensures PropsAsWritten(page) == Err(IndexError)
  {
    WindowWraps(page, v, b);
    EmptyWindow();
  }

  /** On the same pages the clipped window keeps every line before the marker's previous line,
      the vcard line included. */
  lemma {:induction false} WindowKeepsBiography(page: seq<string>, v: nat, b: nat)
    requires LastLine(page, |page|, VcardMark) == Some(v) && LastLine(page, |page|, BiographyMark) == Some(b)
    requires v < LookBack <= |page| + v && 1 <= b && b - 1 <= |page| + v - LookBack
    ensures Window(page) == Ok(page[..b - 1])
  {
    WindowWraps(page, v, b);
  }

  /** The clipped window of such a page still holds the vcard line when it comes before
      the marker's previous line. */
  lemma {:induction false} WindowKeepsVcard(page: seq<string>, v: nat, b: nat)
    requires LastLine(page, |page|, VcardMark) == Some(v) && LastLine(page, |page|, BiographyMark) == Some(b)
    requires v < LookBack <= |page| + v && v < b - 1 <= |page| + v - LookBack
    ensures Window(page).Ok? && v < |Window(page).value| && Contains(Window(page).value[v], VcardMark)
  {
    WindowKeepsBiography(page, v, b);
    LastLineSpec(page, |page|, VcardMark);
    assert page[..b - 1][v] == page[v];
  }

  /** An empty window has no `fn` span. */
  lemma {:induction false} EmptyWindow()
    ensures PropsOfWindow([]) == Err(IndexError)
  {
    var empty: seq<string> := [];
    assert Spans(empty, "fn") == Ok([]);
    assert Spans(empty, "nickname") == Ok([]);
    assert WindowProps(empty, 0, PropRules, PropValue) == Ok(map[]);
  }

  /** `parse_props`: a scan for the two markers, the nested loops over the window's lines and
      the labels, then the two span searches. */
  method ParseProps(page: seq<string>) returns (r: Result<map<string, Value>>)
    ensures r == PropsAsWritten(page)
  {
    var window := FindWindow(page);
    if window.Err? {
      return Err(window.error);
    }
    var w := window.value;
    var labelled := ReadLabels(w, PropRules, PropValue);
    if labelled.Err? {
      return Err(labelled.error);
    }
    var names := ParseSpanclass(w, "fn");
    if names.Err? {
      return Err(names.error);
    }
    var nicknames := ParseSpanclass(w, "nickname");
    if nicknames.Err? {
      return Err(nicknames.error);
    }
    var nickname := if nicknames.value == [] then "None" else nicknames.value[0];
    if names.value == [] {
      return Err(IndexError);
    }
    r := Ok(labelled.value["Name" := Str(names.value[0])]["Nickname" := Str(nickname)]);
  }

  /** The marker scan and the slice `page[start:stop]`, whose start counts from the end of the
      page when it is negative. */
  method FindWindow(page: seq<string>) returns (r: Result<seq<string>>)
    ensures r == WindowAsWritten(page)
  {
    var vcard, biography := ScanMarks(page, VcardMark, BiographyMark);
    r := WindowAsWrittenAt(page, vcard, biography);
  }

  /** The loop over the page that remembers the last line holding each marker. */
  method ScanMarks(page: seq<string>, first: string, second: string) returns (a: Option<nat>, b: Option<nat>)
    ensures a == LastLine(page, |page|, first) && b == LastLine(page, |page|, second)
  {
    a, b := None, None;
    var i := 0;
    while i < |page|
      invariant 0 <= i <= |page|
      invariant a == LastLine(page, i, first) && b == LastLine(page, i, second)
    {
      if Contains(page[i], first) {
        a := Some(i);
      }
      if Contains(page[i], second) {
        b := Some(i);
      }
      i := i + 1;
    }
  }

  /** The nested loops over the window's lines and the labels. */
  method ReadLabels(w: seq<string>, rules: seq<PropRule>, read: (string, PropRule) -> Result<Value>)
    returns (r: Result<map<string, Value>>)
    ensures r == WindowProps(w, |w|, rules, read)
  {
    var props: map<string, Value> := map[];
    var n := 0;
    while n < |w|
      invariant 0 <= n <= |w|
      invariant WindowProps(w, n, rules, read) == Ok(props)
    {
      var line := ReadLine(w, n, rules, props, read);
      if line.Err? {
        WindowPropsAborts(w, n + 1, rules, read);
        return Err(line.error);
      }
      props := line.value;
      n := n + 1;
    }
    r := Ok(props);
  }

  /** The inner loop over the labels for one line. */
  method ReadLine(w: seq<string>, n: nat, rules: seq<PropRule>, before: map<string, Value>,
                  read: (string, PropRule) -> Result<Value>) returns (r: Result<map<string, Value>>)
    requires n < |w|
    ensures r == LineProps(w, n, rules, |rules|, before, read)
  {
    var props := before;
    var j := 0;
    while j < |rules|
      invariant 0 <= j <= |rules|
      invariant LineProps(w, n, rules, j, before, read) == Ok(props)
    {
      var rule := rules[j];
      if Contains(w[n], rule.name) {
        if n + rule.offset >= |w| {
          LinePropsAborts(w, n, rules, j + 1, before, read);
          return Err(IndexError);
        }
        var value := read(w[n + rule.offset], rule);
        if value.Err? {
          LinePropsAborts(w, n, rules, j + 1, before, read);
          return Err(value.error);
        }
        props := props[rule.name := value.value];
      }
      j := j + 1;
    }
    r := Ok(props);
  }
}
