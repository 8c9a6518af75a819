/**
 * The values the scrapers pass around. Python dicts of mixed values become a
 * `map` from key to `Cell`; the exceptions the code can raise become `Error`s
 * carried in a `Result`. A scraped bout (one row of a fighter's fight table)
 * is a `Fight`: its keys are the table's column headers plus 'outcome'.
 */
module Records {
  import opened Text

  /** The Python exceptions the modelled code can raise. */
  datatype Error =
    | KeyError(key: string)
    | IndexError
    | ValueError(text: string)
    | TypeError
    | NameError(name: string)
    | AssertionError
    | NodeNotFound(node: string)
    | OperationalError(text: string)

  datatype Result<T> = Ok(value: T) | Err(error: Error)

  /** A scalar: text, a number, or Python's None (SQL NULL). */
  datatype Value = Str(s: string) | Num(x: real) | Null

  /** A dict entry of a scraped bout: a scalar, or the two-element list that holds
      one value per fighter. */
  datatype Cell = Scalar(v: Value) | Pair(first: Value, second: Value)

  type Fight = map<string, Cell>

  /** `f[key]` read as the two fighters' names. */
  function NamePair(f: Fight, key: string): Result<(string, string)>
  {
    if key !in f then Err(KeyError(key))
    else match f[key]
      case Pair(Str(a), Str(b)) => Ok((a, b))
      case _ => Err(TypeError)
  }

  /** `fight['Fighter']` of a scraped bout: the page's fighter first. */
  function FighterNames(f: Fight): Result<(string, string)>
  {
    NamePair(f, "Fighter")
  }

  /** The winner's name: the first fighter on 'win', the second on 'loss', else 'Draw'. */
  function Winner(f: Fight, a: string, b: string): (r: Result<string>)
    ensures r.Ok? <==> "outcome" in f
    ensures r.Ok? ==> r.value in {a, b, "Draw"}
    ensures r.Ok? && r.value != "Draw" ==> f["outcome"] in {Scalar(Str("win")), Scalar(Str("loss"))}
  {
    if "outcome" !in f then Err(KeyError("outcome"))
    else if f["outcome"] == Scalar(Str("win")) then Ok(a)
    else if f["outcome"] == Scalar(Str("loss")) then Ok(b)
    else Ok("Draw")
  }

  /** Python's `float(s)` on a string. */
  function ToNumber(s: string): (r: Result<real>)
    ensures r.Ok? <==> ParseNumber(s).Some?
    ensures r.Ok? ==> r.value == ParseNumber(s).value
  {
    match ParseNumber(s)
    case Some(x) => Ok(x)
    case None => Err(ValueError(s))
  }

  /** `sum(1 for f in fights if f['outcome'] == o)`; a bout without an outcome raises KeyError. */
  function CountOutcome(fights: seq<Fight>, o: string): (r: Result<nat>)
    ensures r.Ok? <==> forall i :: 0 <= i < |fights| ==> "outcome" in fights[i]
    ensures r.Ok? ==> r.value <= |fights|
  {
    if fights == [] then Ok(0)
    else if "outcome" !in fights[0] then Err(KeyError("outcome"))
    else match CountOutcome(fights[1..], o)
      case Err(e) => Err(e)
      case Ok(n) => Ok(n + if fights[0]["outcome"] == Scalar(Str(o)) then 1 else 0)
  }

  /** The outcomes of bouts that all have one, in order. */
  function Outcomes(fights: seq<Fight>): (r: seq<Cell>)
    requires forall i :: 0 <= i < |fights| ==> "outcome" in fights[i]
    ensures |r| == |fights|
    ensures forall i :: 0 <= i < |fights| ==> r[i] == fights[i]["outcome"]
  {
    if fights == [] then [] else [fights[0]["outcome"]] + Outcomes(fights[1..])
  }

  /** The count is the number of bouts whose outcome is `o`. */
  lemma {:induction false} CountOutcomeValue(fights: seq<Fight>, o: string)
    requires CountOutcome(fights, o).Ok?
    ensures CountOutcome(fights, o).value == multiset(Outcomes(fights))[Scalar(Str(o))]
  {
    if fights != [] {
      CountOutcomeValue(fights[1..], o);
      assert Outcomes(fights) == [fights[0]["outcome"]] + Outcomes(fights[1..]);
    }
  }

  /** `sum(f['Time'] for f in fights)`: a missing Time raises KeyError, a non-numeric one TypeError. */
  function CumTime(fights: seq<Fight>): (r: Result<real>)
    ensures r.Ok? <==> forall i :: 0 <= i < |fights| ==> "Time" in fights[i] && fights[i]["Time"].Scalar? && fights[i]["Time"].v.Num?
    ensures (forall i :: 0 <= i < |fights| ==> "Time" in fights[i] && fights[i]["Time"] == Scalar(Num(0.0))) ==> r == Ok(0.0)
  {
    if fights == [] then Ok(0.0)
    else if "Time" !in fights[0] then Err(KeyError("Time"))
    else match fights[0]["Time"]
      case Scalar(Num(t)) =>
        (match CumTime(fights[1..])
         case Err(e) => Err(e)
         case Ok(rest) => Ok(t + rest))
      case _ => Err(TypeError)
  }

  /** Wins and losses are counted over disjoint outcomes: together they never exceed
      the number of bouts, and they reach it exactly when no bout is a draw. */
  lemma {:induction false} WinsPlusLosses(fights: seq<Fight>)
    requires CountOutcome(fights, "win").Ok?
    ensures CountOutcome(fights, "loss").Ok?
    ensures CountOutcome(fights, "win").value + CountOutcome(fights, "loss").value <= |fights|
    ensures CountOutcome(fights, "win").value + CountOutcome(fights, "loss").value == |fights|
      <==> forall i :: 0 <= i < |fights| ==> fights[i]["outcome"] in {Scalar(Str("win")), Scalar(Str("loss"))}
  {
    if fights != [] {
      WinsPlusLosses(fights[1..]);
      var w := CountOutcome(fights[1..], "win").value;
      var l := CountOutcome(fights[1..], "loss").value;
      if forall i :: 0 <= i < |fights| ==> fights[i]["outcome"] in {Scalar(Str("win")), Scalar(Str("loss"))} {
        assert forall i :: 0 <= i < |fights[1..]| ==> fights[1..][i]["outcome"] in {Scalar(Str("win")), Scalar(Str("loss"))} by {
          forall i | 0 <= i < |fights[1..]| ensures fights[1..][i]["outcome"] in {Scalar(Str("win")), Scalar(Str("loss"))} {
            assert fights[1..][i] == fights[i + 1];
          }
        }
      } else {
        var i :| 0 <= i < |fights| && fights[i]["outcome"] !in {Scalar(Str("win")), Scalar(Str("loss"))};
        if i > 0 {
          assert fights[1..][i - 1] == fights[i];
        }
      }
    }
  }

  /** The cumulative time of one bout is its Time. */
  lemma {:induction false} CumTimeOne(f: Fight, t: real)
    requires "Time" in f && f["Time"] == Scalar(Num(t))
    ensures CumTime([f]) == Ok(t)
  {
    assert [f][1..] == [];
  }

  /** Cumulative time adds up over a concatenation of bout lists. */
  lemma {:induction false} CumTimeAppend(a: seq<Fight>, b: seq<Fight>)
    requires CumTime(a).Ok? && CumTime(b).Ok?
    ensures CumTime(a + b) == Ok(CumTime(a).value + CumTime(b).value)
  {
    if a != [] {
      assert (a + b)[1..] == a[1..] + b;
      assert (a + b)[0] == a[0];
      CumTimeAppend(a[1..], b);
    } else {
      assert a + b == b;
    }
  }

  predicate Distinct<T(==)>(s: seq<T>)
  {
    forall i, j :: 0 <= i < j < |s| ==> s[i] != s[j]
  }

  /** Iteration over a set or a query result: every member exactly once, in an order the
      model leaves open (the hash order of a Python set or dict, SQLite's row order). */
  method Enumerate<T(==)>(s: set<T>) returns (r: seq<T>)
    ensures forall x :: x in r <==> x in s
    ensures Distinct(r)
  {
    r := [];
    var rest := s;
    while rest != {}
      invariant rest <= s
      invariant forall x :: x in r <==> x in s && x !in rest
      invariant Distinct(r)
      decreases |rest|
    {
      var x :| x in rest;
      r := r + [x];
      rest := rest - {x};
    }
  }
}
