/**
 * The feature row of a matchup (fmprocess.py:312-390): sixteen features per fighter, read
 * from the fighters' profiles, as 32 columns f1_X, f2_X for each feature X in turn.
 * Numbers are reals; `float('nan')` is the `NaN` feature.
 */
module Matchup {
  import opened Text
  import opened Records
  import opened Fightmetric

  datatype Feature = Number(x: real) | NaN

  const FeatureList: seq<string> := ["Height", "Reach", "SApM", "SLpM", "STANCE", "Str. Acc.",
    "Str. Def", "Sub. Avg.", "TD Acc.", "TD Avg.", "TD Def.", "Weight", "DOB", "Wins", "Losses", "Cum time"]

  /** The features computed from the bout list rather than read from the stats. */
  predicate Counted(feature: string)
  {
    feature == "Wins" || feature == "Losses" || feature == "Cum time"
  }

  /** The column names, built as the comprehension does: for each feature, `f1_` then `f2_`. */
  function Columns(features: seq<string>): seq<string>
  {
    if features == [] then []
    else
      var last := features[|features| - 1];
      Columns(features[..|features| - 1]) + ["f1_" + last, "f2_" + last]
  }

  /** Column 2j+i is fighter i+1's feature j, and distinct features give distinct columns. */
  lemma {:induction false} ColumnsSpec(features: seq<string>)
    ensures |Columns(features)| == 2 * |features|
    ensures forall j :: 0 <= j < |features| ==>
      Columns(features)[2 * j] == "f1_" + features[j] && Columns(features)[2 * j + 1] == "f2_" + features[j]
    ensures Distinct(features) ==> Distinct(Columns(features))
  {
    if features != [] {
      var n := |features| - 1;
      var front := features[..n];
      ColumnsSpec(front);
      var c := Columns(features);
      forall j | 0 <= j < |features|
        ensures c[2 * j] == "f1_" + features[j] && c[2 * j + 1] == "f2_" + features[j]
      {
        if j < n {
          assert front[j] == features[j];
        }
      }
      if Distinct(features) {
        forall a, b | 0 <= a < b < |c| ensures c[a] != c[b] {
          var ja, jb := a / 2, b / 2;
          assert c[a] == (if a % 2 == 0 then "f1_" else "f2_") + features[ja];
          assert c[b] == (if b % 2 == 0 then "f1_" else "f2_") + features[jb];
          if a % 2 != b % 2 {
            assert c[a][1] != c[b][1];
          } else {
            assert features[ja] != features[jb];
            assert c[a][3..] == features[ja];
            assert c[b][3..] == features[jb];
          }
        }
      }
    }
  }

  /** The 32 column names of the row. */
  lemma {:induction false} FullFeatureList()
    ensures |Columns(FeatureList)| == 32 && Distinct(Columns(FeatureList))
    ensures Columns(FeatureList)[0] == "f1_Height" && Columns(FeatureList)[31] == "f2_Cum time"
  {
    assert Distinct(FeatureList);
    ColumnsSpec(FeatureList);
    assert FeatureList[0] == "Height" && FeatureList[15] == "Cum time";
  }

  /** `float(v)`: a number stays, text is parsed, None raises TypeError. */
  function Float(v: Value): (r: Result<real>)
    ensures v.Num? ==> r == Ok(v.x)
    ensures v.Null? ==> r == Err(TypeError)
    ensures v.Str? ==> (r.Ok? <==> ParseNumber(v.s).Some?)
  {
    match v
    case Num(x) => Ok(x)
    case Str(s) => ToNumber(s)
    case Null => Err(TypeError)
  }

  /** `s[-4:]`. */
  function Last4(s: string): (r: string)
    ensures |r| == if |s| < 4 then |s| else 4
    ensures s == s[..|s| - |r|] + r
  {
    if |s| < 4 then s else s[|s| - 4..]
  }

  /** The value read from the stats, converted by feature: DOB is the year in its last four
      characters or NaN for '--', STANCE is 0 for Orthodox and 1 otherwise, and every other
      feature goes through `float`. */
  function Convert(feature: string, v: Value): Result<Feature>
  {
    if feature == "DOB" then
      if v == Str("--") then Ok(NaN)
      else if v.Str? then
        match ToNumber(Last4(v.s))
        case Ok(x) => Ok(Number(x))
        case Err(e) => Err(e)
      else Err(TypeError)
    else if feature == "STANCE" then
      Ok(Number(if v == Str("Orthodox") then 0.0 else 1.0))
    else
      match Float(v)
      case Ok(x) => Ok(Number(x))
      case Err(e) => Err(e)
  }

  /** Wins, Losses and Cum time, from the bout list. */
  function FromFights(fights: seq<Fight>, feature: string): Result<Feature>
    requires Counted(feature)
  {
    if feature == "Cum time" then
      match CumTime(fights)
      case Ok(t) => Ok(Number(t))
      case Err(e) => Err(e)
    else
      match CountOutcome(fights, if feature == "Wins" then "win" else "loss")
      case Ok(n) => Ok(Number(n as real))
      case Err(e) => Err(e)
  }

  /** One fighter's value of one feature. */
  function Single(p: Profile, feature: string): (r: Result<Feature>)
    ensures feature == "STANCE" && "STANCE" in p.stats ==> r.Ok? && r.value in {Number(0.0), Number(1.0)}
    ensures feature == "STANCE" && "STANCE" in p.stats ==> (r.value == Number(0.0) <==> p.stats["STANCE"] == Str("Orthodox"))
    ensures feature == "DOB" && "DOB" in p.stats && p.stats["DOB"] == Str("--") ==> r == Ok(NaN)
    ensures feature == "DOB" && r.Ok? && r.value.Number? ==>
      ("DOB" in p.stats && p.stats["DOB"].Str? && ParseNumber(Last4(p.stats["DOB"].s)) == Some(r.value.x))
    ensures feature == "Wins" ==> (r.Ok? <==> CountOutcome(p.fights, "win").Ok?)
    ensures feature == "Wins" && r.Ok? ==> r.value == Number(CountOutcome(p.fights, "win").value as real)
    ensures feature == "Losses" ==> (r.Ok? <==> CountOutcome(p.fights, "loss").Ok?)
    ensures feature == "Losses" && r.Ok? ==> r.value == Number(CountOutcome(p.fights, "loss").value as real)
    ensures feature == "Cum time" ==> (r.Ok? <==> CumTime(p.fights).Ok?)
    ensures feature == "Cum time" && r.Ok? ==> r.value == Number(CumTime(p.fights).value)
    ensures !Counted(feature) && feature !in p.stats ==> r == Err(KeyError(feature))
  {
    if Counted(feature) then FromFights(p.fights, feature)
    else if feature !in p.stats then Err(KeyError(feature))
    else Convert(feature, p.stats[feature])
  }

  /** One feature for both fighters, in the order the loop body raises: both stats are read
      before either is converted. */
  function FeaturePair(p1: Profile, p2: Profile, feature: string): Result<(Feature, Feature)>
  {
    if Counted(feature) then
      match FromFights(p1.fights, feature)
      case Err(e) => Err(e)
      case Ok(a) =>
      match FromFights(p2.fights, feature)
      case Err(e) => Err(e)
      case Ok(b) => Ok((a, b))
    else if feature !in p1.stats then Err(KeyError(feature))
    else if feature !in p2.stats then Err(KeyError(feature))
    else
      match Convert(feature, p1.stats[feature])
      case Err(e) => Err(e)
      case Ok(a) =>
      match Convert(feature, p2.stats[feature])
      case Err(e) => Err(e)
      case Ok(b) => Ok((a, b))
  }

  /** The row so far: two cells per feature. */
  function Features(p1: Profile, p2: Profile, features: seq<string>): Result<seq<Feature>>
  {
    if features == [] then Ok([])
    else
      match Features(p1, p2, features[..|features| - 1])
      case Err(e) => Err(e)
      case Ok(row) =>
      match FeaturePair(p1, p2, features[|features| - 1])
      case Err(e) => Err(e)
      case Ok(ab) => Ok(row + [ab.0, ab.1])
  }

  /** `build_matchup`: both fighters are looked up first, then the row is filled. */
  function MatchupOf(fighters: map<string, Profile>, fighter1: string, fighter2: string): Result<seq<Feature>>
  {
    if fighter1 !in fighters then Err(KeyError(fighter1))
    else if fighter2 !in fighters then Err(KeyError(fighter2))
    else Features(fighters[fighter1], fighters[fighter2], FeatureList)
  }

  /** A feature pair exists exactly when each fighter's value does, and it is those two values. */
  lemma {:induction false} FeaturePairSingles(p1: Profile, p2: Profile, feature: string)
    ensures FeaturePair(p1, p2, feature).Ok? <==> Single(p1, feature).Ok? && Single(p2, feature).Ok?
    ensures FeaturePair(p1, p2, feature).Ok? ==>
      FeaturePair(p1, p2, feature).value == (Single(p1, feature).value, Single(p2, feature).value)
  {
  }

  /** Cell 2j of the row is the first fighter's feature j, cell 2j+1 the second's, and the row
      exists exactly when every one of these values does. */
  lemma {:induction false} FeaturesSingles(p1: Profile, p2: Profile, features: seq<string>)
    ensures Features(p1, p2, features).Ok? <==>
      forall j :: 0 <= j < |features| ==> Single(p1, features[j]).Ok? && Single(p2, features[j]).Ok?
    ensures Features(p1, p2, features).Ok? ==> |Features(p1, p2, features).value| == 2 * |features|
    ensures Features(p1, p2, features).Ok? ==> forall j :: 0 <= j < |features| ==>
      (Features(p1, p2, features).value[2 * j] == Single(p1, features[j]).value
      && Features(p1, p2, features).value[2 * j + 1] == Single(p2, features[j]).value)
  {
    if features != [] {
      var n := |features| - 1;
      var front := features[..n];
      FeaturesSingles(p1, p2, front);
      FeaturePairSingles(p1, p2, features[n]);
      assert forall j :: 0 <= j < n ==> front[j] == features[j];
    }
  }

  /** The row of a matchup: 32 cells, cell 2j+i holding fighter i+1's feature j, where column
      2j+i is named `f<i+1>_<feature j>`. */
  lemma {:induction false} MatchupSpec(fighters: map<string, Profile>, fighter1: string, fighter2: string)
    requires MatchupOf(fighters, fighter1, fighter2).Ok?
    ensures fighter1 in fighters && fighter2 in fighters
    ensures |MatchupOf(fighters, fighter1, fighter2).value| == |Columns(FeatureList)| == 32
    ensures forall j :: 0 <= j < 16 ==>
      (Single(fighters[fighter1], FeatureList[j]).Ok? && Single(fighters[fighter2], FeatureList[j]).Ok?
      && MatchupOf(fighters, fighter1, fighter2).value[2 * j] == Single(fighters[fighter1], FeatureList[j]).value
      && MatchupOf(fighters, fighter1, fighter2).value[2 * j + 1] == Single(fighters[fighter2], FeatureList[j]).value
      && Columns(FeatureList)[2 * j] == "f1_" + FeatureList[j]
      && Columns(FeatureList)[2 * j + 1] == "f2_" + FeatureList[j])
  {
    FeaturesSingles(fighters[fighter1], fighters[fighter2], FeatureList);
    ColumnsSpec(FeatureList);
  }

  /** Swapping the two fighters swaps the cells of every pair and nothing else. */
  lemma {:induction false} MatchupSwap(fighters: map<string, Profile>, fighter1: string, fighter2: string)
    ensures MatchupOf(fighters, fighter1, fighter2).Ok? <==> MatchupOf(fighters, fighter2, fighter1).Ok?
    ensures MatchupOf(fighters, fighter1, fighter2).Ok? ==>
      |MatchupOf(fighters, fighter1, fighter2).value| == |MatchupOf(fighters, fighter2, fighter1).value| == 32
    ensures MatchupOf(fighters, fighter1, fighter2).Ok? ==> forall j :: 0 <= j < 16 ==>
      (MatchupOf(fighters, fighter1, fighter2).value[2 * j] == MatchupOf(fighters, fighter2, fighter1).value[2 * j + 1]
      && MatchupOf(fighters, fighter1, fighter2).value[2 * j + 1] == MatchupOf(fighters, fighter2, fighter1).value[2 * j])
  {
    if fighter1 in fighters && fighter2 in fighters {
      FeaturesSingles(fighters[fighter1], fighters[fighter2], FeatureList);
      FeaturesSingles(fighters[fighter2], fighters[fighter1], FeatureList);
    }
  }

  /** `build_matchup`: the loop over the feature list, two cells per feature. */
  method BuildMatchup(fighters: map<string, Profile>, fighter1: string, fighter2: string) returns (r: Result<seq<Feature>>)
    ensures r == MatchupOf(fighters, fighter1, fighter2)
  {
    if fighter1 !in fighters {
      return Err(KeyError(fighter1));
    }
    if fighter2 !in fighters {
      return Err(KeyError(fighter2));
    }
    var p1, p2 := fighters[fighter1], fighters[fighter2];
    var row: seq<Feature> := [];
    var i := 0;
    while i < |FeatureList|
      invariant 0 <= i <= |FeatureList|
      invariant Features(p1, p2, FeatureList[..i]) == Ok(row)
    {
      assert FeatureList[..i + 1][..i] == FeatureList[..i];
      var cells := FeaturePair(p1, p2, FeatureList[i]);
      if cells.Err? {
        FeaturesAborts(p1, p2, FeatureList, i + 1);
        return Err(cells.error);
      }
      row := row + [cells.value.0, cells.value.1];
      i := i + 1;
    }
    assert FeatureList[..i] == FeatureList;
    r := Ok(row);
  }

  lemma {:induction false} FeaturesAborts(p1: Profile, p2: Profile, features: seq<string>, k: nat)
    requires k <= |features| && Features(p1, p2, features[..k]).Err?
    ensures Features(p1, p2, features) == Features(p1, p2, features[..k])
  {
    if k < |features| {
      var front := features[..|features| - 1];
      assert front[..k] == features[..k];
      FeaturesAborts(p1, p2, front, k);
    } else {
      assert features[..k] == features;
    }
  }
}
