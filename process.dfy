/**
 * Fight canonicalisation (fmprocess.py:186-261): a bout scraped from one fighter's
 * page is rewritten into a side-neutral record, and the records of all fighters are
 * gathered without repeating a bout that an earlier fighter's list already gave.
 */
module FightProcess {
  import opened Text
  import opened Records

  // ===========================================================================
  // process_fight (fmprocess.py:186-236)
  // ===========================================================================

  /** A two-valued field with its entries exchanged; a single value is left alone. */
  function Swap(c: Cell): Cell
  {
    match c
    case Pair(x, y) => Pair(y, x)
    case Scalar(_) => c
  }

  /** Whether the page's order of the two names is not the sorted one. */
  predicate Flipped(a: string, b: string)
  {
    SortPair(a, b) != (a, b)
  }

  lemma {:induction false} FlippedIff(a: string, b: string)
    ensures Flipped(a, b) <==> StrLt(b, a)
  {
    if StrLt(b, a) {
      StrLtAsymmetric(a, b);
      if a == b {
        StrLtIrreflexive(a);
      }
    }
  }

  /** The side-neutral record of a bout: 'Fighter' and 'outcome' dropped, 'Fighters' the sorted
      pair, 'Result' the winner's name, and every two-valued field other than Event put in the
      sorted pair's order. */
  function Neutral(f: Fight): Result<Fight>
  {
    match FighterNames(f)
    case Err(e) => Err(e)
    case Ok(names) =>
    match Winner(f, names.0, names.1)
    case Err(e) => Err(e)
    case Ok(winner) =>
    var flip := Flipped(names.0, names.1);
    var sorted := SortPair(names.0, names.1);
    var body := map k | k in f && k != "Fighter" :: if flip && k != "Event" then Swap(f[k]) else f[k];
    Ok(body["Result" := Scalar(Str(winner))]["Fighters" := Pair(Str(sorted.0), Str(sorted.1))] - {"outcome"})
  }

  /** `process_fight`: the copy, the pop of 'Fighter', the swap loop over the copy's fields
      (reading the original), then 'Result', 'Fighters' and the pop of 'outcome'. */
  method ProcessFight(fight: Fight) returns (r: Result<Fight>)
    ensures r == Neutral(fight)
  {
    if "Fighter" !in fight {
      return Err(KeyError("Fighter"));
    }
    var newFight := fight;
    var fighters := newFight["Fighter"];
    newFight := newFight - {"Fighter"};
    if !(fighters.Pair? && fighters.first.Str? && fighters.second.Str?) {
      return Err(TypeError);
    }
    var a := fighters.first.s;
    var b := fighters.second.s;
    var sorted := SortPair(a, b);
    if "outcome" !in newFight {
      return Err(KeyError("outcome"));
    }
    var winner := if newFight["outcome"] == Scalar(Str("win")) then a
      else if newFight["outcome"] == Scalar(Str("loss")) then b
      else "Draw";
    var flip := sorted != (a, b);
    if flip {
      newFight := SwapFields(fight, newFight);
    }
    assert newFight == map k | k in fight && k != "Fighter" :: if flip && k != "Event" then Swap(fight[k]) else fight[k];
    newFight := newFight["Result" := Scalar(Str(winner))];
    newFight := newFight["Fighters" := Pair(Str(sorted.0), Str(sorted.1))];
    newFight := newFight - {"outcome"};
    r := Ok(newFight);
  }

  /** The swap loop: each field of the copy that holds two values in the original, other
      than Event, gets the original's two values exchanged. */
  method SwapFields(original: Fight, copy: Fight) returns (r: Fight)
    requires copy.Keys <= original.Keys
    requires forall k :: k in copy ==> copy[k] == original[k]
    ensures r == map k | k in copy :: if k != "Event" then Swap(original[k]) else original[k]
  {
    var fields := Enumerate(copy.Keys);
    r := copy;
    ghost var done: set<string> := {};
    var i := 0;
    while i < |fields|
      invariant 0 <= i <= |fields|
      invariant r.Keys == copy.Keys
      invariant done == set j | 0 <= j < i :: fields[j]
      invariant forall k :: k in r ==> r[k] == (if k in done && k != "Event" then Swap(original[k]) else original[k])
    {
      var field := fields[i];
      var temp := original[field];
      if temp.Pair? && field != "Event" {
        r := r[field := Pair(temp.second, temp.first)];
      }
      done := done + {field};
      i := i + 1;
    }
    forall k | k in copy
      ensures k in done
    {
      var j :| 0 <= j < |fields| && fields[j] == k;
    }
  }

  /** What a neutral record holds: its keys, the sorted pair, the winner by outcome, and every
      other field swapped exactly when the page's order was not the sorted one. */
  lemma {:induction false} NeutralShape(f: Fight)
    requires Neutral(f).Ok?
    ensures FighterNames(f).Ok? && "outcome" in f
    ensures Neutral(f).value.Keys == f.Keys - {"Fighter", "outcome"} + {"Result", "Fighters"}
    ensures Neutral(f).value["Fighters"] == Pair(Str(SortPair(FighterNames(f).value.0, FighterNames(f).value.1).0),
      Str(SortPair(FighterNames(f).value.0, FighterNames(f).value.1).1))
    ensures f["outcome"] == Scalar(Str("win")) ==> Neutral(f).value["Result"] == Scalar(Str(FighterNames(f).value.0))
    ensures f["outcome"] == Scalar(Str("loss")) ==> Neutral(f).value["Result"] == Scalar(Str(FighterNames(f).value.1))
    ensures f["outcome"] !in {Scalar(Str("win")), Scalar(Str("loss"))} ==> Neutral(f).value["Result"] == Scalar(Str("Draw"))
    ensures forall k :: k in f && k !in {"Fighter", "outcome", "Result", "Fighters"} ==>
      Neutral(f).value[k] == (if StrLt(FighterNames(f).value.1, FighterNames(f).value.0) && k != "Event" then Swap(f[k]) else f[k])
  {
    var (a, b) := FighterNames(f).value;
    FlippedIff(a, b);
  }

  /** The sorted pair holds the bout's two names, in order. */
  lemma {:induction false} NeutralPairSorted(a: string, b: string)
    ensures multiset{SortPair(a, b).0, SortPair(a, b).1} == multiset{a, b}
    ensures !StrLt(SortPair(a, b).1, SortPair(a, b).0)
  {
    SortPairSymmetric(a, b);
  }

  /** The outcome as the opponent's page states it. */
  function MirrorOutcome(c: Cell): Cell
  {
    if c == Scalar(Str("win")) then Scalar(Str("loss"))
    else if c == Scalar(Str("loss")) then Scalar(Str("win"))
    else c
  }

  /** The same bout as scraped from the opponent's page: every two-valued field except Event
      (including the names) swapped, and win and loss exchanged. */
  function Mirror(f: Fight): Fight
  {
    map k | k in f :: if k == "outcome" then MirrorOutcome(f[k]) else if k == "Event" then f[k] else Swap(f[k])
  }

  /** Canonicalisation forgets the side: a bout and its mirror image give the same neutral
      record (for two different names). */
  lemma {:induction false} NeutralMirror(f: Fight)
    requires FighterNames(f).Ok? && FighterNames(f).value.0 != FighterNames(f).value.1
    ensures Neutral(Mirror(f)) == Neutral(f)
  {
    var g := Mirror(f);
    var (a, b) := FighterNames(f).value;
    assert FighterNames(g) == Ok((b, a));
    SortPairSymmetric(a, b);
    FlippedIff(a, b);
    FlippedIff(b, a);
    StrLtTotal(a, b);
    StrLtAsymmetric(a, b);
    if "outcome" in f {
      assert Winner(g, b, a) == Winner(f, a, b);
      NeutralShape(f);
      NeutralShape(g);
      var nf := Neutral(f).value;
      var ng := Neutral(g).value;
      assert nf.Keys == ng.Keys;
      forall k | k in nf ensures nf[k] == ng[k] {
        if k !in {"Fighter", "outcome", "Result", "Fighters"} && k != "Event" {
          assert Swap(Swap(f[k])) == f[k];
        }
      }
      assert nf == ng;
    }
  }

  // ===========================================================================
  // get_fights (fmprocess.py:238-261)
  // ===========================================================================

  /** `[process_fight(fight) for fight in fights]`: the first failure aborts. */
  function NeutralAll(fights: seq<Fight>): Result<seq<Fight>>
  {
    if fights == [] then Ok([])
    else
      match NeutralAll(fights[..|fights| - 1])
      case Err(e) => Err(e)
      case Ok(done) =>
      match Neutral(fights[|fights| - 1])
      case Err(e) => Err(e)
      case Ok(g) => Ok(done + [g])
  }

  /** `[f for f in current if f not in seen]`. */
  function Fresh(current: seq<Fight>, seen: seq<Fight>): seq<Fight>
  {
    if current == [] then []
    else
      var last := current[|current| - 1];
      Fresh(current[..|current| - 1], seen) + (if last in seen then [] else [last])
  }

  /** The fights of the first fighters, de-duplicated against earlier fighters only. */
  function Gathered(lists: seq<seq<Fight>>): Result<seq<Fight>>
  {
    if lists == [] then Ok([])
    else
      match Gathered(lists[..|lists| - 1])
      case Err(e) => Err(e)
      case Ok(fights) =>
      match NeutralAll(lists[|lists| - 1])
      case Err(e) => Err(e)
      case Ok(current) => Ok(fights + Fresh(current, fights))
  }

  /** The filter drops exactly the fights already seen, and keeps every copy of the others. */
  lemma {:induction false} FreshCounts(current: seq<Fight>, seen: seq<Fight>, x: Fight)
    ensures multiset(Fresh(current, seen))[x] == if x in seen then 0 else multiset(current)[x]
  {
    if current != [] {
      var n := |current| - 1;
      FreshCounts(current[..n], seen, x);
      assert current == current[..n] + [current[n]];
    }
  }

  /** `get_fights` over the fighters in the dict's iteration order (given as `lists`). */
  method GetFights(lists: seq<seq<Fight>>) returns (r: Result<seq<Fight>>)
    ensures r == Gathered(lists)
  {
    var fights: seq<Fight> := [];
    var i := 0;
    while i < |lists|
      invariant 0 <= i <= |lists|
      invariant Gathered(lists[..i]) == Ok(fights)
    {
      assert lists[..i + 1][..i] == lists[..i];
      var current := ProcessAll(lists[i]);
      if current.Err? {
        GatheredAborts(lists, i + 1);
        return Err(current.error);
      }
      var filtered := FilterSeen(current.value, fights);
      fights := fights + filtered;
      i := i + 1;
    }
    assert lists[..|lists|] == lists;
    r := Ok(fights);
  }

  /** The list comprehension of `get_fights` that processes one fighter's bouts. */
  method ProcessAll(fights: seq<Fight>) returns (r: Result<seq<Fight>>)
    ensures r == NeutralAll(fights)
  {
    var done: seq<Fight> := [];
    var i := 0;
    while i < |fights|
      invariant 0 <= i <= |fights|
      invariant NeutralAll(fights[..i]) == Ok(done)
    {
      assert fights[..i + 1][..i] == fights[..i];
      var g := ProcessFight(fights[i]);
      if g.Err? {
        NeutralAllAborts(fights, i + 1);
        return Err(g.error);
      }
      done := done + [g.value];
      i := i + 1;
    }
    assert fights[..|fights|] == fights;
    r := Ok(done);
  }

  /** The filtering comprehension of `get_fights`. */
  method FilterSeen(current: seq<Fight>, seen: seq<Fight>) returns (r: seq<Fight>)
    ensures r == Fresh(current, seen)
  {
    r := [];
    var i := 0;
    while i < |current|
      invariant 0 <= i <= |current|
      invariant r == Fresh(current[..i], seen)
    {
      assert current[..i + 1][..i] == current[..i];
      if current[i] !in seen {
        r := r + [current[i]];
      }
      i := i + 1;
    }
    assert current[..|current|] == current;
  }

  lemma {:induction false} NeutralAllAborts(fights: seq<Fight>, k: nat)
    requires k <= |fights| && NeutralAll(fights[..k]).Err?
    ensures NeutralAll(fights) == NeutralAll(fights[..k])
  {
    if k < |fights| {
      var front := fights[..|fights| - 1];
      assert front[..k] == fights[..k];
      NeutralAllAborts(front, k);
    } else {
      assert fights[..k] == fights;
    }
  }

  lemma {:induction false} GatheredAborts(lists: seq<seq<Fight>>, k: nat)
    requires k <= |lists| && Gathered(lists[..k]).Err?
    ensures Gathered(lists) == Gathered(lists[..k])
  {
    if k < |lists| {
      var front := lists[..|lists| - 1];
      assert front[..k] == lists[..k];
      GatheredAborts(front, k);
    } else {
      assert lists[..k] == lists;
    }
  }

  /** Processing keeps the list's length and order: entry `i` is the neutral record of bout `i`. */
  lemma {:induction false} NeutralAllEach(fights: seq<Fight>)
    requires NeutralAll(fights).Ok?
    ensures |NeutralAll(fights).value| == |fights|
    ensures forall i :: 0 <= i < |fights| ==> Neutral(fights[i]).Ok? && NeutralAll(fights).value[i] == Neutral(fights[i]).value
  {
    if fights != [] {
      NeutralAllEach(fights[..|fights| - 1]);
    }
  }

  /** A fight passes the filter exactly when it was not seen. */
  lemma {:induction false} FreshMember(current: seq<Fight>, seen: seq<Fight>, g: Fight)
    ensures g in Fresh(current, seen) <==> g in current && g !in seen
  {
    FreshCounts(current, seen, g);
    assert g in Fresh(current, seen) <==> multiset(Fresh(current, seen))[g] > 0;
    assert g in current <==> multiset(current)[g] > 0;
  }

  /** Every processed bout of every fighter is in the gathered list. */
  lemma {:induction false} GatheredCovers(lists: seq<seq<Fight>>)
    requires Gathered(lists).Ok?
    ensures forall i, j :: 0 <= i < |lists| && 0 <= j < |lists[i]| ==>
      (Neutral(lists[i][j]).Ok? && Neutral(lists[i][j]).value in Gathered(lists).value)
  {
    if lists != [] {
      var n := |lists| - 1;
      var front := lists[..n];
      GatheredCovers(front);
      var fights := Gathered(front).value;
      var current := NeutralAll(lists[n]).value;
      NeutralAllEach(lists[n]);
      var all := Gathered(lists).value;
      assert all == fights + Fresh(current, fights);
      forall i, j | 0 <= i < |lists| && 0 <= j < |lists[i]|
        ensures Neutral(lists[i][j]).Ok? && Neutral(lists[i][j]).value in all
      {
        if i < n {
          assert lists[i] == front[i];
        } else {
          FreshMember(current, fights, current[j]);
        }
      }
    }
  }

  /** `g` is the processed form of some bout in `lists`. */
  predicate ProcessedFrom(lists: seq<seq<Fight>>, g: Fight)
  {
    exists i, j :: 0 <= i < |lists| && 0 <= j < |lists[i]| && Neutral(lists[i][j]) == Ok(g)
  }

  /** Everything in the gathered list is the processed form of some fighter's bout. */
  lemma {:induction false} GatheredSound(lists: seq<seq<Fight>>)
    requires Gathered(lists).Ok?
    ensures forall g :: g in Gathered(lists).value ==> ProcessedFrom(lists, g)
  {
    if lists != [] {
      var n := |lists| - 1;
      var front := lists[..n];
      GatheredSound(front);
      var fights := Gathered(front).value;
      var current := NeutralAll(lists[n]).value;
      NeutralAllEach(lists[n]);
      var all := Gathered(lists).value;
      assert all == fights + Fresh(current, fights);
      forall g | g in all ensures ProcessedFrom(lists, g) {
        if g in fights {
          var i, j :| 0 <= i < |front| && 0 <= j < |front[i]| && Neutral(front[i][j]) == Ok(g);
          assert lists[i][j] == front[i][j];
        } else {
          FreshMember(current, fights, g);
          var j :| 0 <= j < |current| && current[j] == g;
          assert Neutral(lists[n][j]) == Ok(g);
        }
      }
    }
  }
}
