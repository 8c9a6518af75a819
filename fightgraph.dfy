/**
 * The win matrix and the fight graph (fmprocess.py:56-176). The matrix is indexed by
 * the sorted distinct fighter names and holds 1 at [loser, winner]; it is represented
 * by its names and the set of (row, column) name pairs that hold 1. The graph has one
 * node per fighter and an edge from loser to winner; pruning keeps the fighters within
 * K hops of a base fighter.
 */
module FightGraph {
  import opened Text
  import opened Records

  // ===========================================================================
  // np.unique on names: sorted, without repeats
  // ===========================================================================

  predicate Increasing(s: seq<string>)
  {
    forall i, j :: 0 <= i < j < |s| ==> StrLt(s[i], s[j])
  }

  /** `x` put into its place in a sorted list, unless it is there already. */
  function Insert(x: string, s: seq<string>): seq<string>
  {
    if s == [] then [x]
    else if x == s[0] then s
    else if StrLt(x, s[0]) then [x] + s
    else [s[0]] + Insert(x, s[1..])
  }

  lemma {:induction false} InsertSpec(x: string, s: seq<string>)
    requires Increasing(s)
    ensures Increasing(Insert(x, s))
    ensures forall y :: y in Insert(x, s) <==> y == x || y in s
  {
    InsertMembers(x, s);
    InsertIncreasing(x, s);
  }

  lemma {:induction false} InsertMembers(x: string, s: seq<string>)
    ensures forall y :: y in Insert(x, s) <==> y == x || y in s
  {
    if s != [] && x != s[0] && !StrLt(x, s[0]) {
      InsertMembers(x, s[1..]);
      assert s == [s[0]] + s[1..];
    }
  }

  lemma {:induction false} InsertIncreasing(x: string, s: seq<string>)
    requires Increasing(s)
    ensures Increasing(Insert(x, s))
  {
    if s != [] && x != s[0] {
      if StrLt(x, s[0]) {
        forall j | 0 < j < |s| ensures StrLt(x, s[j]) {
          StrLtTransitive(x, s[0], s[j]);
        }
      } else {
        StrLtTotal(x, s[0]);
        InsertMembers(x, s[1..]);
        InsertIncreasing(x, s[1..]);
        var t := Insert(x, s[1..]);
        InsertAbove(s[0], t, x, s[1..]);
        assert Insert(x, s) == [s[0]] + t;
        ConsIncreasing(s[0], t);
      }
    }
  }

  /** Every name of `t`, which holds `x` and the names of `rest`, is above `a`. */
  lemma {:induction false} InsertAbove(a: string, t: seq<string>, x: string, rest: seq<string>)
    requires StrLt(a, x)
    requires forall j :: 0 <= j < |rest| ==> StrLt(a, rest[j])
    requires forall y :: y in t <==> y == x || y in rest
    ensures forall j :: 0 <= j < |t| ==> StrLt(a, t[j])
  {
    forall j | 0 <= j < |t| ensures StrLt(a, t[j]) {
      assert t[j] in t;
      if t[j] != x {
        var i :| 0 <= i < |rest| && rest[i] == t[j];
      }
    }
  }

  lemma {:induction false} ConsIncreasing(a: string, t: seq<string>)
    requires Increasing(t)
    requires forall j :: 0 <= j < |t| ==> StrLt(a, t[j])
    ensures Increasing([a] + t)
  {
    forall i, j | 0 <= i < j < |[a] + t| ensures StrLt(([a] + t)[i], ([a] + t)[j]) {
      assert ([a] + t)[j] == t[j - 1];
      if i > 0 {
        assert ([a] + t)[i] == t[i - 1];
      }
    }
  }

  /** `np.unique`: the distinct names in increasing order. */
  function Unique(names: seq<string>): seq<string>
  {
    if names == [] then []
    else Insert(names[|names| - 1], Unique(names[..|names| - 1]))
  }

  lemma {:induction false} UniqueSpec(names: seq<string>)
    ensures Increasing(Unique(names))
    ensures forall y :: y in Unique(names) <==> y in names
  {
    if names != [] {
      var n := |names| - 1;
      UniqueSpec(names[..n]);
      InsertSpec(names[n], Unique(names[..n]));
      assert names == names[..n] + [names[n]];
    }
  }

  /** An increasing list has no repeats. */
  lemma {:induction false} IncreasingDistinct(s: seq<string>)
    requires Increasing(s)
    ensures Distinct(s)
  {
    forall i, j | 0 <= i < j < |s| ensures s[i] != s[j] {
      if s[i] == s[j] {
        StrLtIrreflexive(s[i]);
      }
    }
  }

  // ===========================================================================
  // create_fight_matrix (fmprocess.py:56-98)
  // ===========================================================================

  /** The matrix: its row and column labels, and the (row, column) labels of its 1 entries. */
  datatype Matrix = Matrix(names: seq<string>, ones: set<(string, string)>)

  /** `fight_matrix.iloc[i, j]`. */
  function Entry(m: Matrix, i: nat, j: nat): real
    requires i < |m.names| && j < |m.names|
  {
    if (m.names[i], m.names[j]) in m.ones then 1.0 else 0.0
  }

  /** `fight['Fighters']` of a processed fight. */
  function Pairing(f: Fight): Result<(string, string)>
  {
    NamePair(f, "Fighters")
  }

  /** The first loop: every fight's two names, in order. */
  function AllNames(fights: seq<Fight>): Result<seq<string>>
  {
    if fights == [] then Ok([])
    else
      match AllNames(fights[..|fights| - 1])
      case Err(e) => Err(e)
      case Ok(names) =>
      match Pairing(fights[|fights| - 1])
      case Err(e) => Err(e)
      case Ok(p) => Ok(names + [p.0, p.1])
  }

  /** The variables of the second loop: the last (row, col) assigned, if any, and the 1 entries. */
  datatype Cursor = Cursor(last: Option<(string, string)>, ones: set<(string, string)>)

  /** One fight of the second loop: the winner's column and the loser's row; a fight whose
      Result names neither fighter reuses the previous row and column, which do not exist yet
      at the first fight. */
  function FillStep(c: Cursor, f: Fight): Result<Cursor>
  {
    match Pairing(f)
    case Err(e) => Err(e)
    case Ok(p) =>
    if "Result" !in f then Err(KeyError("Result"))
    else
      var cell := if f["Result"] == Scalar(Str(p.0)) then Some((p.1, p.0))
        else if f["Result"] == Scalar(Str(p.1)) then Some((p.0, p.1))
        else c.last;
      match cell
      case None => Err(NameError("row"))
      case Some(rc) => Ok(Cursor(cell, c.ones + {rc}))
  }

  function Fill(fights: seq<Fight>): Result<Cursor>
  {
    if fights == [] then Ok(Cursor(None, {}))
    else
      match Fill(fights[..|fights| - 1])
      case Err(e) => Err(e)
      case Ok(c) => FillStep(c, fights[|fights| - 1])
  }

  function FightMatrixOf(fights: seq<Fight>): Result<Matrix>
  {
    match AllNames(fights)
    case Err(e) => Err(e)
    case Ok(names) =>
    match Fill(fights)
    case Err(e) => Err(e)
    case Ok(c) => Ok(Matrix(Unique(names), c.ones))
  }

  /** A fight the second loop can read. */
  predicate Readable(f: Fight)
  {
    Pairing(f).Ok? && "Result" in f
  }

  /** A fight whose Result names one of its two fighters. */
  predicate Decisive(f: Fight)
  {
    Readable(f) && (f["Result"] == Scalar(Str(Pairing(f).value.0)) || f["Result"] == Scalar(Str(Pairing(f).value.1)))
  }

  /** The entry a decisive fight sets: (loser, winner). */
  function LoserWinner(f: Fight): (string, string)
    requires Decisive(f)
  {
    var p := Pairing(f).value;
    if f["Result"] == Scalar(Str(p.0)) then (p.1, p.0) else (p.0, p.1)
  }

  /** A draw only repeats the entry already set, so the loop fails exactly when the first
      fight is not decisive; once a fight is read, the last entry is one of the 1 entries. */
  lemma {:induction false} FillSpec(fights: seq<Fight>)
    requires forall f :: f in fights ==> Readable(f)
    ensures Fill(fights).Ok? <==> fights == [] || Decisive(fights[0])
    ensures Fill(fights).Ok? && fights != [] ==> Fill(fights).value.last.Some? && Fill(fights).value.last.value in Fill(fights).value.ones
    ensures Fill(fights).Ok? && fights == [] ==> Fill(fights).value.last.None?
  {
    if fights != [] {
      var n := |fights| - 1;
      var front := fights[..n];
      assert fights[n] in fights;
      assert forall g :: g in front ==> g in fights;
      FillSpec(front);
      if front != [] {
        assert front[0] == fights[0];
      } else {
        assert fights[n] == fights[0];
      }
    }
  }

  /** The 1 entries are exactly (loser, winner) of the decisive fights. */
  lemma {:induction false} FillOnes(fights: seq<Fight>)
    requires Fill(fights).Ok?
    ensures Fill(fights).value.ones == set f | f in fights && Decisive(f) :: LoserWinner(f)
  {
    if fights != [] {
      var n := |fights| - 1;
      var front := fights[..n];
      var f := fights[n];
      assert fights == front + [f];
      FillOnes(front);
      assert (set g | g in fights && Decisive(g) :: LoserWinner(g))
        == (set g | g in front && Decisive(g) :: LoserWinner(g)) + (if Decisive(f) then {LoserWinner(f)} else {});
    }
  }

  /** The names of the decisive fights are all row and column labels. */
  lemma {:induction false} AllNamesCover(fights: seq<Fight>)
    requires AllNames(fights).Ok?
    ensures forall f :: f in fights ==>
      (Pairing(f).Ok? && Pairing(f).value.0 in AllNames(fights).value && Pairing(f).value.1 in AllNames(fights).value)
  {
    if fights != [] {
      var n := |fights| - 1;
      AllNamesCover(fights[..n]);
      assert fights == fights[..n] + [fights[n]];
    }
  }

  /** The matrix is labelled by the sorted distinct names of all fights, and its 1 entries are
      (loser, winner) of each decisive fight, both labels among the names. */
  lemma {:induction false} FightMatrixSpec(fights: seq<Fight>)
    requires FightMatrixOf(fights).Ok?
    ensures Increasing(FightMatrixOf(fights).value.names)
    ensures forall f :: f in fights ==>
      (Pairing(f).Ok?
      && Pairing(f).value.0 in FightMatrixOf(fights).value.names
      && Pairing(f).value.1 in FightMatrixOf(fights).value.names)
    ensures FightMatrixOf(fights).value.ones == set f | f in fights && Decisive(f) :: LoserWinner(f)
    ensures forall e :: e in FightMatrixOf(fights).value.ones ==>
      e.0 in FightMatrixOf(fights).value.names && e.1 in FightMatrixOf(fights).value.names
  {
    var names := AllNames(fights).value;
    AllNamesCover(fights);
    UniqueSpec(names);
    ReadableFights(fights);
    FillOnes(fights);
  }

  /** Once the names of every fight were read, the second loop can read them too, unless a
      Result is missing. */
  lemma {:induction false} ReadableFights(fights: seq<Fight>)
    requires AllNames(fights).Ok? && Fill(fights).Ok?
    ensures forall f :: f in fights ==> Readable(f)
  {
    AllNamesCover(fights);
    FillReadsResults(fights);
  }

  lemma {:induction false} FillReadsResults(fights: seq<Fight>)
    requires Fill(fights).Ok?
    ensures forall f :: f in fights ==> "Result" in f
  {
    if fights != [] {
      var n := |fights| - 1;
      FillReadsResults(fights[..n]);
      assert fights == fights[..n] + [fights[n]];
    }
  }

  /** `create_fight_matrix`: the names collected, sorted and made unique, then the entries set
      fight by fight. */
  method CreateFightMatrix(fights: seq<Fight>) returns (r: Result<Matrix>)
    ensures r == FightMatrixOf(fights)
  {
    var all := CollectNames(fights);
    if all.Err? {
      return Err(all.error);
    }
    var names := Unique(all.value);
    var c := FillMatrix(fights);
    if c.Err? {
      return Err(c.error);
    }
    r := Ok(Matrix(names, c.value.ones));
  }

  method CollectNames(fights: seq<Fight>) returns (r: Result<seq<string>>)
    ensures r == AllNames(fights)
  {
    var names: seq<string> := [];
    var i := 0;
    while i < |fights|
      invariant 0 <= i <= |fights|
      invariant AllNames(fights[..i]) == Ok(names)
    {
      assert fights[..i + 1][..i] == fights[..i];
      var p := Pairing(fights[i]);
      if p.Err? {
        AllNamesAborts(fights, i + 1);
        return Err(p.error);
      }
      names := names + [p.value.0, p.value.1];
      i := i + 1;
    }
    assert fights[..|fights|] == fights;
    r := Ok(names);
  }

  method FillMatrix(fights: seq<Fight>) returns (r: Result<Cursor>)
    ensures r == Fill(fights)
  {
    var last: Option<(string, string)> := None;
    var ones: set<(string, string)> := {};
    var i := 0;
    while i < |fights|
      invariant 0 <= i <= |fights|
      invariant Fill(fights[..i]) == Ok(Cursor(last, ones))
    {
      assert fights[..i + 1][..i] == fights[..i];
      var fight := fights[i];
      var p := Pairing(fight);
      if p.Err? {
        FillAborts(fights, i + 1);
        return Err(p.error);
      }
      var (fighter1, fighter2) := p.value;
      if "Result" !in fight {
        FillAborts(fights, i + 1);
        return Err(KeyError("Result"));
      }
      if fight["Result"] == Scalar(Str(fighter1)) {
        last := Some((fighter2, fighter1));
      } else if fight["Result"] == Scalar(Str(fighter2)) {
        last := Some((fighter1, fighter2));
      }
      if last.None? {
        FillAborts(fights, i + 1);
        return Err(NameError("row"));
      }
      ones := ones + {last.value};
      i := i + 1;
    }
    assert fights[..|fights|] == fights;
    r := Ok(Cursor(last, ones));
  }

  lemma {:induction false} AllNamesAborts(fights: seq<Fight>, k: nat)
    requires k <= |fights| && AllNames(fights[..k]).Err?
    ensures AllNames(fights) == AllNames(fights[..k])
  {
    if k < |fights| {
      var front := fights[..|fights| - 1];
      assert front[..k] == fights[..k];
      AllNamesAborts(front, k);
    } else {
      assert fights[..k] == fights;
    }
  }

  lemma {:induction false} FillAborts(fights: seq<Fight>, k: nat)
    requires k <= |fights| && Fill(fights[..k]).Err?
    ensures Fill(fights) == Fill(fights[..k])
  {
    if k < |fights| {
      var front := fights[..|fights| - 1];
      assert front[..k] == fights[..k];
      FillAborts(front, k);
    } else {
      assert fights[..k] == fights;
    }
  }

  // ===========================================================================
  // create_fight_graph (fmprocess.py:100-137)
  // ===========================================================================

  /** A directed graph on fighter names. */
  datatype Graph = Graph(nodes: set<string>, edges: set<(string, string)>)

  predicate WellFormed(g: Graph)
  {
    forall e :: e in g.edges ==> e.0 in g.nodes && e.1 in g.nodes
  }

  /** One node per column label, and an edge from label i to label j wherever entry [i, j] is 1. */
  function GraphOf(m: Matrix): Graph
  {
    Graph(set i | 0 <= i < |m.names| :: m.names[i],
      set i, j | 0 <= i < |m.names| && 0 <= j < |m.names| && Entry(m, i, j) == 1.0 :: (m.names[i], m.names[j]))
  }

  /** The graph of a list of fights goes through its matrix. */
  function GraphOfFights(fights: seq<Fight>): Result<Graph>
  {
    match FightMatrixOf(fights)
    case Err(e) => Err(e)
    case Ok(m) => Ok(GraphOf(m))
  }

  /** The edges are exactly the 1 entries when every entry is labelled, and the graph is well formed. */
  lemma {:induction false} GraphOfEdges(m: Matrix)
    requires forall e :: e in m.ones ==> e.0 in m.names && e.1 in m.names
    ensures GraphOf(m).edges == m.ones
    ensures GraphOf(m).nodes == set x | x in m.names
    ensures WellFormed(GraphOf(m))
    ensures forall i, j :: 0 <= i < |m.names| && 0 <= j < |m.names| ==>
      ((m.names[i], m.names[j]) in GraphOf(m).edges <==> Entry(m, i, j) == 1.0)
  {
    var g := GraphOf(m);
    forall e | e in m.ones ensures e in g.edges {
      var i :| 0 <= i < |m.names| && m.names[i] == e.0;
      var j :| 0 <= j < |m.names| && m.names[j] == e.1;
      assert Entry(m, i, j) == 1.0;
    }
  }

  /** Every edge of a fight graph runs from the loser of a decisive fight to its winner. */
  lemma {:induction false} FightGraphEdges(fights: seq<Fight>)
    requires GraphOfFights(fights).Ok?
    ensures WellFormed(GraphOfFights(fights).value)
    ensures GraphOfFights(fights).value.edges == set f | f in fights && Decisive(f) :: LoserWinner(f)
  {
    FightMatrixSpec(fights);
    GraphOfEdges(FightMatrixOf(fights).value);
  }

  // ===========================================================================
  // prune_graph (fmprocess.py:140-176)
  // ===========================================================================

  /** The nodes reachable from `base` along at most `k` edges. */
  function Within(g: Graph, base: string, k: nat): set<string>
  {
    if k == 0 then (if base in g.nodes then {base} else {})
    else
      var inner := Within(g, base, k - 1);
      inner + Successors(g, inner)
  }

  /** The heads of the edges leaving `s`. */
  function Successors(g: Graph, s: set<string>): set<string>
  {
    set e | e in g.edges && e.0 in s :: e.1
  }

  /** A path along directed edges, from its first node to its last. */
  predicate IsWalk(g: Graph, w: seq<string>)
  {
    |w| >= 1 && w[0] in g.nodes && forall i :: 0 <= i < |w| - 1 ==> (w[i], w[i + 1]) in g.edges
  }

  /** A walk of at most `k` edges reaches only nodes within `k` hops. */
  lemma {:induction false} WalkWithin(g: Graph, w: seq<string>, k: nat)
    requires IsWalk(g, w) && |w| <= k + 1
    ensures w[|w| - 1] in Within(g, w[0], k)
  {
    if |w| == 1 {
      WithinGrows(g, w[0], 0, k);
    } else {
      var front := w[..|w| - 1];
      assert IsWalk(g, front) by {
        forall i | 0 <= i < |front| - 1 ensures (front[i], front[i + 1]) in g.edges {
          assert (w[i], w[i + 1]) in g.edges;
        }
      }
      WalkWithin(g, front, k - 1);
      assert (w[|w| - 2], w[|w| - 1]) in g.edges;
    }
  }

  /** Every node within `k` hops is the end of a walk of at most `k` edges from the base. */
  lemma {:induction false} WithinWalk(g: Graph, base: string, k: nat, x: string) returns (w: seq<string>)
    requires x in Within(g, base, k)
    ensures IsWalk(g, w) && |w| <= k + 1 && w[0] == base && w[|w| - 1] == x
  {
    if k == 0 {
      w := [base];
    } else if x in Within(g, base, k - 1) {
      w := WithinWalk(g, base, k - 1, x);
    } else {
      var inner := Within(g, base, k - 1);
      assert x in Successors(g, inner);
      var e :| e in g.edges && e.0 in inner && e.1 == x;
      var front := WithinWalk(g, base, k - 1, e.0);
      w := front + [x];
      forall i | 0 <= i < |w| - 1 ensures (w[i], w[i + 1]) in g.edges {
        if i < |front| - 1 {
          assert w[i] == front[i] && w[i + 1] == front[i + 1];
        }
      }
    }
  }

  /** `remove_node`: the node and its edges. */
  function RemoveNode(g: Graph, v: string): Graph
  {
    Graph(g.nodes - {v}, set e | e in g.edges && e.0 != v && e.1 != v)
  }

  /** The subgraph on the kept nodes. */
  function Restrict(g: Graph, keep: set<string>): Graph
  {
    Graph(g.nodes * keep, set e | e in g.edges && e.0 in keep && e.1 in keep)
  }

  /** `prune_graph`: the nodes within `k` hops of the base and the edges among them; a base that
      is not in a non-empty graph makes the first path query fail. */
  function Pruned(g: Graph, base: string, k: nat): Result<Graph>
  {
    if g.nodes != {} && base !in g.nodes then Err(NodeNotFound(base))
    else Ok(Restrict(g, Within(g, base, k)))
  }

  lemma {:induction false} WithinGrows(g: Graph, base: string, j: nat, k: nat)
    requires j <= k
    ensures Within(g, base, j) <= Within(g, base, k)
  {
    if j < k {
      WithinGrows(g, base, j, k - 1);
    }
  }

  lemma {:induction false} WithinNodes(g: Graph, base: string, k: nat)
    requires WellFormed(g)
    ensures Within(g, base, k) <= g.nodes
  {
    if k > 0 {
      WithinNodes(g, base, k - 1);
    }
  }

  /** Removing a node farther than `k` hops changes no node's distance up to `k`: a shortest
      path to a near node only passes near nodes. */
  lemma {:induction false} RemoveFar(g: Graph, base: string, k: nat, v: string, j: nat)
    requires v !in Within(g, base, k) && j <= k
    ensures Within(RemoveNode(g, v), base, j) == Within(g, base, j)
  {
    WithinGrows(g, base, j, k);
    RemoveNear(g, base, v, j);
  }

  /** `RemoveFar` with the distance bound at `j` itself. */
  lemma {:induction false} RemoveNear(g: Graph, base: string, v: string, j: nat)
    requires v !in Within(g, base, j)
    ensures Within(RemoveNode(g, v), base, j) == Within(g, base, j)
  {
    var h := RemoveNode(g, v);
    if j > 0 {
      var inner := Within(g, base, j - 1);
      assert Within(g, base, j) == inner + Successors(g, inner);
      RemoveNear(g, base, v, j - 1);
      assert Within(h, base, j) == inner + Successors(h, inner);
      SuccessorsWithout(g, v, inner);
    } else {
      assert base in g.nodes ==> base in Within(g, base, 0);
      assert h.nodes == g.nodes - {v};
    }
  }

  /** Removing a node that is neither in `s` nor a successor of it keeps the successors. */
  lemma {:induction false} SuccessorsWithout(g: Graph, v: string, s: set<string>)
    requires v !in s + Successors(g, s)
    ensures Successors(RemoveNode(g, v), s) == Successors(g, s)
  {
    var h := RemoveNode(g, v);
    forall x | x in Successors(g, s) ensures x in Successors(h, s) {
      var e :| e in g.edges && e.0 in s && e.1 == x;
      assert e in h.edges;
    }
  }

  /** The pruned graph is a well-formed subgraph that keeps the base and the end of every walk
      of at most `k` edges from it; each node it keeps is such an end (`WithinWalk`). */
  lemma {:induction false} PrunedSpec(g: Graph, base: string, k: nat)
    requires WellFormed(g) && Pruned(g, base, k).Ok?
    ensures WellFormed(Pruned(g, base, k).value)
    ensures Pruned(g, base, k).value.nodes <= g.nodes && Pruned(g, base, k).value.edges <= g.edges
    ensures g.nodes != {} ==> base in Pruned(g, base, k).value.nodes
    ensures forall w :: IsWalk(g, w) && w[0] == base && |w| <= k + 1 ==> w[|w| - 1] in Pruned(g, base, k).value.nodes
    ensures forall x :: x in Pruned(g, base, k).value.nodes ==> x in Within(g, base, k)
  {
    WithinGrows(g, base, 0, k);
    forall w | IsWalk(g, w) && w[0] == base && |w| <= k + 1 ensures w[|w| - 1] in Pruned(g, base, k).value.nodes {
      WalkWithin(g, w, k);
      assert w[|w| - 1] in g.nodes by {
        if |w| > 1 {
          assert (w[|w| - 2], w[|w| - 1]) in g.edges;
        }
      }
    }
  }

  /** `prune_graph`: the loop over the original nodes, each removed from the copy when no path
      of at most `k` edges leads to it from the base in the copy as it stands. */
  method PruneGraph(g: Graph, base: string, k: nat) returns (r: Result<Graph>)
    requires WellFormed(g)
    ensures r == Pruned(g, base, k)
  {
    var h := g;
    var order := Enumerate(g.nodes);
    var near := Within(g, base, k);
    WithinNodes(g, base, k);
    WithinGrows(g, base, 0, k);
    var i := 0;
    while i < |order|
      invariant 0 <= i <= |order|
      invariant i > 0 ==> base in g.nodes
      invariant Within(h, base, k) == near
      invariant h.nodes == g.nodes - (set j | 0 <= j < i && order[j] !in near :: order[j])
      invariant h.edges == set e | e in g.edges && e.0 in h.nodes && e.1 in h.nodes
    {
      var node := order[i];
      if base !in h.nodes {
        assert base !in g.nodes && order[i] in g.nodes;
        return Err(NodeNotFound(base));
      }
      if node !in Within(h, base, k) {
        RemoveFar(h, base, k, node, k);
        h := RemoveNode(h, node);
      }
      i := i + 1;
    }
    if g.nodes != {} {
      var x :| x in g.nodes;
      assert x in order;
    }
    forall x | x in g.nodes && x !in near ensures x !in h.nodes {
      var j :| 0 <= j < |order| && order[j] == x;
    }
    assert h.nodes == g.nodes * near;
    assert h.edges == Restrict(g, near).edges;
    r := Ok(h);
  }
}
