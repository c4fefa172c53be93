/**
 * Table of label equivalence: a union-find forest stored as a map from each
 * registered label to its parent label.  A root maps to itself.  Merging
 * always hangs the root with the larger id under the root with the smaller
 * id, so parents never have a larger id than their children and the root of
 * every class is the label of minimum id in that class.
 */
module LabelEqTables {
  import opened Wrappers
  import opened Labels

  type EqMap = map<Label, Label>

  /** The parent of `k` is registered and has an id no larger than `k`'s. */
  ghost predicate ParentOk(m: EqMap, k: Label) {
    k in m && m[k] in m && m[k].id <= k.id
  }

  /** Every parent is registered and has an id no larger than its child's. */
  ghost predicate ParentsDecrease(m: EqMap) {
    forall k {:trigger ParentOk(m, k)} :: k in m ==> ParentOk(m, k)
  }

  /** Number of registered labels with a smaller id: strictly drops along parent links. */
  ghost function Rank(m: EqMap, k: Label): nat {
    |set j | j in m && j.id < k.id|
  }

  lemma RankDecreases(m: EqMap, p: Label, k: Label)
    requires p in m && p.id < k.id
    ensures Rank(m, p) < Rank(m, k)
  {
    var below := set j | j in m && j.id < p.id;
    var belowK := set j | j in m && j.id < k.id;
    assert belowK == below + (belowK - below);
    assert p in belowK - below;
  }

  /** The representative of `k`: the root reached by following parents from `k`. */
  ghost function Find(m: EqMap, k: Label): (r: Label)
    requires ParentsDecrease(m) && k in m
    ensures r in m && m[r] == r && r.id <= k.id
    decreases Rank(m, k)
  {
    assert ParentOk(m, k);
    if m[k] == k then k
    else
      RankDecreases(m, m[k], k);
      Find(m, m[k])
  }

  /** The labels visited by following parents from `k`, `k` and its root included. */
  ghost function Path(m: EqMap, k: Label): (p: set<Label>)
    requires ParentsDecrease(m) && k in m
    decreases Rank(m, k)
  {
    assert ParentOk(m, k);
    if m[k] == k then {k}
    else
      RankDecreases(m, m[k], k);
      {k} + Path(m, m[k])
  }

  /**
   * At `k`, `rep` agrees with the parent links: `rep[k]` is a registered root
   * of no larger id, a root is its own representative and any other label
   * shares its parent's.
   */
  ghost predicate RepOk(m: EqMap, rep: map<Label, Label>, k: Label) {
    ParentOk(m, k) && k in rep && rep[k] in m && m[rep[k]] == rep[k] && rep[k].id <= k.id &&
    (m[k] == k ==> rep[k] == k) && (m[k] != k ==> m[k] in rep && rep[k] == rep[m[k]])
  }

  /** `rep` gives every registered label its representative. */
  ghost predicate RepsConsistent(m: EqMap, rep: map<Label, Label>) {
    rep.Keys == m.Keys && forall k {:trigger RepOk(m, rep, k)} :: k in m ==> RepOk(m, rep, k)
  }

  /** A consistent representative map is exactly the recursive lookup `Find`. */
  lemma {:induction false} RepsAreFind(m: EqMap, rep: map<Label, Label>, x: Label)
    requires ParentsDecrease(m) && RepsConsistent(m, rep) && x in m
    ensures rep[x] == Find(m, x)
    decreases Rank(m, x)
  {
    assert RepOk(m, rep, x);
    if m[x] != x {
      RankDecreases(m, m[x], x);
      RepsAreFind(m, rep, m[x]);
    }
  }

  /** Smaller-id label of the pair (the second on a tie). */
  function Min(first: Label, second: Label): (r: Label)
    ensures r == first || r == second
    ensures r.id <= first.id && r.id <= second.id
  {
    if first.id < second.id then first else second
  }

  /** Larger-id label of the pair (the second on a tie). */
  function Max(first: Label, second: Label): (r: Label)
    ensures r == first || r == second
    ensures r.id >= first.id && r.id >= second.id
  {
    if first.id > second.id then first else second
  }

  /** Every label of the class of `hi` moves to the class of `lo`. */
  ghost function Relabel(rep: map<Label, Label>, hi: Label, lo: Label): map<Label, Label> {
    map x | x in rep :: if rep[x] == hi then lo else rep[x]
  }

  /** Registering a fresh, self-mapped label adds a singleton class and keeps every other. */
  /**
   * The representatives after the classes of representatives `a` and `b`
   * are joined: both become the class of the smaller-id one, and every
   * other class stays as it is.
   */
  ghost function Merge(rep: map<Label, Label>, a: Label, b: Label): map<Label, Label> {
    map x | x in rep :: if rep[x] == a || rep[x] == b then Min(a, b) else rep[x]
  }

  lemma RegisterKeepsReps(m: EqMap, rep: map<Label, Label>, l: Label)
    requires ParentsDecrease(m) && RepsConsistent(m, rep) && l !in m
    ensures ParentsDecrease(m[l := l]) && RepsConsistent(m[l := l], rep[l := l])
  {
    var m', rep' := m[l := l], rep[l := l];
    forall j | j in m'
      ensures ParentOk(m', j) && RepOk(m', rep', j)
    {
      if j != l {
        assert RepOk(m, rep, j);
      }
    }
  }

  /** Pointing `k` straight at its representative keeps `j` consistent. */
  lemma RedirectKeepsRepAt(m: EqMap, rep: map<Label, Label>, k: Label, j: Label)
    requires RepOk(m, rep, k) && RepOk(m, rep, rep[k]) && RepOk(m, rep, j) && RepOk(m, rep, rep[j])
    ensures ParentOk(m[k := rep[k]], j) && RepOk(m[k := rep[k]], rep, j)
  {
  }

  /** Pointing a label straight at its representative keeps every representative. */
  lemma RedirectKeepsReps(m: EqMap, rep: map<Label, Label>, k: Label)
    requires ParentsDecrease(m) && RepsConsistent(m, rep) && k in m
    ensures ParentsDecrease(m[k := rep[k]]) && RepsConsistent(m[k := rep[k]], rep)
  {
    var m' := m[k := rep[k]];
    assert RepOk(m, rep, k);
    assert RepOk(m, rep, rep[k]);
    forall j | j in m'
      ensures ParentOk(m', j) && RepOk(m', rep, j)
    {
      assert RepOk(m, rep, j);
      RedirectKeepsRepAt(m, rep, k, j);
    }
  }

  /** Hanging root `hi` under root `lo` keeps `j` consistent with the relabelled classes. */
  lemma LinkRelabelsAt(m: EqMap, rep: map<Label, Label>, hi: Label, lo: Label, j: Label)
    requires RepOk(m, rep, hi) && RepOk(m, rep, lo) && m[hi] == hi && m[lo] == lo && lo.id < hi.id
    requires RepOk(m, rep, j) && RepOk(m, rep, rep[j]) && (m[j] != j ==> RepOk(m, rep, m[j]))
    ensures ParentOk(m[hi := lo], j)
    ensures var rep' := Relabel(rep, hi, lo); j in rep' && RepOk(m[hi := lo], rep', j)
  {
  }

  /**
   * Hanging root `hi` under root `lo` (of smaller id) moves exactly the class
   * of `hi` into the class of `lo`.
   */
  lemma LinkRelabels(m: EqMap, rep: map<Label, Label>, hi: Label, lo: Label)
    requires ParentsDecrease(m) && RepsConsistent(m, rep)
    requires hi in m && lo in m && m[hi] == hi && m[lo] == lo && lo.id < hi.id
    ensures ParentsDecrease(m[hi := lo]) && RepsConsistent(m[hi := lo], Relabel(rep, hi, lo))
  {
    var m', rep' := m[hi := lo], Relabel(rep, hi, lo);
    assert RepOk(m, rep, hi) && RepOk(m, rep, lo);
    forall j | j in m'
      ensures ParentOk(m', j) && RepOk(m', rep', j)
    {
      assert RepOk(m, rep, j);
      assert RepOk(m, rep, rep[j]);
      if m[j] != j {
        assert RepOk(m, rep, m[j]);
      }
      LinkRelabelsAt(m, rep, hi, lo, j);
    }
  }

  /** The representative of every label is the minimum id of its class. */
  lemma RepresentativeIsClassMinimum(m: EqMap, x: Label, y: Label)
    requires ParentsDecrease(m) && x in m && y in m
    requires Find(m, x) == Find(m, y)
    ensures Find(m, x).id <= y.id
  {
  }

  /** Representatives are roots, so the representative of a representative is itself. */
  lemma RepOfRep(m: EqMap, rep: map<Label, Label>, k: Label)
    requires RepsConsistent(m, rep) && k in m
    ensures rep[k] in rep && rep[rep[k]] == rep[k]
  {
    assert RepOk(m, rep, k);
    assert RepOk(m, rep, rep[k]);
  }

  /**
   * `after` only merges classes of `before`: every label of `before` is still
   * known, and its class is now the class of its former representative.
   * Labels that shared a class therefore still share one.
   */
  ghost predicate OnlyMerged(before: map<Label, Label>, after: map<Label, Label>) {
    forall k {:trigger MergedAt(before, after, k)} :: k in before ==> MergedAt(before, after, k)
  }

  /** `k` now shares the class of its former representative. */
  ghost predicate MergedAt(before: map<Label, Label>, after: map<Label, Label>, k: Label) {
    k in before && k in after && before[k] in after && after[k] == after[before[k]]
  }

  /** Labels that shared a representative before a merge-only change still share one. */
  lemma OnlyMergedKeepsTogether(before: map<Label, Label>, after: map<Label, Label>, a: Label, b: Label)
    requires OnlyMerged(before, after) && a in before && b in before && before[a] == before[b]
    ensures a in after && b in after && after[a] == after[b]
  {
    assert MergedAt(before, after, a) && MergedAt(before, after, b);
  }

  /** Merge-only changes compose. */
  lemma OnlyMergedTrans(m: EqMap, r0: map<Label, Label>, r1: map<Label, Label>, r2: map<Label, Label>)
    requires RepsConsistent(m, r0) && OnlyMerged(r0, r1) && OnlyMerged(r1, r2)
    ensures OnlyMerged(r0, r2)
  {
    forall k | k in r0
      ensures MergedAt(r0, r2, k)
    {
      RepOfRep(m, r0, k);
      assert MergedAt(r0, r1, k) && MergedAt(r0, r1, r0[k]);
      assert MergedAt(r1, r2, k) && MergedAt(r1, r2, r0[k]);
    }
  }

  /** A consistent representative map only merges with respect to itself. */
  lemma OnlyMergedRefl(m: EqMap, rep: map<Label, Label>)
    requires RepsConsistent(m, rep)
    ensures OnlyMerged(rep, rep)
  {
    forall k | k in rep
      ensures MergedAt(rep, rep, k)
    {
      RepOfRep(m, rep, k);
    }
  }

  /** Moving the class of root `hi` into the class of root `lo` only merges. */
  lemma RelabelOnlyMerges(m: EqMap, rep: map<Label, Label>, hi: Label, lo: Label)
    requires RepsConsistent(m, rep) && lo in m && rep[lo] == lo
    ensures OnlyMerged(rep, Relabel(rep, hi, lo))
  {
    var rep' := Relabel(rep, hi, lo);
    forall k | k in rep
      ensures MergedAt(rep, rep', k)
    {
      RepOfRep(m, rep, k);
    }
  }

  /**
   * `Dictionary.Add` as the table's insert is written: it fails on a key that
   * is already present instead of replacing its entry.
   */
  function AddEntry(m: EqMap, parent: Label, child: Label): (r: Option<EqMap>)
    ensures r.None? <==> parent in m
    ensures r.Some? ==> r.value.Keys == m.Keys + {parent} && r.value[parent] == child
    ensures r.Some? ==> forall k :: k in m ==> r.value[k] == m[k]
  {
    if parent in m then None else Some(m[parent := child])
  }

  /**
   * With the failing insert, merging two labels of different classes always
   * fails: the larger representative is a registered root.
   */
  lemma AddEntryFailsOnMerge(m: EqMap, rep: map<Label, Label>, first: Label, second: Label)
    requires ParentsDecrease(m) && RepsConsistent(m, rep) && first in m && second in m
    requires rep[first] != rep[second]
    ensures AddEntry(m, Max(rep[first], rep[second]), Min(rep[first], rep[second])).None?
  {
    assert RepOk(m, rep, first) && RepOk(m, rep, second);
  }

  /** With the failing insert, compressing the path of any non-root label fails. */
  lemma AddEntryFailsOnCompression(m: EqMap, rep: map<Label, Label>, lab: Label)
    requires ParentsDecrease(m) && RepsConsistent(m, rep) && lab in m && m[lab] != lab
    ensures AddEntry(m, lab, rep[lab]).None? && rep[lab] != lab
  {
    assert RepOk(m, rep, lab);
  }

  class LabelEqTable {
    /** Map from each registered label to its parent label. */
    var eqMap: EqMap
    /** The representative of every registered label (ghost view of the classes). */
    ghost var reps: map<Label, Label>

    ghost predicate Valid()
      reads this
    {
      ParentsDecrease(eqMap) && RepsConsistent(eqMap, reps)
    }

    constructor ()
      ensures Valid() && eqMap == map[] && reps == map[]
    {
      eqMap := map[];
      reps := map[];
    }

    /** Records `child` as the parent of `parent`, replacing any previous entry. */
    method SetChild(parent: Label, child: Label)
      modifies this`eqMap
      ensures eqMap == old(eqMap)[parent := child]
    {
      eqMap := eqMap[parent := child];
    }

    /** The parent entry of a registered label. */
    function GetChild(parent: Label): (child: Label)
      reads this
      requires Valid() && parent in eqMap
      ensures child in eqMap && child.id <= parent.id
      ensures child == parent <==> Find(eqMap, parent) == parent
    {
      assert ParentOk(eqMap, parent);
      eqMap[parent]
    }

    /** Whether `lab` is registered. */
    function HasLabel(lab: Label): (b: bool)
      reads this
      ensures b <==> lab in eqMap
    {
      lab in eqMap
    }

    /** Registers `lab` as its own class; true exactly when it was not registered. */
    method AddLabel(lab: Label) returns (isNewLabel: bool)
      requires Valid()
      modifies this
      ensures Valid()
      ensures isNewLabel == (lab !in old(eqMap))
      ensures eqMap == if isNewLabel then old(eqMap)[lab := lab] else old(eqMap)
      ensures reps == if isNewLabel then old(reps)[lab := lab] else old(reps)
    {
      isNewLabel := !HasLabel(lab);
      if isNewLabel {
        RegisterKeepsReps(eqMap, reps, lab);
        SetChild(lab, lab);
        reps := reps[lab := lab];
      }
    }

    /**
     * The representative of a registered label.  Every label on the path from
     * `lab` is redirected to it, which changes no label's representative.
     */
    method GetRep(lab: Label) returns (rep: Label)
      requires Valid() && lab in eqMap
      modifies this`eqMap
      ensures Valid() && reps == old(reps)
      ensures rep == reps[lab] && rep == Find(old(eqMap), lab)
      ensures eqMap.Keys == old(eqMap).Keys
      ensures forall x :: x in eqMap ==>
        eqMap[x] == if x in Path(old(eqMap), lab) then reps[x] else old(eqMap)[x]
      decreases Rank(eqMap, lab)
    {
      RepsAreFind(eqMap, reps, lab);
      assert RepOk(eqMap, reps, lab);
      var child := GetChild(lab);
      if child == lab {
        return lab;
      }
      ghost var m0 := eqMap;
      assert Path(m0, lab) == {lab} + Path(m0, child);
      RankDecreases(eqMap, child, lab);
      rep := GetRep(child);
      RedirectKeepsReps(eqMap, reps, lab);
      SetChild(lab, rep);
    }

    /**
     * Joins the classes of `first` and `second`: the classes stay as they are
     * when the two already share a representative, otherwise the larger-id
     * representative is hung under the smaller-id one.
     */
    method SetComembers(first: Label, second: Label)
      requires Valid() && first in eqMap && second in eqMap
      modifies this
      ensures Valid() && eqMap.Keys == old(eqMap).Keys
      ensures reps == Merge(old(reps), old(reps)[first], old(reps)[second])
      ensures reps[first] == reps[second] && OnlyMerged(old(reps), reps)
    {
      var firstRep := GetRep(first);
      var secondRep := GetRep(second);
      if firstRep == secondRep {
        OnlyMergedRefl(eqMap, reps);
        return;
      }
      assert RepOk(eqMap, reps, first) && RepOk(eqMap, reps, second);
      var max := Max(firstRep, secondRep);
      var min := Min(firstRep, secondRep);
      RepOfRep(eqMap, reps, first);
      RepOfRep(eqMap, reps, second);
      RelabelOnlyMerges(eqMap, reps, max, min);
      LinkRelabels(eqMap, reps, max, min);
      SetChild(max, min);
      reps := Relabel(reps, max, min);
    }
  }

  /** A table holding the labels 1 to 6, each its own representative. */
  method ExampleLabels() returns (table: LabelEqTable)
    ensures fresh(table) && table.Valid()
    ensures table.eqMap.Keys == {Label(1), Label(2), Label(3), Label(4), Label(5), Label(6)}
    ensures forall x :: x in table.reps ==> table.reps[x] == x
  {
    table := new LabelEqTable();
    var added := table.AddLabel(Label(1));
    added := table.AddLabel(Label(2));
    added := table.AddLabel(Label(3));
    added := table.AddLabel(Label(4));
    added := table.AddLabel(Label(5));
    added := table.AddLabel(Label(6));
  }

  /** The merges of the example: 1 with 6, 2 with 3, 3 with 4 and 5 with 4. */
  method ExampleMerged() returns (table: LabelEqTable)
    ensures fresh(table) && table.Valid()
    ensures table.eqMap.Keys == {Label(1), Label(2), Label(3), Label(4), Label(5), Label(6)}
    ensures table.reps[Label(1)] == Label(1) && table.reps[Label(6)] == Label(1)
    ensures table.reps[Label(2)] == Label(2) && table.reps[Label(3)] == Label(2)
    ensures table.reps[Label(4)] == Label(2) && table.reps[Label(5)] == Label(2)
  {
    table := ExampleLabels();
    table.SetComembers(Label(1), Label(6));
    assert table.reps[Label(6)] == Label(1) && table.reps[Label(5)] == Label(5) && table.reps[Label(4)] == Label(4);
    assert table.reps[Label(3)] == Label(3) && table.reps[Label(2)] == Label(2) && table.reps[Label(1)] == Label(1);
    table.SetComembers(Label(2), Label(3));
    assert table.reps[Label(3)] == Label(2) && table.reps[Label(2)] == Label(2) && table.reps[Label(4)] == Label(4);
    table.SetComembers(Label(3), Label(4));
    assert table.reps[Label(4)] == Label(2) && table.reps[Label(5)] == Label(5);
    table.SetComembers(Label(5), Label(4));
  }

  /**
   * The reduction described beside the table: labels 1 and 6 are equivalent,
   * and so are 2, 3, 4 and 5; they reduce to representatives 1 and 2.
   */
  method ReduceExample() returns (repIds: seq<int>)
    ensures repIds == [1, 2, 2, 2, 2, 1]
  {
    var table := ExampleMerged();
    var r1 := table.GetRep(Label(1));
    var r2 := table.GetRep(Label(2));
    var r3 := table.GetRep(Label(3));
    var r4 := table.GetRep(Label(4));
    var r5 := table.GetRep(Label(5));
    var r6 := table.GetRep(Label(6));
    repIds := [r1.GetId(), r2.GetId(), r3.GetId(), r4.GetId(), r5.GetId(), r6.GetId()];
  }
}
