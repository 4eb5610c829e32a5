/** Reatom atoms as mutable cells. A collection of the server-synced stores is
    an array of cells: changing one entity sets its cell, adding or removing
    entities replaces the array. Cells are compared by identity, as `!==` on
    atoms does. */
module Atoms {
  import opened Common
  import opened Collections

  /** `atom(value)`: a cell whose `set` replaces its value. */
  class Cell<T> {
    var value: T

    constructor(v: T)
      ensures value == v
    {
      value := v;
    }
  }

  /** What the array of cells shows: the value of each cell, in array order. */
  function Values<T>(cs: seq<Cell<T>>): (vs: seq<T>)
    reads cs
    ensures |vs| == |cs|
    ensures forall i :: 0 <= i < |cs| ==> vs[i] == cs[i].value
  {
    seq(|cs|, i requires 0 <= i < |cs| reads cs => cs[i].value)
  }

  /** No cell occurs twice in the array. */
  ghost predicate DistinctCells<T>(cs: seq<Cell<T>>) {
    forall i, j :: 0 <= i < j < |cs| ==> cs[i] != cs[j]
  }

  /** `curr.filter((x) => x !== cell)`: drops `cell` by identity. */
  function RemoveCell<T>(cs: seq<Cell<T>>, cell: Cell<T>): (r: seq<Cell<T>>)
    ensures forall i :: 0 <= i < |r| ==> r[i] in cs && r[i] != cell
    ensures forall i :: 0 <= i < |cs| && cs[i] != cell ==> cs[i] in r
    ensures |r| <= |cs|
    ensures DistinctCells(cs) ==> DistinctCells(r)
  {
    if cs == [] then []
    else
      var rest := RemoveCell(cs[1..], cell);
      if cs[0] == cell then rest else [cs[0]] + rest
  }

  /** Removing a cell that was appended to an array not holding it gives the
      array back: a failed create leaves exactly the cells it found. */
  lemma {:induction false} RemoveAppended<T>(cs: seq<Cell<T>>, cell: Cell<T>)
    requires cell !in cs
    ensures RemoveCell(cs + [cell], cell) == cs
  {
    if cs == [] {
      assert [] + [cell] == [cell];
    } else {
      assert (cs + [cell])[1..] == cs[1..] + [cell];
      RemoveAppended(cs[1..], cell);
    }
  }

  /** Removing a cell keeps every other cell in its relative order. */
  lemma {:induction false} RemoveAbsent<T>(cs: seq<Cell<T>>, cell: Cell<T>)
    requires cell !in cs
    ensures RemoveCell(cs, cell) == cs
  {
    if cs != [] {
      RemoveAbsent(cs[1..], cell);
    }
  }

  lemma ValuesConcat<T>(a: seq<Cell<T>>, b: seq<Cell<T>>)
    ensures Values(a + b) == Values(a) + Values(b)
  {
  }

  /** `curr.filter((x) => keep(x()))`: the cells whose value is kept. */
  function KeepWhere<T(!new)>(cs: seq<Cell<T>>, keep: T -> bool): (r: seq<Cell<T>>)
    reads cs
    ensures forall i :: 0 <= i < |r| ==> r[i] in cs && keep(r[i].value)
  {
    if cs == [] then []
    else
      var rest := KeepWhere(cs[1..], keep);
      if keep(cs[0].value) then [cs[0]] + rest else rest
  }

  /** The kept cells show exactly the kept values. */
  lemma {:induction false} KeepWhereValues<T(!new)>(cs: seq<Cell<T>>, keep: T -> bool)
    ensures Values(KeepWhere(cs, keep)) == Filter(Values(cs), keep)
  {
    if cs != [] {
      var rest := KeepWhere(cs[1..], keep);
      KeepWhereValues(cs[1..], keep);
      assert Values(cs)[1..] == Values(cs[1..]);
      if keep(cs[0].value) {
        assert Values([cs[0]] + rest) == [cs[0].value] + Values(rest);
      }
    }
  }

  /** Keeping some cells of an array without repeats leaves an array without repeats. */
  lemma {:induction false} KeepWhereDistinct<T(!new)>(cs: seq<Cell<T>>, keep: T -> bool)
    requires DistinctCells(cs)
    ensures DistinctCells(KeepWhere(cs, keep))
  {
    if cs != [] {
      KeepWhereDistinct(cs[1..], keep);
      var rest := KeepWhere(cs[1..], keep);
      assert forall i :: 0 <= i < |rest| ==> rest[i] in cs[1..];
      assert cs[0] !in cs[1..];
    }
  }

  /** `find((x) => x().id === id)` on the values: the first position whose id is `id`. */
  function Locate<T(!new)>(vs: seq<T>, idOf: T -> string, id: string): (r: Option<nat>)
    ensures r.Some? ==> r.value < |vs| && idOf(vs[r.value]) == id
    ensures r.Some? ==> forall j :: 0 <= j < r.value ==> idOf(vs[j]) != id
    ensures r.None? <==> forall j :: 0 <= j < |vs| ==> idOf(vs[j]) != id
  {
    if vs == [] then None
    else if idOf(vs[0]) == id then Some(0)
    else match Locate(vs[1..], idOf, id)
      case None => None
      case Some(i) => Some(i + 1)
  }

  /** Two value arrays with the same ids at every position locate every id at
      the same position. */
  lemma LocateByIds<T(!new)>(a: seq<T>, b: seq<T>, idOf: T -> string, id: string)
    requires |a| == |b|
    requires forall i :: 0 <= i < |a| ==> idOf(a[i]) == idOf(b[i])
    ensures Locate(a, idOf, id) == Locate(b, idOf, id)
  {
    var la, lb := Locate(a, idOf, id), Locate(b, idOf, id);
    if la.Some? && lb.Some? {
      assert !(la.value < lb.value) && !(lb.value < la.value);
    }
  }

  /** `cells[p].set(v)`: in an array without repeated cells, exactly position
      `p` shows the new value. */
  method SetCell<T>(cells: seq<Cell<T>>, p: nat, v: T)
    requires p < |cells| && DistinctCells(cells)
    modifies cells[p]
    ensures Values(cells) == old(Values(cells))[p := v]
  {
    cells[p].value := v;
  }

  /** `atom.set(v)` on a cell of the array, found by identity. */
  method SetCellOf<T>(cells: seq<Cell<T>>, c: Cell<T>, v: T)
    requires c in cells && DistinctCells(cells)
    modifies c
    ensures forall p :: 0 <= p < |cells| && cells[p] == c ==> Values(cells) == old(Values(cells))[p := v]
  {
    c.value := v;
    forall p | 0 <= p < |cells| && cells[p] == c
      ensures Values(cells) == old(Values(cells))[p := v]
    {
      assert forall i :: 0 <= i < |cells| && i != p ==> cells[i] != c;
    }
  }

  /** Writing position `p` twice keeps only the second write, and writing back
      the value a position holds changes nothing. */
  lemma Overwrite<T>(s: seq<T>, p: nat, a: T, b: T)
    requires p < |s|
    ensures s[p := a][p := b] == s[p := b]
    ensures s[p := s[p]] == s
  {
  }

  /** `values.map((v) => atom(v))`: one fresh cell per value. */
  method NewCells<T>(vs: seq<T>) returns (cs: seq<Cell<T>>)
    ensures Values(cs) == vs
    ensures DistinctCells(cs)
    ensures forall i :: 0 <= i < |cs| ==> fresh(cs[i])
  {
    cs := [];
    for i := 0 to |vs|
      invariant Values(cs) == vs[..i]
      invariant DistinctCells(cs)
      invariant forall j :: 0 <= j < |cs| ==> fresh(cs[j])
    {
      var c := new Cell(vs[i]);
      cs := cs + [c];
    }
  }
}
