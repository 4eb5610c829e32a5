/** The optimistic reorder shared by the three server-synced stores. For each
    listed id, in list order, the cell currently holding that id is found, its
    value is saved in a `Map` of previous states under the id, and the cell gets
    `order = index`. If the remote call fails, the saved states are written back,
    again by looking each id up among the current cells, in the `Map`'s
    insertion order. */
module Reorder {
  import opened Common
  import opened Atoms

  /** One entry of a `Map<string, T>` of previous states. */
  datatype Entry<T> = Entry(id: string, value: T)

  /** Whether the map holds key `id` (`map.has(id)`). */
  predicate HasKey<T>(m: seq<Entry<T>>, id: string) {
    exists k :: 0 <= k < |m| && m[k].id == id
  }

  /** A `Map` never holds a key twice. */
  ghost predicate UniqueKeys<T>(m: seq<Entry<T>>) {
    forall k, l :: 0 <= k < l < |m| ==> m[k].id != m[l].id
  }

  /** `map.set(id, v)`: an existing key keeps its place and takes the new value;
      a new key goes to the end. */
  function MapSet<T>(m: seq<Entry<T>>, id: string, v: T): (r: seq<Entry<T>>)
    ensures HasKey(m, id) ==> |r| == |m|
    ensures !HasKey(m, id) ==> r == m + [Entry(id, v)]
    ensures forall k :: 0 <= k < |m| ==> r[k] == (if m[k].id == id then Entry(id, v) else m[k])
    ensures UniqueKeys(m) ==> UniqueKeys(r)
    ensures HasKey(r, id)
  {
    if HasKey(m, id) then
      seq(|m|, k requires 0 <= k < |m| => if m[k].id == id then Entry(id, v) else m[k])
    else
      var r := m + [Entry(id, v)];
      assert r[|m|].id == id;
      r
  }

  /** No id is listed twice. */
  ghost predicate NoDuplicates(ids: seq<string>) {
    forall i, j :: 0 <= i < j < |ids| ==> ids[i] != ids[j]
  }

  /** The values of the cells after the optimistic pass, and the `Map` of
      previous states it filled. */
  datatype Run<T> = Run(values: seq<T>, snapshots: seq<Entry<T>>)

  /** One iteration of `orderedIds.forEach((id, index) => ...)`. */
  function ReorderStep<T(!new)>(run: Run<T>, id: string, index: int,
                                idOf: T -> string, stamp: (T, int) -> T): (r: Run<T>)
    ensures |r.values| == |run.values|
  {
    match Locate(run.values, idOf, id)
    case None => run
    case Some(p) =>
      Run(run.values[p := stamp(run.values[p], index)], MapSet(run.snapshots, id, run.values[p]))
  }

  /** The optimistic pass over `ids`, starting from cell values `vs` and an empty map. */
  function ReorderRun<T(!new)>(vs: seq<T>, ids: seq<string>,
                               idOf: T -> string, stamp: (T, int) -> T): (r: Run<T>)
    ensures |r.values| == |vs|
    decreases |ids|
  {
    if ids == [] then Run(vs, [])
    else
      var n := |ids| - 1;
      ReorderStep(ReorderRun(vs, ids[..n], idOf, stamp), ids[n], n, idOf, stamp)
  }

  /** Writing one saved state back to the cell currently holding its id. */
  function RestoreStep<T(!new)>(vs: seq<T>, e: Entry<T>, idOf: T -> string): (r: seq<T>)
    ensures |r| == |vs|
  {
    match Locate(vs, idOf, e.id)
    case None => vs
    case Some(p) => vs[p := e.value]
  }

  /** `previousStates.forEach(...)`: every saved state written back, in insertion order. */
  function Restored<T(!new)>(vs: seq<T>, m: seq<Entry<T>>, idOf: T -> string): (r: seq<T>)
    ensures |r| == |vs|
    decreases |m|
  {
    if m == [] then vs
    else
      var n := |m| - 1;
      RestoreStep(Restored(vs, m[..n], idOf), m[n], idOf)
  }

  /** Two value arrays of the same length with the same id at every position. */
  ghost predicate SameIds<T>(a: seq<T>, b: seq<T>, idOf: T -> string) {
    |a| == |b| && forall q :: 0 <= q < |a| ==> idOf(a[q]) == idOf(b[q])
  }

  /** Every saved state carries the id it is saved under. */
  ghost predicate KeyedByOwnId<T>(m: seq<Entry<T>>, idOf: T -> string) {
    forall k :: 0 <= k < |m| ==> idOf(m[k].value) == m[k].id
  }

  /** `{ ...x, order: index, ... }` never changes the id. */
  ghost predicate KeepsIds<T(!new)>(idOf: T -> string, stamp: (T, int) -> T) {
    forall x: T, i: int :: idOf(stamp(x, i)) == idOf(x)
  }

  /** Changing one position to a value with the same id locates every id at the
      same position as before. */
  lemma LocateAfterUpdate<T(!new)>(vs: seq<T>, p: nat, y: T, idOf: T -> string, id: string)
    requires p < |vs| && idOf(y) == idOf(vs[p])
    ensures Locate(vs[p := y], idOf, id) == Locate(vs, idOf, id)
  {
    LocateByIds(vs[p := y], vs, idOf, id);
  }

  /** Writing saved states back never changes the id at any position. */
  lemma {:induction false} RestoredKeepsIds<T(!new)>(vs: seq<T>, m: seq<Entry<T>>, idOf: T -> string)
    requires KeyedByOwnId(m, idOf)
    ensures SameIds(Restored(vs, m, idOf), vs, idOf)
    decreases |m|
  {
    if m != [] {
      var n := |m| - 1;
      RestoredKeepsIds(vs, m[..n], idOf);
    }
  }

  /** A change at a position that no saved state is written back to commutes
      with writing the saved states back. */
  lemma {:induction false} RestoredOutside<T(!new)>(vs: seq<T>, m: seq<Entry<T>>, idOf: T -> string, p: nat, y: T)
    requires p < |vs| && idOf(y) == idOf(vs[p])
    requires KeyedByOwnId(m, idOf)
    requires forall k :: 0 <= k < |m| ==> m[k].id != idOf(vs[p])
    ensures Restored(vs[p := y], m, idOf) == Restored(vs, m, idOf)[p := y]
    decreases |m|
  {
    if m != [] {
      var n := |m| - 1;
      var e := m[n];
      RestoredOutside(vs, m[..n], idOf, p, y);
      var a := Restored(vs, m[..n], idOf);
      RestoredKeepsIds(vs, m[..n], idOf);
      LocateAfterUpdate(a, p, y, idOf, e.id);
      var l := Locate(a, idOf, e.id);
      if l.Some? {
        assert idOf(a[l.value]) == e.id;
        assert l.value != p;
      }
    }
  }

  /** A change at the position of a saved state is undone by writing the saved
      states back, when every key is saved once. */
  lemma {:induction false} RestoredInside<T(!new)>(vs: seq<T>, m: seq<Entry<T>>, idOf: T -> string, p: nat, y: T)
    requires p < |vs| && idOf(y) == idOf(vs[p])
    requires KeyedByOwnId(m, idOf) && UniqueKeys(m)
    requires HasKey(m, idOf(vs[p]))
    requires Locate(vs, idOf, idOf(vs[p])) == Some(p)
    ensures Restored(vs[p := y], m, idOf) == Restored(vs, m, idOf)
    decreases |m|
  {
    var n := |m| - 1;
    var e := m[n];
    var a := Restored(vs, m[..n], idOf);
    RestoredKeepsIds(vs, m[..n], idOf);
    if e.id == idOf(vs[p]) {
      assert forall k :: 0 <= k < n ==> m[..n][k].id != idOf(vs[p]) by {
        forall k | 0 <= k < n ensures m[..n][k].id != idOf(vs[p]) {
          assert m[k].id != m[n].id;
        }
      }
      RestoredOutside(vs, m[..n], idOf, p, y);
      LocateAfterUpdate(a, p, y, idOf, e.id);
      LocateByIds(a, vs, idOf, e.id);
    } else {
      var k :| 0 <= k < |m| && m[k].id == idOf(vs[p]);
      assert HasKey(m[..n], idOf(vs[p])) by { assert m[..n][k].id == idOf(vs[p]); }
      RestoredInside(vs, m[..n], idOf, p, y);
    }
  }

  /** Facts the optimistic pass keeps: ids stay at their positions, each saved
      state carries its own id, and every key is a listed id. */
  lemma {:induction false} ReorderRunFacts<T(!new)>(vs: seq<T>, ids: seq<string>, idOf: T -> string, stamp: (T, int) -> T)
    requires KeepsIds(idOf, stamp)
    ensures SameIds(ReorderRun(vs, ids, idOf, stamp).values, vs, idOf)
    ensures KeyedByOwnId(ReorderRun(vs, ids, idOf, stamp).snapshots, idOf)
    ensures UniqueKeys(ReorderRun(vs, ids, idOf, stamp).snapshots)
    ensures forall k :: 0 <= k < |ReorderRun(vs, ids, idOf, stamp).snapshots| ==>
              ReorderRun(vs, ids, idOf, stamp).snapshots[k].id in ids
    decreases |ids|
  {
    if ids != [] {
      var n := |ids| - 1;
      ReorderRunFacts(vs, ids[..n], idOf, stamp);
      var prev := ReorderRun(vs, ids[..n], idOf, stamp);
      var r := ReorderRun(vs, ids, idOf, stamp);
      forall k | 0 <= k < |r.snapshots| ensures r.snapshots[k].id in ids {
        if k < |prev.snapshots| && r.snapshots[k] == prev.snapshots[k] {
          assert prev.snapshots[k].id in ids[..n];
        }
      }
    }
  }

  /** What the optimistic pass does when every id is listed at most once: the
      first cell holding a listed id gets that id's index, and every other cell
      keeps its value; the array keeps its length and arrangement. */
  lemma {:induction false} ReorderRunValues<T(!new)>(vs: seq<T>, ids: seq<string>, idOf: T -> string, stamp: (T, int) -> T)
    requires KeepsIds(idOf, stamp)
    requires NoDuplicates(ids)
    ensures forall t :: 0 <= t < |ids| && Locate(vs, idOf, ids[t]).Some? ==>
              ReorderRun(vs, ids, idOf, stamp).values[Locate(vs, idOf, ids[t]).value]
              == stamp(vs[Locate(vs, idOf, ids[t]).value], t)
    ensures forall q :: 0 <= q < |vs| && (idOf(vs[q]) !in ids || Locate(vs, idOf, idOf(vs[q])) != Some(q)) ==>
              ReorderRun(vs, ids, idOf, stamp).values[q] == vs[q]
    decreases |ids|
  {
    if ids != [] {
      var n := |ids| - 1;
      var x := ids[n];
      ReorderRunValues(vs, ids[..n], idOf, stamp);
      ReorderRunFacts(vs, ids[..n], idOf, stamp);
      var R := ReorderRun(vs, ids[..n], idOf, stamp).values;
      var values := ReorderRun(vs, ids, idOf, stamp).values;
      LocateByIds(R, vs, idOf, x);
      var found := Locate(vs, idOf, x);
      if found.Some? {
        var p := found.value;
        assert x !in ids[..n];
        assert R[p] == vs[p];
        assert values == R[p := stamp(R[p], n)];
        forall t | 0 <= t < |ids| && Locate(vs, idOf, ids[t]).Some?
          ensures values[Locate(vs, idOf, ids[t]).value] == stamp(vs[Locate(vs, idOf, ids[t]).value], t)
        {
          if t < n {
            assert ids[..n][t] == ids[t];
            assert ids[t] != x;
          }
        }
        forall q | 0 <= q < |vs| && (idOf(vs[q]) !in ids || Locate(vs, idOf, idOf(vs[q])) != Some(q))
          ensures values[q] == vs[q]
        {
          assert q != p;
          if idOf(vs[q]) !in ids {
            assert idOf(vs[q]) !in ids[..n];
          }
        }
      } else {
        forall t | 0 <= t < |ids| && Locate(vs, idOf, ids[t]).Some?
          ensures values[Locate(vs, idOf, ids[t]).value] == stamp(vs[Locate(vs, idOf, ids[t]).value], t)
        {
          assert t != n;
          assert ids[..n][t] == ids[t];
        }
        forall q | 0 <= q < |vs| && (idOf(vs[q]) !in ids || Locate(vs, idOf, idOf(vs[q])) != Some(q))
          ensures values[q] == vs[q]
        {
          if idOf(vs[q]) !in ids {
            assert idOf(vs[q]) !in ids[..n];
          }
        }
      }
    }
  }

  /** With every id listed at most once, the failure path writes back exactly
      the values the cells had before the optimistic pass. */
  lemma {:induction false} ReorderRollback<T(!new)>(vs: seq<T>, ids: seq<string>, idOf: T -> string, stamp: (T, int) -> T)
    requires KeepsIds(idOf, stamp)
    requires NoDuplicates(ids)
    ensures Restored(ReorderRun(vs, ids, idOf, stamp).values, ReorderRun(vs, ids, idOf, stamp).snapshots, idOf) == vs
    decreases |ids|
  {
    if ids != [] {
      var n := |ids| - 1;
      var x := ids[n];
      var prev := ReorderRun(vs, ids[..n], idOf, stamp);
      ReorderRollback(vs, ids[..n], idOf, stamp);
      ReorderRunFacts(vs, ids[..n], idOf, stamp);
      var R, S := prev.values, prev.snapshots;
      var found := Locate(R, idOf, x);
      if found.Some? {
        var p := found.value;
        assert !HasKey(S, x) by {
          forall k | 0 <= k < |S| ensures S[k].id != x {
            assert S[k].id in ids[..n];
          }
        }
        AppendedSnapshotRestores(vs, R, S, idOf, p, stamp(R[p], n));
      }
    }
  }

  /** The pass as it would be with `if (!previousStates.has(id))` before saving:
      only the first state seen for an id is kept. */
  function GuardedStep<T(!new)>(run: Run<T>, id: string, index: int,
                                idOf: T -> string, stamp: (T, int) -> T): (r: Run<T>)
    ensures |r.values| == |run.values|
  {
    match Locate(run.values, idOf, id)
    case None => run
    case Some(p) =>
      Run(run.values[p := stamp(run.values[p], index)],
          if HasKey(run.snapshots, id) then run.snapshots else run.snapshots + [Entry(id, run.values[p])])
  }

  function GuardedRun<T(!new)>(vs: seq<T>, ids: seq<string>,
                               idOf: T -> string, stamp: (T, int) -> T): (r: Run<T>)
    ensures |r.values| == |vs|
    decreases |ids|
  {
    if ids == [] then Run(vs, [])
    else
      var n := |ids| - 1;
      GuardedStep(GuardedRun(vs, ids[..n], idOf, stamp), ids[n], n, idOf, stamp)
  }

  /** One guarded step keeps the facts the rollback needs. */
  lemma GuardedStepKeeps<T(!new)>(vs: seq<T>, run: Run<T>, x: string, n: int, idOf: T -> string, stamp: (T, int) -> T)
    requires KeepsIds(idOf, stamp)
    requires SameIds(run.values, vs, idOf) && KeyedByOwnId(run.snapshots, idOf) && UniqueKeys(run.snapshots)
    requires Restored(run.values, run.snapshots, idOf) == vs
    ensures SameIds(GuardedStep(run, x, n, idOf, stamp).values, vs, idOf)
    ensures KeyedByOwnId(GuardedStep(run, x, n, idOf, stamp).snapshots, idOf)
    ensures UniqueKeys(GuardedStep(run, x, n, idOf, stamp).snapshots)
    ensures Restored(GuardedStep(run, x, n, idOf, stamp).values, GuardedStep(run, x, n, idOf, stamp).snapshots, idOf) == vs
  {
    var R, S := run.values, run.snapshots;
    var found := Locate(R, idOf, x);
    if found.Some? {
      var p := found.value;
      var st := stamp(R[p], n);
      if HasKey(S, x) {
        assert GuardedStep(run, x, n, idOf, stamp) == Run(R[p := st], S);
        RestoredInside(R, S, idOf, p, st);
      } else {
        var S' := S + [Entry(x, R[p])];
        assert GuardedStep(run, x, n, idOf, stamp) == Run(R[p := st], S');
        AppendedSnapshotRestores(vs, R, S, idOf, p, st);
      }
    }
  }

  /** The step that saves a new state: writing back all saved states, the new
      one last, still gives `vs`. */
  lemma AppendedSnapshotRestores<T(!new)>(vs: seq<T>, R: seq<T>, S: seq<Entry<T>>, idOf: T -> string, p: nat, st: T)
    requires SameIds(R, vs, idOf) && KeyedByOwnId(S, idOf)
    requires Restored(R, S, idOf) == vs
    requires p < |R| && idOf(st) == idOf(R[p])
    requires Locate(R, idOf, idOf(R[p])) == Some(p)
    requires !HasKey(S, idOf(R[p]))
    ensures Restored(R[p := st], S + [Entry(idOf(R[p]), R[p])], idOf) == vs
  {
    var x := idOf(R[p]);
    assert forall k :: 0 <= k < |S| ==> S[k].id != x;
    RestoredOutside(R, S, idOf, p, st);
    RestoredOutside(R, S, idOf, p, R[p]);
    assert R[p := R[p]] == R;
    LocateByIds(R, vs, idOf, x);
    LocateAfterUpdate(vs, p, st, idOf, x);
    var S' := S + [Entry(x, R[p])];
    assert S'[..|S'| - 1] == S;
    assert vs[p := st][p := R[p]] == vs;
  }

  /** With the first-state guard, the failure path restores the cells for every
      list of ids, repeated ids included. */
  lemma {:induction false} GuardedRollback<T(!new)>(vs: seq<T>, ids: seq<string>, idOf: T -> string, stamp: (T, int) -> T)
    requires KeepsIds(idOf, stamp)
    ensures SameIds(GuardedRun(vs, ids, idOf, stamp).values, vs, idOf)
    ensures KeyedByOwnId(GuardedRun(vs, ids, idOf, stamp).snapshots, idOf)
    ensures UniqueKeys(GuardedRun(vs, ids, idOf, stamp).snapshots)
    ensures Restored(GuardedRun(vs, ids, idOf, stamp).values, GuardedRun(vs, ids, idOf, stamp).snapshots, idOf) == vs
    decreases |ids|
  {
    if ids != [] {
      var n := |ids| - 1;
      GuardedRollback(vs, ids[..n], idOf, stamp);
      GuardedStepKeeps(vs, GuardedRun(vs, ids[..n], idOf, stamp), ids[n], n, idOf, stamp);
    }
  }

  /** The code as written, on one value listed twice: the second visit saves
      the value the first visit already stamped, so writing the saved states
      back leaves the value stamped with index 0 instead of the original. */
  lemma RepeatedIdRollback<T(!new)>(v: T, idOf: T -> string, stamp: (T, int) -> T)
    requires KeepsIds(idOf, stamp)
    ensures Restored(ReorderRun([v], [idOf(v), idOf(v)], idOf, stamp).values,
                     ReorderRun([v], [idOf(v), idOf(v)], idOf, stamp).snapshots, idOf) == [stamp(v, 0)]
  {
    var x := idOf(v);
    assert [x, x][..1] == [x];
    assert [x][..0] == [];
    assert Locate([v], idOf, x) == Some(0);
    assert MapSet([], x, v) == [Entry(x, v)];
    assert [v][0 := stamp(v, 0)] == [stamp(v, 0)];
    assert ReorderRun([v], [], idOf, stamp) == Run([v], []);
    assert ReorderStep(Run([v], []), x, 0, idOf, stamp) == Run([stamp(v, 0)], [Entry(x, v)]);
    var first := ReorderRun([v], [x], idOf, stamp);
    assert first == Run([stamp(v, 0)], [Entry(x, v)]);
    assert idOf(stamp(v, 0)) == x;
    var second := ReorderRun([v], [x, x], idOf, stamp);
    assert HasKey([Entry(x, v)], x);
    assert second == Run([stamp(stamp(v, 0), 1)], [Entry(x, stamp(v, 0))]);
    assert [Entry(x, stamp(v, 0))][..0] == [];
  }

  /** The optimistic pass on an array of cells: sets each listed cell's value
      and returns the `Map` of previous states. */
  method ApplyReorder<T(!new)>(cells: seq<Cell<T>>, ids: seq<string>,
                               idOf: T -> string, stamp: (T, int) -> T) returns (snapshots: seq<Entry<T>>)
    requires DistinctCells(cells)
    modifies cells
    ensures Run(Values(cells), snapshots) == ReorderRun(old(Values(cells)), ids, idOf, stamp)
  {
    ghost var vs := Values(cells);
    snapshots := [];
    for i := 0 to |ids|
      invariant Run(Values(cells), snapshots) == ReorderRun(vs, ids[..i], idOf, stamp)
    {
      assert ids[..i + 1][..i] == ids[..i];
      var found := Locate(Values(cells), idOf, ids[i]);
      if found.Some? {
        var previous := cells[found.value].value;
        snapshots := MapSet(snapshots, ids[i], previous);
        SetCell(cells, found.value, stamp(previous, i));
      }
    }
    assert ids[..|ids|] == ids;
  }

  /** The failure path on an array of cells: writes each saved state back to
      the cell currently holding its id. */
  method RestoreCells<T(!new)>(cells: seq<Cell<T>>, snapshots: seq<Entry<T>>, idOf: T -> string)
    requires DistinctCells(cells)
    modifies cells
    ensures Values(cells) == Restored(old(Values(cells)), snapshots, idOf)
  {
    ghost var vs := Values(cells);
    for k := 0 to |snapshots|
      invariant Values(cells) == Restored(vs, snapshots[..k], idOf)
    {
      assert snapshots[..k + 1][..k] == snapshots[..k];
      var found := Locate(Values(cells), idOf, snapshots[k].id);
      if found.Some? {
        SetCell(cells, found.value, snapshots[k].value);
      }
    }
    assert snapshots[..|snapshots|] == snapshots;
  }
}
