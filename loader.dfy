/**
 * The recursive descent loader (`_load_scalar`): it stores one BSON value at the slot a
 * coordinate vector selects, and for a BSON array it stores the i-th child with
 * `coordinates[depth + 1] = i`, in document order.
 *
 * `Load` specifies one call on a state made of the destination buffer, the coordinate
 * vector and a log of every call made so far (with the coordinates it was made with);
 * `NdArray.LoadScalar` does the same thing in place on arrays and is proved equal to it.
 */
module Loader {

  import opened Bson
  import opened Slots
  import opened Strides
  import opened Policy

  /** One call of the loader: the coordinate vector at entry and the value it was given. */
  datatype Call = Call(coords: seq<int>, node: Value)

  datatype State = State(buf: seq<Byte>, coords: seq<int>, calls: seq<Call>)

  /** A state after one call, with the status that call returns. */
  datatype Step = Step(state: State, status: int)

  ghost predicate Ready(g: Geometry, st: State)
  {
    |st.buf| == g.Size() && g.CoordsOk(st.coords)
  }

  /**
   * The value can be loaded at `depth` with every write inside the slot its
   * coordinates select: every non-empty array has a coordinate entry for its children
   * (`depth + 1` is inside the vector of `ncoords` entries), no array is longer than
   * the dimension its children index, and every leaf finds a non-empty buffer and fits
   * its slot. The decoder checks none of this. Outside it, a nested array deeper than
   * the coordinate vector, or a spill past the last slot, writes past the C buffers;
   * the other cases (an array longer than its dimension, a timestamp or regex longer
   * than its slot) overwrite a neighbouring slot or row inside the buffer, which the
   * model does not capture.
   */
  ghost predicate Fits(g: Geometry, ncoords: nat, v: Value, depth: nat)
    decreases v
  {
    match v
    case Array(es) =>
      && (|es| > 0 ==> depth + 1 < ncoords)
      && (depth + 1 < |g.dims| ==> |es| <= g.dims[depth + 1])
      && forall k :: 0 <= k < |es| ==> Fits(g, ncoords, es[k], depth + 1)
    case _ => g.Inhabited() && LeafFits(v, g.itemsize)
  }

  ghost predicate CanLoad(g: Geometry, setItem: Setter, st: State, v: Value, depth: nat)
  {
    && Ready(g, st)
    && depth < |st.coords|
    && Fits(g, |st.coords|, v, depth)
    && WellFormed(v)
    && WritesItemsize(setItem, g.itemsize)
  }

  /** What loading the children of an array at `depth`, from the `k`-th on, needs. */
  ghost predicate CanLoadElements(g: Geometry, setItem: Setter, st: State, es: seq<Value>, k: nat, depth: nat)
  {
    && Ready(g, st)
    && depth < |st.coords|
    && k <= |es|
    && (k < |es| ==> depth + 1 < |st.coords|)
    && (depth + 1 < |g.dims| ==> |es| <= g.dims[depth + 1])
    && (forall j :: k <= j < |es| ==> Fits(g, |st.coords|, es[j], depth + 1) && WellFormed(es[j]))
    && WritesItemsize(setItem, g.itemsize)
  }

  /**
   * One call of the loader at `depth`. The call is logged first. An array stores its
   * children one by one and returns 1 whatever they return; any other value is stored at
   * the slot `coords` selects, by the type policy, and returns that store's status.
   */
  function Load(g: Geometry, setItem: Setter, st: State, v: Value, depth: nat): (r: Step)
    requires CanLoad(g, setItem, st, v, depth)
    ensures Ready(g, r.state)
    ensures |r.state.coords| == |st.coords| && r.state.coords[..depth + 1] == st.coords[..depth + 1]
    ensures st.calls + [Call(st.coords, v)] <= r.state.calls
    ensures r.status == (if v.Array? then 1 else if LeafFails(setItem, v, g.itemsize) then -1 else 0)
    decreases v
  {
    var logged := st.(calls := st.calls + [Call(st.coords, v)]);
    if v.Array? then
      Step(LoadElements(g, setItem, logged, v.elems, 0, depth), 1)
    else
      OffsetInBounds(g, st.coords);
      var at := Offset(g.dims, g.itemsize, st.coords);
      var leaf := StoreLeaf(setItem, v, st.buf[at..at + g.itemsize]);
      Step(logged.(buf := WriteAt(st.buf, at, leaf.slot)), leaf.status)
  }

  /** The children of an array at `depth`, from the `k`-th on; their statuses are dropped. */
  function LoadElements(g: Geometry, setItem: Setter, st: State, es: seq<Value>, k: nat, depth: nat): (r: State)
    requires CanLoadElements(g, setItem, st, es, k, depth)
    ensures Ready(g, r)
    ensures |r.coords| == |st.coords| && r.coords[..depth + 1] == st.coords[..depth + 1]
    ensures st.calls <= r.calls
    decreases es, |es| - k
  {
    if k == |es| then st
    else
      var next := st.(coords := st.coords[depth + 1 := k]);
      var r := Load(g, setItem, next, es[k], depth + 1);
      LoadElements(g, setItem, r.state, es, k + 1, depth)
  }

  /** A node of the document tree with its index path (top-level index first). */
  datatype Visit = Visit(path: seq<int>, node: Value)

  /** The nodes under `v` (itself included) in document order, each with its path. */
  function Preorder(v: Value, path: seq<int>): seq<Visit>
    decreases v
  {
    [Visit(path, v)] + (if v.Array? then PreorderFrom(v.elems, path, 0) else [])
  }

  function PreorderFrom(es: seq<Value>, path: seq<int>, k: nat): seq<Visit>
    requires k <= |es|
    decreases es, |es| - k
  {
    if k == |es| then [] else Preorder(es[k], path + [k]) + PreorderFrom(es, path, k + 1)
  }

  /**
   * The logged calls are the visits, one for one: the same node, made with a coordinate
   * vector whose leading entries are the node's path.
   */
  ghost predicate Agrees(calls: seq<Call>, visits: seq<Visit>)
  {
    && |calls| == |visits|
    && forall n :: 0 <= n < |calls| ==>
         && calls[n].node == visits[n].node
         && |visits[n].path| <= |calls[n].coords|
         && calls[n].coords[..|visits[n].path|] == visits[n].path
  }

  lemma AgreesConcat(a: seq<Call>, x: seq<Visit>, b: seq<Call>, y: seq<Visit>)
    requires Agrees(a, x) && Agrees(b, y)
    ensures Agrees(a + b, x + y)
  {
    forall n | |a| <= n < |a| + |b|
      ensures (a + b)[n] == b[n - |a|] && (x + y)[n] == y[n - |a|]
    {
    }
  }

  /** The calls logged after `a`, split at the intermediate log `b`. */
  lemma SuffixSplit(a: seq<Call>, b: seq<Call>, c: seq<Call>)
    requires a <= b <= c
    ensures c[|a|..] == b[|a|..] + c[|b|..]
  {
  }

  /**
   * Array recursion: the calls one load makes are the nodes of its value in document
   * order, and each is made with `coordinates[..depth + 1]` equal to that node's path,
   * so the k-th child of an array at depth d is loaded with `coordinates[d + 1] == k`.
   */
  lemma {:induction false} LoadFollowsPreorder(g: Geometry, setItem: Setter, st: State, v: Value, depth: nat)
    requires CanLoad(g, setItem, st, v, depth)
    ensures Agrees(Load(g, setItem, st, v, depth).state.calls[|st.calls|..], Preorder(v, st.coords[..depth + 1]))
    decreases v
  {
    var path := st.coords[..depth + 1];
    var logged := st.(calls := st.calls + [Call(st.coords, v)]);
    var r := Load(g, setItem, st, v, depth);
    var own := [Call(st.coords, v)];
    assert Agrees(own, [Visit(path, v)]);
    if v.Array? {
      LoadElementsFollowsPreorder(g, setItem, logged, v.elems, 0, depth);
      SuffixSplit(st.calls, logged.calls, r.state.calls);
      assert logged.calls[|st.calls|..] == own;
      AgreesConcat(own, [Visit(path, v)], r.state.calls[|logged.calls|..], PreorderFrom(v.elems, path, 0));
    } else {
      assert r.state.calls[|st.calls|..] == own;
    }
  }

  lemma {:induction false} LoadElementsFollowsPreorder(g: Geometry, setItem: Setter, st: State, es: seq<Value>, k: nat, depth: nat)
    requires CanLoadElements(g, setItem, st, es, k, depth)
    ensures Agrees(LoadElements(g, setItem, st, es, k, depth).calls[|st.calls|..], PreorderFrom(es, st.coords[..depth + 1], k))
    decreases es, |es| - k
  {
    var path := st.coords[..depth + 1];
    if k < |es| {
      var next := st.(coords := st.coords[depth + 1 := k]);
      LoadElementsStep(g, setItem, st, es, k, depth);
      ChildPath(st.coords, depth, k);
      var r := Load(g, setItem, next, es[k], depth + 1);
      LoadFollowsPreorder(g, setItem, next, es[k], depth + 1);
      assert r.state.coords[..depth + 1] == path by {
        assert r.state.coords[..depth + 1] == r.state.coords[..depth + 2][..depth + 1];
      }
      LoadElementsFollowsPreorder(g, setItem, r.state, es, k + 1, depth);
      var fin := LoadElements(g, setItem, r.state, es, k + 1, depth);
      SuffixSplit(st.calls, r.state.calls, fin.calls);
      AgreesConcat(r.state.calls[|st.calls|..], Preorder(es[k], path + [k]),
                   fin.calls[|r.state.calls|..], PreorderFrom(es, path, k + 1));
    } else {
      assert LoadElements(g, setItem, st, es, k, depth).calls[|st.calls|..] == [];
    }
  }

  /** Setting coordinate `depth + 1` to `k` extends the path of the first `depth + 1` coordinates by `k`. */
  lemma ChildPath(coords: seq<int>, depth: nat, k: int)
    requires depth + 1 < |coords|
    ensures coords[depth + 1 := k][..depth + 2] == coords[..depth + 1] + [k]
  {
  }

  /** The coordinate vector before call `n`: the one call `n - 1` was made with, or `start` before the first. */
  function Before(start: seq<int>, calls: seq<Call>, n: nat): seq<int>
    requires n <= |calls|
  {
    if n == 0 then start else calls[n - 1].coords
  }

  /** `after` is `before` with one entry set: entry `|path| - 1` becomes the last index of `path`. */
  ghost predicate SetsOne(before: seq<int>, after: seq<int>, path: seq<int>)
  {
    0 < |path| <= |before| && after == before[|path| - 1 := path[|path| - 1]]
  }

  /**
   * Each logged call is made with the coordinate vector of the call before it (`start` for
   * the first), changed in one entry only: the one the enclosing loop sets, which for a node
   * at index path `p` is entry `|p| - 1`, set to the node's own index.
   */
  ghost predicate Stepwise(start: seq<int>, calls: seq<Call>, visits: seq<Visit>)
  {
    && |calls| == |visits|
    && forall n {:trigger Before(start, calls, n)} :: 0 <= n < |calls| ==> SetsOne(Before(start, calls, n), calls[n].coords, visits[n].path)
  }

  lemma StepwiseConcat(s: seq<int>, a: seq<Call>, x: seq<Visit>, b: seq<Call>, y: seq<Visit>)
    requires Stepwise(s, a, x) && Stepwise(Before(s, a, |a|), b, y)
    ensures Stepwise(s, a + b, x + y)
    ensures Before(s, a + b, |a + b|) == Before(Before(s, a, |a|), b, |b|)
  {
    StepwiseJoin(s, a, x, b, y);
    BeforeJoin(s, a, b);
  }

  lemma StepwiseJoin(s: seq<int>, a: seq<Call>, x: seq<Visit>, b: seq<Call>, y: seq<Visit>)
    requires Stepwise(s, a, x) && Stepwise(Before(s, a, |a|), b, y)
    ensures Stepwise(s, a + b, x + y)
  {
    forall n | 0 <= n < |a| + |b| ensures SetsOne(Before(s, a + b, n), (a + b)[n].coords, (x + y)[n].path) {
      if n < |a| {
        StepwisePrefixAt(s, a, x, b, y, n);
      } else {
        StepwiseSuffixAt(s, a, x, b, y, n);
      }
    }
  }

  /** The vector after two runs is the one after the second, started where the first ended. */
  lemma BeforeJoin(s: seq<int>, a: seq<Call>, b: seq<Call>)
    ensures Before(s, a + b, |a + b|) == Before(Before(s, a, |a|), b, |b|)
  {
    if |b| == 0 {
      assert a + b == a;
    } else {
      assert (a + b)[|a + b| - 1] == b[|b| - 1];
    }
  }

  lemma StepwisePrefixAt(s: seq<int>, a: seq<Call>, x: seq<Visit>, b: seq<Call>, y: seq<Visit>, n: nat)
    requires Stepwise(s, a, x) && |b| == |y| && n < |a|
    ensures SetsOne(Before(s, a + b, n), (a + b)[n].coords, (x + y)[n].path)
  {
    assert (a + b)[n] == a[n] && (x + y)[n] == x[n];
    if n > 0 {
      assert (a + b)[n - 1] == a[n - 1];
    }
    assert Before(s, a + b, n) == Before(s, a, n);
  }

  lemma StepwiseSuffixAt(s: seq<int>, a: seq<Call>, x: seq<Visit>, b: seq<Call>, y: seq<Visit>, n: nat)
    requires |a| == |x| && Stepwise(Before(s, a, |a|), b, y) && |a| <= n < |a| + |b|
    ensures SetsOne(Before(s, a + b, n), (a + b)[n].coords, (x + y)[n].path)
  {
    var m := n - |a|;
    assert (a + b)[n] == b[m] && (x + y)[n] == y[m];
    if m > 0 {
      assert (a + b)[n - 1] == b[m - 1];
    } else if |a| > 0 {
      assert (a + b)[|a| - 1] == a[|a| - 1];
    }
    assert Before(s, a + b, n) == Before(Before(s, a, |a|), b, m);
  }

  /** A run whose first call is one step from `s2` is stepwise from `s2` too, and ends at the same vector. */
  lemma StepwiseRebase(s1: seq<int>, s2: seq<int>, c: seq<Call>, v: seq<Visit>)
    requires Stepwise(s1, c, v) && 0 < |c| && SetsOne(s2, c[0].coords, v[0].path)
    ensures Stepwise(s2, c, v) && Before(s2, c, |c|) == Before(s1, c, |c|)
  {
    forall n | 0 <= n < |c| ensures SetsOne(Before(s2, c, n), c[n].coords, v[n].path) {
      if n > 0 {
        assert Before(s2, c, n) == Before(s1, c, n);
      }
    }
  }

  /**
   * Coordinate bookkeeping: every call one load makes differs from the call before it only
   * in the entry the enclosing loop set for it, and the load leaves the coordinate vector
   * its last call was made with.
   */
  lemma {:induction false} LoadSetsOneCoordinate(g: Geometry, setItem: Setter, st: State, v: Value, depth: nat)
    requires CanLoad(g, setItem, st, v, depth)
    ensures var r := Load(g, setItem, st, v, depth).state;
            var made := r.calls[|st.calls|..];
            && Stepwise(st.coords, made, Preorder(v, st.coords[..depth + 1]))
            && r.coords == Before(st.coords, made, |made|)
    decreases v
  {
    var path := st.coords[..depth + 1];
    var logged := st.(calls := st.calls + [Call(st.coords, v)]);
    var r := Load(g, setItem, st, v, depth).state;
    var own := [Call(st.coords, v)];
    assert st.coords[depth := path[depth]] == st.coords;
    assert Stepwise(st.coords, own, [Visit(path, v)]);
    SuffixSplit(st.calls, logged.calls, r.calls);
    assert logged.calls[|st.calls|..] == own;
    if v.Array? {
      LoadElementsSetsOneCoordinate(g, setItem, logged, v.elems, 0, depth);
      StepwiseConcat(st.coords, own, [Visit(path, v)], r.calls[|logged.calls|..], PreorderFrom(v.elems, path, 0));
    } else {
      assert r.calls[|st.calls|..] == own;
    }
  }

  lemma {:induction false} LoadElementsSetsOneCoordinate(g: Geometry, setItem: Setter, st: State, es: seq<Value>, k: nat, depth: nat)
    requires CanLoadElements(g, setItem, st, es, k, depth)
    ensures var fin := LoadElements(g, setItem, st, es, k, depth);
            var made := fin.calls[|st.calls|..];
            && Stepwise(st.coords, made, PreorderFrom(es, st.coords[..depth + 1], k))
            && fin.coords == Before(st.coords, made, |made|)
    decreases es, |es| - k
  {
    var path := st.coords[..depth + 1];
    if k < |es| {
      var next := st.(coords := st.coords[depth + 1 := k]);
      LoadElementsStep(g, setItem, st, es, k, depth);
      var r := Load(g, setItem, next, es[k], depth + 1).state;
      ChildSetsOneCoordinate(g, setItem, st, es, k, depth);
      LoadElementsSetsOneCoordinate(g, setItem, r, es, k + 1, depth);
      var fin := LoadElements(g, setItem, r, es, k + 1, depth);
      SuffixSplit(st.calls, r.calls, fin.calls);
      StepwiseConcat(st.coords, r.calls[|st.calls|..], Preorder(es[k], path + [k]),
                     fin.calls[|r.calls|..], PreorderFrom(es, path, k + 1));
    } else {
      assert LoadElements(g, setItem, st, es, k, depth).calls[|st.calls|..] == [];
    }
  }

  /** Child `k`'s calls: the first sets coordinate `depth + 1` to `k`, and each later one a single entry. */
  lemma {:induction false} ChildSetsOneCoordinate(g: Geometry, setItem: Setter, st: State, es: seq<Value>, k: nat, depth: nat)
    requires CanLoadElements(g, setItem, st, es, k, depth) && k < |es|
    ensures var next := st.(coords := st.coords[depth + 1 := k]);
            CanLoad(g, setItem, next, es[k], depth + 1) &&
            var r := Load(g, setItem, next, es[k], depth + 1).state;
            var made := r.calls[|st.calls|..];
            && Stepwise(st.coords, made, Preorder(es[k], st.coords[..depth + 1] + [k]))
            && r.coords == Before(st.coords, made, |made|)
            && r.coords[..depth + 1] == st.coords[..depth + 1]
    decreases es, 0
  {
    var path := st.coords[..depth + 1];
    var next := st.(coords := st.coords[depth + 1 := k]);
    LoadElementsStep(g, setItem, st, es, k, depth);
    ChildPath(st.coords, depth, k);
    var r := Load(g, setItem, next, es[k], depth + 1).state;
    LoadSetsOneCoordinate(g, setItem, next, es[k], depth + 1);
    var made := r.calls[|st.calls|..];
    assert made[0] == Call(next.coords, es[k]);
    assert Preorder(es[k], path + [k])[0].path == path + [k];
    StepwiseRebase(next.coords, st.coords, made, Preorder(es[k], path + [k]));
    assert r.coords[..depth + 1] == r.coords[..depth + 2][..depth + 1];
  }

  /** Byte `j` lies in the slot of none of the logged leaf calls. */
  ghost predicate OutsideLeafSlots(g: Geometry, calls: seq<Call>, j: int)
  {
    forall n :: 0 <= n < |calls| && !calls[n].node.Array? && |calls[n].coords| >= |g.dims| ==>
      var at := Offset(g.dims, g.itemsize, calls[n].coords);
      !(at <= j < at + g.itemsize)
  }

  lemma OutsideLeafSlotsSplit(g: Geometry, a: seq<Call>, b: seq<Call>, j: int)
    requires OutsideLeafSlots(g, a + b, j)
    ensures OutsideLeafSlots(g, a, j) && OutsideLeafSlots(g, b, j)
  {
    forall n | 0 <= n < |a| ensures a[n] == (a + b)[n] {
    }
    forall n | 0 <= n < |b| ensures b[n] == (a + b)[|a| + n] {
    }
  }

  /**
   * Nothing outside the visited leaf slots is written: an array node writes no byte of its
   * own, and a leaf writes only its `itemsize`-byte slot.
   */
  lemma {:induction false} LoadWritesOnlyLeafSlots(g: Geometry, setItem: Setter, st: State, v: Value, depth: nat, j: int)
    requires CanLoad(g, setItem, st, v, depth) && 0 <= j < |st.buf|
    requires OutsideLeafSlots(g, Load(g, setItem, st, v, depth).state.calls[|st.calls|..], j)
    ensures Load(g, setItem, st, v, depth).state.buf[j] == st.buf[j]
    decreases v
  {
    var logged := st.(calls := st.calls + [Call(st.coords, v)]);
    var r := Load(g, setItem, st, v, depth);
    var own := [Call(st.coords, v)];
    SuffixSplit(st.calls, logged.calls, r.state.calls);
    assert logged.calls[|st.calls|..] == own;
    OutsideLeafSlotsSplit(g, own, r.state.calls[|logged.calls|..], j);
    if v.Array? {
      LoadElementsWritesOnlyLeafSlots(g, setItem, logged, v.elems, 0, depth, j);
    } else {
      assert own[0] == Call(st.coords, v);
    }
  }

  lemma {:induction false} LoadElementsWritesOnlyLeafSlots(g: Geometry, setItem: Setter, st: State, es: seq<Value>, k: nat, depth: nat, j: int)
    requires CanLoadElements(g, setItem, st, es, k, depth)
    requires 0 <= j < |st.buf|
    requires OutsideLeafSlots(g, LoadElements(g, setItem, st, es, k, depth).calls[|st.calls|..], j)
    ensures LoadElements(g, setItem, st, es, k, depth).buf[j] == st.buf[j]
    decreases es, |es| - k
  {
    if k < |es| {
      var next := st.(coords := st.coords[depth + 1 := k]);
      LoadElementsStep(g, setItem, st, es, k, depth);
      var r := Load(g, setItem, next, es[k], depth + 1).state;
      var fin := LoadElements(g, setItem, r, es, k + 1, depth);
      SuffixSplit(st.calls, r.calls, fin.calls);
      OutsideLeafSlotsSplit(g, r.calls[|st.calls|..], fin.calls[|r.calls|..], j);
      ChildWritesOnlyLeafSlots(g, setItem, st, es, k, depth, j);
      LoadElementsWritesOnlyLeafSlots(g, setItem, r, es, k + 1, depth, j);
    }
  }

  /** Child `k` of an array writes only inside the slots of the leaves it visits. */
  lemma {:induction false} ChildWritesOnlyLeafSlots(g: Geometry, setItem: Setter, st: State, es: seq<Value>, k: nat, depth: nat, j: int)
    requires CanLoadElements(g, setItem, st, es, k, depth) && k < |es| && 0 <= j < |st.buf|
    requires var next := st.(coords := st.coords[depth + 1 := k]);
             CanLoad(g, setItem, next, es[k], depth + 1) &&
             OutsideLeafSlots(g, Load(g, setItem, next, es[k], depth + 1).state.calls[|st.calls|..], j)
    ensures var next := st.(coords := st.coords[depth + 1 := k]);
            Load(g, setItem, next, es[k], depth + 1).state.buf[j] == st.buf[j]
    decreases es, 0
  {
    var next := st.(coords := st.coords[depth + 1 := k]);
    LoadWritesOnlyLeafSlots(g, setItem, next, es[k], depth + 1, j);
  }

  /** One step of LoadElements: coordinate `k` is set, child `k` is loaded, the rest follow. */
  lemma LoadElementsStep(g: Geometry, setItem: Setter, st: State, es: seq<Value>, k: nat, depth: nat)
    requires CanLoadElements(g, setItem, st, es, k, depth) && k < |es|
    ensures var next := st.(coords := st.coords[depth + 1 := k]);
      && CanLoad(g, setItem, next, es[k], depth + 1)
      && CanLoadElements(g, setItem, Load(g, setItem, next, es[k], depth + 1).state, es, k + 1, depth)
      && LoadElements(g, setItem, st, es, k, depth)
         == LoadElements(g, setItem, Load(g, setItem, next, es[k], depth + 1).state, es, k + 1, depth)
  {
  }

  /** An array's load logs its own call, loads its children, and returns 1. */
  lemma LoadArray(g: Geometry, setItem: Setter, st: State, v: Value, depth: nat)
    requires CanLoad(g, setItem, st, v, depth) && v.Array?
    ensures CanLoadElements(g, setItem, st.(calls := st.calls + [Call(st.coords, v)]), v.elems, 0, depth)
    ensures Load(g, setItem, st, v, depth)
      == Step(LoadElements(g, setItem, st.(calls := st.calls + [Call(st.coords, v)]), v.elems, 0, depth), 1)
  {
  }

  /** A leaf's load logs its call and stores the value into the slot its coordinates select. */
  lemma LoadLeaf(g: Geometry, setItem: Setter, st: State, v: Value, depth: nat)
    requires CanLoad(g, setItem, st, v, depth) && !v.Array?
    ensures g.Inhabited() && 0 <= Offset(g.dims, g.itemsize, st.coords)
    ensures Offset(g.dims, g.itemsize, st.coords) + g.itemsize <= |st.buf|
    ensures var at := Offset(g.dims, g.itemsize, st.coords);
      var leaf := StoreLeaf(setItem, v, st.buf[at..at + g.itemsize]);
      Load(g, setItem, st, v, depth)
      == Step(State(WriteAt(st.buf, at, leaf.slot), st.coords, st.calls + [Call(st.coords, v)]), leaf.status)
  {
    OffsetInBounds(g, st.coords);
  }

  /**
   * The destination ndarray: a C-ordered buffer of `itemsize`-byte slots over `dims`,
   * and the typed setter of its element type.
   */
  class NdArray {
    const dims: seq<nat>
    const itemsize: nat
    const setItem: Setter
    const data: array<Byte>

    function Geom(): Geometry
    {
      Geometry(dims, itemsize)
    }

    ghost predicate Valid()
    {
      data.Length == Geom().Size() && WritesItemsize(setItem, itemsize)
    }

    /** `PyArray_Zeros`: a zero-filled array of the given shape and element type. */
    constructor (dims: seq<nat>, itemsize: nat, setItem: Setter)
      requires WritesItemsize(setItem, itemsize)
      ensures Valid() && fresh(data)
      ensures this.dims == dims && this.itemsize == itemsize && this.setItem == setItem
      ensures data[..] == Zeros(Geometry(dims, itemsize).Size())
    {
      this.dims := dims;
      this.itemsize := itemsize;
      this.setItem := setItem;
      data := new Byte[itemsize * Prod(dims)](_ => 0);
    }

    /** `PyArray_SETITEM(ndarray, pointer, PyArray_Scalar(data_ptr, descr))` for one value. */
    method SetItem(v: Value, pointer: nat) returns (status: int)
      requires Valid() && pointer + itemsize <= data.Length
      modifies data
      ensures setItem(v).Stored? ==> status == 0 && data[..] == WriteAt(old(data[..]), pointer, setItem(v).bytes)
      ensures setItem(v).SetFailed? ==> status == -1 && data[..] == old(data[..])
    {
      match setItem(v) {
        case Stored(bytes) =>
          Memcpy(data, pointer, bytes);
          status := 0;
        case SetFailed =>
          status := -1;
      }
    }

    /**
     * `_load_scalar`: stores `v` at the slot `coordinates` selects, descending into arrays
     * with `coordinates[depth + 1]` set to each child's index. The ghost `calls` is the log
     * of earlier calls; `log` extends it with the calls this one made.
     */
    method LoadScalar(v: Value, coordinates: array<int>, depth: nat, ghost calls: seq<Call>) returns (success: int, ghost log: seq<Call>)
      requires Valid() && CanLoad(Geom(), setItem, State(data[..], coordinates[..], calls), v, depth)
      requires coordinates as object != data
      modifies data, coordinates
      ensures Step(State(data[..], coordinates[..], log), success)
              == Load(Geom(), setItem, State(old(data[..]), old(coordinates[..]), calls), v, depth)
      decreases v
    {
      ghost var g, st := Geom(), State(data[..], coordinates[..], calls);
      log := calls + [Call(coordinates[..], v)];
      if v.Array? {
        LoadArray(g, setItem, st, v, depth);
        log := LoadElementsInPlace(v.elems, coordinates, depth, log);
        // the children's results are not looked at: an array always reports 1
        return 1, log;
      }

      var pointer: nat := GetPtr(v, coordinates, depth, st);
      success := StoreValue(v, pointer);
    }

    /** `PyArray_GetPtr`: the offset of the slot that the coordinates select. */
    method GetPtr(v: Value, coordinates: array<int>, depth: nat, ghost st: State) returns (pointer: nat)
      requires Valid() && CanLoad(Geom(), setItem, st, v, depth) && !v.Array? && coordinates[..] == st.coords
      ensures pointer == Offset(dims, itemsize, coordinates[..]) && pointer + itemsize <= data.Length
      ensures var leaf := StoreLeaf(setItem, v, st.buf[pointer..pointer + itemsize]);
              Load(Geom(), setItem, st, v, depth)
              == Step(State(WriteAt(st.buf, pointer, leaf.slot), st.coords, st.calls + [Call(st.coords, v)]), leaf.status)
    {
      LoadLeaf(Geom(), setItem, st, v, depth);
      pointer := Offset(dims, itemsize, coordinates[..]);
    }

    /**
     * The array case of `_load_scalar`: for the i-th child, in document order, set
     * `coordinates[depth + 1] = i` and load the child at `depth + 1`.
     */
    method LoadElementsInPlace(es: seq<Value>, coordinates: array<int>, depth: nat, ghost calls: seq<Call>) returns (ghost log: seq<Call>)
      requires Valid() && CanLoadElements(Geom(), setItem, State(data[..], coordinates[..], calls), es, 0, depth)
      requires coordinates as object != data
      modifies data, coordinates
      ensures State(data[..], coordinates[..], log) == LoadElements(Geom(), setItem, State(old(data[..]), old(coordinates[..]), calls), es, 0, depth)
      decreases es, 1
    {
      ghost var g, start := Geom(), State(data[..], coordinates[..], calls);
      ghost var cur := start;
      log := calls;
      var i := 0;
      while i < |es|
        invariant 0 <= i <= |es|
        invariant State(data[..], coordinates[..], log) == cur
        invariant CanLoadElements(g, setItem, cur, es, i, depth)
        invariant LoadElements(g, setItem, cur, es, i, depth) == LoadElements(g, setItem, start, es, 0, depth)
      {
        LoadElementsStep(g, setItem, cur, es, i, depth);
        cur := LoadElement(es, i, coordinates, depth, cur);
        log := cur.calls;
        i := i + 1;
      }
    }

    /** One turn of the array loop: `coordinates[depth + 1] = i`, then the recursive call on child `i`. */
    method LoadElement(es: seq<Value>, i: nat, coordinates: array<int>, depth: nat, ghost cur: State) returns (ghost after: State)
      requires Valid() && coordinates as object != data && i < |es| && depth + 1 < |cur.coords|
      requires State(data[..], coordinates[..], cur.calls) == cur
      requires CanLoad(Geom(), setItem, cur.(coords := cur.coords[depth + 1 := i]), es[i], depth + 1)
      modifies data, coordinates
      ensures after == Load(Geom(), setItem, cur.(coords := cur.coords[depth + 1 := i]), es[i], depth + 1).state
      ensures State(data[..], coordinates[..], after.calls) == after
      decreases es, 0
    {
      coordinates[depth + 1] := i;
      assert State(data[..], coordinates[..], cur.calls) == cur.(coords := cur.coords[depth + 1 := i]);
      var _, childLog := LoadScalar(es[i], coordinates, depth + 1, cur.calls);
      after := State(data[..], coordinates[..], childLog);
    }

    /**
     * The leaf part of `_load_scalar`, once `PyArray_GetPtr` has found the slot at
     * `pointer`: a timestamp or a regex is laid out by hand (and `copy` cleared); any
     * other value goes to the exact-fit or copy-with-fit path.
     */
    method StoreValue(v: Value, pointer: nat) returns (success: int)
      requires Valid() && !v.Array? && LeafFits(v, itemsize) && pointer + itemsize <= data.Length
      modifies data
      ensures var leaf := StoreLeaf(setItem, v, old(data[..])[pointer..pointer + itemsize]);
        data[..] == WriteAt(old(data[..]), pointer, leaf.slot) && success == leaf.status
    {
      ghost var buf := data[..];
      if v.Timestamp? {
        StoreTimestamp(v.timestamp, v.increment, pointer);
        WriteAtSlot(buf, pointer, itemsize, TimestampBytes(v.timestamp, v.increment));
        success := 0;
      } else if v.Regex? {
        var _ := StoreRegex(v.pattern, v.options, pointer);
        WriteAtSlot(buf, pointer, itemsize, RegexBytes(v.pattern, v.options));
        success := 0;
      } else {
        success := StorePayload(v, pointer);
      }
    }

    /**
     * The rest of the type switch and its tail: the source bytes are the value's payload
     * (with `len` its length), or the value itself (with `len = itemsize`); a source of
     * exactly `itemsize` bytes goes through the setter, any other is copied with fit.
     */
    method StorePayload(v: Value, pointer: nat) returns (success: int)
      requires Valid() && !v.Array? && !v.Timestamp? && !v.Regex? && pointer + itemsize <= data.Length
      modifies data
      ensures var leaf := StoreLeaf(setItem, v, old(data[..])[pointer..pointer + itemsize]);
        data[..] == WriteAt(old(data[..]), pointer, leaf.slot) && success == leaf.status
    {
      var len: int := itemsize;
      var src: seq<Byte> := [];
      if Payload(v).Some? {
        src := Payload(v).value;
        len := |src|;
      }
      ghost var buf := data[..];
      ghost var slot := buf[pointer..pointer + itemsize];
      success := 0;
      if len == itemsize {
        success := SetItem(v, pointer);
        if success == -1 {
          WriteAtOwnSlot(buf, pointer, itemsize);
          assert StoreLeaf(setItem, v, slot).slot == slot;
        }
      } else {
        CopyWithFit(src, pointer);
      }
    }

    /** The timestamp case: the timestamp word at the slot's start, the increment word after it. */
    method StoreTimestamp(timestamp: bv32, increment: bv32, pointer: nat)
      requires pointer + 8 <= data.Length
      modifies data
      ensures data[..] == WriteAt(old(data[..]), pointer, TimestampBytes(timestamp, increment))
    {
      ghost var buf := data[..];
      Memcpy(data, pointer, Word32(timestamp));
      Memcpy(data, pointer + 4, Word32(increment));
      TimestampWrites(buf, pointer, timestamp, increment);
    }

    /**
     * The regex case: `strlen(pattern)` pattern bytes, one NUL byte, the option bytes;
     * returns the length it records, `|pattern| + 1 + |options|`.
     */
    method StoreRegex(pattern: seq<Byte>, options: seq<Byte>, pointer: nat) returns (len: int)
      requires pointer + |pattern| + 1 + |options| <= data.Length
      modifies data
      ensures len == |pattern| + 1 + |options|
      ensures data[..] == WriteAt(old(data[..]), pointer, RegexBytes(pattern, options))
    {
      ghost var buf := data[..];
      len := |pattern|;
      Memcpy(data, pointer, pattern);
      Memset(data, pointer + len, 1);
      Memcpy(data, pointer + len + 1, options);
      len := len + |options| + 1;
      RegexWrites(buf, pointer, pattern, options);
    }

    /** Copy-with-fit: at most `itemsize` source bytes, then zeros up to `itemsize`. */
    method CopyWithFit(src: seq<Byte>, pointer: nat)
      requires pointer + itemsize <= data.Length
      modifies data
      ensures data[..] == WriteAt(old(data[..]), pointer, FitToSlot(src, itemsize))
    {
      ghost var buf := data[..];
      var len := |src|;
      if len > itemsize {
        len := itemsize;  // truncate data that is too big
      }
      Memcpy(data, pointer, src[..len]);
      Memset(data, pointer + len, itemsize - len);
      FitWrites(buf, pointer, itemsize, src, len);
    }
  }
}
