/**
 * The decoding half of `bson_to_ndarray`: it derives the number of dimensions from the
 * element type, takes dimension 0 from the document's key count, starts from a zeroed
 * array and an all-zero coordinate vector of `1 + number_dimensions` entries, and loads
 * the i-th top-level element with `coordinates[0] = i`, stopping at the first -1.
 */
module Driver {

  import opened Wrappers
  import opened Bson
  import opened Slots
  import opened Strides
  import opened Policy
  import opened Loader

  /** What a sub-array element type gives as its shape: a tuple of dimensions, or some other object. */
  datatype ShapeObject = Tuple(items: seq<nat>) | NotATuple

  /**
   * The element type (dtype) the caller passes: the element size of the array NumPy builds
   * for it (the base type's size when the dtype is a sub-array), its sub-array shape if it has
   * one, and its typed setter.
   */
  datatype Descr = Descr(itemsize: nat, subarray: Option<ShapeObject>, setItem: Setter)

  /** "dtype passed in was invalid" and "item failed to load". */
  datatype DecodeError = InvalidDtype | ItemFailed

  /** `number_dimensions`: 1, or the length of the sub-array shape, which must be a tuple. */
  function NumberDimensions(d: Descr): (r: Result<nat, DecodeError>)
    ensures r.Failure? <==> d.subarray == Some(NotATuple)
    ensures r.Failure? ==> r.error == InvalidDtype
    ensures d.subarray.None? ==> r == Success(1)
    ensures d.subarray.Some? && d.subarray.value.Tuple? ==> r == Success(|d.subarray.value.items|)
  {
    match d.subarray
    case None => Success(1)
    case Some(NotATuple) => Failure(InvalidDtype)
    case Some(Tuple(items)) => Success(|items|)
  }

  /**
   * The shape of the array `PyArray_Zeros` builds from the one-dimensional shape `[count]`:
   * NumPy appends the sub-array shape of the element type to it.
   */
  function ArrayDims(d: Descr, count: nat): (dims: seq<nat>)
    ensures |dims| >= 1 && dims[0] == count
    ensures d.subarray.None? ==> dims == [count]
    ensures NumberDimensions(d).Success? ==> |dims| <= 1 + NumberDimensions(d).value
  {
    [count] + (if d.subarray.Some? && d.subarray.value.Tuple? then d.subarray.value.items else [])
  }

  datatype Decoded = Decoded(dims: seq<nat>, state: State)

  /**
   * The document passed validation, the setter stores whole slots, and every top-level
   * value fits the array (see Fits): what the decoder silently relies on.
   */
  ghost predicate CanDecode(doc: seq<Element>, d: Descr)
  {
    && WritesItemsize(d.setItem, d.itemsize)
    && (forall i :: 0 <= i < |doc| ==> WellFormed(doc[i].value))
    && (NumberDimensions(d).Success? ==>
          forall i :: 0 <= i < |doc| ==>
            Fits(Geometry(ArrayDims(d, |doc|), d.itemsize), 1 + NumberDimensions(d).value, doc[i].value, 0))
  }

  /** What loading the top-level elements from the `i`-th on needs. */
  ghost predicate CanLoadTop(g: Geometry, setItem: Setter, st: State, doc: seq<Element>, i: nat)
  {
    && Ready(g, st)
    && |g.dims| >= 1 && g.dims[0] == |doc|
    && i <= |doc|
    && (forall j :: i <= j < |doc| ==> Fits(g, |st.coords|, doc[j].value, 0) && WellFormed(doc[j].value))
    && WritesItemsize(setItem, g.itemsize)
  }

  /** The top-level loop from element `i` on: element `i` is loaded with `coordinates[0] = i`. */
  function LoadTop(g: Geometry, setItem: Setter, st: State, doc: seq<Element>, i: nat): (r: Result<State, DecodeError>)
    requires CanLoadTop(g, setItem, st, doc, i)
    ensures r.Success? ==> Ready(g, r.value) && |r.value.coords| == |st.coords| && st.calls <= r.value.calls
    ensures r.Failure? ==> r.error == ItemFailed
    decreases |doc| - i
  {
    if i == |doc| then Success(st)
    else
      var next := st.(coords := st.coords[0 := i]);
      var r := Load(g, setItem, next, doc[i].value, 0);
      if r.status == -1 then Failure(ItemFailed)
      else LoadTop(g, setItem, r.state, doc, i + 1)
  }

  /** The geometry of the array decoded from `doc` with element type `d`. */
  function DecodeGeometry(doc: seq<Element>, d: Descr): Geometry
  {
    Geometry(ArrayDims(d, |doc|), d.itemsize)
  }

  /**
   * The array `bson_to_ndarray` returns: its shape, and the state of its buffer, of its
   * coordinate vector and of the call log after the last load; or the error it raises.
   */
  function Decode(doc: seq<Element>, d: Descr): (r: Result<Decoded, DecodeError>)
    requires CanDecode(doc, d)
    ensures r.Failure? ==> (r.error == InvalidDtype <==> d.subarray == Some(NotATuple))
    ensures r.Success? ==> && NumberDimensions(d).Success?
                           && r.value.dims == ArrayDims(d, |doc|) && r.value.dims[0] == |doc|
                           && |r.value.state.coords| == 1 + NumberDimensions(d).value
                           && |r.value.state.buf| == d.itemsize * Prod(r.value.dims)
  {
    match NumberDimensions(d)
    case Failure(e) => Failure(e)
    case Success(n) =>
      var g := DecodeGeometry(doc, d);
      match LoadTop(g, d.setItem, State(Zeros(g.Size()), seq(1 + n, _ => 0), []), doc, 0)
      case Failure(e) => Failure(e)
      case Success(fin) => Success(Decoded(g.dims, fin))
  }

  /**
   * One turn of the top-level loop: element `i` can be loaded with `coordinates[0] = i`,
   * and a -1 ends the decode, anything else moves on to element `i + 1`.
   */
  lemma LoadTopStep(g: Geometry, setItem: Setter, st: State, doc: seq<Element>, i: nat)
    requires CanLoadTop(g, setItem, st, doc, i) && i < |doc|
    ensures var next := st.(coords := st.coords[0 := i]);
            && CanLoad(g, setItem, next, doc[i].value, 0)
            && var r := Load(g, setItem, next, doc[i].value, 0);
               && (r.status == -1 ==> LoadTop(g, setItem, st, doc, i) == Failure(ItemFailed))
               && (r.status != -1 ==> && CanLoadTop(g, setItem, r.state, doc, i + 1)
                                      && LoadTop(g, setItem, st, doc, i) == LoadTop(g, setItem, r.state, doc, i + 1))
  {
  }

  /**
   * The `for` loop of `bson_to_ndarray`: it loads the top-level elements in order into
   * `ndarray`, and reports whether one of them returned -1.
   */
  method LoadDocument(ndarray: NdArray, doc: seq<Element>, coordinates: array<int>) returns (failed: bool, ghost log: seq<Call>)
    requires ndarray.Valid() && CanLoadTop(ndarray.Geom(), ndarray.setItem, State(ndarray.data[..], coordinates[..], []), doc, 0)
    requires coordinates as object != ndarray.data
    modifies ndarray.data, coordinates
    ensures var top := LoadTop(ndarray.Geom(), ndarray.setItem, State(old(ndarray.data[..]), old(coordinates[..]), []), doc, 0);
            && (failed <==> top.Failure?)
            && (!failed ==> ndarray.data[..] == top.value.buf && coordinates[..] == top.value.coords && log == top.value.calls)
  {
    ghost var g := ndarray.Geom();
    ghost var start := State(ndarray.data[..], coordinates[..], []);
    ghost var cur := start;
    log := [];
    var i := 0;
    while i < |doc|
      invariant 0 <= i <= |doc|
      invariant ndarray.data[..] == cur.buf && coordinates[..] == cur.coords && log == cur.calls
      invariant CanLoadTop(g, ndarray.setItem, cur, doc, i)
      invariant LoadTop(g, ndarray.setItem, cur, doc, i) == LoadTop(g, ndarray.setItem, start, doc, 0)
    {
      ghost var next := cur.(coords := cur.coords[0 := i]);
      LoadTopStep(g, ndarray.setItem, cur, doc, i);
      coordinates[0] := i;
      assert ndarray.data[..] == next.buf && coordinates[..] == next.coords;
      var success, childLog := ndarray.LoadScalar(doc[i].value, coordinates, 0, log);
      if success == -1 {
        return true, log;
      }
      log := childLog;
      cur := Load(g, ndarray.setItem, next, doc[i].value, 0).state;
      i := i + 1;
    }
    return false, log;
  }

  /**
   * `bson_to_ndarray` after the document and the element type have been accepted: it
   * derives the number of dimensions, builds the zeroed array and the zeroed coordinate
   * vector, and loads the top-level elements, returning the array or the first failure.
   */
  method BsonToNdarray(doc: seq<Element>, d: Descr) returns (r: Result<NdArray, DecodeError>)
    requires CanDecode(doc, d)
    ensures r.Success? <==> Decode(doc, d).Success?
    ensures r.Failure? ==> r.error == Decode(doc, d).error
    ensures r.Success? ==> && fresh(r.value.data) && r.value.Valid() && r.value.setItem == d.setItem
                           && r.value.dims == Decode(doc, d).value.dims && r.value.itemsize == d.itemsize
                           && r.value.data[..] == Decode(doc, d).value.state.buf
  {
    var numberDimensions := 1;
    if d.subarray.Some? {
      if !d.subarray.value.Tuple? {
        return Failure(InvalidDtype);
      }
      numberDimensions := |d.subarray.value.items|;
    }
    var count := |doc|;                                   // bson_count_keys
    var ndarray := new NdArray(ArrayDims(d, count), d.itemsize, d.setItem);
    var coordinates := new int[1 + numberDimensions](_ => 0);
    ghost var g := DecodeGeometry(doc, d);
    assert coordinates[..] == seq(1 + numberDimensions, _ => 0);
    var failed, _ := LoadDocument(ndarray, doc, coordinates);
    if failed {
      return Failure(ItemFailed);
    }
    return Success(ndarray);
  }

  /**
   * The loop stops with "item failed to load" exactly when some remaining top-level
   * element is a scalar whose exact-fit setter call fails; a failure inside an array
   * never reaches it, since an array reports 1 whatever its children report.
   */
  lemma {:induction false} LoadTopFailsIff(g: Geometry, setItem: Setter, st: State, doc: seq<Element>, i: nat)
    requires CanLoadTop(g, setItem, st, doc, i)
    ensures LoadTop(g, setItem, st, doc, i).Failure? <==>
              exists j :: i <= j < |doc| && LeafFails(setItem, doc[j].value, g.itemsize)
    decreases |doc| - i
  {
    if i < |doc| {
      LoadTopStep(g, setItem, st, doc, i);
      var r := Load(g, setItem, st.(coords := st.coords[0 := i]), doc[i].value, 0);
      if r.status != -1 {
        LoadTopFailsIff(g, setItem, r.state, doc, i + 1);
        if exists j :: i <= j < |doc| && LeafFails(setItem, doc[j].value, g.itemsize) {
          var j :| i <= j < |doc| && LeafFails(setItem, doc[j].value, g.itemsize);
          assert j != i;
        }
      }
    }
  }

  /** The two errors of a decode, each with the inputs that cause it. */
  lemma DecodeFailsIff(doc: seq<Element>, d: Descr)
    requires CanDecode(doc, d)
    ensures Decode(doc, d) == Failure(InvalidDtype) <==> d.subarray == Some(NotATuple)
    ensures Decode(doc, d) == Failure(ItemFailed) <==>
              && d.subarray != Some(NotATuple)
              && exists j :: 0 <= j < |doc| && LeafFails(d.setItem, doc[j].value, d.itemsize)
  {
    if NumberDimensions(d).Success? {
      var g := DecodeGeometry(doc, d);
      LoadTopFailsIff(g, d.setItem, State(Zeros(g.Size()), seq(1 + NumberDimensions(d).value, _ => 0), []), doc, 0);
    }
  }

  /** The nodes of the document from its `i`-th top-level element on, in document order, each with its path. */
  function DocumentPreorder(doc: seq<Element>, i: nat): seq<Visit>
    requires i <= |doc|
    decreases |doc| - i
  {
    if i == |doc| then [] else Preorder(doc[i].value, [i]) + DocumentPreorder(doc, i + 1)
  }

  /** Element `i`'s calls are its nodes in document order, each path starting with `i`. */
  lemma ElementFollowsPreorder(g: Geometry, setItem: Setter, st: State, doc: seq<Element>, i: nat)
    requires CanLoadTop(g, setItem, st, doc, i) && i < |doc|
    ensures var next := st.(coords := st.coords[0 := i]);
            CanLoad(g, setItem, next, doc[i].value, 0) &&
            Agrees(Load(g, setItem, next, doc[i].value, 0).state.calls[|st.calls|..], Preorder(doc[i].value, [i]))
  {
    var next := st.(coords := st.coords[0 := i]);
    assert CanLoad(g, setItem, next, doc[i].value, 0);
    LoadFollowsPreorder(g, setItem, next, doc[i].value, 0);
    assert next.coords[..1] == [i];
  }

  lemma {:induction false} LoadTopFollowsPreorder(g: Geometry, setItem: Setter, st: State, doc: seq<Element>, i: nat)
    requires CanLoadTop(g, setItem, st, doc, i) && LoadTop(g, setItem, st, doc, i).Success?
    ensures Agrees(LoadTop(g, setItem, st, doc, i).value.calls[|st.calls|..], DocumentPreorder(doc, i))
    decreases |doc| - i
  {
    if i == |doc| {
      assert LoadTop(g, setItem, st, doc, i).value.calls[|st.calls|..] == [];
    } else {
      LoadTopStep(g, setItem, st, doc, i);
      var next := st.(coords := st.coords[0 := i]);
      var r := Load(g, setItem, next, doc[i].value, 0);
      assert r.status != -1;
      ElementFollowsPreorder(g, setItem, st, doc, i);
      LoadTopFollowsPreorder(g, setItem, r.state, doc, i + 1);
      var fin := LoadTop(g, setItem, r.state, doc, i + 1).value;
      SuffixSplit(st.calls, r.state.calls, fin.calls);
      AgreesConcat(r.state.calls[|st.calls|..], Preorder(doc[i].value, [i]),
                   fin.calls[|r.state.calls|..], DocumentPreorder(doc, i + 1));
    }
  }

  /**
   * A decode that succeeds calls the loader once per node of the document, in document
   * order, and each call's leading coordinates are the node's path: its top-level index,
   * then its index inside each enclosing array.
   */
  lemma DecodeVisitsInPreorder(doc: seq<Element>, d: Descr)
    requires CanDecode(doc, d) && Decode(doc, d).Success?
    ensures Agrees(Decode(doc, d).value.state.calls, DocumentPreorder(doc, 0))
  {
    var g := DecodeGeometry(doc, d);
    var st := State(Zeros(g.Size()), seq(1 + NumberDimensions(d).value, _ => 0), []);
    LoadTopFollowsPreorder(g, d.setItem, st, doc, 0);
    assert LoadTop(g, d.setItem, st, doc, 0).value.calls[|st.calls|..] == Decode(doc, d).value.state.calls;
  }

  /** Element `i`'s calls: the first sets coordinate 0 to `i`, and each later one a single entry. */
  lemma ElementSetsOneCoordinate(g: Geometry, setItem: Setter, st: State, doc: seq<Element>, i: nat)
    requires CanLoadTop(g, setItem, st, doc, i) && i < |doc|
    ensures var next := st.(coords := st.coords[0 := i]);
            CanLoad(g, setItem, next, doc[i].value, 0) &&
            var r := Load(g, setItem, next, doc[i].value, 0).state;
            var made := r.calls[|st.calls|..];
            && Stepwise(st.coords, made, Preorder(doc[i].value, [i]))
            && r.coords == Before(st.coords, made, |made|)
  {
    var next := st.(coords := st.coords[0 := i]);
    assert CanLoad(g, setItem, next, doc[i].value, 0);
    var r := Load(g, setItem, next, doc[i].value, 0).state;
    LoadSetsOneCoordinate(g, setItem, next, doc[i].value, 0);
    assert next.coords[..1] == [i];
    var made := r.calls[|st.calls|..];
    assert made[0] == Call(next.coords, doc[i].value);
    assert Preorder(doc[i].value, [i])[0].path == [i];
    StepwiseRebase(next.coords, st.coords, made, Preorder(doc[i].value, [i]));
  }

  /** The top-level loop's calls change one coordinate at a time, element `i` starting with `coordinates[0] = i`. */
  lemma {:induction false} LoadTopSetsOneCoordinate(g: Geometry, setItem: Setter, st: State, doc: seq<Element>, i: nat)
    requires CanLoadTop(g, setItem, st, doc, i) && LoadTop(g, setItem, st, doc, i).Success?
    ensures var fin := LoadTop(g, setItem, st, doc, i).value;
            var made := fin.calls[|st.calls|..];
            && Stepwise(st.coords, made, DocumentPreorder(doc, i))
            && fin.coords == Before(st.coords, made, |made|)
    decreases |doc| - i
  {
    if i == |doc| {
      assert LoadTop(g, setItem, st, doc, i).value.calls[|st.calls|..] == [];
    } else {
      LoadTopStep(g, setItem, st, doc, i);
      var r := Load(g, setItem, st.(coords := st.coords[0 := i]), doc[i].value, 0);
      assert r.status != -1;
      ElementSetsOneCoordinate(g, setItem, st, doc, i);
      LoadTopSetsOneCoordinate(g, setItem, r.state, doc, i + 1);
      var fin := LoadTop(g, setItem, r.state, doc, i + 1).value;
      SuffixSplit(st.calls, r.state.calls, fin.calls);
      StepwiseConcat(st.coords, r.state.calls[|st.calls|..], Preorder(doc[i].value, [i]),
                     fin.calls[|r.state.calls|..], DocumentPreorder(doc, i + 1));
    }
  }

  /**
   * Coordinate bookkeeping of a whole decode: the first call is made with the all-zero
   * vector of `1 + number_dimensions` entries, and every later call with the vector of the
   * call before it, changed only in the entry its loop set: `coordinates[0] = i` for
   * top-level element `i`, `coordinates[d + 1] = k` for child `k` of an array at depth `d`.
   * Every other entry, including one a finished array left behind, is carried over.
   */
  lemma DecodeSetsOneCoordinate(doc: seq<Element>, d: Descr)
    requires CanDecode(doc, d) && Decode(doc, d).Success?
    ensures var calls := Decode(doc, d).value.state.calls;
            var zero := seq(1 + NumberDimensions(d).value, _ => 0);
            && (|calls| > 0 ==> calls[0].coords == zero)
            && Stepwise(zero, calls, DocumentPreorder(doc, 0))
  {
    var g := DecodeGeometry(doc, d);
    var zero := seq(1 + NumberDimensions(d).value, _ => 0);
    var st := State(Zeros(g.Size()), zero, []);
    LoadTopSetsOneCoordinate(g, d.setItem, st, doc, 0);
    var calls := Decode(doc, d).value.state.calls;
    assert LoadTop(g, d.setItem, st, doc, 0).value.calls[|st.calls|..] == calls;
    if |calls| > 0 {
      FirstCallFromZero(zero, calls, doc);
    }
  }

  /** In a stepwise run over a document from an all-zero vector, the first call sets entry 0 to 0: it keeps the vector. */
  lemma FirstCallFromZero(zero: seq<int>, calls: seq<Call>, doc: seq<Element>)
    requires Stepwise(zero, calls, DocumentPreorder(doc, 0)) && |calls| > 0
    requires forall k :: 0 <= k < |zero| ==> zero[k] == 0
    ensures calls[0].coords == zero
  {
    assert |doc| > 0;
    assert DocumentPreorder(doc, 0)[0].path == [0];
    assert SetsOne(Before(zero, calls, 0), calls[0].coords, [0]);
    assert zero[0 := 0] == zero;
  }

  lemma {:induction false} LoadTopWritesOnlyLeafSlots(g: Geometry, setItem: Setter, st: State, doc: seq<Element>, i: nat, j: int)
    requires CanLoadTop(g, setItem, st, doc, i) && LoadTop(g, setItem, st, doc, i).Success? && 0 <= j < |st.buf|
    requires OutsideLeafSlots(g, LoadTop(g, setItem, st, doc, i).value.calls[|st.calls|..], j)
    ensures LoadTop(g, setItem, st, doc, i).value.buf[j] == st.buf[j]
    decreases |doc| - i
  {
    if i < |doc| {
      var fin := LoadTop(g, setItem, st, doc, i).value;
      LoadTopStep(g, setItem, st, doc, i);
      var next := st.(coords := st.coords[0 := i]);
      var r := Load(g, setItem, next, doc[i].value, 0);
      SuffixSplit(st.calls, r.state.calls, fin.calls);
      OutsideLeafSlotsSplit(g, r.state.calls[|st.calls|..], fin.calls[|r.state.calls|..], j);
      LoadWritesOnlyLeafSlots(g, setItem, next, doc[i].value, 0, j);
      LoadTopWritesOnlyLeafSlots(g, setItem, r.state, doc, i + 1, j);
    }
  }

  /**
   * A decoded array keeps the zeros `PyArray_Zeros` gave it in every byte outside the
   * slots of the scalars the loader visited.
   */
  lemma DecodeZeroOutsideLeafSlots(doc: seq<Element>, d: Descr, j: int)
    requires CanDecode(doc, d) && Decode(doc, d).Success?
    requires 0 <= j < |Decode(doc, d).value.state.buf|
    requires OutsideLeafSlots(DecodeGeometry(doc, d), Decode(doc, d).value.state.calls, j)
    ensures Decode(doc, d).value.state.buf[j] == 0
  {
    var g := DecodeGeometry(doc, d);
    var st := State(Zeros(g.Size()), seq(1 + NumberDimensions(d).value, _ => 0), []);
    assert LoadTop(g, d.setItem, st, doc, 0).value.calls[|st.calls|..] == Decode(doc, d).value.state.calls;
    LoadTopWritesOnlyLeafSlots(g, d.setItem, st, doc, 0, j);
  }
}
