/**
 * Small documents decoded end to end, with a hypothetical setter for a 4-byte element type:
 * it stores a BSON int32 as its own four bytes and, chosen so that a failure can be shown,
 * fails on every other value. (NumPy's own setter reinterprets the value's bytes with the
 * array's element type and would not refuse a boolean.)
 */
module Scenarios {

  import opened Wrappers
  import opened Bson
  import opened Slots
  import opened Strides
  import opened Policy
  import opened Loader
  import opened Driver

  /** The hypothetical setter: a BSON int32 as its four little-endian bytes, a failure for any other value. */
  function Int32Items(v: Value): SetItem
  {
    if v.Int32? then Stored(Word32(v.i32)) else SetFailed
  }

  /** The integer of top-level element `i` of `{"a": 1, "b": 2}` goes to bytes `4 * i` to `4 * i + 3`. */
  lemma PairItem(buf: seq<Byte>, calls: seq<Call>, i: nat, w: bv32)
    requires |buf| == 8 && i < 2
    ensures var g := Geometry([2], 4);
            var st := State(buf, [i, 0], calls);
            && CanLoad(g, Int32Items, st, Int32(w), 0)
            && Load(g, Int32Items, st, Int32(w), 0)
               == Step(State(WriteAt(buf, 4 * i, Word32(w)), [i, 0], calls + [Call([i, 0], Int32(w))]), 0)
  {
    var g := Geometry([2], 4);
    assert g.dims[1..] == [] && g.Size() == 8;
    var st := State(buf, [i, 0], calls);
    assert CanLoad(g, Int32Items, st, Int32(w), 0);
    LoadLeaf(g, Int32Items, st, Int32(w), 0);
    assert [i, 0][1..] == [0];
    assert Offset(g.dims, 4, [i, 0]) == 4 * i;
  }

  /** One turn of the top-level loop over `{"a": 1, "b": 2}`. */
  lemma PairStep(st: State, i: nat, w: bv32)
    requires i < 2 && [Int32(1), Int32(2)][i] == Int32(w)
    requires |st.buf| == 8 && |st.coords| == 2 && st.coords[1] == 0
    requires CanLoadTop(Geometry([2], 4), Int32Items, st, [Element("a", Int32(1)), Element("b", Int32(2))], i)
    ensures var doc := [Element("a", Int32(1)), Element("b", Int32(2))];
            var after := State(WriteAt(st.buf, 4 * i, Word32(w)), [i, 0], st.calls + [Call([i, 0], Int32(w))]);
            && CanLoadTop(Geometry([2], 4), Int32Items, after, doc, i + 1)
            && LoadTop(Geometry([2], 4), Int32Items, st, doc, i) == LoadTop(Geometry([2], 4), Int32Items, after, doc, i + 1)
  {
    var doc := [Element("a", Int32(1)), Element("b", Int32(2))];
    assert doc[i].value == Int32(w);
    LoadTopStep(Geometry([2], 4), Int32Items, st, doc, i);
    assert st.coords[0 := i] == [i, 0];
    PairItem(st.buf, st.calls, i, w);
  }

  /** The first turn over `{"a": 1, "b": 2}`, from the zeroed buffer: `1` goes to bytes 0 to 3. */
  lemma PairFirst()
    ensures var doc := [Element("a", Int32(1)), Element("b", Int32(2))];
            var st0 := State(Zeros(8), [0, 0], []);
            var st1 := State(WriteAt(Zeros(8), 0, Word32(1)), [0, 0], [Call([0, 0], Int32(1))]);
            && CanLoadTop(Geometry([2], 4), Int32Items, st0, doc, 0)
            && CanLoadTop(Geometry([2], 4), Int32Items, st1, doc, 1)
            && LoadTop(Geometry([2], 4), Int32Items, st0, doc, 0) == LoadTop(Geometry([2], 4), Int32Items, st1, doc, 1)
  {
    var doc := [Element("a", Int32(1)), Element("b", Int32(2))];
    var g := Geometry([2], 4);
    assert g.dims[1..] == [] && g.Size() == 8 && g.Inhabited();
    var st0 := State(Zeros(8), [0, 0], []);
    assert CanLoadTop(g, Int32Items, st0, doc, 0);
    PairStep(st0, 0, 1);
    assert st0.calls + [Call([0, 0], Int32(1))] == [Call([0, 0], Int32(1))];
  }

  /** The second and last turn: `2` goes to bytes 4 to 7 and the loop ends. */
  lemma PairSecond(buf: seq<Byte>)
    requires |buf| == 8
    ensures var doc := [Element("a", Int32(1)), Element("b", Int32(2))];
            var st1 := State(buf, [0, 0], [Call([0, 0], Int32(1))]);
            var calls := [Call([0, 0], Int32(1)), Call([1, 0], Int32(2))];
            CanLoadTop(Geometry([2], 4), Int32Items, st1, doc, 1) ==>
              LoadTop(Geometry([2], 4), Int32Items, st1, doc, 1) == Success(State(WriteAt(buf, 4, Word32(2)), [1, 0], calls))
  {
    var doc := [Element("a", Int32(1)), Element("b", Int32(2))];
    var g := Geometry([2], 4);
    var st1 := State(buf, [0, 0], [Call([0, 0], Int32(1))]);
    if CanLoadTop(g, Int32Items, st1, doc, 1) {
      PairStep(st1, 1, 2);
      var calls := [Call([0, 0], Int32(1)), Call([1, 0], Int32(2))];
      var st2 := State(WriteAt(buf, 4, Word32(2)), [1, 0], calls);
      assert st1.calls + [Call([1, 0], Int32(2))] == calls;
      assert LoadTop(g, Int32Items, st2, doc, 2) == Success(st2);
    }
  }

  /** The top-level loop over `{"a": 1, "b": 2}`, from the zeroed buffer. */
  lemma PairRun()
    ensures var doc := [Element("a", Int32(1)), Element("b", Int32(2))];
            var st0 := State(Zeros(8), [0, 0], []);
            && CanLoadTop(Geometry([2], 4), Int32Items, st0, doc, 0)
            && LoadTop(Geometry([2], 4), Int32Items, st0, doc, 0)
               == Success(State(Word32(1) + Word32(2), [1, 0], [Call([0, 0], Int32(1)), Call([1, 0], Int32(2))]))
  {
    PairFirst();
    PairSecond(WriteAt(Zeros(8), 0, Word32(1)));
    PairBytes();
  }

  lemma PairBytes()
    ensures WriteAt(WriteAt(Zeros(8), 0, Word32(1)), 4, Word32(2)) == Word32(1) + Word32(2)
  {
    WriteAtConcat(Zeros(8), 0, Word32(1), Word32(2));
    WriteAtWhole(Zeros(8), Word32(1) + Word32(2));
  }

  /** `{"a": 1, "b": 2}` with the setter above: shape `[2]`, values `[1, 2]`. */
  lemma TwoIntegers()
    ensures var doc := [Element("a", Int32(1)), Element("b", Int32(2))];
            var d := Descr(4, None, Int32Items);
            && CanDecode(doc, d)
            && Decode(doc, d) == Success(Decoded([2], State(Word32(1) + Word32(2), [1, 0],
                                                             [Call([0, 0], Int32(1)), Call([1, 0], Int32(2))])))
  {
    var doc := [Element("a", Int32(1)), Element("b", Int32(2))];
    var d := Descr(4, None, Int32Items);
    assert DecodeGeometry(doc, d) == Geometry([2], 4);
    assert seq(2, _ => 0) == [0, 0];
    PairRun();
  }

  /** The 5-byte slot of `"hi"`: the string is copied with fit, its setter never called. */
  lemma HiSlot(setItem: Setter)
    requires WritesItemsize(setItem, 5)
    ensures StoreLeaf(setItem, Utf8([0x68, 0x69]), Zeros(5)) == LeafResult([0x68, 0x69, 0, 0, 0], 0)
  {
    assert SourceLen(Utf8([0x68, 0x69]), 5) == 2;
    assert FitToSlot([0x68, 0x69], 5) == [0x68, 0x69, 0, 0, 0];
  }

  lemma HiLoad(setItem: Setter)
    requires WritesItemsize(setItem, 5)
    ensures var g := Geometry([1], 5);
            && CanLoad(g, setItem, State(Zeros(5), [0, 0], []), Utf8([0x68, 0x69]), 0)
            && Load(g, setItem, State(Zeros(5), [0, 0], []), Utf8([0x68, 0x69]), 0).status == 0
            && Load(g, setItem, State(Zeros(5), [0, 0], []), Utf8([0x68, 0x69]), 0).state.buf == [0x68, 0x69, 0, 0, 0]
  {
    var g := Geometry([1], 5);
    assert g.dims[1..] == [] && g.Size() == 5;
    var st := State(Zeros(5), [0, 0], []);
    assert CanLoad(g, setItem, st, Utf8([0x68, 0x69]), 0);
    LoadLeaf(g, setItem, st, Utf8([0x68, 0x69]), 0);
    assert Offset(g.dims, 5, [0, 0]) == 0;
    assert st.buf[0..5] == Zeros(5);
    HiSlot(setItem);
  }

  /** `{"a": "hi"}` as a 5-byte string: the slot holds `h`, `i` and three zero bytes. */
  lemma ShortStringIsPadded(setItem: Setter)
    requires WritesItemsize(setItem, 5)
    ensures var doc := [Element("a", Utf8([0x68, 0x69]))];
            var d := Descr(5, None, setItem);
            && CanDecode(doc, d)
            && Decode(doc, d).Success?
            && Decode(doc, d).value.dims == [1]
            && Decode(doc, d).value.state.buf == [0x68, 0x69, 0, 0, 0]
  {
    var doc := [Element("a", Utf8([0x68, 0x69]))];
    var d := Descr(5, None, setItem);
    var g := DecodeGeometry(doc, d);
    assert g == Geometry([1], 5) && g.Inhabited();
    assert CanDecode(doc, d);
    HiLoad(setItem);
    var st0 := State(Zeros(5), seq(2, _ => 0), []);
    assert st0.coords[0 := 0] == [0, 0];
    LoadTopStep(g, setItem, st0, doc, 0);
  }

  /** The `k`-th integer of the row `[1, 2, 3]` goes to bytes `4 * k` to `4 * k + 3`. */
  lemma RowItem(buf: seq<Byte>, calls: seq<Call>, k: nat, w: bv32)
    requires |buf| == 12 && k < 3
    ensures var g := Geometry([1, 3], 4);
            var st := State(buf, [0, k], calls);
            && CanLoad(g, Int32Items, st, Int32(w), 1)
            && Load(g, Int32Items, st, Int32(w), 1)
               == Step(State(WriteAt(buf, 4 * k, Word32(w)), [0, k], calls + [Call([0, k], Int32(w))]), 0)
  {
    var g := Geometry([1, 3], 4);
    assert g.dims[1..] == [3] && g.dims[1..][1..] == [] && g.Size() == 12;
    var st := State(buf, [0, k], calls);
    assert CanLoad(g, Int32Items, st, Int32(w), 1);
    LoadLeaf(g, Int32Items, st, Int32(w), 1);
    assert [0, k][1..] == [k] && [k][1..] == [];
    assert Offset(g.dims[1..], 4, [k]) == 4 * k;
    assert Offset(g.dims, 4, [0, k]) == 4 * k;
  }

  /** One child of `[1, 2, 3]`: integer `k + 1` lands in slot `k`, and the row moves on. */
  lemma RowStep(st: State, k: nat, w: bv32)
    requires k < 3 && [Int32(1), Int32(2), Int32(3)][k] == Int32(w)
    requires |st.buf| == 12 && |st.coords| == 2 && st.coords[0] == 0
    requires CanLoadElements(Geometry([1, 3], 4), Int32Items, st, [Int32(1), Int32(2), Int32(3)], k, 0)
    ensures var after := State(WriteAt(st.buf, 4 * k, Word32(w)), [0, k], st.calls + [Call([0, k], Int32(w))]);
            && CanLoadElements(Geometry([1, 3], 4), Int32Items, after, [Int32(1), Int32(2), Int32(3)], k + 1, 0)
            && LoadElements(Geometry([1, 3], 4), Int32Items, st, [Int32(1), Int32(2), Int32(3)], k, 0)
               == LoadElements(Geometry([1, 3], 4), Int32Items, after, [Int32(1), Int32(2), Int32(3)], k + 1, 0)
  {
    var es := [Int32(1), Int32(2), Int32(3)];
    LoadElementsStep(Geometry([1, 3], 4), Int32Items, st, es, k, 0);
    assert st.coords[1 := k] == [0, k];
    RowItem(st.buf, st.calls, k, w);
  }

  /** The children of `[1, 2, 3]`, loaded at depth 0 of the `[1, 3]` array. */
  lemma RowElements(logged: State)
    requires logged.buf == Zeros(12) && logged.coords == [0, 0]
    requires CanLoadElements(Geometry([1, 3], 4), Int32Items, logged, [Int32(1), Int32(2), Int32(3)], 0, 0)
    ensures LoadElements(Geometry([1, 3], 4), Int32Items, logged, [Int32(1), Int32(2), Int32(3)], 0, 0).buf
            == Word32(1) + Word32(2) + Word32(3)
  {
    var es := [Int32(1), Int32(2), Int32(3)];
    RowStep(logged, 0, 1);
    var s1 := State(WriteAt(logged.buf, 0, Word32(1)), [0, 0], logged.calls + [Call([0, 0], Int32(1))]);
    RowStep(s1, 1, 2);
    var s2 := State(WriteAt(s1.buf, 4, Word32(2)), [0, 1], s1.calls + [Call([0, 1], Int32(2))]);
    RowStep(s2, 2, 3);
    var s3 := State(WriteAt(s2.buf, 8, Word32(3)), [0, 2], s2.calls + [Call([0, 2], Int32(3))]);
    assert LoadElements(Geometry([1, 3], 4), Int32Items, s3, es, 3, 0) == s3;
    RowBytes();
  }

  lemma RowBytes()
    ensures WriteAt(WriteAt(WriteAt(Zeros(12), 0, Word32(1)), 4, Word32(2)), 8, Word32(3))
            == Word32(1) + Word32(2) + Word32(3)
  {
    WriteAtConcat(Zeros(12), 0, Word32(1), Word32(2));
    WriteAtConcat(Zeros(12), 0, Word32(1) + Word32(2), Word32(3));
    WriteAtWhole(Zeros(12), Word32(1) + Word32(2) + Word32(3));
  }

  /** Loading the array `[1, 2, 3]` at the first row of the `[1, 3]` array fills the row. */
  lemma RowLoad()
    ensures var g := Geometry([1, 3], 4);
            var st0 := State(Zeros(12), [0, 0], []);
            && CanLoad(g, Int32Items, st0, Array([Int32(1), Int32(2), Int32(3)]), 0)
            && Load(g, Int32Items, st0, Array([Int32(1), Int32(2), Int32(3)]), 0).status == 1
            && Load(g, Int32Items, st0, Array([Int32(1), Int32(2), Int32(3)]), 0).state.buf == Word32(1) + Word32(2) + Word32(3)
  {
    var es := [Int32(1), Int32(2), Int32(3)];
    var g := Geometry([1, 3], 4);
    assert g.dims[1..] == [3] && g.dims[1..][1..] == [] && g.Size() == 12 && g.Inhabited();
    var st0 := State(Zeros(12), [0, 0], []);
    assert CanLoad(g, Int32Items, st0, Array(es), 0);
    LoadArray(g, Int32Items, st0, Array(es), 0);
    RowElements(st0.(calls := st0.calls + [Call(st0.coords, Array(es))]));
  }

  /** The top-level loop over `{"a": [1, 2, 3]}` in the `[1, 3]` array, from the zeroed buffer. */
  lemma NestedRun(g: Geometry, st0: State, doc: seq<Element>)
    requires g == Geometry([1, 3], 4) && st0 == State(Zeros(12), [0, 0], [])
    requires doc == [Element("a", Array([Int32(1), Int32(2), Int32(3)]))]
    ensures && CanLoadTop(g, Int32Items, st0, doc, 0)
            && LoadTop(g, Int32Items, st0, doc, 0).Success?
            && LoadTop(g, Int32Items, st0, doc, 0).value.buf == Word32(1) + Word32(2) + Word32(3)
  {
    RowLoad();
    assert CanLoadTop(g, Int32Items, st0, doc, 0);
    assert st0.(coords := st0.coords[0 := 0]) == st0;
    LoadTopStep(g, Int32Items, st0, doc, 0);
    var r := Load(g, Int32Items, st0, doc[0].value, 0);
    assert LoadTop(g, Int32Items, r.state, doc, 1) == Success(r.state);
  }

  /** `{"a": [1, 2, 3]}` with the setter above and sub-array shape `(3,)`: shape `[1, 3]`, values `[[1, 2, 3]]`. */
  lemma NestedIntegers(doc: seq<Element>, d: Descr)
    requires doc == [Element("a", Array([Int32(1), Int32(2), Int32(3)]))]
    requires d == Descr(4, Some(Tuple([3])), Int32Items)
    ensures && CanDecode(doc, d)
            && Decode(doc, d).Success?
            && Decode(doc, d).value.dims == [1, 3]
            && Decode(doc, d).value.state.buf == Word32(1) + Word32(2) + Word32(3)
  {
    assert NumberDimensions(d) == Success(1);
    assert ArrayDims(d, |doc|) == [1, 3];
    var g := DecodeGeometry(doc, d);
    assert g == Geometry([1, 3], 4) && g.Size() == 12;
    assert seq(2, _ => 0) == [0, 0];
    NestedRun(g, State(Zeros(12), [0, 0], []), doc);
    assert Fits(g, 2, doc[0].value, 0);
  }

  /**
   * `{"a": [true]}` with sub-array shape `(1,)`: the hypothetical setter fails on the nested
   * boolean, yet the decode succeeds, because an array reports 1 whatever its children do.
   */
  lemma NestedFailureIsIgnored()
    ensures var doc := [Element("a", Array([Bool(true)]))];
            var d := Descr(4, Some(Tuple([1])), Int32Items);
            && CanDecode(doc, d)
            && LeafFails(Int32Items, Bool(true), 4)
            && Decode(doc, d).Success?
  {
    var doc := [Element("a", Array([Bool(true)]))];
    var d := Descr(4, Some(Tuple([1])), Int32Items);
    var g := DecodeGeometry(doc, d);
    assert g.dims == [1, 1] && g.Inhabited();
    assert Fits(g, 2, Array([Bool(true)]), 0);
    assert CanDecode(doc, d);
    DecodeFailsIff(doc, d);
  }
}
