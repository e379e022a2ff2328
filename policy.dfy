/**
 * The type policy table: how one non-array BSON value is stored into one slot of
 * `itemsize` bytes, by its tag.
 *
 * - Fixed-width tags, and every tag without a case of its own, keep `len = itemsize`
 *   and go through NumPy's typed setter.
 * - Byte-bearing tags report their own length; a value whose length equals the slot
 *   goes through the typed setter too, any other goes through copy-with-fit.
 * - A timestamp is laid out as two 32-bit words, a regex as pattern, NUL, options;
 *   neither pads nor truncates.
 */
module Policy {

  import opened Wrappers
  import opened Bson
  import opened Slots

  /**
   * The outcome of NumPy's `PyArray_Scalar` followed by `PyArray_SETITEM` for one value:
   * either the slot's new bytes, or a failure (`PyArray_SETITEM` returning -1), in which
   * case nothing is stored.
   */
  datatype SetItem = Stored(bytes: seq<Byte>) | SetFailed

  /** The array's typed setter, for its element type; it converts values as NumPy does. */
  type Setter = Value -> SetItem

  /** The setter stores exactly one slot's worth of bytes. */
  ghost predicate WritesItemsize(setItem: Setter, itemsize: nat)
  {
    forall v :: setItem(v).Stored? ==> |setItem(v).bytes| == itemsize
  }

  /** The `len` the decoder compares with `itemsize`: the reported length, or `itemsize` itself. */
  function SourceLen(v: Value, itemsize: nat): (len: nat)
    ensures v.Utf8? ==> len == |v.str|
    ensures v.Binary? ==> len == |v.data|
    ensures v.Symbol? ==> len == |v.symbol|
    ensures v.Code? ==> len == |v.code|
    ensures v.Document? ==> len == |v.raw|
    ensures !(v.Utf8? || v.Binary? || v.Symbol? || v.Code? || v.Document?) ==> len == itemsize
  {
    match Payload(v)
    case Some(b) => |b|
    case None => itemsize
  }

  /** The value is stored through the typed setter (`copy && len == itemsize`). */
  predicate ExactFit(v: Value, itemsize: nat)
  {
    !v.Timestamp? && !v.Regex? && SourceLen(v, itemsize) == itemsize
  }

  /** Storing the value fails: it takes the setter path and the setter rejects it. */
  predicate LeafFails(setItem: Setter, v: Value, itemsize: nat)
  {
    !v.Array? && ExactFit(v, itemsize) && setItem(v).SetFailed?
  }

  /**
   * The hand-made layouts stay inside the slot. The decoder does not check this:
   * a timestamp always writes 8 bytes and a regex `|pattern| + 1 + |options|` bytes
   * from the start of the slot, whatever `itemsize` is.
   */
  predicate LeafFits(v: Value, itemsize: nat)
  {
    match v
    case Timestamp(_, _) => 8 <= itemsize
    case Regex(p, o) => |p| + 1 + |o| <= itemsize
    case _ => true
  }

  datatype LeafResult = LeafResult(slot: seq<Byte>, status: int)

  /**
   * The new contents of the slot a leaf value is stored into, and the status the decoder
   * returns for it: the setter's status on the exact-fit path, 0 on every other path.
   */
  function StoreLeaf(setItem: Setter, v: Value, slot: seq<Byte>): (r: LeafResult)
    requires !v.Array? && LeafFits(v, |slot|) && WritesItemsize(setItem, |slot|)
    ensures |r.slot| == |slot|
    ensures r.status == -1 <==> LeafFails(setItem, v, |slot|)
    ensures r.status == 0 || r.status == -1
  {
    if v.Timestamp? then
      LeafResult(WriteAt(slot, 0, TimestampBytes(v.timestamp, v.increment)), 0)
    else if v.Regex? then
      LeafResult(WriteAt(slot, 0, RegexBytes(v.pattern, v.options)), 0)
    else if SourceLen(v, |slot|) == |slot| then
      match setItem(v)
      case Stored(b) => LeafResult(b, 0)
      case SetFailed => LeafResult(slot, -1)
    else
      LeafResult(FitToSlot(Payload(v).value, |slot|), 0)
  }

  /** Fixed-width tags never take the copy path, whatever the slot width. */
  lemma FixedWidthTakesSetter(v: Value, itemsize: nat)
    requires IsFixedWidth(v)
    ensures ExactFit(v, itemsize)
  {
  }

  /** The exact-fit path: the slot holds what the setter stored, or is untouched if it failed. */
  lemma ExactFitUsesSetter(setItem: Setter, v: Value, slot: seq<Byte>)
    requires !v.Array? && LeafFits(v, |slot|) && WritesItemsize(setItem, |slot|)
    requires ExactFit(v, |slot|)
    ensures setItem(v).Stored? ==> StoreLeaf(setItem, v, slot) == LeafResult(setItem(v).bytes, 0)
    ensures setItem(v).SetFailed? ==> StoreLeaf(setItem, v, slot) == LeafResult(slot, -1)
  {
  }

  /** Copy-with-fit padding: a shorter value is copied whole and the slot's tail is zeroed. */
  lemma CopyWithFitPads(setItem: Setter, v: Value, slot: seq<Byte>)
    requires !v.Array? && WritesItemsize(setItem, |slot|)
    requires Payload(v).Some? && |Payload(v).value| < |slot|
    ensures StoreLeaf(setItem, v, slot).status == 0
    ensures StoreLeaf(setItem, v, slot).slot == Payload(v).value + Zeros(|slot| - |Payload(v).value|)
  {
  }

  /** Copy-with-fit truncation: a longer value leaves exactly its first `itemsize` bytes. */
  lemma CopyWithFitTruncates(setItem: Setter, v: Value, slot: seq<Byte>)
    requires !v.Array? && WritesItemsize(setItem, |slot|)
    requires Payload(v).Some? && |Payload(v).value| > |slot|
    ensures StoreLeaf(setItem, v, slot) == LeafResult(Payload(v).value[..|slot|], 0)
  {
  }

  /**
   * Timestamp layout: the timestamp word, then the increment word, each reading back as the
   * value it came from; the rest of the slot is kept.
   */
  lemma TimestampLayout(setItem: Setter, t: bv32, inc: bv32, slot: seq<Byte>)
    requires 8 <= |slot| && WritesItemsize(setItem, |slot|)
    ensures var r := StoreLeaf(setItem, Timestamp(t, inc), slot);
      && r.status == 0 && r.slot[..4] == Word32(t) && r.slot[4..8] == Word32(inc) && r.slot[8..] == slot[8..]
      && ReadWord32(r.slot[..4]) == t && ReadWord32(r.slot[4..8]) == inc
  {
    Word32RoundTrip(t);
    Word32RoundTrip(inc);
  }

  /** Regex layout: pattern, one NUL, options; the rest of the slot is kept. */
  lemma RegexLayout(setItem: Setter, p: seq<Byte>, o: seq<Byte>, slot: seq<Byte>)
    requires |p| + 1 + |o| <= |slot| && WritesItemsize(setItem, |slot|)
    ensures var r := StoreLeaf(setItem, Regex(p, o), slot);
      && r.status == 0
      && r.slot[..|p|] == p
      && r.slot[|p|] == 0
      && r.slot[|p| + 1..|p| + 1 + |o|] == o
      && r.slot[|p| + 1 + |o|..] == slot[|p| + 1 + |o|..]
  {
  }
}
