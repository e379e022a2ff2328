# bson-numpy decode core, modelled in Dafny

This project models the BSON-to-ndarray decode path of `bson-numpy/bsonnumpy.c`. It covers `_load_scalar` and the decoding half of `bson_to_ndarray`. It proves properties of that model.

The decoder fills a zeroed, C-ordered NumPy array from an already-validated BSON document. Top-level element `i` is loaded with `coordinates[0] = i`. `_load_scalar` then handles each value by its type tag:

- A BSON array recurses into its children with `coordinates[depth + 1] = k`. It returns 1 whatever the children return.
- A timestamp is laid out by hand as two 32-bit words.
- A regex is laid out by hand as pattern, one NUL byte, then the options.
- A value whose length equals the element size goes through NumPy's typed setter. Fixed-width values always do.
- Any other byte-bearing value is copied with fit: at most `itemsize` bytes are copied, then zeros follow.

The first `-1` from a top-level call aborts the decode with "item failed to load".

Modules:

- `Wrappers`: `Option` and `Result`.
- `Bson`: the parsed document. This is a tree of tagged values with their payload bytes.
- `Slots`: byte-level writes into a slot. It has the copy-with-fit rule, the timestamp and regex layouts, and `memcpy`/`memset` as methods on a byte array.
- `Strides`: the array's geometry, and the C-order byte offset that `PyArray_GetPtr` computes.
- `Policy`: the per-tag storing rule for one leaf. `StoreLeaf` gives a leaf's new slot bytes and its status. The NumPy setter is an abstract function from values to "stored these `itemsize` bytes" or "failed".
- `Loader`:
  - `Load` and `LoadElements` are the pure specification of one `_load_scalar` call. They act on a state of the buffer, the coordinate vector and a log of calls.
  - `class NdArray` holds the destination `array<bv8>`. Its recursive method `LoadScalar` updates that array and the `coordinates` array in place, and is proved equal to `Load`.
- `Driver`:
  - the number of dimensions and the shape;
  - the pure specification `Decode`;
  - the imperative `BsonToNdarray` with its `for` loop (`LoadDocument`), proved equal to `Decode`;
  - the lemmas about the whole decode.
- `Scenarios`: three small documents decoded end to end, and one with a nested failure.

The destination is always modelled byte by byte. A value's "natural" bytes are whatever the abstract setter stores. Words laid out by hand (timestamp) are written little-endian; the C code copies them in the host's byte order.

## Model

| member | source | states |
|---|---|---|
| Slots.FitToSlot | bson-numpy/bsonnumpy.c:157-164 | the fitted slot is `itemsize` long, holds the first `min(len, itemsize)` source bytes, and is zero from `len` on |
| Slots.Memcpy | bson-numpy/bsonnumpy.c:162 | the destination equals the old one with `src` written at the offset, and nothing else changed |
| Slots.Memset | bson-numpy/bsonnumpy.c:163 | `n` zero bytes are written at the offset, and nothing else changed |
| Slots.TimestampWrites | bson-numpy/bsonnumpy.c:134-135 | the two word copies store the 8-byte timestamp layout at the slot |
| Slots.RegexWrites | bson-numpy/bsonnumpy.c:140-142 | pattern copy, NUL byte and options copy together store pattern ++ [0] ++ options at the slot |
| Slots.FitWrites | bson-numpy/bsonnumpy.c:162-163 | the copy of `len` bytes then the zero fill of `itemsize - len` bytes store the fitted slot |
| Strides.Offset | bson-numpy/bsonnumpy.c:106 | the C-order byte offset `PyArray_GetPtr` computes is never negative for non-negative coordinates |
| Strides.OffsetSeparates | bson-numpy/bsonnumpy.c:106 | two valid coordinate vectors that differ in some dimension select slots at least `itemsize` bytes apart, so slots never overlap |
| Strides.OffsetInBounds | bson-numpy/bsonnumpy.c:106 | for coordinates inside the shape, the selected slot is wholly inside the buffer (`0 <= offset` and `offset + itemsize <= size`) |
| Policy.SourceLen | bson-numpy/bsonnumpy.c:91-130 | the `len` compared with `itemsize`: the string, data, symbol, code or sub-document length for those tags, `itemsize` for every other tag |
| Policy.StoreLeaf | bson-numpy/bsonnumpy.c:107-166 | the slot keeps its width; the status is -1 exactly when the value takes the setter path and the setter fails, else 0 |
| Policy.FixedWidthTakesSetter | bson-numpy/bsonnumpy.c:90-91 | int32/int64/double/bool/date-time/object-id values always take the exact-fit setter path, whatever the element size |
| Policy.ExactFitUsesSetter | bson-numpy/bsonnumpy.c:149-156 | on the exact-fit path the slot holds the setter's bytes with status 0, or is unchanged with status -1 |
| Policy.CopyWithFitPads | bson-numpy/bsonnumpy.c:157-164 | a shorter payload is stored whole, followed by `itemsize - len` zeros, with status 0 |
| Policy.CopyWithFitTruncates | bson-numpy/bsonnumpy.c:159-162 | a longer payload leaves exactly its first `itemsize` bytes, with status 0 |
| Policy.TimestampLayout | bson-numpy/bsonnumpy.c:133-136 | bytes 0-3 hold the timestamp word and bytes 4-7 the increment word, each reading back as the value it came from; the rest of the slot is kept, status 0 |
| Policy.RegexLayout | bson-numpy/bsonnumpy.c:138-144 | the slot holds the pattern, a zero byte, then the options; the rest is kept; status 0 |
| Loader.Load | bson-numpy/bsonnumpy.c:83-167 | one call keeps the buffer size and the coordinates up to `depth`, logs its own call first, and returns 1 for an array, else -1 exactly when the leaf fails, else 0 |
| Loader.LoadElements | bson-numpy/bsonnumpy.c:98-103 | loading an array's children keeps the buffer valid and the coordinates up to `depth`, and only extends the call log |
| Loader.LoadLeaf | bson-numpy/bsonnumpy.c:106-166 | a leaf writes the policy's slot bytes at the offset its coordinates select, and returns the policy's status |
| Loader.LoadFollowsPreorder | bson-numpy/bsonnumpy.c:95-104 | the calls one load makes are its value's nodes in document order, each made with leading coordinates equal to the node's index path (so child `k` at depth `d` sees `coordinates[d + 1] == k`) |
| Loader.LoadElementsFollowsPreorder | bson-numpy/bsonnumpy.c:99-103 | the children are loaded in order, the k-th with coordinate `depth + 1` set to `k` |
| Loader.LoadSetsOneCoordinate | bson-numpy/bsonnumpy.c:95-104 | each call a load makes uses the coordinate vector of the call before it, changed only in the entry its loop set (`coordinates[d + 1] = k` for child `k` at depth `d`); the load leaves the vector its last call used |
| Loader.LoadElementsSetsOneCoordinate | bson-numpy/bsonnumpy.c:98-103 | the same one-entry-at-a-time bookkeeping for the children loop, which leaves the vector of its last call |
| Loader.LoadWritesOnlyLeafSlots | bson-numpy/bsonnumpy.c:95-164 | a byte outside the slots of the leaves a load visits keeps its value (array nodes write nothing, a leaf only its slot) |
| Loader.LoadElementsWritesOnlyLeafSlots | bson-numpy/bsonnumpy.c:99-103 | the same frame property for the children loop |
| Loader.NdArray.constructor | bson-numpy/bsonnumpy.c:231 | the new array has the given shape, element size and setter, and its buffer is all zeros |
| Loader.NdArray.SetItem | bson-numpy/bsonnumpy.c:150-154 | on success the slot holds the setter's bytes and 0 is returned; on failure -1 is returned and the buffer is unchanged |
| Loader.NdArray.LoadScalar | bson-numpy/bsonnumpy.c:83-167 | the in-place load leaves the buffer, the coordinate vector, the call log and the status exactly as `Load` specifies |
| Loader.NdArray.GetPtr | bson-numpy/bsonnumpy.c:106 | the pointer is the C-order offset of the coordinates, and the slot there lies inside the buffer |
| Loader.NdArray.LoadElementsInPlace | bson-numpy/bsonnumpy.c:95-104 | the `while` loop over the children leaves the state that `LoadElements` specifies |
| Loader.NdArray.LoadElement | bson-numpy/bsonnumpy.c:100-101 | setting `coordinates[depth + 1] = i` and recursing on child `i` leaves the state `Load` gives for that child |
| Loader.NdArray.StoreValue | bson-numpy/bsonnumpy.c:107-166 | the buffer becomes the old one with the policy's slot written at `pointer`, and the status is the policy's |
| Loader.NdArray.StorePayload | bson-numpy/bsonnumpy.c:107-130 | for the tags without a hand-made layout: exact fit goes to the setter, anything else is copied with fit, as `StoreLeaf` specifies |
| Loader.NdArray.StoreTimestamp | bson-numpy/bsonnumpy.c:133-136 | the buffer gains the timestamp word and the increment word at the slot, nothing else |
| Loader.NdArray.StoreRegex | bson-numpy/bsonnumpy.c:138-144 | the buffer gains pattern, NUL and options at the slot, and the recorded length is `|pattern| + 1 + |options|` |
| Loader.NdArray.CopyWithFit | bson-numpy/bsonnumpy.c:157-164 | the buffer gains the fitted slot (truncated or zero-padded to `itemsize`) at `pointer`, nothing else |
| Driver.NumberDimensions | bson-numpy/bsonnumpy.c:214-222 | 1 without a sub-array, the shape tuple's length with one, and "dtype passed in was invalid" exactly when the shape is not a tuple |
| Driver.ArrayDims | bson-numpy/bsonnumpy.c:212-231 | the shape starts with the key count, is `[count]` without a sub-array, and never has more dimensions than the coordinate vector's `1 + number_dimensions` entries |
| Driver.LoadTop | bson-numpy/bsonnumpy.c:240-247 | the top-level loop from element `i` keeps the buffer valid and the vector's length and only extends the log; when it stops early, the error is "item failed to load" |
| Driver.Decode | bson-numpy/bsonnumpy.c:211-248 | fails with the dtype error exactly when the shape is not a tuple; on success dimension 0 is the key count, the shape is `[count] ++ sub-shape`, the coordinate vector has `1 + number_dimensions` entries, and the buffer is `itemsize * prod(shape)` bytes |
| Driver.LoadDocument | bson-numpy/bsonnumpy.c:239-248 | the `for` loop reports failure exactly when `LoadTop` fails, and otherwise leaves the buffer, coordinates and call log `LoadTop` gives |
| Driver.BsonToNdarray | bson-numpy/bsonnumpy.c:211-248 | succeeds exactly when `Decode` does, with the same error otherwise; a fresh, valid array with `Decode`'s shape, element size, setter and bytes |
| Driver.LoadTopFailsIff | bson-numpy/bsonnumpy.c:240-247 | the loop fails exactly when some remaining top-level element is a scalar whose setter call fails |
| Driver.DecodeFailsIff | bson-numpy/bsonnumpy.c:216-247 | the decode fails with the dtype error exactly when the shape is not a tuple, and with "item failed to load" exactly when the shape is fine and a top-level scalar's setter fails |
| Driver.LoadTopFollowsPreorder | bson-numpy/bsonnumpy.c:240-247 | the top-level loop's calls are the document's nodes in order, element `i` with `coordinates[0] == i` |
| Driver.DecodeVisitsInPreorder | bson-numpy/bsonnumpy.c:240-243 | a successful decode calls the loader once per node, in document order, each with leading coordinates equal to the node's index path |
| Driver.LoadTopSetsOneCoordinate | bson-numpy/bsonnumpy.c:240-243 | the top-level loop's calls change one coordinate at a time, the first call of element `i` setting `coordinates[0] = i` |
| Driver.DecodeSetsOneCoordinate | bson-numpy/bsonnumpy.c:239-243 | a successful decode makes its first call with the all-zero vector of `1 + number_dimensions` entries, and each later call with the previous call's vector changed only in the entry its loop set; other entries, including those a finished array left, carry over |
| Driver.LoadTopWritesOnlyLeafSlots | bson-numpy/bsonnumpy.c:240-247 | the top-level loop writes only inside the slots of the leaves it visits |
| Driver.DecodeZeroOutsideLeafSlots | bson-numpy/bsonnumpy.c:231 | every byte of the result outside the visited leaf slots keeps the zero `PyArray_Zeros` gave it |
| Scenarios.TwoIntegers | bson-numpy/bsonnumpy.c:211-248 | `{"a": 1, "b": 2}` as int32 gives shape `[2]`, the bytes of 1 then 2, and the calls at `[0, 0]` and `[1, 0]` |
| Scenarios.ShortStringIsPadded | bson-numpy/bsonnumpy.c:157-164 | `{"a": "hi"}` with a 5-byte element gives the slot `h i 0 0 0` |
| Scenarios.NestedIntegers | bson-numpy/bsonnumpy.c:95-104 | `{"a": [1, 2, 3]}` with sub-array shape `(3,)` gives shape `[1, 3]` and the bytes of 1, 2, 3 |
| Scenarios.NestedFailureIsIgnored | bson-numpy/bsonnumpy.c:104 | a setter failure inside a nested array does not fail the decode |

## Left out

- `ndarray_to_bson`: it is an argument-checking stub with no conversion logic.
- Python argument parsing, dtype conversion, reference counting, exception objects, module init and `main`: these are host-binding glue. The two errors the decoder raises are the values of `DecodeError`.
- Document parsing and validation by libbson (`bson_new_from_data`, `bson_validate`, the iterator, `bson_count_keys`): the document is an already-parsed tree. What validation guarantees (12-byte object ids, NUL-free regex strings) is the `WellFormed` precondition. The key count is the number of top-level elements.
- NumPy's value conversion in `PyArray_Scalar` and `PyArray_SETITEM`: the setter is an abstract function of the value. It stores exactly `itemsize` bytes or fails. How NumPy reinterprets the value's bytes is not modelled.
- `PyArray_Zeros` and `PyArray_GetPtr`: these are a zeroed byte array and the C-order offset function. The array is contiguous and C-ordered.
- Inputs for which the C code writes outside the slot its coordinates select are excluded by preconditions (`Fits`, `CanDecode`). Some of these writes leave the C buffers (undefined behaviour):
  - a nested array deeper than the coordinate vector, whose write to `coordinates[depth + 1]` goes past its end;
  - any of the cases below when it reaches past the last slot.

  The others are defined, in-buffer overwrites of a neighbouring slot or row, which the model does not capture:
  - an array longer than the dimension it indexes, whose extra children land in the next row;
  - a timestamp with `itemsize < 8`, whose increment word spills into the next slot;
  - a regex longer than its slot.

  A leaf stored into an array with a zero dimension is excluded too; an empty document, or zero-length dimensions holding only empty arrays, are accepted. The C code checks none of these.
- Driver.Decode: requires `CanDecode`, so it says nothing about documents whose values overflow their slot or row inside the buffer (the cases above); the C code decodes those, overwriting neighbouring slots.
- Loader.NdArray.StoreValue: requires `LeafFits`, so it does not model a timestamp or regex that spills past its own slot. `Loader.NdArray.StoreRegex` and `Loader.NdArray.StoreTimestamp` themselves only require the buffer bound and do model the write past the slot.
- Host byte order: the timestamp words are modelled as little-endian (`Slots.Word32`). The C code copies them in whatever order the host uses, so on a big-endian host the slot bytes are reversed within each word.
- Integer widths: `int`, `npy_intp` and the `(int)` casts are unbounded integers. Every length and index in the model is small enough for them.
- The fifth parameter of `_load_scalar`, `number_dimensions`, is never read by it, so it is dropped.
- Memory release and the leaks on the error paths: they are resource handling, not behaviour.

Three behaviours follow the code as written, including where its own comments mark them as unfinished:

- A failure inside a nested array is not propagated. The array returns 1, as the TODO at bson-numpy/bsonnumpy.c:104 notes (`Scenarios.NestedFailureIsIgnored`).
- Tags without a case (null, min/max key, ...) take the setter path. The comment at bson-numpy/bsonnumpy.c:73-78 lists them as "probably error", but no error is raised.
- A value longer than the slot is truncated (bson-numpy/bsonnumpy.c:159-161), with no error and no strict mode.
