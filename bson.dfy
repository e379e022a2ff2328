/**
 * The already-parsed BSON document the decoder walks.
 *
 * The raw bytes are parsed and validated by libbson before the decoder sees them
 * (bson_new_from_data, bson_validate); here the result of that parsing is a tree of
 * tagged values. Byte-bearing values keep their payload bytes, fixed-width values keep
 * their natural-width contents, and a BSON array is the only node that is not a leaf.
 */
module Bson {

  import opened Wrappers

  type Byte = bv8

  /** One BSON value, by its type tag (the BSON 1.1 element grammar). */
  datatype Value =
    // fixed-width scalars: the decoder keeps `len = itemsize` for them
    | Double(bits: bv64)
    | Int32(i32: bv32)
    | Int64(i64: bv64)
    | Bool(b: bool)
    | DateTime(millis: bv64)
    | ObjectId(oid: seq<Byte>)
    // byte-bearing values that report their own length
    | Utf8(str: seq<Byte>)
    | Binary(subtype: Byte, data: seq<Byte>)
    | Symbol(symbol: seq<Byte>)
    | Code(code: seq<Byte>)
    | Document(raw: seq<Byte>)
    // composites laid out by hand
    | Timestamp(timestamp: bv32, increment: bv32)
    | Regex(pattern: seq<Byte>, options: seq<Byte>)
    // the one structural node
    | Array(elems: seq<Value>)
    // every tag the decoder has no case for: undefined, null, min/max key,
    // DB pointer, code with scope, decimal128
    | Other(tag: Byte)

  /** A top-level element of the document: a key and its value. */
  datatype Element = Element(key: string, value: Value)

  /** The tags whose natural width is fixed (32/64-bit numbers, booleans, dates, object ids). */
  predicate IsFixedWidth(v: Value)
  {
    v.Double? || v.Int32? || v.Int64? || v.Bool? || v.DateTime? || v.ObjectId?
  }

  /**
   * The bytes a byte-bearing value points at and whose count it reports:
   * the string of UTF-8, symbol and code values, the data of a binary value,
   * and the whole encoded sub-document of an embedded document.
   */
  function Payload(v: Value): Option<seq<Byte>>
  {
    match v
    case Utf8(s) => Some(s)
    case Binary(_, d) => Some(d)
    case Symbol(s) => Some(s)
    case Code(c) => Some(c)
    case Document(raw) => Some(raw)
    case _ => None
  }

  /** A C string as libbson hands it out: no NUL byte inside it. */
  predicate IsCString(s: seq<Byte>)
  {
    forall k :: 0 <= k < |s| ==> s[k] != 0
  }

  /**
   * What passing bson_validate guarantees of a value, as far as the decoder relies on it:
   * an object id is 12 bytes, and a regex's pattern and options are C strings, so that
   * `strlen` measures exactly their bytes.
   */
  predicate WellFormed(v: Value)
  {
    match v
    case ObjectId(oid) => |oid| == 12
    case Regex(p, o) => IsCString(p) && IsCString(o)
    case Array(es) => forall k :: 0 <= k < |es| ==> WellFormed(es[k])
    case _ => true
  }
}
