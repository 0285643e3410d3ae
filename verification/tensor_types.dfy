/** Element-type tags of tensors, their serialised names, and the mapping from
    the C++ scalar type a tensor is instantiated with to its tag. */
module TensorTypes {
  import opened Outcomes

  /** `TENSORTYPE`, in declaration order. */
  datatype TensorType =
    | Bool | UInt8 | Int8 | Int16 | UInt16 | Float16 | BFloat16
    | Int32 | UInt32 | Float32 | Float64 | Int64 | UInt64

  /** The serialisation table, in the order the source lists it: `Tags[i]` is
      serialised as `Names[i]`. */
  const Tags: seq<TensorType> := [
    Bool, UInt8, Int8, Int16, UInt16, Float16, BFloat16,
    Int32, UInt32, Float32, Float64, Int64, UInt64
  ]
  const Names: seq<string> := [
    "BOOL", "U8", "I8", "I16", "U16", "F16", "BF16",
    "I32", "U32", "F32", "F64", "I64", "U64"
  ]

  /** Position of the first occurrence of `key` in `keys` at or after `from`, or `|keys|`
      when there is none: the linear `find_if` over the table. */
  function IndexOf<K(==)>(keys: seq<K>, key: K, from: nat): (r: nat)
    requires from <= |keys|
    ensures from <= r <= |keys|
    ensures r < |keys| ==> keys[r] == key
    ensures forall j :: from <= j < r ==> keys[j] != key
    decreases |keys| - from
  {
    if from == |keys| then |keys|
    else if keys[from] == key then from
    else IndexOf(keys, key, from + 1)
  }

  /** Serialising a tag: the name paired with the first table entry for it, or
      the first entry's name when the tag is absent. */
  function Name(t: TensorType): string {
    var i := IndexOf(Tags, t, 0);
    if i < |Names| then Names[i] else Names[0]
  }

  /** Deserialising a name: the tag paired with the first table entry for it, or
      the first entry's tag (`kBOOL`) for a name not in the table. */
  function Parse(s: string): TensorType {
    var i := IndexOf(Names, s, 0);
    if i < |Tags| then Tags[i] else Tags[0]
  }

  lemma NamesDistinct()
    ensures forall i, j :: 0 <= i < j < |Names| ==> Names[i] != Names[j]
  {
  }

  lemma EveryTagListed(t: TensorType)
    ensures t in Tags
  {
    match t
    case Bool => assert Tags[0] == t;
    case UInt8 => assert Tags[1] == t;
    case Int8 => assert Tags[2] == t;
    case Int16 => assert Tags[3] == t;
    case UInt16 => assert Tags[4] == t;
    case Float16 => assert Tags[5] == t;
    case BFloat16 => assert Tags[6] == t;
    case Int32 => assert Tags[7] == t;
    case UInt32 => assert Tags[8] == t;
    case Float32 => assert Tags[9] == t;
    case Float64 => assert Tags[10] == t;
    case Int64 => assert Tags[11] == t;
    case UInt64 => assert Tags[12] == t;
  }

  lemma IndexOfMember<K>(keys: seq<K>, key: K)
    requires key in keys
    ensures IndexOf(keys, key, 0) < |keys|
  {
    var k :| 0 <= k < |keys| && keys[k] == key;
  }

  /** Every tag survives a serialisation round trip. */
  lemma ParseName(t: TensorType)
    ensures Parse(Name(t)) == t
  {
    EveryTagListed(t);
    IndexOfMember(Tags, t);
    var k := IndexOf(Tags, t, 0);
    assert Name(t) == Names[k];
    IndexOfMember(Names, Names[k]);
    var j := IndexOf(Names, Names[k], 0);
    NamesDistinct();
    assert j == k;
  }

  /** A string survives a deserialisation round trip exactly when it is one of the table's names. */
  lemma NameParse(s: string)
    ensures Name(Parse(s)) == s <==> s in Names
  {
    var j := IndexOf(Names, s, 0);
    var t := Parse(s);
    EveryTagListed(t);
    IndexOfMember(Tags, t);
    var k := IndexOf(Tags, t, 0);
    if j < |Names| {
      assert Tags[j] == t;
      assert k <= j;
      assert Tags[k] == Tags[j];
      assert k == j by {
        if k < j {
          assert false;
        }
      }
    } else {
      assert s !in Names;
      assert Name(t) in Names;
    }
  }

  /** An unknown name deserialises to `kBOOL`. */
  lemma ParseUnknown(s: string)
    requires s !in Names
    ensures Parse(s) == Bool
  {
  }

  type pos = n: nat | n >= 1 witness 1

  /** The C++ scalar types a tensor can be instantiated with. `Short` is `int16_t`,
      which is also what the source's `bfloat16` macro expands to. */
  datatype CType =
    | CBool | CUInt8 | CInt8 | CShort | CUInt16 | CFloat | CDouble
    | CInt32 | CUInt32 | CInt64 | CUInt64
    | COther(name: string, size: pos)

  /** `sizeof` of each scalar type. */
  function SizeOf(c: CType): pos {
    match c
    case CBool | CUInt8 | CInt8 => 1
    case CShort | CUInt16 => 2
    case CFloat | CInt32 | CUInt32 => 4
    case CDouble | CInt64 | CUInt64 => 8
    case COther(_, size) => size
  }

  /** Width in bytes of an element of each tag. */
  function Width(t: TensorType): pos {
    match t
    case Bool | UInt8 | Int8 => 1
    case Int16 | UInt16 | Float16 | BFloat16 => 2
    case Int32 | UInt32 | Float32 => 4
    case Float64 | Int64 | UInt64 => 8
  }

  /** `get_type`: the tag of a tensor's element type; any other type throws.
      Because `bfloat16` is `short`, the `kBFLOAT_16` branch is unreachable and
      no scalar type maps to `kFLOAT_16`. */
  function GetType(c: CType): (r: Result<TensorType>)
    ensures r.Failure? <==> c.COther?
    ensures r.Success? ==> Width(r.value) == SizeOf(c)
    ensures r.Success? ==> r.value != BFloat16 && r.value != Float16
  {
    match c
    case CBool => Success(Bool)
    case CUInt8 => Success(UInt8)
    case CInt8 => Success(Int8)
    case CShort => Success(Int16)
    case CUInt16 => Success(UInt16)
    case CFloat => Success(Float32)
    case CDouble => Success(Float64)
    case CInt32 => Success(Int32)
    case CUInt32 => Success(UInt32)
    case CInt64 => Success(Int64)
    case CUInt64 => Success(UInt64)
    case COther(_, _) => Failure(RuntimeError("Unknown type"))
  }

  /** Distinct supported scalar types get distinct tags. */
  lemma GetTypeInjective(a: CType, b: CType)
    requires GetType(a).Success? && GetType(b).Success?
    requires GetType(a).value == GetType(b).value
    ensures a == b
  {
  }
}
