// How long a value of a type can get in the postcard wire format, by the type's
// schema, against the encoding itself: varints, zigzag, and the serde data model.
module MaxLen {
  import opened Basics

  // A schema. The names of types and fields are not encoded, and are dropped.
  datatype Ty =
    | Bool | I8 | U8 | I16 | U16 | I32 | U32 | I64 | U64 | I128 | U128 | Usize | Isize
    | F32 | F64 | Char | Unit | UnitStruct
    | Optional(inner: Ty) | NewtypeStruct(inner: Ty)
    | Tuple(fields: seq<Ty>) | TupleStruct(fields: seq<Ty>) | Struct(fields: seq<Ty>)
    | Enum(variants: seq<Variant>)
    | Str | ByteArray | Sequence(item: Ty) | Mapping(key: Ty, item: Ty) | Schema

  datatype Variant =
    | UnitVariant
    | NewtypeVariant(inner: Ty)
    | TupleVariant(fields: seq<Ty>)
    | StructVariant(fields: seq<Ty>)

  datatype Value =
    | VBool(b: bool)
    | VInt(i: int)
    | VFloat(bytes: seq<byte>)
    | VChar(scalar: nat)
    | VUnit
    | VNone
    | VSome(v: Value)
    | VTuple(vs: seq<Value>)
    | VEnum(index: nat, payload: seq<Value>)

  // ---- The encoding ----

  // Seven bits a byte, the least significant first; the top bit says that more follow.
  function Varint(n: nat): (bytes: seq<byte>)
    ensures bytes != []
  {
    if n < 128 then [n] else [n % 128 + 128] + Varint(n / 128)
  }

  function Zigzag(i: int): nat
  {
    if i >= 0 then 2 * i else -2 * i - 1
  }

  function Utf8(scalar: nat): seq<byte>
    requires scalar < 0x110000
  {
    if scalar < 0x80 then [scalar]
    else if scalar < 0x800 then [0xC0 + scalar / 64, 0x80 + scalar % 64]
    else if scalar < 0x10000 then [0xE0 + scalar / 4096, 0x80 + scalar / 64 % 64, 0x80 + scalar % 64]
    else [0xF0 + scalar / 262144, 0x80 + scalar / 4096 % 64, 0x80 + scalar / 64 % 64, 0x80 + scalar % 64]
  }

  function Pow2(n: nat): (p: nat)
    ensures p > 0
  {
    if n == 0 then 1 else 2 * Pow2(n - 1)
  }

  // The width of an integer type, and whether it is signed. `None` for the others.
  // A usize is taken to be as wide as the widest target's.
  function Width(t: Ty): Option<(nat, bool)>
  {
    match t
    case I16 => Some((16, true))
    case I32 => Some((32, true))
    case I64 | Isize => Some((64, true))
    case I128 => Some((128, true))
    case U16 => Some((16, false))
    case U32 => Some((32, false))
    case U64 | Usize => Some((64, false))
    case U128 => Some((128, false))
    case _ => None
  }

  predicate InWidth(i: int, bits: nat, signed: bool)
    requires bits > 0
  {
    if signed then 0 <= i + Pow2(bits - 1) && i < Pow2(bits - 1) else 0 <= i < Pow2(bits)
  }

  // No claim is made about the values of a type that has no longest encoding.
  predicate HasType(v: Value, t: Ty)
    decreases t, 1
  {
    if Width(t).Some? then v.VInt? && InWidth(v.i, Width(t).value.0, Width(t).value.1)
    else match t
    case Bool => v.VBool?
    case U8 => v.VInt? && 0 <= v.i < 256
    case I8 => v.VInt? && -128 <= v.i < 128
    case F32 => v.VFloat? && |v.bytes| == 4
    case F64 => v.VFloat? && |v.bytes| == 8
    case Char => v.VChar? && v.scalar < 0x110000 && !(0xD800 <= v.scalar < 0xE000)
    case Unit | UnitStruct => v.VUnit?
    case Optional(inner) => v.VNone? || (v.VSome? && HasType(v.v, inner))
    case NewtypeStruct(inner) => HasType(v, inner)
    case Tuple(fields) => v.VTuple? && HaveTypes(v.vs, fields)
    case TupleStruct(fields) => v.VTuple? && HaveTypes(v.vs, fields)
    case Struct(fields) => v.VTuple? && HaveTypes(v.vs, fields)
    case Enum(variants) =>
      && v.VEnum? && v.index < |variants|
      && match variants[v.index] {
        case UnitVariant => v.payload == []
        case NewtypeVariant(inner) => |v.payload| == 1 && HasType(v.payload[0], inner)
        case TupleVariant(fields) => HaveTypes(v.payload, fields)
        case StructVariant(fields) => HaveTypes(v.payload, fields)
      }
    case _ => false
  }

  predicate HaveTypes(vs: seq<Value>, ts: seq<Ty>)
    decreases ts, 0
  {
    && |vs| == |ts|
    && (ts == [] || (HasType(vs[|ts| - 1], ts[|ts| - 1]) && HaveTypes(vs[..|ts| - 1], ts[..|ts| - 1])))
  }

  function Encode(v: Value, t: Ty): seq<byte>
    requires HasType(v, t)
    decreases t, 1
  {
    if Width(t).Some? then Varint(if Width(t).value.1 then Zigzag(v.i) else v.i)
    else match t
    case Bool => [if v.b then 1 else 0]
    case U8 => [v.i]
    case I8 => [if v.i < 0 then v.i + 256 else v.i]
    case F32 | F64 => v.bytes
    case Char => Varint(|Utf8(v.scalar)|) + Utf8(v.scalar)
    case Unit | UnitStruct => []
    case Optional(inner) => if v.VNone? then [0] else [1] + Encode(v.v, inner)
    case NewtypeStruct(inner) => Encode(v, inner)
    case Tuple(fields) => EncodeAll(v.vs, fields)
    case TupleStruct(fields) => EncodeAll(v.vs, fields)
    case Struct(fields) => EncodeAll(v.vs, fields)
    case Enum(variants) =>
      Varint(v.index) + match variants[v.index] {
        case UnitVariant => []
        case NewtypeVariant(inner) => Encode(v.payload[0], inner)
        case TupleVariant(fields) => EncodeAll(v.payload, fields)
        case StructVariant(fields) => EncodeAll(v.payload, fields)
      }
    case _ => []
  }

  function EncodeAll(vs: seq<Value>, ts: seq<Ty>): seq<byte>
    requires HaveTypes(vs, ts)
    decreases ts, 0
  {
    if ts == [] then []
    else EncodeAll(vs[..|ts| - 1], ts[..|ts| - 1]) + Encode(vs[|ts| - 1], ts[|ts| - 1])
  }

  // ---- What the code computes ----

  // A varint has seven bits to the byte.
  function VarintMax(bits: nat): nat
  {
    (bits + 6) / 7
  }

  // How many bits an integer needs: the width less the leading zeros.
  function BitLength(n: nat): nat
  {
    if n == 0 then 0 else 1 + BitLength(n / 2)
  }

  function VarintLen(value: nat): nat
  {
    var bits := BitLength(value);
    if bits == 0 then 1 else VarintMax(bits)
  }

  // The specification of `named`. `None` where it panics.
  function Named(t: Ty): Option<nat>
    decreases t, 1
  {
    match t
    case Bool | I8 | U8 => Some(1)
    case I16 | U16 => Some(VarintMax(16))
    case I32 | U32 => Some(VarintMax(32))
    case I64 | U64 => Some(VarintMax(64))
    case I128 | U128 => Some(VarintMax(128))
    case Usize | Isize => Some(VarintMax(64))
    case F32 => Some(4)
    case F64 => Some(8)
    case Char => Some(1 + 4)
    case Unit | UnitStruct => Some(0)
    case Optional(inner) => Plus(Some(1), Named(inner))
    case NewtypeStruct(inner) => Named(inner)
    case Tuple(fields) => Fields(fields)
    case TupleStruct(fields) => Fields(fields)
    case Struct(fields) => Fields(fields)
    case Enum(variants) =>
      if variants == [] then None else Plus(Some(VarintLen(|variants| - 1)), Variants(variants))
    case Str | ByteArray | Sequence(_) | Mapping(_, _) | Schema => None
  }

  function Plus(a: Option<nat>, b: Option<nat>): Option<nat>
  {
    if a.None? || b.None? then None else Some(a.value + b.value)
  }

  function Fields(ts: seq<Ty>): Option<nat>
    decreases ts, 0
  {
    if ts == [] then Some(0) else Plus(Fields(ts[..|ts| - 1]), Named(ts[|ts| - 1]))
  }

  function VariantLen(v: Variant): Option<nat>
    decreases v, 2
  {
    match v
    case UnitVariant => Some(0)
    case NewtypeVariant(inner) => Named(inner)
    case TupleVariant(fields) => Fields(fields)
    case StructVariant(fields) => Fields(fields)
  }

  function Variants(variants: seq<Variant>): Option<nat>
    decreases variants, 0
  {
    if variants == [] then Some(0)
    else
      var before := Variants(variants[..|variants| - 1]);
      var last := VariantLen(variants[|variants| - 1]);
      if before.None? || last.None? then None
      else Some(if last.value > before.value then last.value else before.value)
  }

  // `named`: a panic is the result None.
  method NamedLen(t: Ty) returns (len: Option<nat>)
    ensures len == Named(t)
    decreases t, 1
  {
    match t
    case Bool | I8 | U8 => len := Some(1);
    case I16 | U16 => len := Some(VarintMax(16));
    case I32 | U32 => len := Some(VarintMax(32));
    case I64 | U64 => len := Some(VarintMax(64));
    case I128 | U128 => len := Some(VarintMax(128));
    case Usize | Isize => len := Some(VarintMax(64));
    case F32 => len := Some(4);
    case F64 => len := Some(8);
    case Char => len := Some(1 + 4);
    case Unit | UnitStruct => len := Some(0);
    case Optional(inner) =>
      var rest := NamedLen(inner);
      len := Plus(Some(1), rest);
    case NewtypeStruct(inner) => len := NamedLen(inner);
    case Tuple(fields) => len := TupleLen(fields);
    case TupleStruct(fields) => len := TupleLen(fields);
    case Struct(fields) => len := TupleLen(fields);
    case Enum(variants) => len := EnumLen(variants, t);
    case Str | ByteArray | Sequence(_) | Mapping(_, _) | Schema => len := None;
  }

  // The loop of `named` over the variants of an enum.
  method EnumLen(variants: seq<Variant>, ghost t: Ty) returns (len: Option<nat>)
    requires t == Enum(variants)
    ensures len == Named(t)
    decreases t, 0
  {
    var longest := 0;
    var i := 0;
    while i < |variants|
      invariant i <= |variants| && Variants(variants[..i]) == Some(longest)
    {
      assert variants[i] in variants;
      var l: Option<nat>;
      match variants[i] {
        case UnitVariant => l := Some(0);
        case NewtypeVariant(inner) => l := NamedLen(inner);
        case TupleVariant(fields) => l := TupleLen(fields);
        case StructVariant(fields) => l := TupleLen(fields);
      }
      assert variants[..i + 1][..i] == variants[..i];
      if l.None? {
        VariantPanics(variants, i);
        return None;
      }
      if l.value > longest { longest := l.value; }
      i := i + 1;
    }
    assert variants[..i] == variants;
    if |variants| == 0 { return None; }
    return Some(VarintLen(|variants| - 1) + longest);
  }

  // `tuple`, and `values`, which is the same loop over named fields.
  method TupleLen(fields: seq<Ty>) returns (len: Option<nat>)
    ensures len == Fields(fields)
    decreases fields, 0
  {
    var sum := 0;
    var i := 0;
    while i < |fields|
      invariant i <= |fields| && Fields(fields[..i]) == Some(sum)
    {
      var l := NamedLen(fields[i]);
      assert fields[..i + 1][..i] == fields[..i];
      if l.None? {
        FieldPanics(fields, i);
        return None;
      }
      sum := sum + l.value;
      i := i + 1;
    }
    assert fields[..i] == fields;
    len := Some(sum);
  }

  lemma {:induction false} FieldPanics(ts: seq<Ty>, i: nat)
    requires i < |ts| && Named(ts[i]).None?
    ensures Fields(ts).None?
    decreases |ts|
  {
    if i < |ts| - 1 { FieldPanics(ts[..|ts| - 1], i); }
  }

  lemma {:induction false} VariantPanics(variants: seq<Variant>, i: nat)
    requires i < |variants| && VariantLen(variants[i]).None?
    ensures Variants(variants).None?
    decreases |variants|
  {
    if i < |variants| - 1 { VariantPanics(variants[..|variants| - 1], i); }
  }

  // ---- Varints ----

  // An integer fits in as many bits as it needs.
  lemma {:induction false} FitsIn(n: nat, bits: nat)
    ensures BitLength(n) <= bits <==> n < Pow2(bits)
    decreases bits
  {
    if n > 0 && bits > 0 { FitsIn(n / 2, bits - 1); }
  }

  lemma BitLengthOfBytes(n: nat)
    requires n >= 128
    ensures BitLength(n) == 7 + BitLength(n / 128)
  {
    var a := n / 2;
    var b := a / 2;
    var c := b / 2;
    var d := c / 2;
    var e := d / 2;
    var f := e / 2;
    assert BitLength(n) == 1 + BitLength(a) && BitLength(a) == 1 + BitLength(b);
    assert BitLength(b) == 1 + BitLength(c) && BitLength(c) == 1 + BitLength(d);
    assert BitLength(d) == 1 + BitLength(e) && BitLength(e) == 1 + BitLength(f);
    assert f / 2 == n / 128 && BitLength(f) == 1 + BitLength(f / 2);
  }

  // The computed length of a varint is the length of its encoding.
  lemma {:induction false} VarintLenIsExact(n: nat)
    ensures |Varint(n)| == VarintLen(n)
  {
    if n < 128 {
      FitsIn(n, 7);
    } else {
      VarintLenIsExact(n / 128);
      BitLengthOfBytes(n);
      FitsIn(n / 128, 0);
    }
  }

  // No integer of this width has a longer varint.
  lemma VarintMaxBounds(n: nat, bits: nat)
    requires bits > 0 && n < Pow2(bits)
    ensures |Varint(n)| <= VarintMax(bits)
  {
    VarintLenIsExact(n);
    FitsIn(n, bits);
  }

  lemma {:induction false} VarintLenIsMonotone(m: nat, n: nat)
    requires m <= n
    ensures VarintLen(m) <= VarintLen(n)
  {
    FitsIn(n, BitLength(n));
    FitsIn(m, BitLength(n));
  }

  // ---- The bound ----

  // The computed length bounds the encoding of every value of the type.
  lemma {:induction false} NamedBoundsEncoding(v: Value, t: Ty)
    requires HasType(v, t) && Named(t).Some?
    ensures |Encode(v, t)| <= Named(t).value
    decreases t, 1
  {
    if Width(t).Some? {
      IntegerBoundsEncoding(v.i, t);
      return;
    }
    match t
    case Char => VarintMaxBounds(|Utf8(v.scalar)|, 7);
    case Optional(inner) => if v.VSome? { NamedBoundsEncoding(v.v, inner); }
    case NewtypeStruct(inner) => NamedBoundsEncoding(v, inner);
    case Tuple(fields) => FieldsBoundEncoding(v.vs, fields);
    case TupleStruct(fields) => FieldsBoundEncoding(v.vs, fields);
    case Struct(fields) => FieldsBoundEncoding(v.vs, fields);
    case Enum(variants) => EnumBoundsEncoding(v, variants, t);
    case _ =>
  }

  lemma IntegerBoundsEncoding(i: int, t: Ty)
    requires Width(t).Some? && InWidth(i, Width(t).value.0, Width(t).value.1)
    ensures Width(t).value.1 || i >= 0
    ensures |Varint(if Width(t).value.1 then Zigzag(i) else i)| <= VarintMax(Width(t).value.0)
  {
    VarintMaxBounds(if Width(t).value.1 then Zigzag(i) else i, Width(t).value.0);
  }

  lemma {:induction false} EnumBoundsEncoding(v: Value, variants: seq<Variant>, t: Ty)
    requires t == Enum(variants) && HasType(v, t) && Named(t).Some?
    ensures |Encode(v, t)| <= Named(t).value
    decreases t, 0
  {
    hide Varint, VarintLen;
    VarintLenIsExact(v.index);
    VarintLenIsMonotone(v.index, |variants| - 1);
    VariantIsCounted(variants, v.index);
    assert variants[v.index] in variants;
    match variants[v.index]
    case UnitVariant =>
    case NewtypeVariant(inner) => NamedBoundsEncoding(v.payload[0], inner);
    case TupleVariant(fields) => FieldsBoundEncoding(v.payload, fields);
    case StructVariant(fields) => FieldsBoundEncoding(v.payload, fields);
  }

  lemma {:induction false} VariantIsCounted(variants: seq<Variant>, i: nat)
    requires i < |variants| && Variants(variants).Some?
    ensures VariantLen(variants[i]).Some? && VariantLen(variants[i]).value <= Variants(variants).value
    decreases |variants|
  {
    if i < |variants| - 1 { VariantIsCounted(variants[..|variants| - 1], i); }
  }

  lemma {:induction false} FieldsBoundEncoding(vs: seq<Value>, ts: seq<Ty>)
    requires HaveTypes(vs, ts) && Fields(ts).Some?
    ensures |EncodeAll(vs, ts)| <= Fields(ts).value
    decreases ts, 0
  {
    if ts != [] {
      FieldsBoundEncoding(vs[..|ts| - 1], ts[..|ts| - 1]);
      NamedBoundsEncoding(vs[|ts| - 1], ts[|ts| - 1]);
    }
  }

  // ---- Which types have a longest encoding ----

  // Nothing of any length is inside, and no enum is without variants.
  predicate Bounded(t: Ty)
    decreases t, 1
  {
    match t
    case Optional(inner) => Bounded(inner)
    case NewtypeStruct(inner) => Bounded(inner)
    case Tuple(fields) => forall f | f in fields :: Bounded(f)
    case TupleStruct(fields) => forall f | f in fields :: Bounded(f)
    case Struct(fields) => forall f | f in fields :: Bounded(f)
    case Enum(variants) => variants != [] && forall v | v in variants :: BoundedVariant(v)
    case Str | ByteArray | Sequence(_) | Mapping(_, _) | Schema => false
    case _ => true
  }

  predicate BoundedVariant(v: Variant)
    decreases v, 2
  {
    match v
    case UnitVariant => true
    case NewtypeVariant(inner) => Bounded(inner)
    case TupleVariant(fields) => forall f | f in fields :: Bounded(f)
    case StructVariant(fields) => forall f | f in fields :: Bounded(f)
  }

  // The code panics on exactly the other types.
  lemma {:induction false} ResultExactly(t: Ty)
    ensures Named(t).Some? <==> Bounded(t)
    decreases t, 1
  {
    hide VarintLen, VarintMax, Fields, Variants, BoundedVariant;
    match t
    case Optional(inner) => ResultExactly(inner);
    case NewtypeStruct(inner) => ResultExactly(inner);
    case Tuple(fields) => FieldsExactly(fields);
    case TupleStruct(fields) => FieldsExactly(fields);
    case Struct(fields) => FieldsExactly(fields);
    case Enum(variants) => VariantsExactly(variants);
    case _ =>
  }

  lemma {:induction false} FieldsExactly(ts: seq<Ty>)
    ensures Fields(ts).Some? <==> forall t | t in ts :: Bounded(t)
    decreases ts, 0
  {
    if ts != [] {
      FieldsExactly(ts[..|ts| - 1]);
      ResultExactly(ts[|ts| - 1]);
      assert forall t | t in ts :: t in ts[..|ts| - 1] || t == ts[|ts| - 1];
    }
  }

  lemma {:induction false} VariantsExactly(variants: seq<Variant>)
    ensures Variants(variants).Some? <==> forall v | v in variants :: BoundedVariant(v)
    decreases variants, 0
  {
    if variants != [] {
      VariantsExactly(variants[..|variants| - 1]);
      VariantExactly(variants[|variants| - 1]);
      assert forall v | v in variants :: v in variants[..|variants| - 1] || v == variants[|variants| - 1];
    }
  }

  lemma {:induction false} VariantExactly(v: Variant)
    ensures VariantLen(v).Some? <==> BoundedVariant(v)
    decreases v, 2
  {
    match v
    case UnitVariant =>
    case NewtypeVariant(inner) => ResultExactly(inner);
    case TupleVariant(fields) => FieldsExactly(fields);
    case StructVariant(fields) => FieldsExactly(fields);
  }

  // ---- Which bounds are attained ----

  // Every enum has a variant with the longest index and the longest content at once.
  predicate Attainable(t: Ty)
    decreases t, 1
  {
    match t
    case Optional(inner) => Attainable(inner)
    case NewtypeStruct(inner) => Attainable(inner)
    case Tuple(fields) => forall f | f in fields :: Attainable(f)
    case TupleStruct(fields) => forall f | f in fields :: Attainable(f)
    case Struct(fields) => forall f | f in fields :: Attainable(f)
    case Enum(variants) =>
      exists i | 0 <= i < |variants| ::
        IsLongest(variants, i) && AttainableVariant(variants[i])
    case _ => true
  }

  predicate AttainableVariant(v: Variant)
    decreases v, 2
  {
    match v
    case UnitVariant => true
    case NewtypeVariant(inner) => Attainable(inner)
    case TupleVariant(fields) => forall f | f in fields :: Attainable(f)
    case StructVariant(fields) => forall f | f in fields :: Attainable(f)
  }

  predicate IsLongest(variants: seq<Variant>, i: int)
    requires 0 <= i < |variants|
  {
    VarintLen(i) == VarintLen(|variants| - 1) && VariantLen(variants[i]) == Variants(variants)
  }

  // An enum of up to 128 variants has, as all their indices take one byte.
  lemma SmallEnumIsAttainable(variants: seq<Variant>)
    requires 0 < |variants| <= 128 && Variants(variants).Some?
    requires forall v | v in variants :: AttainableVariant(v)
    ensures Attainable(Enum(variants))
  {
    var index := LongestVariant(variants);
    ShortIndex(index);
    ShortIndex(|variants| - 1);
    hide VarintLen;
    assert variants[index] in variants && IsLongest(variants, index);
  }

  lemma ShortIndex(n: nat)
    requires n < 128
    ensures VarintLen(n) == 1
  {
    FitsIn(n, 7);
  }

  lemma {:induction false} LongestVariant(variants: seq<Variant>) returns (index: nat)
    requires variants != [] && Variants(variants).Some?
    ensures index < |variants| && VariantLen(variants[index]) == Variants(variants)
    decreases |variants|
  {
    index := |variants| - 1;
    if VariantLen(variants[index]) != Variants(variants) {
      index := LongestVariant(variants[..index]);
    }
  }

  // Some value of such a type is as long as the bound: nothing shorter would do.
  lemma {:induction false} NamedIsAttained(t: Ty) returns (v: Value)
    requires Named(t).Some? && Attainable(t)
    ensures HasType(v, t) && |Encode(v, t)| == Named(t).value
    decreases t, 1
  {
    if Width(t).Some? {
      v := VInt(WidestInteger(t));
      return;
    }
    match t
    case Bool => v := VBool(true);
    case U8 | I8 => v := VInt(0);
    case F32 => v := VFloat([0, 0, 0, 0]);
    case F64 => v := VFloat([0, 0, 0, 0, 0, 0, 0, 0]);
    case Char => v := VChar(0x10000);
    case Unit | UnitStruct => v := VUnit;
    case Optional(inner) =>
      var some := NamedIsAttained(inner);
      v := VSome(some);
    case NewtypeStruct(inner) => v := NamedIsAttained(inner);
    case Tuple(fields) =>
      var vs := FieldsAreAttained(fields);
      v := VTuple(vs);
    case TupleStruct(fields) =>
      var vs := FieldsAreAttained(fields);
      v := VTuple(vs);
    case Struct(fields) =>
      var vs := FieldsAreAttained(fields);
      v := VTuple(vs);
    case Enum(variants) => v := EnumIsAttained(variants, t);
    case _ => v := VUnit;
  }

  // The integer with the longest varint: all ones.
  ghost function WidestInteger(t: Ty): (i: int)
    requires Width(t).Some?
    ensures InWidth(i, Width(t).value.0, Width(t).value.1)
    ensures |Varint(if Width(t).value.1 then Zigzag(i) else i)| == VarintMax(Width(t).value.0)
  {
    var bits := Width(t).value.0;
    FitsIn(Pow2(bits) - 1, bits);
    FitsIn(Pow2(bits) - 1, bits - 1);
    VarintLenIsExact(Pow2(bits) - 1);
    if Width(t).value.1 then 0 - Pow2(bits - 1) else Pow2(bits) - 1
  }

  lemma {:induction false} FieldsAreAttained(ts: seq<Ty>) returns (vs: seq<Value>)
    requires Fields(ts).Some? && forall t | t in ts :: Attainable(t)
    ensures HaveTypes(vs, ts) && |EncodeAll(vs, ts)| == Fields(ts).value
    decreases ts, 0
  {
    if ts == [] {
      vs := [];
    } else {
      var before := FieldsAreAttained(ts[..|ts| - 1]);
      var last := NamedIsAttained(ts[|ts| - 1]);
      vs := before + [last];
      assert vs[..|ts| - 1] == before;
    }
  }

  lemma {:induction false} EnumIsAttained(variants: seq<Variant>, t: Ty) returns (v: Value)
    requires t == Enum(variants) && Named(t).Some? && Attainable(t)
    ensures HasType(v, t) && |Encode(v, t)| == Named(t).value
    decreases t, 0
  {
    hide Varint, VarintLen, InWidth, Utf8;
    var index: nat :| index < |variants| && IsLongest(variants, index) && AttainableVariant(variants[index]);
    assert variants[index] in variants;
    VarintLenIsExact(index);
    var payload: seq<Value>;
    match variants[index] {
      case UnitVariant => payload := [];
      case NewtypeVariant(inner) =>
        var only := NamedIsAttained(inner);
        payload := [only];
      case TupleVariant(fields) => payload := FieldsAreAttained(fields);
      case StructVariant(fields) => payload := FieldsAreAttained(fields);
    }
    v := VEnum(index, payload);
  }

  // And no other type has such a value.
  lemma {:induction false} AttainedIsAttainable(v: Value, t: Ty)
    requires HasType(v, t) && Named(t).Some? && |Encode(v, t)| == Named(t).value
    ensures Attainable(t)
    decreases t, 1
  {
    match t
    case Optional(inner) => if v.VSome? { AttainedIsAttainable(v.v, inner); } else { EmptyIsAttainable(inner); }
    case NewtypeStruct(inner) => AttainedIsAttainable(v, inner);
    case Tuple(fields) => FieldsAreAttainable(v.vs, fields);
    case TupleStruct(fields) => FieldsAreAttainable(v.vs, fields);
    case Struct(fields) => FieldsAreAttainable(v.vs, fields);
    case Enum(variants) => EnumIsAttainable(v, variants, t);
    case _ =>
  }

  lemma {:induction false} FieldsAreAttainable(vs: seq<Value>, ts: seq<Ty>)
    requires HaveTypes(vs, ts) && Fields(ts).Some? && |EncodeAll(vs, ts)| == Fields(ts).value
    ensures forall t | t in ts :: Attainable(t)
    decreases ts, 0
  {
    if ts != [] {
      var n := |ts| - 1;
      FieldsBoundEncoding(vs[..n], ts[..n]);
      NamedBoundsEncoding(vs[n], ts[n]);
      FieldsAreAttainable(vs[..n], ts[..n]);
      AttainedIsAttainable(vs[n], ts[n]);
      assert forall t | t in ts :: t in ts[..n] || t == ts[n];
    }
  }

  lemma {:induction false} EnumIsAttainable(v: Value, variants: seq<Variant>, t: Ty)
    requires t == Enum(variants) && HasType(v, t) && Named(t).Some? && |Encode(v, t)| == Named(t).value
    ensures Attainable(t)
    decreases t, 0
  {
    hide Varint, VarintLen, InWidth, Utf8;
    LongestInBoth(v, variants, t);
    assert variants[v.index] in variants;
    VarintLenIsExact(v.index);
    match variants[v.index] {
      case UnitVariant =>
      case NewtypeVariant(inner) => AttainedIsAttainable(v.payload[0], inner);
      case TupleVariant(fields) => FieldsAreAttainable(v.payload, fields);
      case StructVariant(fields) => FieldsAreAttainable(v.payload, fields);
    }
    assert IsLongest(variants, v.index) && AttainableVariant(variants[v.index]);
  }

  // As neither the index nor the content can be longer than what was computed for it.
  lemma LongestInBoth(v: Value, variants: seq<Variant>, t: Ty)
    requires t == Enum(variants) && HasType(v, t) && Named(t).Some? && |Encode(v, t)| == Named(t).value
    ensures IsLongest(variants, v.index) && VariantLen(variants[v.index]).Some?
    ensures |Encode(v, t)| == VarintLen(v.index) + VariantLen(variants[v.index]).value
  {
    hide Varint, VarintLen, InWidth, Utf8, VariantLen;
    VarintLenIsExact(v.index);
    VarintLenIsMonotone(v.index, |variants| - 1);
    VariantIsCounted(variants, v.index);
    ContentIsBounded(v, variants, t);
  }

  lemma ContentIsBounded(v: Value, variants: seq<Variant>, t: Ty)
    requires t == Enum(variants) && HasType(v, t) && VariantLen(variants[v.index]).Some?
    ensures |Encode(v, t)| <= |Varint(v.index)| + VariantLen(variants[v.index]).value
  {
    hide Varint, InWidth, Utf8;
    match variants[v.index]
    case UnitVariant =>
    case NewtypeVariant(inner) => NamedBoundsEncoding(v.payload[0], inner);
    case TupleVariant(fields) => FieldsBoundEncoding(v.payload, fields);
    case StructVariant(fields) => FieldsBoundEncoding(v.payload, fields);
  }

  lemma {:induction false} EmptyIsAttainable(t: Ty)
    requires Named(t) == Some(0)
    ensures Attainable(t)
    decreases t, 1
  {
    match t
    case NewtypeStruct(inner) => EmptyIsAttainable(inner);
    case Tuple(fields) => EmptyFieldsAreAttainable(fields);
    case TupleStruct(fields) => EmptyFieldsAreAttainable(fields);
    case Struct(fields) => EmptyFieldsAreAttainable(fields);
    case _ =>
  }

  lemma {:induction false} EmptyFieldsAreAttainable(ts: seq<Ty>)
    requires Fields(ts) == Some(0)
    ensures forall t | t in ts :: Attainable(t)
    decreases ts, 0
  {
    if ts != [] {
      EmptyFieldsAreAttainable(ts[..|ts| - 1]);
      EmptyIsAttainable(ts[|ts| - 1]);
      assert forall t | t in ts :: t in ts[..|ts| - 1] || t == ts[|ts| - 1];
    }
  }

  // The bound is the length of some value exactly if no enum has its longest content only
  // in variants with a shorter index.
  lemma AttainedExactly(t: Ty)
    requires Named(t).Some?
    ensures Attainable(t) <==> exists v :: HasType(v, t) && |Encode(v, t)| == Named(t).value
  {
    if Attainable(t) {
      var v := NamedIsAttained(t);
    }
    if v :| HasType(v, t) && |Encode(v, t)| == Named(t).value {
      AttainedIsAttainable(v, t);
    }
  }
}
