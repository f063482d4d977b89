/**
 The wire format of the serializer as mathematics: tagged items, the bytes they are
 stored as, and what a load of a given kind makes of arbitrary bytes.
 */
module SerializerFormat {
  import opened Bytes
  import opened Buffers

  /** Fixed-width kinds; `Unsupported` is any type the tag table does not know. */
  datatype FixKind = Int8 | UInt8 | Int16 | UInt16 | Int32 | UInt32 | Int64 | UInt64 | Float | Double | Unsupported

  datatype Kind = KFix(fix: FixKind) | KVec | KStr | KCnt

  /** Floats and doubles are carried as their 4 or 8 opaque bytes, read as an unsigned number. */
  datatype Item = Fix(fix: FixKind, value: int) | Vec(bytes: seq<byte>) | Str(bytes: seq<byte>) | Cnt(count: nat)

  function KindOf(item: Item): Kind {
    match item
    case Fix(f, _) => KFix(f)
    case Vec(_) => KVec
    case Str(_) => KStr
    case Cnt(_) => KCnt
  }

  // ---------------------------------------------------------------- tags

  function FixTag(f: FixKind): byte {
    match f
    case Int8 => 0x11
    case UInt8 => 0x12
    case Int16 => 0x13
    case UInt16 => 0x14
    case Int32 => 0x15
    case UInt32 => 0x16
    case Int64 => 0x17
    case UInt64 => 0x18
    case Float => 0x19
    case Double => 0x1A
    case Unsupported => 0
  }

  function FixWidth(f: FixKind): nat {
    match f
    case Int8 => 1
    case UInt8 => 1
    case Int16 => 2
    case UInt16 => 2
    case Int32 => 4
    case UInt32 => 4
    case Int64 => 8
    case UInt64 => 8
    case Float => 4
    case Double => 8
    case Unsupported => 0
  }

  predicate Signed(f: FixKind) {
    f.Int8? || f.Int16? || f.Int32? || f.Int64?
  }

  /** How many bytes a length or a counter occupies. */
  datatype Form = FZero | FByte | FWord | FDword

  function FormWidth(form: Form): nat {
    match form
    case FZero => 0
    case FByte => 1
    case FWord => 2
    case FDword => 4
  }

  function FormFor(n: nat): Form {
    if n == 0 then FZero else if n <= 255 then FByte else if n <= 65535 then FWord else FDword
  }

  function FormTag(k: Kind, form: Form): byte
    requires !k.KFix?
  {
    match k
    case KVec => (match form case FZero => 0x20 case FByte => 0x21 case FWord => 0x22 case FDword => 0x24)
    case KStr => (match form case FZero => 0x30 case FByte => 0x31 case FWord => 0x32 case FDword => 0x34)
    case KCnt => (match form case FZero => 0x40 case FByte => 0x41 case FWord => 0x42 case FDword => 0x43)
  }

  predicate AcceptsTag(k: Kind, tag: byte) {
    match k
    case KFix(f) => tag == FixTag(f)
    case _ => tag == FormTag(k, FZero) || tag == FormTag(k, FByte) || tag == FormTag(k, FWord) || tag == FormTag(k, FDword)
  }

  function FormOfTag(k: Kind, tag: byte): (form: Form)
    requires !k.KFix? && AcceptsTag(k, tag)
    ensures FormTag(k, form) == tag
  {
    if tag == FormTag(k, FZero) then FZero
    else if tag == FormTag(k, FByte) then FByte
    else if tag == FormTag(k, FWord) then FWord
    else FDword
  }

  // ---------------------------------------------------------------- values

  function Modulus(f: FixKind): nat {
    Pow256(FixWidth(f))
  }

  /** The values the C++ type of this kind can hold. */
  predicate InRange(f: FixKind, v: int) {
    if Signed(f) then -(Modulus(f) / 2) <= v < Modulus(f) / 2 else 0 <= v < Modulus(f)
  }

  /** Two's complement, as the object representation has it. */
  function RawOf(f: FixKind, v: int): nat
    requires InRange(f, v)
  {
    if v < 0 then v + Modulus(f) else v
  }

  function ValueOf(f: FixKind, raw: nat): int {
    if Signed(f) && raw >= Modulus(f) / 2 then raw - Modulus(f) else raw
  }

  /** What a value of the item's C++ type can be: the store methods accept nothing else. */
  predicate WellTyped(item: Item) {
    item.Fix? ==> InRange(item.fix, item.value)
  }

  predicate Supported(item: Item) {
    item.Fix? ==> item.fix != Unsupported
  }

  /** Items the format can carry: lengths and counters are 32 bits on the wire. */
  predicate Representable(item: Item) {
    match item
    case Fix(f, v) => f != Unsupported && InRange(f, v)
    case Vec(b) => |b| < 0x1_0000_0000
    case Str(b) => |b| < 0x1_0000_0000
    case Cnt(n) => n < 0x1_0000_0000
  }

  /** What a load leaves in its output when it fails before the payload. */
  function Blank(k: Kind): (item: Item)
    ensures KindOf(item) == k
  {
    match k
    case KFix(f) => Fix(f, 0)
    case KVec => Vec([])
    case KStr => Str([])
    case KCnt => Cnt(0)
  }

  function Sized(k: Kind, b: seq<byte>): (item: Item)
    requires k.KVec? || k.KStr?
    ensures KindOf(item) == k && item.bytes == b
  {
    if k.KVec? then Vec(b) else Str(b)
  }

  // ---------------------------------------------------------------- encoding

  function LengthOf(item: Item): nat
    requires !item.Fix?
  {
    match item
    case Vec(b) => |b|
    case Str(b) => |b|
    case Cnt(n) => n
  }

  function TagOf(item: Item): byte {
    if item.Fix? then FixTag(item.fix) else FormTag(KindOf(item), FormFor(LengthOf(item)))
  }

  function PayloadOf(item: Item): seq<byte> {
    match item
    case Vec(b) => b
    case Str(b) => b
    case _ => []
  }

  function NumberOf(item: Item): seq<byte>
    requires WellTyped(item)
  {
    if item.Fix? then Le(RawOf(item.fix, item.value), FixWidth(item.fix))
    else Le(LengthOf(item), FormWidth(FormFor(LengthOf(item))))
  }

  function Encode(item: Item): (e: seq<byte>)
    requires WellTyped(item)
    ensures |e| >= 1 && e[0] == TagOf(item)
  {
    [TagOf(item)] + NumberOf(item) + PayloadOf(item)
  }

  ghost predicate AllTyped(items: seq<Item>) {
    forall i :: 0 <= i < |items| ==> WellTyped(items[i]) && Supported(items[i])
  }

  ghost predicate AllRepresentable(items: seq<Item>) {
    forall i :: 0 <= i < |items| ==> Representable(items[i])
  }

  function EncodeAll(items: seq<Item>): seq<byte>
    requires AllTyped(items)
  {
    if items == [] then [] else Encode(items[0]) + EncodeAll(items[1..])
  }

  function Kinds(items: seq<Item>): (ks: seq<Kind>)
    ensures |ks| == |items|
    ensures forall i :: 0 <= i < |ks| ==> ks[i] == KindOf(items[i])
  {
    if items == [] then [] else [KindOf(items[0])] + Kinds(items[1..])
  }

  // ---------------------------------------------------------------- decoding

  /** A serializer used for reading: its state and its offset. */
  datatype Reader = Reader(ok: bool, offset: nat)

  const START := Reader(true, 0)

  predicate Holds(s: seq<byte>, at: nat, n: nat) {
    at + n <= |s|
  }

  /** The value after a fixed-width tag. */
  function LoadValue(f: FixKind, s: seq<byte>, at: nat): (res: (Item, Reader))
    ensures KindOf(res.0) == KFix(f)
  {
    var w := FixWidth(f);
    if !Holds(s, at, w) then (Fix(f, 0), Reader(false, at))
    else (Fix(f, ValueOf(f, FromLe(s[at..at + w]))), Reader(true, at + w))
  }

  /** The length and payload, or the counter, after a tag of this form. */
  function LoadCounted(k: Kind, form: Form, s: seq<byte>, at: nat): (res: (Item, Reader))
    requires !k.KFix?
    ensures KindOf(res.0) == k
  {
    var w := FormWidth(form);
    if w == 0 then (Blank(k), Reader(true, at))
    else if !Holds(s, at, w) then (Blank(k), Reader(false, at))
    else
      var n := FromLe(s[at..at + w]);
      if k.KCnt? then (Cnt(n), Reader(true, at + w))
      else if !Holds(s, at + w, n) then (Sized(k, Zeros(n)), Reader(false, at + w))
      else (Sized(k, s[at + w..at + w + n]), Reader(true, at + w + n))
  }

  /** One load of an item of kind `k`: its output and the serializer after it. */
  function LoadItem(k: Kind, s: seq<byte>, r: Reader): (res: (Item, Reader))
    ensures KindOf(res.0) == k
  {
    if !r.ok then (Blank(k), r)
    else if !Holds(s, r.offset, 1) then (Blank(k), Reader(false, r.offset))
    else if !AcceptsTag(k, s[r.offset]) then (Blank(k), Reader(false, r.offset + 1))
    else if k.KFix? then LoadValue(k.fix, s, r.offset + 1)
    else LoadCounted(k, FormOfTag(k, s[r.offset]), s, r.offset + 1)
  }

  function LoadAll(ks: seq<Kind>, s: seq<byte>, r: Reader): (res: (seq<Item>, Reader))
    ensures |res.0| == |ks|
    ensures forall i :: 0 <= i < |ks| ==> KindOf(res.0[i]) == ks[i]
  {
    if ks == [] then ([], r)
    else
      var (item, r1) := LoadItem(ks[0], s, r);
      var (rest, r2) := LoadAll(ks[1..], s, r1);
      ([item] + rest, r2)
  }

  // ---------------------------------------------------------------- storing

  /** A serializer used for writing, together with the vector it writes to. */
  datatype Writer = Writer(ok: bool, offset: nat, data: seq<byte>)

  /** `store`: the vector grows by the length written and the bytes land at the offset. */
  function StoreBytes(w: Writer, b: seq<byte>): (w': Writer)
    requires w.ok ==> w.offset <= |w.data|
    ensures w'.ok ==> w'.offset <= |w'.data|
  {
    if !w.ok then w
    else Writer(true, w.offset + |b|, Patched(Resized(w.data, |w.data| + |b|), w.offset, b))
  }

  /** `StoreFix`, `StoreVar` or `StoreCnt`. */
  function StoreItem(w: Writer, item: Item): (w': Writer)
    requires WellTyped(item)
    requires w.ok ==> w.offset <= |w.data|
    ensures w'.ok ==> w'.offset <= |w'.data|
  {
    if !w.ok then w
    else if !Supported(item) then w.(ok := false)
    else
      var w1 := StoreBytes(w, [TagOf(item)]);
      if !item.Fix? && LengthOf(item) == 0 then w1
      else
        var w2 := StoreBytes(w1, NumberOf(item));
        if item.Fix? || item.Cnt? then w2 else StoreBytes(w2, PayloadOf(item))
  }
}
