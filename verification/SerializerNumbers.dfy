/**
 The bytes of the serializer in numbers: the format other programs have to read and write,
 spelled out without the tables the rest of the model uses.
 */
module SerializerNumbers {
  import opened Bytes
  import opened Octets
  import opened SerializerFormat
  import opened SerializerLaws

  // ---------------------------------------------------------------- the items

  /** A value of each fixed-width type, behind its type number. */
  function FixBytes(f: FixKind, v: int): seq<byte> {
    match f
    case Int8 => [0x11, v % 0x100]
    case UInt8 => [0x12, v % 0x100]
    case Int16 => [0x13] + Two(v)
    case UInt16 => [0x14] + Two(v)
    case Int32 => [0x15] + Four(v)
    case UInt32 => [0x16] + Four(v)
    case Int64 => [0x17] + Eight(v)
    case UInt64 => [0x18] + Eight(v)
    case Float => [0x19] + Four(v)
    case Double => [0x1A] + Eight(v)
    case Unsupported => []
  }

  function VecBytes(b: seq<byte>): seq<byte> {
    if |b| == 0 then [0x20]
    else if |b| <= 255 then [0x21, |b|] + b
    else if |b| <= 65535 then [0x22] + Two(|b|) + b
    else [0x24] + Four(|b|) + b
  }

  function StrBytes(b: seq<byte>): seq<byte> {
    if |b| == 0 then [0x30]
    else if |b| <= 255 then [0x31, |b|] + b
    else if |b| <= 65535 then [0x32] + Two(|b|) + b
    else [0x34] + Four(|b|) + b
  }

  function CntBytes(n: nat): seq<byte> {
    if n == 0 then [0x40]
    else if n <= 255 then [0x41, n]
    else if n <= 65535 then [0x42] + Two(n)
    else [0x43] + Four(n)
  }

  function ItemBytes(item: Item): seq<byte> {
    match item
    case Fix(f, v) => FixBytes(f, v)
    case Vec(b) => VecBytes(b)
    case Str(b) => StrBytes(b)
    case Cnt(n) => CntBytes(n)
  }

  function AllBytes(items: seq<Item>): seq<byte> {
    if items == [] then [] else ItemBytes(items[0]) + AllBytes(items[1..])
  }

  /** The values of each type, in numbers. */
  predicate Holdable(f: FixKind, v: int) {
    match f
    case Int8 => -0x80 <= v < 0x80
    case UInt8 => 0 <= v < 0x100
    case Int16 => -0x8000 <= v < 0x8000
    case UInt16 => 0 <= v < 0x1_0000
    case Int32 => -0x8000_0000 <= v < 0x8000_0000
    case UInt32 => 0 <= v < 0x1_0000_0000
    case Int64 => -0x8000_0000_0000_0000 <= v < 0x8000_0000_0000_0000
    case UInt64 => 0 <= v < 0x1_0000_0000_0000_0000
    case Float => 0 <= v < 0x1_0000_0000
    case Double => 0 <= v < 0x1_0000_0000_0000_0000
    case Unsupported => false
  }

  predicate Storable(item: Item) {
    item.Fix? ==> Holdable(item.fix, item.value)
  }

  lemma HoldableIsTyped(item: Item)
    ensures Storable(item) <==> WellTyped(item) && Supported(item)
  {
    if item.Fix? {
      ModulusValues(item.fix);
    }
  }

  lemma FixInNumbers(f: FixKind, v: int)
    requires Holdable(f, v)
    ensures WellTyped(Fix(f, v)) && Encode(Fix(f, v)) == FixBytes(f, v)
  {
    HoldableIsTyped(Fix(f, v));
    ModulusValues(f);
    hide Le;
    var raw := RawOf(f, v);
    LeInOctets(raw);
    LeInEightOctets(raw);
    OctetsOfNegative(v);
    EightOctetsOfNegative(v);
    hide Two, Four, Eight;
    assert Encode(Fix(f, v)) == [TagOf(Fix(f, v))] + NumberOf(Fix(f, v));
  }

  lemma CountedInNumbers(item: Item)
    requires !item.Fix?
    ensures Encode(item) == ItemBytes(item)
  {
    hide Le, Two, Four;
    LeInOctets(LengthOf(item));
  }

  /** The encoding of every item, in numbers. */
  lemma ItemInNumbers(item: Item)
    requires Storable(item)
    ensures WellTyped(item) && Supported(item) && Encode(item) == ItemBytes(item)
  {
    HoldableIsTyped(item);
    if item.Fix? {
      FixInNumbers(item.fix, item.value);
    } else {
      CountedInNumbers(item);
    }
  }

  /** A store at the end of the vector appends these bytes, for every kind and every value. */
  lemma StoreInNumbers(w: Writer, item: Item)
    requires w.ok && w.offset == |w.data| && Storable(item)
    ensures WellTyped(item)
    ensures StoreItem(w, item) == Writer(true, w.offset + |ItemBytes(item)|, w.data + ItemBytes(item))
  {
    hide StoreItem, Encode, ItemBytes, Storable;
    ItemInNumbers(item);
    StoreItemAppends(w, item);
  }

  /** A type the table does not know makes the serializer fail and leaves the vector alone. */
  lemma UnsupportedFails(w: Writer, v: int)
    requires w.ok && InRange(Unsupported, v) && w.offset <= |w.data|
    ensures StoreItem(w, Fix(Unsupported, v)) == Writer(false, w.offset, w.data)
  {
  }

  lemma {:induction false} AllInNumbers(items: seq<Item>)
    requires forall i :: 0 <= i < |items| ==> Storable(items[i])
    ensures AllTyped(items) && EncodeAll(items) == AllBytes(items)
  {
    hide Encode, ItemBytes, Storable, WellTyped, Supported;
    if items != [] {
      ItemInNumbers(items[0]);
      AllInNumbers(items[1..]);
      assert items == [items[0]] + items[1..];
    }
  }

  predicate Carried(item: Item) {
    match item
    case Fix(f, v) => Holdable(f, v)
    case Vec(b) => |b| < 0x1_0000_0000
    case Str(b) => |b| < 0x1_0000_0000
    case Cnt(n) => n < 0x1_0000_0000
  }

  /** The bytes any writer of the format produces are read back as the values meant, to the last byte. */
  lemma LoadInNumbers(items: seq<Item>)
    requires forall i :: 0 <= i < |items| ==> Carried(items[i])
    ensures LoadAll(Kinds(items), AllBytes(items), START) == (items, Reader(true, |AllBytes(items)|))
  {
    forall i | 0 <= i < |items|
      ensures Storable(items[i]) && Representable(items[i])
    {
      HoldableIsTyped(items[i]);
    }
    hide Storable, Representable, LoadAll, Carried;
    AllInNumbers(items);
    StoreAllAppends(Writer(true, 0, []), items);
    assert [] + EncodeAll(items) == EncodeAll(items);
    RoundTrip(items);
  }

  /** A payload shorter than announced fails and leaves that many zeros; the offset is behind the length. */
  lemma TruncatedPayloadLeavesZeros(n: nat, part: seq<byte>)
    requires 0 < n < 0x1_0000_0000 && |part| < n
    ensures var vec := if n <= 255 then [0x21, n] else if n <= 65535 then [0x22] + Two(n) else [0x24] + Four(n);
            LoadItem(KVec, vec + part, START) == (Vec(Zeros(n)), Reader(false, |vec|))
    ensures var str := if n <= 255 then [0x31, n] else if n <= 65535 then [0x32] + Two(n) else [0x34] + Four(n);
            LoadItem(KStr, str + part, START) == (Str(Zeros(n)), Reader(false, |str|))
  {
    TruncatedAs(KVec, n, part);
    TruncatedAs(KStr, n, part);
    hide Le, Two, Four, LoadItem;
    LeInOctets(n);
  }

  lemma TruncatedAs(k: Kind, n: nat, part: seq<byte>)
    requires (k.KVec? || k.KStr?) && 0 < n < 0x1_0000_0000 && |part| < n
    ensures var head := [FormTag(k, FormFor(n))] + Le(n, FormWidth(FormFor(n)));
            LoadItem(k, head + part, START) == (Sized(k, Zeros(n)), Reader(false, |head|))
  {
    hide Le, FromLe;
    var w := FormWidth(FormFor(n));
    var number := Le(n, w);
    var head := [FormTag(k, FormFor(n))] + number;
    var s := head + part;
    assert s[1..1 + w] == number;
    PowersOf256();
    FromLeLe(n, w);
    assert n % Pow256(w) == n by { SmallRemainder(n, Pow256(w)); }
  }
}
