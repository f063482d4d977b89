/** What the format promises: round trips, canonical forms, prefix-freeness, kind discipline, sticky failure. */
module SerializerLaws {
  import opened Bytes
  import opened SerializerFormat

  // ---------------------------------------------------------------- numbers

  lemma ModulusValues(f: FixKind)
    ensures Modulus(f) ==
              if f == Unsupported then 1
              else match FixWidth(f) case 1 => 0x100 case 2 => 0x1_0000 case 4 => 0x1_0000_0000 case _ => 0x1_0000_0000_0000_0000
  {
    PowersOf256();
  }

  lemma RawRoundTrip(f: FixKind, v: int)
    requires InRange(f, v)
    ensures RawOf(f, v) < Modulus(f) && ValueOf(f, RawOf(f, v)) == v
  {
    ModulusValues(f);
  }

  lemma ValueRoundTrip(f: FixKind, raw: nat)
    requires raw < Modulus(f)
    ensures InRange(f, ValueOf(f, raw)) && RawOf(f, ValueOf(f, raw)) == raw
  {
    ModulusValues(f);
  }

  lemma FormFits(n: nat)
    ensures n < Pow256(FormWidth(FormFor(n))) <==> n < 0x1_0000_0000
  {
    PowersOf256();
  }

  /** A length read in some form is stored in a form no wider, and the same width means the same form. */
  lemma FormForIsMinimal(n: nat, form: Form)
    requires n < Pow256(FormWidth(form))
    ensures n < 0x1_0000_0000
    ensures FormWidth(FormFor(n)) <= FormWidth(form)
    ensures FormWidth(FormFor(n)) == FormWidth(form) <==> FormFor(n) == form
  {
    PowersOf256();
  }

  lemma TagsOfForms(k: Kind, form: Form)
    requires !k.KFix?
    ensures AcceptsTag(k, FormTag(k, form)) && FormOfTag(k, FormTag(k, form)) == form
  {
  }

  /** Each kind accepts the tags of its own items and no others. */
  lemma TagsSeparateKinds(k: Kind, item: Item)
    requires Supported(item)
    ensures AcceptsTag(k, TagOf(item)) <==> k == KindOf(item)
  {
    if !item.Fix? {
      TagsOfForms(KindOf(item), FormFor(LengthOf(item)));
    }
  }

  // ---------------------------------------------------------------- storing appends the encoding

  lemma StoreAppends(w: Writer, b: seq<byte>)
    requires w.ok && w.offset == |w.data|
    ensures StoreBytes(w, b) == Writer(true, w.offset + |b|, w.data + b)
  {
    assert StoreBytes(w, b).data == w.data + b;
  }

  /** A store at the end of the vector appends exactly the item's encoding. */
  lemma StoreItemAppends(w: Writer, item: Item)
    requires w.ok && w.offset == |w.data| && WellTyped(item) && Supported(item)
    ensures StoreItem(w, item) == Writer(true, w.offset + |Encode(item)|, w.data + Encode(item))
  {
    hide StoreBytes, TagOf, RawOf, FixWidth;
    StoreAppends(w, [TagOf(item)]);
    var w1 := StoreBytes(w, [TagOf(item)]);
    StoreAppends(w1, NumberOf(item));
    var w2 := StoreBytes(w1, NumberOf(item));
    StoreAppends(w2, PayloadOf(item));
    assert w.data + Encode(item) == w.data + [TagOf(item)] + NumberOf(item) + PayloadOf(item);
    if !item.Fix? && LengthOf(item) == 0 {
      assert NumberOf(item) == [] && PayloadOf(item) == [];
    }
  }

  function StoreAll(w: Writer, items: seq<Item>): Writer
    requires AllTyped(items)
    requires w.ok ==> w.offset <= |w.data|
    decreases |items|
  {
    if items == [] then w else StoreAll(StoreItem(w, items[0]), items[1..])
  }

  /** A fresh serializer writing into an empty vector produces the concatenated encodings. */
  lemma {:induction false} StoreAllAppends(w: Writer, items: seq<Item>)
    requires w.ok && w.offset == |w.data|
    requires AllTyped(items)
    ensures StoreAll(w, items) == Writer(true, w.offset + |EncodeAll(items)|, w.data + EncodeAll(items))
    decreases |items|
  {
    hide StoreItem, Encode;
    if items == [] {
      assert w.data + [] == w.data;
    } else {
      StoreItemAppends(w, items[0]);
      StoreAllAppends(StoreItem(w, items[0]), items[1..]);
      assert w.data + EncodeAll(items) == (w.data + Encode(items[0])) + EncodeAll(items[1..]);
    }
  }

  // ---------------------------------------------------------------- round trip

  ghost predicate FoundAt(e: seq<byte>, s: seq<byte>, at: nat) {
    at + |e| <= |s| && s[at..at + |e|] == e
  }

  lemma FoundHeadTail(a: seq<byte>, b: seq<byte>, s: seq<byte>, at: nat)
    requires FoundAt(a + b, s, at)
    ensures FoundAt(a, s, at) && FoundAt(b, s, at + |a|)
  {
    var t := s[at..at + |a + b|];
    assert t[..|a|] == a && t[|a|..] == b;
    assert t[..|a|] == s[at..at + |a|] && t[|a|..] == s[at + |a|..at + |a| + |b|];
  }

  lemma FoundParts(tag: byte, number: seq<byte>, payload: seq<byte>, s: seq<byte>, at: nat)
    requires FoundAt([tag] + number + payload, s, at)
    ensures FoundAt([tag], s, at) && FoundAt(number, s, at + 1) && FoundAt(payload, s, at + 1 + |number|)
    ensures at < |s| && s[at] == tag
  {
    FoundHeadTail([tag] + number, payload, s, at);
    FoundHeadTail([tag], number, s, at);
    assert s[at..at + 1][0] == tag;
  }

  lemma LoadEncodedValue(f: FixKind, v: int, s: seq<byte>, at: nat)
    requires InRange(f, v) && FoundAt(Le(RawOf(f, v), FixWidth(f)), s, at)
    ensures LoadValue(f, s, at) == (Fix(f, v), Reader(true, at + FixWidth(f)))
  {
    RawRoundTrip(f, v);
    FromLeLe(RawOf(f, v), FixWidth(f));
  }

  lemma LoadEncodedCounted(k: Kind, n: nat, s: seq<byte>, at: nat)
    requires !k.KFix? && n < 0x1_0000_0000
    requires FoundAt(Le(n, FormWidth(FormFor(n))), s, at)
    requires !k.KCnt? ==> at + FormWidth(FormFor(n)) + n <= |s|
    ensures k.KCnt? ==> LoadCounted(k, FormFor(n), s, at) == (Cnt(n), Reader(true, at + FormWidth(FormFor(n))))
    ensures !k.KCnt? ==> var from := at + FormWidth(FormFor(n));
                         LoadCounted(k, FormFor(n), s, at) == (Sized(k, s[from..from + n]), Reader(true, from + n))
  {
    FormFits(n);
    FromLeLe(n, FormWidth(FormFor(n)));
  }

  /** A load that finds a tag it accepts goes on to the value, or to the length and payload. */
  lemma LoadGoesOn(k: Kind, s: seq<byte>, at: nat)
    requires at < |s|
    ensures !AcceptsTag(k, s[at]) ==> LoadItem(k, s, Reader(true, at)) == (Blank(k), Reader(false, at + 1))
    ensures AcceptsTag(k, s[at]) && k.KFix? ==> LoadItem(k, s, Reader(true, at)) == LoadValue(k.fix, s, at + 1)
    ensures AcceptsTag(k, s[at]) && !k.KFix?
        ==> LoadItem(k, s, Reader(true, at)) == LoadCounted(k, FormOfTag(k, s[at]), s, at + 1)
  {
    hide AcceptsTag, FormOfTag, LoadValue, LoadCounted, Blank;
  }

  /** Loading an encoded item returns it and consumes its encoding, wherever it lies. */
  lemma LoadEncoded(item: Item, s: seq<byte>, at: nat)
    requires Representable(item) && FoundAt(Encode(item), s, at)
    ensures LoadItem(KindOf(item), s, Reader(true, at)) == (item, Reader(true, at + |Encode(item)|))
  {
    hide LoadItem, LoadValue, LoadCounted, RawOf, InRange, AcceptsTag, FormTag, FixTag, FormOfTag, FormWidth, Le;
    FoundParts(TagOf(item), NumberOf(item), PayloadOf(item), s, at);
    TagsSeparateKinds(KindOf(item), item);
    LoadGoesOn(KindOf(item), s, at);
    if item.Fix? {
      LoadEncodedValue(item.fix, item.value, s, at + 1);
    } else {
      hide FormFor;
      TagsOfForms(KindOf(item), FormFor(LengthOf(item)));
      LoadEncodedCounted(KindOf(item), LengthOf(item), s, at + 1);
    }
  }

  lemma TruncatedLength(k: Kind, n: nat, s: seq<byte>, at: nat)
    requires !k.KFix? && n >= 0x1_0000_0000 && FoundAt(Le(n, 4), s, at)
    ensures LengthOf(LoadCounted(k, FDword, s, at).0) == n % 0x1_0000_0000
  {
    PowersOf256();
    FromLeLe(n, 4);
  }

  /** A length or counter of 2^32 or more does not survive: only its low 32 bits are stored. */
  lemma TooLargeIsNotRead(item: Item, s: seq<byte>, at: nat)
    requires WellTyped(item) && Supported(item) && !Representable(item) && FoundAt(Encode(item), s, at)
    ensures LoadItem(KindOf(item), s, Reader(true, at)).0 != item
  {
    hide LoadItem, LoadCounted, AcceptsTag, FormTag, FormOfTag, Le;
    var n := LengthOf(item);
    FoundParts(TagOf(item), NumberOf(item), PayloadOf(item), s, at);
    TagsOfForms(KindOf(item), FormFor(n));
    LoadGoesOn(KindOf(item), s, at);
    TruncatedLength(KindOf(item), n, s, at + 1);
  }

  lemma {:induction false} LoadAllEncoded(items: seq<Item>, s: seq<byte>, at: nat)
    requires AllTyped(items) && AllRepresentable(items)
    requires FoundAt(EncodeAll(items), s, at)
    ensures LoadAll(Kinds(items), s, Reader(true, at)) == (items, Reader(true, at + |EncodeAll(items)|))
    decreases |items|
  {
    hide LoadItem, Encode, Representable;
    if items == [] {
    } else {
      var e := Encode(items[0]);
      FoundHeadTail(e, EncodeAll(items[1..]), s, at);
      LoadEncoded(items[0], s, at);
      LoadAllEncoded(items[1..], s, at + |e|);
      assert Kinds(items)[1..] == Kinds(items[1..]);
      assert [items[0]] + items[1..] == items;
    }
  }

  lemma {:induction false} LoadAllTooLarge(items: seq<Item>, s: seq<byte>, at: nat)
    requires AllTyped(items) && !AllRepresentable(items)
    requires FoundAt(EncodeAll(items), s, at)
    ensures LoadAll(Kinds(items), s, Reader(true, at)).0 != items
    decreases |items|
  {
    hide LoadItem, Encode, Representable;
    var e := Encode(items[0]);
    FoundHeadTail(e, EncodeAll(items[1..]), s, at);
    var res := LoadAll(Kinds(items), s, Reader(true, at)).0;
    assert Kinds(items)[1..] == Kinds(items[1..]);
    if !Representable(items[0]) {
      TooLargeIsNotRead(items[0], s, at);
      assert res[0] != items[0];
    } else {
      LoadEncoded(items[0], s, at);
      LoadAllTooLarge(items[1..], s, at + |e|);
      assert res[1..] != items[1..];
    }
  }

  /**
   Round trip. What a fresh serializer stores into an empty vector is read back with the
   same kinds, to the last byte, exactly when every length and counter is below 2^32.
   */
  lemma RoundTrip(items: seq<Item>)
    requires AllTyped(items)
    ensures var w := StoreAll(Writer(true, 0, []), items);
            && w.ok
            && (LoadAll(Kinds(items), w.data, START) == (items, Reader(true, |w.data|))
                <==> AllRepresentable(items))
  {
    hide LoadAll, StoreAll;
    StoreAllAppends(Writer(true, 0, []), items);
    var s := EncodeAll(items);
    assert [] + s == s && s[0..0 + |s|] == s;
    if AllRepresentable(items) {
      LoadAllEncoded(items, s, 0);
    } else {
      LoadAllTooLarge(items, s, 0);
    }
  }

  // ---------------------------------------------------------------- canonical forms

  /** The length or counter of the item accepted at this place is in its shortest form. */
  predicate MinimalAt(k: Kind, s: seq<byte>, at: nat)
    requires LoadItem(k, s, Reader(true, at)).1.ok
  {
    !k.KFix? ==> FormOfTag(k, s[at]) == FormFor(LengthOf(LoadItem(k, s, Reader(true, at)).0))
  }

  predicate AllMinimal(ks: seq<Kind>, s: seq<byte>, at: nat)
    requires LoadAll(ks, s, Reader(true, at)).1.ok
  {
    if ks == [] then true
    else
      StaysFailed(ks[1..], s, LoadItem(ks[0], s, Reader(true, at)).1);
      && MinimalAt(ks[0], s, at)
      && AllMinimal(ks[1..], s, LoadItem(ks[0], s, Reader(true, at)).1.offset)
  }

  ghost predicate SupportedKinds(ks: seq<Kind>) {
    forall i :: 0 <= i < |ks| ==> ks[i] != KFix(Unsupported)
  }

  lemma ReencodeValue(f: FixKind, s: seq<byte>, at: nat)
    requires LoadValue(f, s, at).1.ok
    ensures var (item, r) := LoadValue(f, s, at);
            && r.offset == at + FixWidth(f) <= |s|
            && item.Fix? && item.fix == f && InRange(f, item.value)
            && Le(RawOf(f, item.value), FixWidth(f)) == s[at..r.offset]
  {
    var b := s[at..at + FixWidth(f)];
    FromLeBound(b);
    LeFromLe(b);
    ValueRoundTrip(f, FromLe(b));
  }

  lemma ReencodeCounted(k: Kind, form: Form, s: seq<byte>, at: nat)
    requires !k.KFix? && LoadCounted(k, form, s, at).1.ok && at <= |s|
    ensures var (item, r) := LoadCounted(k, form, s, at);
            var n := LengthOf(item);
            && n < 0x1_0000_0000
            && FormWidth(FormFor(n)) <= FormWidth(form)
            && (FormWidth(FormFor(n)) == FormWidth(form) <==> FormFor(n) == form)
            && r.offset == at + FormWidth(form) + |PayloadOf(item)| <= |s|
            && s[at..r.offset] == Le(n, FormWidth(form)) + PayloadOf(item)
  {
    var w := FormWidth(form);
    var (item, r) := LoadCounted(k, form, s, at);
    var b := s[at..at + w];
    FromLeBound(b);
    LeFromLe(b);
    FormForIsMinimal(FromLe(b), form);
    assert s[at..r.offset] == b + s[at + w..r.offset];
  }

  lemma AcceptedStart(k: Kind, s: seq<byte>, at: nat)
    requires LoadItem(k, s, Reader(true, at)).1.ok
    ensures at < |s| && AcceptsTag(k, s[at])
    ensures k.KFix? ==> s[at] == FixTag(k.fix)
    ensures !k.KFix? ==> s[at] == FormTag(k, FormOfTag(k, s[at]))
  {
  }

  /** An accepted item re-encodes to at most the bytes it was read from, with equality iff its form was minimal. */
  lemma ReencodeItem(k: Kind, s: seq<byte>, at: nat)
    requires LoadItem(k, s, Reader(true, at)).1.ok && k != KFix(Unsupported)
    ensures var (item, r) := LoadItem(k, s, Reader(true, at));
            && Representable(item)
            && at < r.offset <= |s|
            && |Encode(item)| <= r.offset - at
            && (|Encode(item)| == r.offset - at <==> MinimalAt(k, s, at))
            && (MinimalAt(k, s, at) ==> Encode(item) == s[at..r.offset])
  {
    hide LoadItem, LoadValue, LoadCounted, RawOf, InRange, AcceptsTag, FormTag, FormFor, FixTag, FormOfTag, FormWidth, Le;
    var (item, r) := LoadItem(k, s, Reader(true, at));
    AcceptedStart(k, s, at);
    LoadGoesOn(k, s, at);
    if k.KFix? {
      ReencodeValue(k.fix, s, at + 1);
      assert s[at..r.offset] == [s[at]] + s[at + 1..r.offset] + [];
    } else {
      var form := FormOfTag(k, s[at]);
      ReencodeCounted(k, form, s, at + 1);
      assert s[at..r.offset] == [s[at]] + s[at + 1..r.offset];
      assert s[at..r.offset] == [s[at]] + Le(LengthOf(item), FormWidth(form)) + PayloadOf(item);
      assert TagOf(item) == FormTag(k, FormFor(LengthOf(item)));
    }
  }

  lemma {:induction false} Reencode(ks: seq<Kind>, s: seq<byte>, at: nat)
    requires LoadAll(ks, s, Reader(true, at)).1.ok && SupportedKinds(ks) && at <= |s|
    ensures var (items, r) := LoadAll(ks, s, Reader(true, at));
            && AllTyped(items) && AllRepresentable(items)
            && at <= r.offset <= |s|
            && |EncodeAll(items)| <= r.offset - at
            && (|EncodeAll(items)| == r.offset - at <==> AllMinimal(ks, s, at))
            && (AllMinimal(ks, s, at) ==> EncodeAll(items) == s[at..r.offset])
  {
    hide LoadItem, Encode;
    var (items, r) := LoadAll(ks, s, Reader(true, at));
    if ks == [] {
    } else {
      var (item, r1) := LoadItem(ks[0], s, Reader(true, at));
      StaysFailed(ks[1..], s, r1);
      ReencodeItem(ks[0], s, at);
      Reencode(ks[1..], s, r1.offset);
      assert items[1..] == LoadAll(ks[1..], s, r1).0;
      assert s[at..r.offset] == s[at..r1.offset] + s[r1.offset..r.offset];
    }
  }

  /**
   Non-minimal input shrinks. Whatever bytes a schedule accepts to their end, the values
   read encode to no more bytes, to as many exactly when every form was minimal, and then
   to the very same bytes.
   */
  lemma AcceptedInputReencodes(ks: seq<Kind>, s: seq<byte>)
    requires SupportedKinds(ks) && LoadAll(ks, s, START).1 == Reader(true, |s|)
    ensures var items := LoadAll(ks, s, START).0;
            && AllTyped(items) && AllRepresentable(items)
            && StoreAll(Writer(true, 0, []), items) == Writer(true, |EncodeAll(items)|, EncodeAll(items))
            && |EncodeAll(items)| <= |s|
            && (|EncodeAll(items)| == |s| <==> AllMinimal(ks, s, 0))
            && (EncodeAll(items) == s <==> AllMinimal(ks, s, 0))
  {
    Reencode(ks, s, 0);
    var items := LoadAll(ks, s, START).0;
    StoreAllAppends(Writer(true, 0, []), items);
    assert s[0..|s|] == s && [] + EncodeAll(items) == EncodeAll(items);
  }

  // ---------------------------------------------------------------- failure is sticky

  lemma {:induction false} StaysFailed(ks: seq<Kind>, s: seq<byte>, r: Reader)
    ensures !r.ok ==> LoadAll(ks, s, r).1 == r
    ensures !r.ok ==> forall i :: 0 <= i < |ks| ==> LoadAll(ks, s, r).0[i] == Blank(ks[i])
  {
    if ks == [] {
    } else {
      StaysFailed(ks[1..], s, LoadItem(ks[0], s, r).1);
    }
  }

  datatype Op = StoreOp(item: Item) | LoadOp(kind: Kind)

  ghost predicate TypedOps(ops: seq<Op>) {
    forall i :: 0 <= i < |ops| ==> ops[i].StoreOp? ==> WellTyped(ops[i].item)
  }

  /** One public operation on a serializer and a vector: the new state, and what a load returned. */
  function Apply(w: Writer, op: Op): (res: (Writer, Item))
    requires op.StoreOp? ==> WellTyped(op.item)
    requires w.ok ==> w.offset <= |w.data|
  {
    match op
    case StoreOp(item) => (StoreItem(w, item), item)
    case LoadOp(k) =>
      var (item, r) := LoadItem(k, w.data, Reader(w.ok, w.offset));
      (Writer(r.ok, r.offset, w.data), item)
  }

  lemma OffsetInBounds(w: Writer, op: Op)
    requires op.StoreOp? ==> WellTyped(op.item)
    requires w.offset <= |w.data|
    ensures Apply(w, op).0.offset <= |Apply(w, op).0.data|
  {
  }

  function ApplyAll(w: Writer, ops: seq<Op>): (res: (Writer, seq<Item>))
    requires TypedOps(ops) && w.offset <= |w.data|
    ensures |res.1| == |ops|
    decreases |ops|
  {
    if ops == [] then (w, [])
    else
      OffsetInBounds(w, ops[0]);
      var (w1, out) := Apply(w, ops[0]);
      var (w2, outs) := ApplyAll(w1, ops[1..]);
      (w2, [out] + outs)
  }

  /** Whatever is stored and loaded in whatever order, the offset never passes the end of the vector. */
  lemma {:induction false} RunStaysInBounds(w: Writer, ops: seq<Op>)
    requires TypedOps(ops) && w.offset <= |w.data|
    ensures ApplyAll(w, ops).0.offset <= |ApplyAll(w, ops).0.data|
    decreases |ops|
  {
    if ops == [] {
    } else {
      OffsetInBounds(w, ops[0]);
      RunStaysInBounds(Apply(w, ops[0]).0, ops[1..]);
    }
  }

  /** A failed serializer is frozen: no later operation moves it, touches the vector or loads a value. */
  lemma {:induction false} FailureIsSticky(w: Writer, ops: seq<Op>)
    requires TypedOps(ops) && w.offset <= |w.data| && !w.ok
    ensures ApplyAll(w, ops).0 == w
    ensures forall i :: 0 <= i < |ops| && ops[i].LoadOp? ==> ApplyAll(w, ops).1[i] == Blank(ops[i].kind)
  {
    if ops == [] {
    } else {
      FailureIsSticky(w, ops[1..]);
    }
  }

  // ---------------------------------------------------------------- prefixes and other schedules

  /** A load that succeeded depends on the bytes it consumed and on no others. */
  lemma LoadIsLocal(k: Kind, s: seq<byte>, s': seq<byte>, at: nat)
    requires LoadItem(k, s, Reader(true, at)).1.ok
    requires var end := LoadItem(k, s, Reader(true, at)).1.offset;
             end <= |s'| && end <= |s| && s'[..end] == s[..end]
    ensures LoadItem(k, s', Reader(true, at)) == LoadItem(k, s, Reader(true, at))
  {
    var end := LoadItem(k, s, Reader(true, at)).1.offset;
    SliceOfPrefix(s, s', end, at, at + 1);
    assert s[at] == s'[at] by { assert s[..end][at] == s'[..end][at]; }
    if k.KFix? {
      SliceOfPrefix(s, s', end, at + 1, at + 1 + FixWidth(k.fix));
    } else {
      var w := FormWidth(FormOfTag(k, s[at]));
      SliceOfPrefix(s, s', end, at + 1, at + 1 + w);
      if w > 0 && !k.KCnt? {
        SliceOfPrefix(s, s', end, at + 1 + w, end);
      }
    }
  }

  lemma SliceOfPrefix(s: seq<byte>, s': seq<byte>, end: nat, i: nat, j: nat)
    requires i <= j <= end <= |s| && end <= |s'| && s'[..end] == s[..end]
    ensures s[i..j] == s'[i..j]
  {
    assert s[i..j] == s[..end][i..j] && s'[i..j] == s'[..end][i..j];
  }

  /** Cutting the bytes a load needs makes it fail. */
  lemma CutLoadFails(k: Kind, s: seq<byte>, cut: nat, at: nat)
    requires LoadItem(k, s, Reader(true, at)).1.ok
    requires cut <= |s| && cut < LoadItem(k, s, Reader(true, at)).1.offset
    ensures !LoadItem(k, s[..cut], Reader(true, at)).1.ok
  {
    var s' := s[..cut];
    if at < cut && !k.KFix? {
      var w := FormWidth(FormOfTag(k, s[at]));
      assert s'[at] == s[at];
      if at + 1 + w <= cut {
        assert s'[at + 1..at + 1 + w] == s[at + 1..at + 1 + w];
      }
    }
  }

  lemma {:induction false} OffsetsGrow(ks: seq<Kind>, s: seq<byte>, r: Reader)
    requires r.offset <= |s|
    ensures r.offset <= LoadAll(ks, s, r).1.offset <= |s|
  {
    if ks == [] {
    } else {
      OffsetsGrow(ks[1..], s, LoadItem(ks[0], s, r).1);
    }
  }

  /** Prefix-freeness: no proper prefix of an accepted input is accepted by the same schedule. */
  lemma {:induction false} PrefixFails(ks: seq<Kind>, s: seq<byte>, at: nat, cut: nat)
    requires LoadAll(ks, s, Reader(true, at)).1.ok && at <= cut <= |s|
    requires cut < LoadAll(ks, s, Reader(true, at)).1.offset
    ensures !LoadAll(ks, s[..cut], Reader(true, at)).1.ok
    decreases |ks|
  {
    var r1 := LoadItem(ks[0], s, Reader(true, at)).1;
    StaysFailed(ks[1..], s, r1);
    if cut < r1.offset {
      CutLoadFails(ks[0], s, cut, at);
      StaysFailed(ks[1..], s[..cut], LoadItem(ks[0], s[..cut], Reader(true, at)).1);
    } else {
      assert s[..cut][..r1.offset] == s[..r1.offset];
      LoadIsLocal(ks[0], s, s[..cut], at);
      PrefixFails(ks[1..], s, r1.offset, cut);
    }
  }

  lemma {:induction false} LoadAllSplit(ks: seq<Kind>, ks': seq<Kind>, s: seq<byte>, r: Reader)
    ensures LoadAll(ks + ks', s, r).0 == LoadAll(ks, s, r).0 + LoadAll(ks', s, LoadAll(ks, s, r).1).0
    ensures LoadAll(ks + ks', s, r).1 == LoadAll(ks', s, LoadAll(ks, s, r).1).1
    decreases |ks|
  {
    if ks == [] {
      assert ks + ks' == ks';
    } else {
      assert (ks + ks')[1..] == ks[1..] + ks';
      var (item, r1) := LoadItem(ks[0], s, r);
      LoadAllSplit(ks[1..], ks', s, r1);
      var tail := LoadAll(ks', s, LoadAll(ks[1..], s, r1).1).0;
      assert [item] + (LoadAll(ks[1..], s, r1).0 + tail) == ([item] + LoadAll(ks[1..], s, r1).0) + tail;
    }
  }

  lemma LoadAllFirst(ks: seq<Kind>, s: seq<byte>, r: Reader)
    requires ks != []
    ensures LoadAll(ks, s, r).1 == LoadAll(ks[1..], s, LoadItem(ks[0], s, r).1).1
  {
  }

  lemma NothingLeft(ks: seq<Kind>, s: seq<byte>)
    requires ks != []
    ensures LoadAll(ks, s, Reader(true, |s|)).1 == Reader(false, |s|)
  {
    hide AcceptsTag, LoadValue, LoadCounted;
    LoadAllFirst(ks, s, Reader(true, |s|));
    assert LoadItem(ks[0], s, Reader(true, |s|)).1 == Reader(false, |s|);
    StaysFailed(ks[1..], s, Reader(false, |s|));
  }

  /** Asking for more than was stored fails. */
  lemma LongerScheduleFails(ks: seq<Kind>, more: seq<Kind>, s: seq<byte>)
    requires LoadAll(ks, s, START).1 == Reader(true, |s|) && more != []
    ensures !LoadAll(ks + more, s, START).1.ok
  {
    hide *;
    LoadAllSplit(ks, more, s, START);
    NothingLeft(more, s);
  }

  /** Stopping early leaves the export status good and the import status bad. */
  lemma ShorterScheduleStopsShort(ks: seq<Kind>, n: nat, s: seq<byte>)
    requires LoadAll(ks, s, START).1 == Reader(true, |s|) && n < |ks|
    ensures var r := LoadAll(ks[..n], s, START).1; r.ok && r.offset < |s|
  {
    hide LoadAll, LoadItem;
    LoadAllSplit(ks[..n], ks[n..], s, START);
    assert ks == ks[..n] + ks[n..];
    var r := LoadAll(ks[..n], s, START).1;
    StaysFailed(ks[n..], s, r);
    OffsetsGrow(ks[..n], s, START);
    if r.offset == |s| {
      NothingLeft(ks[n..], s);
    }
  }

  /** One load of the wrong kind: nothing but the tag is consumed. */
  lemma WrongKindHere(item: Item, k: Kind, s: seq<byte>, at: nat)
    requires WellTyped(item) && Supported(item) && FoundAt(Encode(item), s, at) && k != KindOf(item)
    ensures LoadItem(k, s, Reader(true, at)) == (Blank(k), Reader(false, at + 1))
  {
    hide LoadItem, AcceptsTag, TagOf, NumberOf, PayloadOf;
    FoundParts(TagOf(item), NumberOf(item), PayloadOf(item), s, at);
    TagsSeparateKinds(k, item);
    LoadGoesOn(k, s, at);
  }

  lemma BlankTail(ks: seq<Kind>, s: seq<byte>, r: Reader, r': Reader)
    requires ks != [] && LoadItem(ks[0], s, r) == (Blank(ks[0]), r') && !r'.ok
    ensures LoadAll(ks, s, r).1 == r'
    ensures forall j :: 0 <= j < |ks| ==> LoadAll(ks, s, r).0[j] == Blank(ks[j])
  {
    hide LoadItem, Blank;
    StaysFailed(ks[1..], s, r');
  }

  /**
   Kind discipline. Reading an encoded list with a schedule that departs from it fails at
   the first departure: earlier values are the stored ones, that output and all later ones
   are blank, and the offset is one past the unexpected tag.
   */
  lemma WrongKindFails(items: seq<Item>, ks: seq<Kind>, i: nat)
    requires AllTyped(items) && AllRepresentable(items)
    requires i < |items| && i < |ks| && ks[..i] == Kinds(items)[..i] && ks[i] != KindOf(items[i])
    ensures LoadAll(ks, EncodeAll(items), START).0[..i] == items[..i]
    ensures forall j :: i <= j < |ks| ==> LoadAll(ks, EncodeAll(items), START).0[j] == Blank(ks[j])
    ensures LoadAll(ks, EncodeAll(items), START).1 == Reader(false, |EncodeAll(items[..i])| + 1)
  {
    hide LoadAll, LoadItem, Blank, Encode, EncodeAll, Kinds, Representable, WellTyped, Supported, FoundAt, KindOf;
    EncodedAt(items, i);
    var s, at := EncodeAll(items), |EncodeAll(items[..i])|;
    assert ks[..i] == Kinds(items[..i]) by { KindsPrefix(items, i); }
    LoadAllEncoded(items[..i], s, 0);
    WrongKindHere(items[i], ks[i], s, at);
    BlankTail(ks[i..], s, Reader(true, at), Reader(false, at + 1));
    LoadAllSplit(ks[..i], ks[i..], s, START);
    assert ks == ks[..i] + ks[i..];
    var out, rest := LoadAll(ks, s, START).0, LoadAll(ks[i..], s, Reader(true, at)).0;
    assert out == items[..i] + rest;
    forall j | i <= j < |ks|
      ensures out[j] == Blank(ks[j])
    {
      assert out[j] == rest[j - i] && ks[i..][j - i] == ks[j];
    }
  }

  lemma {:induction false} KindsPrefix(items: seq<Item>, i: nat)
    requires i <= |items|
    ensures Kinds(items)[..i] == Kinds(items[..i])
  {
    hide KindOf;
  }

  /** Where the encodings of the first `i` items, and of the next one, lie in the whole. */
  lemma EncodedAt(items: seq<Item>, i: nat)
    requires AllTyped(items) && i < |items|
    ensures AllTyped(items[..i])
    ensures FoundAt(EncodeAll(items[..i]), EncodeAll(items), 0)
    ensures FoundAt(Encode(items[i]), EncodeAll(items), |EncodeAll(items[..i])|)
    ensures AllRepresentable(items) ==> AllRepresentable(items[..i])
  {
    hide Encode, WellTyped, Supported, Representable;
    var s, head, tail := EncodeAll(items), EncodeAll(items[..i]), EncodeAll(items[i..]);
    EncodeAllSplit(items, i);
    assert s[0..0 + |head|] == head && s[|head|..|head| + |tail|] == tail;
    assert items[i..][0] == items[i];
    FoundHeadTail(Encode(items[i]), EncodeAll(items[i..][1..]), s, |head|);
  }

  lemma {:induction false} EncodeAllSplit(items: seq<Item>, i: nat)
    requires AllTyped(items)
    requires i <= |items|
    ensures EncodeAll(items) == EncodeAll(items[..i]) + EncodeAll(items[i..])
  {
    hide Encode;
    if i == 0 {
      assert items[0..] == items;
    } else {
      EncodeAllSplit(items[1..], i - 1);
      assert items[..i][1..] == items[1..][..i - 1] && items[i..] == items[1..][i - 1..];
    }
  }
}
