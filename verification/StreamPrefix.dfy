/**
 The 24-byte frame header: six little-endian words, the last of which is a
 subtractive checksum of the other five.
 */
module StreamPrefix {
  import opened Bytes
  import opened Buffers

  const PREFIX_SIZE: nat := 24
  const PREFIX_MAGIC: u32 := 0x37464564
  const CHECK_START: u32 := 0xFFFF_FFFF

  const CMD_NONE: u32 := 0
  const CMD_REQUEST: u32 := 100
  const CMD_RESPONSE: u32 := 101
  const CMD_PING_REQUEST: u32 := 102
  const CMD_PING_RESPONSE: u32 := 103
  const CMD_ERROR: u32 := 104

  const MAGIC: nat := 0
  const CMD: nat := 1
  const CODE: nat := 2
  const EXP: nat := 3
  const LEN: nat := 4
  const CRC: nat := 5

  /** A whole header, valid or not. */
  type Hdr = h: seq<byte> | |h| == PREFIX_SIZE witness Zeros(PREFIX_SIZE)

  datatype Params = Params(command: u32, code: u32, len: u32)

  const NO_PARAMS := Params(CMD_NONE, 0, 0)

  // ---------------------------------------------------------------- words

  /** `reinterpret_cast<uint32_t*>(data)[i]`. */
  function Word(b: seq<byte>, i: nat): u32
    requires 4 * i + 4 <= |b|
  {
    FromLeBound(b[4 * i..4 * i + 4]);
    PowersOf256();
    FromLe(b[4 * i..4 * i + 4])
  }

  function WithWord(b: seq<byte>, i: nat, w: u32): (r: seq<byte>)
    requires 4 * i + 4 <= |b|
    ensures |r| == |b|
  {
    Patched(b, 4 * i, Le(w, 4))
  }

  lemma WordsAfterWrite(b: seq<byte>, i: nat, w: u32, j: nat)
    requires 4 * i + 4 <= |b| && 4 * j + 4 <= |b|
    ensures Word(WithWord(b, i, w), j) == if i == j then w else Word(b, j)
  {
    var r := WithWord(b, i, w);
    if i == j {
      PowersOf256();
      FromLeLe(w, 4);
      assert r[4 * j..4 * j + 4] == Le(w, 4);
    } else {
      assert r[4 * j..4 * j + 4] == b[4 * j..4 * j + 4];
    }
  }

  /** A header is determined by its six words. */
  lemma SameWords(a: seq<byte>, b: seq<byte>)
    requires |a| == |b| == PREFIX_SIZE
    requires forall i: nat :: i < 6 ==> Word(a, i) == Word(b, i)
    ensures a == b
  {
    forall k | 0 <= k < PREFIX_SIZE
      ensures a[k] == b[k]
    {
      var i := k / 4;
      assert Word(a, i) == Word(b, i);
      LeFromLe(a[4 * i..4 * i + 4]);
      LeFromLe(b[4 * i..4 * i + 4]);
      assert a[k] == a[4 * i..4 * i + 4][k - 4 * i];
      assert b[k] == b[4 * i..4 * i + 4][k - 4 * i];
    }
  }

  // ---------------------------------------------------------------- checksum

  /** The checksum accumulator once the first `n` words are subtracted. */
  function CrcAfter(b: seq<byte>, n: nat): u32
    requires 4 * n <= |b|
  {
    if n == 0 then CHECK_START else Wrap32(CrcAfter(b, n - 1) - Word(b, n - 1))
  }

  function CrcCalc(b: seq<byte>): u32
    requires |b| == PREFIX_SIZE
  {
    CrcAfter(b, CRC)
  }

  predicate Valid(b: seq<byte>) {
    |b| == PREFIX_SIZE && CrcCalc(b) == Word(b, CRC)
  }

  /** The sum of the first `n` words, in unbounded arithmetic. */
  function SumOf(b: seq<byte>, n: nat): nat
    requires 4 * n <= |b|
  {
    if n == 0 then 0 else SumOf(b, n - 1) + Word(b, n - 1)
  }

  function WordSum(b: seq<byte>): nat
    requires |b| == PREFIX_SIZE
  {
    SumOf(b, 6)
  }

  lemma {:induction false} CrcIsComplement(b: seq<byte>, n: nat)
    requires 4 * n <= |b|
    ensures CrcAfter(b, n) == Wrap32(CHECK_START - SumOf(b, n))
  {
    if n == 0 {
    } else {
      CrcIsComplement(b, n - 1);
      WrapStep(CHECK_START - SumOf(b, n - 1), Word(b, n - 1));
    }
  }

  lemma WrapStep(x: int, w: int)
    ensures Wrap32(Wrap32(x) - w) == Wrap32(x - w)
  {
  }

  lemma ComplementIffSum(s: nat, w: u32)
    ensures w == Wrap32(CHECK_START - s) <==> Wrap32(s + w) == CHECK_START
  {
  }

  /** The checksum law: the six words of a valid header sum to 2^32 - 1. */
  lemma ValidIffSum(b: seq<byte>)
    ensures Valid(b) <==> |b| == PREFIX_SIZE && Wrap32(WordSum(b)) == CHECK_START
  {
    if |b| == PREFIX_SIZE {
      CrcIsComplement(b, CRC);
      ComplementIffSum(SumOf(b, CRC), Word(b, CRC));
    }
  }

  lemma SameSumIffDifference(s: nat, t: nat)
    requires Wrap32(s) == CHECK_START
    ensures Wrap32(t) == CHECK_START <==> Wrap32(t - s) == 0
  {
  }

  /** Exactly which corruptions of a valid header go unnoticed. */
  lemma UndetectedIffDifferencesCancel(h: seq<byte>, h': seq<byte>)
    requires Valid(h) && |h'| == PREFIX_SIZE
    ensures Valid(h') <==> Wrap32(WordSum(h') - WordSum(h)) == 0
  {
    ValidIffSum(h);
    ValidIffSum(h');
    SameSumIffDifference(WordSum(h), WordSum(h'));
  }

  ghost predicate SameOutsideWords(h: seq<byte>, h': seq<byte>, i: nat, j: nat)
    requires |h| == |h'| == PREFIX_SIZE
  {
    forall k :: 0 <= k < PREFIX_SIZE && k / 4 != i && k / 4 != j ==> h[k] == h'[k]
  }

  lemma OtherWordsSame(h: seq<byte>, h': seq<byte>, i: nat, j: nat, m: nat)
    requires |h| == |h'| == PREFIX_SIZE && SameOutsideWords(h, h', i, j)
    requires m < 6 && m != i && m != j
    ensures Word(h, m) == Word(h', m)
  {
    assert h[4 * m..4 * m + 4] == h'[4 * m..4 * m + 4];
  }

  lemma {:induction false} SumDifference(h: seq<byte>, h': seq<byte>, i: nat, j: nat, n: nat)
    requires |h| == |h'| == PREFIX_SIZE && SameOutsideWords(h, h', i, j) && n <= 6
    ensures SumOf(h', n) - SumOf(h, n)
         == (if i < n then Word(h', i) - Word(h, i) else 0)
          + (if j < n && i != j then Word(h', j) - Word(h, j) else 0)
  {
    if n == 0 {
    } else {
      SumDifference(h, h', i, j, n - 1);
      if n - 1 != i && n - 1 != j {
        OtherWordsSame(h, h', i, j, n - 1);
      }
    }
  }

  /** A change in two words is missed exactly when the two differences cancel modulo 2^32. */
  lemma TwoWordChange(h: seq<byte>, h': seq<byte>, i: nat, j: nat)
    requires Valid(h) && |h'| == PREFIX_SIZE && i < 6 && j < 6 && i != j
    requires SameOutsideWords(h, h', i, j)
    ensures Valid(h') <==> Wrap32(Word(h', i) - Word(h, i) + Word(h', j) - Word(h, j)) == 0
  {
    UndetectedIffDifferencesCancel(h, h');
    SumDifference(h, h', i, j, 6);
  }

  /** Any change confined to one word of a valid header is detected. */
  lemma OneWordChangeDetected(h: seq<byte>, h': seq<byte>, i: nat)
    requires Valid(h) && |h'| == PREFIX_SIZE && i < 6
    requires SameOutsideWords(h, h', i, i) && h != h'
    ensures !Valid(h')
  {
    UndetectedIffDifferencesCancel(h, h');
    SumDifference(h, h', i, i, 6);
    if Word(h', i) == Word(h, i) {
      forall m: nat | m < 6
        ensures Word(h, m) == Word(h', m)
      {
        if m != i {
          OtherWordsSame(h, h', i, i, m);
        }
      }
      SameWords(h, h');
    }
  }

  // ---------------------------------------------------------------- building a header

  function Joined(ws: seq<u32>): (b: seq<byte>)
    ensures |b| == 4 * |ws|
  {
    if ws == [] then [] else Le(ws[0], 4) + Joined(ws[1..])
  }

  lemma {:induction false} WordOfJoined(ws: seq<u32>, i: nat)
    requires i < |ws|
    ensures Word(Joined(ws), i) == ws[i]
  {
    var b := Joined(ws);
    if i == 0 {
      PowersOf256();
      FromLeLe(ws[0], 4);
      assert b[0..4] == Le(ws[0], 4);
    } else {
      WordOfJoined(ws[1..], i - 1);
      assert b[4 * i..4 * i + 4] == Joined(ws[1..])[4 * (i - 1)..4 * (i - 1) + 4];
    }
  }

  /** The header with these fields; its checksum word completes the sum to 2^32 - 1. */
  function Header(command: u32, code: u32, expiration: u32, len: u32): (h: seq<byte>)
    ensures |h| == PREFIX_SIZE
  {
    Joined([PREFIX_MAGIC, command, code, expiration, len,
            Wrap32(CHECK_START - (PREFIX_MAGIC + command + code + expiration + len))])
  }

  lemma HeaderFields(command: u32, code: u32, expiration: u32, len: u32)
    ensures var h := Header(command, code, expiration, len);
            && Word(h, MAGIC) == PREFIX_MAGIC && Word(h, CMD) == command && Word(h, CODE) == code
            && Word(h, EXP) == expiration && Word(h, LEN) == len && Valid(h)
  {
    var sum: nat := PREFIX_MAGIC + command + code + expiration + len;
    var ws: seq<u32> := [PREFIX_MAGIC, command, code, expiration, len, Wrap32(CHECK_START - sum)];
    var h := Header(command, code, expiration, len);
    assert h == Joined(ws);
    WordOfJoined(ws, 0);
    WordOfJoined(ws, 1);
    WordOfJoined(ws, 2);
    WordOfJoined(ws, 3);
    WordOfJoined(ws, 4);
    WordOfJoined(ws, 5);
    CrcIsComplement(h, 5);
    SumOfFive(h);
  }

  lemma SumOfFive(h: seq<byte>)
    requires |h| == PREFIX_SIZE
    ensures SumOf(h, 5) == Word(h, 0) + Word(h, 1) + Word(h, 2) + Word(h, 3) + Word(h, 4)
  {
    assert SumOf(h, 4) == SumOf(h, 3) + Word(h, 3);
    assert SumOf(h, 2) == SumOf(h, 1) + Word(h, 1);
  }

  /** Headers with the same first five words have the same checksum. */
  lemma {:induction false} SameCrc(a: seq<byte>, b: seq<byte>, n: nat)
    requires |a| == |b| == PREFIX_SIZE && n <= 5
    requires forall i: nat :: i < n ==> Word(a, i) == Word(b, i)
    ensures CrcAfter(a, n) == CrcAfter(b, n)
  {
    if n == 0 {
    } else {
      SameCrc(a, b, n - 1);
    }
  }

  /** A valid header is determined by its first five words. */
  lemma SameBuild(a: seq<byte>, b: seq<byte>)
    requires Valid(a) && Valid(b)
    requires Word(a, 0) == Word(b, 0) && Word(a, 1) == Word(b, 1) && Word(a, 2) == Word(b, 2)
    requires Word(a, 3) == Word(b, 3) && Word(a, 4) == Word(b, 4)
    ensures a == b
  {
    forall i: nat | i < 5
      ensures Word(a, i) == Word(b, i)
    {
      assert i == 0 || i == 1 || i == 2 || i == 3 || i == 4;
    }
    SameCrc(a, b, 5);
    SameWords(a, b);
  }

  /** The headers that can be built are exactly the valid ones carrying the magic word. */
  lemma BuiltIffValidWithMagic(h: seq<byte>)
    requires |h| == PREFIX_SIZE
    ensures Valid(h) && Word(h, MAGIC) == PREFIX_MAGIC
       <==> h == Header(Word(h, CMD), Word(h, CODE), Word(h, EXP), Word(h, LEN))
  {
    var h' := Header(Word(h, CMD), Word(h, CODE), Word(h, EXP), Word(h, LEN));
    HeaderFields(Word(h, CMD), Word(h, CODE), Word(h, EXP), Word(h, LEN));
    if Valid(h) && Word(h, MAGIC) == PREFIX_MAGIC {
      SameBuild(h, h');
    }
  }

  function ParamsOf(h: seq<byte>): Params
    requires |h| == PREFIX_SIZE
  {
    Params(Word(h, CMD), Word(h, CODE), Word(h, LEN))
  }

  /** The header after `SetTimeout`. */
  function WithTimeout(h: seq<byte>, ms: int): (r: seq<byte>)
    requires |h| == PREFIX_SIZE
    ensures |r| == PREFIX_SIZE
  {
    var stamped := WithWord(h, EXP, Wrap32(ms));
    WithWord(stamped, CRC, CrcCalc(stamped))
  }

  lemma SealedIsValid(b: seq<byte>)
    requires |b| == PREFIX_SIZE
    ensures Valid(WithWord(b, CRC, CrcCalc(b)))
    ensures forall i: nat :: i < 5 ==> Word(WithWord(b, CRC, CrcCalc(b)), i) == Word(b, i)
  {
    var r := WithWord(b, CRC, CrcCalc(b));
    forall i: nat | i < 6
      ensures Word(r, i) == if i == CRC then CrcCalc(b) else Word(b, i)
    {
      WordsAfterWrite(b, CRC, CrcCalc(b), i);
    }
    SameCrc(b, r, 5);
  }

  lemma TimeoutOfHeader(command: u32, code: u32, expiration: u32, len: u32, ms: int)
    ensures WithTimeout(Header(command, code, expiration, len), ms) == Header(command, code, Wrap32(ms), len)
  {
    var h := Header(command, code, expiration, len);
    var stamped := WithWord(h, EXP, Wrap32(ms));
    HeaderFields(command, code, expiration, len);
    HeaderFields(command, code, Wrap32(ms), len);
    forall i: nat | i < 5
      ensures Word(stamped, i) == if i == EXP then Wrap32(ms) else Word(h, i)
    {
      WordsAfterWrite(h, EXP, Wrap32(ms), i);
    }
    SealedIsValid(stamped);
    SameBuild(WithTimeout(h, ms), Header(command, code, Wrap32(ms), len));
  }

  /** The header after a sequence of `SetTimeout` calls. */
  function AfterTimeouts(h: seq<byte>, timeouts: seq<int>): (r: seq<byte>)
    requires |h| == PREFIX_SIZE
    ensures |r| == PREFIX_SIZE
    decreases |timeouts|
  {
    if timeouts == [] then h else AfterTimeouts(WithTimeout(h, timeouts[0]), timeouts[1..])
  }

  lemma {:induction false} TimeoutsOfHeader(command: u32, code: u32, expiration: u32, len: u32, timeouts: seq<int>)
    ensures AfterTimeouts(Header(command, code, expiration, len), timeouts)
         == Header(command, code, if timeouts == [] then expiration else Wrap32(timeouts[|timeouts| - 1]), len)
    decreases |timeouts|
  {
    if timeouts == [] {
    } else {
      TimeoutOfHeader(command, code, expiration, len, timeouts[0]);
      TimeoutsOfHeader(command, code, Wrap32(timeouts[0]), len, timeouts[1..]);
    }
  }

  /**
   Header round trip: whatever timeouts are stamped on a new header, it stays valid, its
   parameters are read back, and its expiration is the last timeout modulo 2^32.
   */
  lemma HeaderRoundTrip(params: Params, timeouts: seq<int>)
    ensures var h := AfterTimeouts(Header(params.command, params.code, 0, params.len), timeouts);
            && Valid(h)
            && ParamsOf(h) == params
            && Word(h, EXP) == LastTimeout(timeouts)
  {
    TimeoutsOfHeader(params.command, params.code, 0, params.len, timeouts);
    HeaderFields(params.command, params.code, LastTimeout(timeouts), params.len);
  }

  /** What the expiration word holds after a new header is stamped with these timeouts. */
  function LastTimeout(timeouts: seq<int>): u32 {
    if timeouts == [] then 0 else Wrap32(timeouts[|timeouts| - 1])
  }

  // ---------------------------------------------------------------- the operations

  method PutWord(storage: Storage, i: nat, w: u32)
    requires 4 * i + 4 <= |storage.data|
    modifies storage
    ensures storage.data == WithWord(old(storage.data), i, w)
  {
    storage.data := WithWord(storage.data, i, w);
  }

  method CrcSet(storage: Storage)
    requires |storage.data| == PREFIX_SIZE
    modifies storage
    ensures storage.data == WithWord(old(storage.data), CRC, CrcCalc(old(storage.data)))
  {
    var crc := CHECK_START;
    crc := Wrap32(crc - Word(storage.data, MAGIC));
    assert crc == CrcAfter(storage.data, 1);
    crc := Wrap32(crc - Word(storage.data, CMD));
    assert crc == CrcAfter(storage.data, 2);
    crc := Wrap32(crc - Word(storage.data, CODE));
    assert crc == CrcAfter(storage.data, 3);
    crc := Wrap32(crc - Word(storage.data, EXP));
    assert crc == CrcAfter(storage.data, 4);
    crc := Wrap32(crc - Word(storage.data, LEN));
    PutWord(storage, CRC, crc);
  }

  lemma SixWrites(b0: seq<byte>, params: Params)
    requires |b0| == PREFIX_SIZE
    ensures var b5 := WithWord(WithWord(WithWord(WithWord(WithWord(b0, MAGIC, PREFIX_MAGIC), CMD, params.command),
                                                 CODE, params.code), EXP, 0), LEN, params.len);
            WithWord(b5, CRC, CrcCalc(b5)) == Header(params.command, params.code, 0, params.len)
  {
    var b1 := WithWord(b0, MAGIC, PREFIX_MAGIC);
    var b2 := WithWord(b1, CMD, params.command);
    var b3 := WithWord(b2, CODE, params.code);
    var b4 := WithWord(b3, EXP, 0);
    var b5 := WithWord(b4, LEN, params.len);
    HeaderFields(params.command, params.code, 0, params.len);
    forall i: nat | i < 5
      ensures Word(b5, i) == [PREFIX_MAGIC, params.command, params.code, 0, params.len][i]
    {
      WordsAfterWrite(b0, MAGIC, PREFIX_MAGIC, i);
      WordsAfterWrite(b1, CMD, params.command, i);
      WordsAfterWrite(b2, CODE, params.code, i);
      WordsAfterWrite(b3, EXP, 0, i);
      WordsAfterWrite(b4, LEN, params.len, i);
    }
    SealedIsValid(b5);
    SameBuild(WithWord(b5, CRC, CrcCalc(b5)), Header(params.command, params.code, 0, params.len));
  }

  method SetParams(params: Params, storage: Storage) returns (ok: bool)
    modifies storage
    ensures ok
    ensures storage.data == Header(params.command, params.code, 0, params.len)
  {
    storage.Resize(PREFIX_SIZE);
    ghost var b0 := storage.data;
    PutWord(storage, MAGIC, PREFIX_MAGIC);
    PutWord(storage, CMD, params.command);
    PutWord(storage, CODE, params.code);
    PutWord(storage, EXP, 0);
    PutWord(storage, LEN, params.len);
    CrcSet(storage);
    SixWrites(b0, params);
    ok := true;
  }

  /** `ms` is a signed 64-bit count; only its value modulo 2^32 reaches the header. */
  method SetTimeout(ms: int, storage: Storage) returns (ok: bool)
    modifies storage
    ensures ok <==> |old(storage.data)| == PREFIX_SIZE
    ensures storage.data == if ok then WithTimeout(old(storage.data), ms) else old(storage.data)
  {
    ok := false;
    if |storage.data| == PREFIX_SIZE {
      PutWord(storage, EXP, Wrap32(ms));
      CrcSet(storage);
      ok := true;
    }
  }

  method GetParams(storage: Storage) returns (ok: bool, params: Params)
    ensures ok <==> |storage.data| == PREFIX_SIZE && Wrap32(WordSum(storage.data)) == CHECK_START
    ensures params == if ok then ParamsOf(storage.data) else NO_PARAMS
  {
    ok, params := false, NO_PARAMS;
    ValidIffSum(storage.data);
    if Valid(storage.data) {
      params := Params(Word(storage.data, CMD), Word(storage.data, CODE), Word(storage.data, LEN));
      ok := true;
    }
  }

  predicate HasExpiration(b: seq<byte>) {
    |b| == PREFIX_SIZE && Word(b, EXP) != 0
  }

  method ExpirationTimeValid(storage: Storage) returns (ok: bool, isValid: bool)
    ensures ok <==> |storage.data| == PREFIX_SIZE
    ensures isValid <==> HasExpiration(storage.data)
  {
    ok, isValid := false, false;
    if |storage.data| == PREFIX_SIZE {
      var expiration := Word(storage.data, EXP);
      if expiration != 0 {
        isValid := true;
      }
      ok := true;
    }
  }

  method ExpirationTimeGet(storage: Storage) returns (ok: bool, ms: u32)
    ensures ok <==> HasExpiration(storage.data)
    ensures ms == if ok then Word(storage.data, EXP) else 0
  {
    ok, ms := false, 0;
    var valid, defined := ExpirationTimeValid(storage);
    if valid && defined {
      ms := Word(storage.data, EXP);
      ok := true;
    }
  }

  // ---------------------------------------------------------------- a promise the code does not keep

  /** `storage[k]++` on one byte. */
  function Next(x: byte): byte {
    if x == 255 then 0 else x + 1
  }

  /** The library's own test corrupts byte 12 and expects the expiration to be rejected. */
  lemma CorruptHeaderStillExpires()
    ensures var h := Header(CMD_PING_REQUEST, 333, 555, 444);
            var bad := h[12 := Next(h[12])];
            !Valid(bad) && HasExpiration(bad)
  {
    var h := Header(CMD_PING_REQUEST, 333, 555, 444);
    var bad := h[12 := Next(h[12])];
    HeaderFields(CMD_PING_REQUEST, 333, 555, 444);
    OneWordChangeDetected(h, bad, EXP);
    var e, e' := h[12..16], bad[12..16];
    assert FromLe(e) == e[0] + 256 * FromLe(e[1..]);
    assert e'[0] == Next(e[0]) && e'[1..] == e[1..];
    assert FromLe(e') == e'[0] + 256 * FromLe(e[1..]);
  }

  /** `ExpirationTimeGet` rejects a corrupt header exactly when its expiration word is zero. */
  lemma CorruptHeaderRejectedIff(b: seq<byte>)
    requires !Valid(b) && |b| == PREFIX_SIZE
    ensures !HasExpiration(b) <==> b[12..16] == Zeros(4)
  {
    var e := b[12..16];
    LeFromLe(e);
    assert Le(0, 4) == [0] + Le(0, 3) && Le(0, 3) == [0] + Le(0, 2) && Le(0, 2) == [0] + Le(0, 1);
    assert Le(0, 4) == Zeros(4);
    if e == Zeros(4) {
      FromLeLe(0, 4);
    }
  }
}
