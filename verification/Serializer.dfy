/** The stateful serializer: one offset, one sticky state, used for writing or for reading. */
module Serializer {
  import opened Bytes
  import opened Buffers
  import opened SerializerFormat

  datatype State = Unknown | Ok | Failed

  class Serializer {
    var state: State
    var offset: nat

    ghost function AsReader(): Reader
      reads this
    {
      Reader(state == Ok, offset)
    }

    ghost function AsWriter(storage: Storage): Writer
      reads this, storage
    {
      Writer(state == Ok, offset, storage.data)
    }

    /** The offset never points past the vector being written. */
    ghost predicate Fits(storage: Storage)
      reads this, storage
    {
      state == Ok ==> offset <= |storage.data|
    }

    constructor ()
      ensures AsReader() == START
    {
      state := Ok;
      offset := 0;
    }

    method Reset()
      modifies this
      ensures AsReader() == START
    {
      state := Ok;
      offset := 0;
    }

    predicate CanContinue()
      reads this
    {
      state == Ok
    }

    predicate ExportStatus()
      reads this
      ensures ExportStatus() <==> AsReader().ok
    {
      state == Ok
    }

    predicate ImportStatus(storage: Storage)
      reads this, storage
      ensures ImportStatus(storage) <==> AsReader() == Reader(true, |storage.data|)
    {
      if state != Ok then false else |storage.data| == offset
    }

    method Err()
      modifies this`state
      ensures state == Failed
    {
      state := Failed;
    }

    /** Grows the vector by `len`, wherever the offset is. */
    method CheckSize(storage: Storage, len: nat)
      modifies storage
      ensures storage.data == Resized(old(storage.data), |old(storage.data)| + len)
    {
      storage.Resize(|storage.data| + len);
    }

    method Store(value: seq<byte>, storage: Storage)
      requires Fits(storage)
      modifies this, storage
      ensures Fits(storage)
      ensures AsWriter(storage) == StoreBytes(old(AsWriter(storage)), value)
    {
      if CanContinue() {
        CheckSize(storage, |value|);
        storage.data := Patched(storage.data, offset, value);
        offset := offset + |value|;
      }
    }

    method StoreFix(f: FixKind, v: int, storage: Storage)
      requires InRange(f, v) && Fits(storage)
      modifies this, storage
      ensures Fits(storage)
      ensures AsWriter(storage) == StoreItem(old(AsWriter(storage)), Fix(f, v))
    {
      if CanContinue() {
        var tag := FixTag(f);
        var len := FixWidth(f);
        if f == Unsupported {
          Err();
        }
        Store([tag], storage);
        Store(Le(RawOf(f, v), len), storage);
      }
    }

    /** Any other container than the two of the type table is `KFix(Unsupported)`; storing one fails. */
    method StoreVar(k: Kind, bytes: seq<byte>, storage: Storage)
      requires (k.KVec? || k.KStr? || k == KFix(Unsupported)) && Fits(storage)
      modifies this, storage
      ensures Fits(storage)
      ensures AsWriter(storage)
           == StoreItem(old(AsWriter(storage)), if k.KFix? then Fix(Unsupported, 0) else Sized(k, bytes))
    {
      hide StoreBytes, Le;
      if CanContinue() && k.KFix? {
        Err();
      }
      if CanContinue() {
        var len := |bytes|;
        var lenLen, tag;
        if len == 0 {
          lenLen, tag := 0, FormTag(k, FZero);
        } else if len <= 255 {
          lenLen, tag := 1, FormTag(k, FByte);
        } else if len <= 65535 {
          lenLen, tag := 2, FormTag(k, FWord);
        } else {
          lenLen, tag := 4, FormTag(k, FDword);
        }
        Store([tag], storage);
        if len > 0 {
          Store(Le(len, lenLen), storage);
          Store(bytes, storage);
        }
      }
    }

    method StoreCnt(cnt: nat, storage: Storage)
      requires Fits(storage)
      modifies this, storage
      ensures Fits(storage)
      ensures AsWriter(storage) == StoreItem(old(AsWriter(storage)), Cnt(cnt))
    {
      if CanContinue() {
        var tag, len := FormTag(KCnt, FDword), 4;
        if cnt <= 65535 {
          tag, len := FormTag(KCnt, FWord), 2;
        }
        if cnt <= 255 {
          tag, len := FormTag(KCnt, FByte), 1;
        }
        if cnt == 0 {
          tag, len := FormTag(KCnt, FZero), 0;
        }
        Store([tag], storage);
        if len > 0 {
          Store(Le(cnt, len), storage);
        }
      }
    }

    /** Copies the next `len` bytes out; running past the end fails and copies nothing. */
    method Load(storage: Storage, len: nat) returns (thrown: bool, value: seq<byte>)
      modifies this
      ensures thrown <==> old(offset) + len > |storage.data|
      ensures thrown ==> state == Failed && offset == old(offset) && value == []
      ensures !thrown ==> state == old(state) && offset == old(offset) + len
      ensures !thrown ==> value == storage.data[old(offset)..old(offset) + len]
    {
      if offset + len > |storage.data| {
        Err();
        thrown, value := true, [];
      } else {
        thrown, value := false, storage.data[offset..offset + len];
        offset := offset + len;
      }
    }

    method LoadFix(f: FixKind, storage: Storage) returns (v: int)
      modifies this
      ensures (Fix(f, v), AsReader()) == LoadItem(KFix(f), storage.data, old(AsReader()))
    {
      v := 0;
      if CanContinue() {
        var expTag, expLen := FixTag(f), FixWidth(f);
        var thrown, b := Load(storage, 1);
        if !thrown {
          if b[0] != expTag {
            Err();
          } else {
            var thrown, b := Load(storage, expLen);
            if !thrown {
              v := ValueOf(f, FromLe(b));
            }
          }
        }
      }
    }

    /** Loading an unsupported container takes one byte, if there is one, and fails. */
    method LoadVar(k: Kind, storage: Storage) returns (bytes: seq<byte>)
      requires k.KVec? || k.KStr? || k == KFix(Unsupported)
      modifies this
      ensures !k.KFix? ==> (Sized(k, bytes), AsReader()) == LoadItem(k, storage.data, old(AsReader()))
      ensures k.KFix? ==>
                && bytes == []
                && var r := old(AsReader());
                   AsReader() == if r.ok && Holds(storage.data, r.offset, 1) then Reader(false, r.offset + 1)
                                 else Reader(false, r.offset)
    {
      bytes := [];
      if CanContinue() {
        var thrown, b := Load(storage, 1);
        if !thrown {
          var cntLen := 0;
          if k.KFix? {
            Err();
          } else if b[0] == FormTag(k, FDword) {
            cntLen := 4;
          } else if b[0] == FormTag(k, FWord) {
            cntLen := 2;
          } else if b[0] == FormTag(k, FByte) {
            cntLen := 1;
          } else if b[0] == FormTag(k, FZero) {
            cntLen := 0;
          } else {
            Err();
          }
          if CanContinue() {
            if cntLen > 0 {
              var thrown, b := Load(storage, cntLen);
              if CanContinue() {
                var len := FromLe(b);
                bytes := Zeros(len);
                var thrown, b := Load(storage, len);
                if !thrown {
                  bytes := b;
                }
              }
            }
          }
        }
      }
    }

    method LoadCnt(storage: Storage) returns (cnt: nat)
      modifies this
      ensures (Cnt(cnt), AsReader()) == LoadItem(KCnt, storage.data, old(AsReader()))
    {
      cnt := 0;
      if CanContinue() {
        var thrown, b := Load(storage, 1);
        if !thrown {
          var cntLen := 0;
          if b[0] == FormTag(KCnt, FZero) {
            cntLen := 0;
          } else if b[0] == FormTag(KCnt, FByte) {
            cntLen := 1;
          } else if b[0] == FormTag(KCnt, FWord) {
            cntLen := 2;
          } else if b[0] == FormTag(KCnt, FDword) {
            cntLen := 4;
          } else {
            Err();
          }
          if cntLen > 0 {
            var thrown, b := Load(storage, cntLen);
            if CanContinue() {
              cnt := FromLe(b);
            }
          }
        }
      }
    }
  }
}
