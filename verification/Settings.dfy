/** The settings store of lib/framework/sys_cfg.c, lines 20 to 110: string keys hashed to 16-bit ids of
    the flash store, which is a map from id to bytes; a zero-length write deletes. */
module Settings {
  import opened ConfigHash

  type Bytes = seq<bv8>
  type Flash = map<bv16, Bytes>

  /** Whether plain char is signed on the target. Everything below holds for both choices. */
  datatype Target = Target(charIsSigned: bool) {
    function KeyId(key: Bytes): bv16 {
      Hash(key, SEED, charIsSigned)
    }
  }

  /** One call of the store. errno is what the flash driver answers to a write, negative for a
      failed one; the buffer of a get is as long as its value_len. */
  datatype Call =
    | Get(key: Bytes, buffer: Bytes)
    | Set(key: Bytes, text: Bytes, errno: int)
    | Unset(key: Bytes, errno: int)
    | GetBlob(key: Bytes, buffer: Bytes)
    | SetBlob(key: Bytes, bytes: Bytes, errno: int)
  {
    predicate IsGet() {
      Get? || GetBlob?
    }

    /** What the call asks the flash to hold; deleting is writing nothing. */
    function Written(): Bytes
      requires !IsGet()
    {
      match this
      case Set(_, text, _) => CString(text)
      case Unset(_, _) => []
      case SetBlob(_, bytes, _) => bytes
    }
  }

  /** What the caller sees: the return code, and for a get its buffer afterwards */
  datatype Reply = Reply(ret: int, buffer: Bytes)

  function CopyInto(value: Bytes, buffer: Bytes): Bytes {
    if |value| <= |buffer| then value + buffer[|value|..] else value[..|buffer|]
  }

  lemma CopyIntoAt(value: Bytes, buffer: Bytes)
    ensures |CopyInto(value, buffer)| == |buffer|
    ensures forall i :: 0 <= i < |buffer| ==> CopyInto(value, buffer)[i] == if i < |value| then value[i] else buffer[i]
  {
  }

  function Put<K>(m: map<K, Bytes>, k: K, value: Bytes): map<K, Bytes> {
    if value == [] then m - {k} else m[k := value]
  }

  /** One call on a store indexed by k, whatever k is */
  function After<K>(m: map<K, Bytes>, k: K, call: Call): map<K, Bytes> {
    if call.IsGet() || call.errno < 0 then m else Put(m, k, call.Written())
  }

  /** The bytes a get finds: [] when there is no record */
  function At<K>(m: map<K, Bytes>, k: K): Bytes {
    if k in m then m[k] else []
  }

  /** An absent record reads as an empty one, and a write is found under its own index and no other. */
  lemma AtAfterPut<K>(m: map<K, Bytes>, k: K, j: K, value: Bytes)
    ensures k !in m ==> At(m, k) == []
    ensures k in m ==> At(m, k) == m[k]
    ensures At(Put(m, k, value), j) == if j == k then value else At(m, j)
  {
  }

  function Answer(found: Bytes, call: Call): Reply {
    if call.IsGet()
    then if found != [] then Reply(0, CopyInto(found, call.buffer)) else Reply(-1, call.buffer)
    else if call.Unset? then Reply(if call.errno < 0 then call.errno else 0, [])
    else Reply(if call.errno < 0 then -1 else 0, [])
  }

  // ----- runs over the flash, and over a plain map from keys -----

  function FlashRun(t: Target, flash: Flash, calls: seq<Call>): (r: (Flash, seq<Reply>))
    ensures |r.1| == |calls|
    decreases |calls|
  {
    if calls == [] then (flash, [])
    else
      var id := t.KeyId(calls[0].key);
      var (last, replies) := FlashRun(t, After(flash, id, calls[0]), calls[1..]);
      (last, [Answer(At(flash, id), calls[0])] + replies)
  }

  function MapRun(kv: map<Bytes, Bytes>, calls: seq<Call>): (r: (map<Bytes, Bytes>, seq<Reply>))
    ensures |r.1| == |calls|
    decreases |calls|
  {
    if calls == [] then (kv, [])
    else
      var k := calls[0].key;
      var (last, replies) := MapRun(After(kv, k, calls[0]), calls[1..]);
      (last, [Answer(At(kv, k), calls[0])] + replies)
  }

  ghost predicate Over(calls: seq<Call>, keys: set<Bytes>) {
    forall i :: 0 <= i < |calls| ==> calls[i].key in keys
  }

  ghost predicate CollisionFree(t: Target, keys: set<Bytes>) {
    forall j, k :: j in keys && k in keys && t.KeyId(j) == t.KeyId(k) ==> j == k
  }

  ghost predicate Agree(t: Target, flash: Flash, kv: map<Bytes, Bytes>, keys: set<Bytes>) {
    forall k :: k in keys ==> At(flash, t.KeyId(k)) == At(kv, k)
  }

  lemma StepAgrees(t: Target, flash: Flash, kv: map<Bytes, Bytes>, keys: set<Bytes>, call: Call)
    requires CollisionFree(t, keys) && Agree(t, flash, kv, keys) && call.key in keys
    ensures Agree(t, After(flash, t.KeyId(call.key), call), After(kv, call.key, call), keys)
    ensures Answer(At(flash, t.KeyId(call.key)), call) == Answer(At(kv, call.key), call)
  {
    hide Target.KeyId, Call.Written, CopyInto;
    var id := t.KeyId(call.key);
    forall k | k in keys
      ensures At(After(flash, id, call), t.KeyId(k)) == At(After(kv, call.key, call), k)
    {
      assert At(flash, t.KeyId(k)) == At(kv, k);
      assert t.KeyId(k) == id ==> k == call.key;
    }
  }

  /** On keys with pairwise distinct ids the hashed store is a plain key-value map: every run gives
      the same replies on both. */
  lemma {:induction false} RunsAgree(t: Target, flash: Flash, kv: map<Bytes, Bytes>, keys: set<Bytes>, calls: seq<Call>)
    requires CollisionFree(t, keys) && Agree(t, flash, kv, keys) && Over(calls, keys)
    ensures FlashRun(t, flash, calls).1 == MapRun(kv, calls).1
    ensures Agree(t, FlashRun(t, flash, calls).0, MapRun(kv, calls).0, keys)
    decreases |calls|
  {
    hide Agree, CollisionFree, After, Answer, Target.KeyId;
    if calls != [] {
      StepAgrees(t, flash, kv, keys, calls[0]);
      RunsAgree(t, After(flash, t.KeyId(calls[0].key), calls[0]), After(kv, calls[0].key, calls[0]), keys, calls[1..]);
    }
  }

  /** Two keys with one id are confused by a run of two calls. */
  lemma CollisionShows(t: Target, j: Bytes, k: Bytes)
    requires j != k && t.KeyId(j) == t.KeyId(k)
    ensures var calls := [SetBlob(j, [1], 0), GetBlob(k, [0])];
            FlashRun(t, map[], calls).1 != MapRun(map[], calls).1
  {
    hide Target.KeyId;
    var calls := [SetBlob(j, [1], 0), GetBlob(k, [0])];
    assert calls[1..] == [calls[1]];
    var id := t.KeyId(j);
    assert FlashRun(t, map[], calls).1[1] == Answer(At(map[id := [1]], id), calls[1]);
    assert MapRun(map[], calls).1[1] == Answer(At(map[j := [1]], k), calls[1]);
  }

  /** The store behaves as a key-value map on a set of keys exactly when their ids are distinct. */
  lemma IsMapIffCollisionFree(t: Target, keys: set<Bytes>)
    ensures CollisionFree(t, keys) <==>
            forall calls :: Over(calls, keys) ==> FlashRun(t, map[], calls).1 == MapRun(map[], calls).1
  {
    hide Target.KeyId, FlashRun, MapRun;
    if CollisionFree(t, keys) {
      forall calls | Over(calls, keys) ensures FlashRun(t, map[], calls).1 == MapRun(map[], calls).1 {
        RunsAgree(t, map[], map[], keys, calls);
      }
    } else {
      var j, k :| j in keys && k in keys && t.KeyId(j) == t.KeyId(k) && j != k;
      CollisionShows(t, j, k);
      assert Over([SetBlob(j, [1], 0), GetBlob(k, [0])], keys);
    }
  }

  // ----- what a get returns -----

  /** The latest value that a call of the run wrote under key with success; [] if there is none or
      if it was deleted or emptied since. */
  function LastWrite(calls: seq<Call>, key: Bytes): Bytes {
    if calls == [] then []
    else
      var n := |calls| - 1;
      if calls[n].key == key && !calls[n].IsGet() && calls[n].errno >= 0 then calls[n].Written()
      else LastWrite(calls[..n], key)
  }

  lemma {:induction false} RunSplit(t: Target, flash: Flash, calls: seq<Call>, last: Call)
    ensures FlashRun(t, flash, calls + [last]).0
         == After(FlashRun(t, flash, calls).0, t.KeyId(last.key), last)
    decreases |calls|
  {
    hide After, Answer, Target.KeyId;
    if calls == [] {
      assert calls + [last] == [last];
      assert [last][1..] == [];
    } else {
      assert (calls + [last])[1..] == calls[1..] + [last];
      RunSplit(t, After(flash, t.KeyId(calls[0].key), calls[0]), calls[1..], last);
    }
  }

  /** After any run over keys with distinct ids, a get succeeds exactly when a value was written last,
      and then delivers that value: writes under the other keys never matter. */
  lemma {:induction false} GetReturnsLastWrite(t: Target, keys: set<Bytes>, calls: seq<Call>, get: Call)
    requires CollisionFree(t, keys) && Over(calls, keys) && get.IsGet() && get.key in keys
    ensures Answer(At(FlashRun(t, map[], calls).0, t.KeyId(get.key)), get)
         == var last := LastWrite(calls, get.key);
            if last == [] then Reply(-1, get.buffer) else Reply(0, CopyInto(last, get.buffer))
    decreases |calls|
  {
    hide Target.KeyId, FlashRun, CopyInto, Call.Written;
    if calls == [] {
      assert FlashRun(t, map[], calls).0 == map[] by { EmptyRun(t); }
    } else {
      var n := |calls| - 1;
      var init, last := calls[..n], calls[n];
      assert calls == init + [last];
      RunSplit(t, map[], init, last);
      GetReturnsLastWrite(t, keys, init, get);
    }
  }

  lemma EmptyRun(t: Target)
    ensures FlashRun(t, map[], []).0 == map[]
  {
  }

  // ----- the calls themselves -----

  class SettingsStore {
    const target: Target
    var fs: Flash

    constructor (target: Target, flash: Flash)
      ensures this.target == target && fs == flash
    {
      this.target, fs := target, flash;
    }

    method KeyId(key: Bytes) returns (id: bv16)
      requires 0 !in key
      ensures id == target.KeyId(key)
    {
      CStringOfTerminated(key);
      id := MurmurOATT16(key + [0], SEED, target.charIsSigned);
    }

    /** syscfg_get and syscfg_get_blob, which have the same body */
    method SyscfgGet(key: Bytes, buffer: Bytes) returns (ret: int, value: Bytes)
      requires 0 !in key
      ensures Reply(ret, value) == Answer(At(fs, target.KeyId(key)), Get(key, buffer))
      ensures Reply(ret, value) == Answer(At(fs, target.KeyId(key)), GetBlob(key, buffer))
      ensures var record := At(fs, target.KeyId(key));
              if record == [] then ret == -1 && value == buffer
              else
                && ret == 0 && |value| == |buffer|
                && forall i :: 0 <= i < |buffer| ==> value[i] == if i < |record| then record[i] else buffer[i]
    {
      ret := 0;
      var id := KeyId(key);
      var readBytes;
      CopyIntoAt(At(fs, id), buffer);
      hide CopyInto, Target.KeyId;
      readBytes, value := NvsRead(id, buffer);
      if readBytes <= 0 {
        ret := -1;
      }
    }

    /** nvs_read: the length of the record, of which as much is copied as fits, or -ENOENT */
    method NvsRead(id: bv16, buffer: Bytes) returns (readBytes: int, value: Bytes)
      ensures readBytes == if At(fs, id) == [] then -2 else |At(fs, id)|
      ensures value == if At(fs, id) == [] then buffer else CopyInto(At(fs, id), buffer)
    {
      var found := At(fs, id);
      if found == [] {
        return -2, buffer;
      }
      return |found|, CopyInto(found, buffer);
    }

    /** nvs_write: atomic, and a failed one changes nothing */
    method NvsWrite(id: bv16, bytes: Bytes, errno: int) returns (written: int)
      modifies this
      ensures written == if errno < 0 then errno else |bytes|
      ensures fs == if errno < 0 then old(fs) else Put(old(fs), id, bytes)
    {
      if errno < 0 {
        return errno;
      }
      fs := Put(fs, id, bytes);
      written := |bytes|;
    }

    method SyscfgSet(key: Bytes, text: Bytes, errno: int) returns (ret: int)
      requires 0 !in key && 0 in text
      modifies this
      ensures ret == Answer(At(old(fs), target.KeyId(key)), Set(key, text, errno)).ret
      ensures fs == After(old(fs), target.KeyId(key), Set(key, text, errno))
      ensures ret == if errno < 0 then -1 else 0
      ensures fs == if errno < 0 then old(fs)
                    else if CString(text) == [] then old(fs) - {target.KeyId(key)}
                    else old(fs)[target.KeyId(key) := CString(text)]
    {
      ret := 0;
      var id := KeyId(key);
      var writeBytes := NvsWrite(id, CString(text), errno);
      if writeBytes < 0 {
        ret := -1;
      }
    }

    method SyscfgUnset(key: Bytes, errno: int) returns (rc: int)
      requires 0 !in key
      modifies this
      ensures rc == Answer(At(old(fs), target.KeyId(key)), Unset(key, errno)).ret
      ensures fs == After(old(fs), target.KeyId(key), Unset(key, errno))
      ensures rc == if errno < 0 then errno else 0
      ensures fs == if errno < 0 then old(fs) else old(fs) - {target.KeyId(key)}
    {
      var id := KeyId(key);
      rc := NvsWrite(id, [], errno);
    }

    method SyscfgSetBlob(key: Bytes, bytes: Bytes, errno: int) returns (ret: int)
      requires 0 !in key
      modifies this
      ensures ret == Answer(At(old(fs), target.KeyId(key)), SetBlob(key, bytes, errno)).ret
      ensures fs == After(old(fs), target.KeyId(key), SetBlob(key, bytes, errno))
      ensures ret == if errno < 0 then -1 else 0
      ensures fs == if errno < 0 then old(fs)
                    else if bytes == [] then old(fs) - {target.KeyId(key)}
                    else old(fs)[target.KeyId(key) := bytes]
    {
      ret := 0;
      var id := KeyId(key);
      var writeBytes := NvsWrite(id, bytes, errno);
      if writeBytes < 0 {
        ret := -1;
      }
    }
  }

  lemma {:induction false} CStringOfTerminated(key: Bytes)
    requires 0 !in key
    ensures CString(key + [0]) == key
  {
    if key == [] {
    } else {
      assert (key + [0])[1..] == key[1..] + [0];
      CStringOfTerminated(key[1..]);
    }
  }
}
