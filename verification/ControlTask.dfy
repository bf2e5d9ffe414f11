/** The handlers of app/src/control_task.c, on the state of the task: the nonce, the flag, the payload. */
module ControlTask {
  import opened Messages
  import opened Calls
  import opened Outcomes
  import opened Framework
  import opened AppMessages
  import opened ConfigHash
  import opened Decimal
  import Settings
  import DevNonce

  type Bytes = Settings.Bytes

  const EAGAIN := 11
  const TX_SIZE := 51

  /** "flow: " */
  const FLOW: Bytes := [0x66, 0x6C, 0x6F, 0x77, 0x3A, 0x20]

  /** What the uplink says about a reading, which %d prints as a signed number */
  function FlowText(reading: Word): Bytes {
    FLOW + FormatInt(ToInt32(reading))
  }

  function TxAfter(tx: Bytes, e: EventBody): (r: Bytes)
    requires |tx| == TX_SIZE
    ensures |r| == TX_SIZE
  {
    if e.eventType == SENSOR_EVENT_WATER_FLOW then Snprintf(tx, FlowText(e.data)) else tx
  }

  function FlagAfter(flag: bool, e: EventBody): bool {
    if e.eventType == SENSOR_EVENT_WATER_FLOW then !flag else flag
  }

  lemma FlowTextFits(reading: Word)
    ensures |FlowText(reading)| < TX_SIZE && 0 !in FlowText(reading)
    ensures FlowText(reading)[|FLOW|..] == FormatInt(ToInt32(reading))
  {
    hide Digits, FormatInt, Power10;
    var i := ToInt32(reading);
    AtoiOfInt(i);
    FormatLength(i);
    assert forall c | c in FlowText(reading) :: c in FLOW || c in FormatInt(i);
  }

  lemma FormatLength(i: int)
    requires -0x8000_0000 <= i < 0x8000_0000
    ensures |FormatInt(i)| <= 11
  {
    hide Digits;
    assert Power10(10) == 10_000_000_000 by {
      assert Power10(5) == 100_000;
    }
    hide Power10;
    DigitsLength(if i < 0 then -i else i, 10, 10_000_000_000);
  }

  /** The payload tells the reading: "flow: ", and behind it a text that atoi reads as the reading, signed. */
  lemma FlowTextTellsReading(reading: Word)
    ensures |FlowText(reading)| > 6 && FlowText(reading)[..6] == [0x66, 0x6C, 0x6F, 0x77, 0x3A, 0x20]
    ensures reading < 0x8000_0000 ==> Atoi(FlowText(reading)[6..]) == reading
    ensures reading >= 0x8000_0000 ==> Atoi(FlowText(reading)[6..]) == reading - 0x1_0000_0000
  {
    hide Atoi, Digits;
    FlowTextFits(reading);
    AtoiOfInt(ToInt32(reading));
    FormatIntSign(ToInt32(reading));
    hide FormatInt;
    assert FlowText(reading)[..6] == FLOW;
  }

  /** payload is "flow: " and a text that atoi reads as the reading, signed. */
  predicate SaysFlow(payload: Bytes, reading: Word) {
    && |payload| > 6 && payload[..6] == [0x66, 0x6C, 0x6F, 0x77, 0x3A, 0x20]
    && Atoi(payload[6..]) == if reading < 0x8000_0000 then reading else reading - 0x1_0000_0000
  }

  lemma FlowTextSays(reading: Word)
    ensures SaysFlow(FlowText(reading), reading)
  {
    FlowTextTellsReading(reading);
    hide FlowText, Atoi;
  }

  /** Different readings have different payloads. */
  lemma FlowTextsDiffer(reading: Word, other: Word)
    requires FlowText(reading) == FlowText(other)
    ensures reading == other
  {
    FlowTextTellsReading(reading);
    FlowTextTellsReading(other);
    hide FlowText, Atoi;
  }

  // ----- the retry loops -----

  /** An answer of lorawan_join, and of the flash to the write of the nonce after it */
  datatype JoinResult = JoinResult(ret: int, errno: int)

  /** The attempts of one call of the handler as events of the device */
  function JoinEvents(results: seq<JoinResult>): seq<DevNonce.Event>
    decreases |results|
  {
    if results == [] then []
    else
      var n := |results| - 1;
      JoinEvents(results[..n]) + [DevNonce.Attempt, DevNonce.Save(results[n].errno)]
  }

  /** A failed attempt that counts: anything negative but -EAGAIN */
  predicate Hard(ret: int) {
    ret < 0 && ret != -EAGAIN
  }

  function HardFailures(results: seq<int>): nat
    decreases |results|
  {
    if results == [] then 0
    else
      var n := |results| - 1;
      HardFailures(results[..n]) + if Hard(results[n]) then 1 else 0
  }

  /** The attempt that ends the sending: the first success, or the seventh failure that counts */
  predicate EndsSending(results: seq<int>, n: nat)
    requires 0 < n <= |results|
  {
    results[n - 1] >= 0 || (Hard(results[n - 1]) && HardFailures(results[..n]) == 7)
  }

  /** HardFailures counts the negative answers other than -11. */
  lemma {:induction false} HardFailuresCount(results: seq<int>, n: nat)
    requires n <= |results|
    ensures HardFailures(results[..n]) == |set k | 0 <= k < n && results[k] < 0 && results[k] != -11|
    decreases n
  {
    var now := set k | 0 <= k < n && results[k] < 0 && results[k] != -11;
    if n == 0 {
      assert now == {};
    } else {
      HardFailuresCount(results, n - 1);
      var before := set k | 0 <= k < n - 1 && results[k] < 0 && results[k] != -11;
      assert results[..n][..n - 1] == results[..n - 1];
      assert now == before + if Hard(results[n - 1]) then {n - 1} else {};
    }
  }

  lemma {:induction false} HardFailuresGrow(results: seq<int>, k: nat, n: nat)
    requires k <= n <= |results|
    ensures HardFailures(results[..k]) <= HardFailures(results[..n])
    decreases n
  {
    if k < n {
      assert results[..n][..n - 1] == results[..n - 1];
      HardFailuresGrow(results, k, n - 1);
    }
  }

  /** Where the first success comes in time, the sending ends with it. */
  lemma FirstSuccessEnds(results: seq<int>, n: nat, finished: bool, s: nat)
    requires n <= |results| && s < |results|
    requires forall k :: 0 < k < n ==> !EndsSending(results, k)
    requires if finished then n > 0 && EndsSending(results, n)
             else n == |results| && (n > 0 ==> !EndsSending(results, n))
    requires results[s] >= 0 && forall k :: 0 <= k < s ==> results[k] < 0
    requires |set k | 0 <= k < s && results[k] < 0 && results[k] != -11| < 7
    ensures finished && n == s + 1
  {
    HardFailuresCount(results, s);
    assert EndsSending(results, s + 1);
    if n <= s && finished {
      HardFailuresGrow(results, n, s);
    }
  }

  lemma RunJoinEvents(d: DevNonce.Device, results: seq<JoinResult>, last: JoinResult)
    ensures DevNonce.Run(d, JoinEvents(results + [last]))
         == DevNonce.Step(DevNonce.Step(DevNonce.Run(d, JoinEvents(results)), DevNonce.Attempt),
                          DevNonce.Save(last.errno))
  {
    hide DevNonce.Step;
    var before, one := JoinEvents(results), [DevNonce.Attempt, DevNonce.Save(last.errno)];
    assert (results + [last])[..|results|] == results;
    assert JoinEvents(results + [last]) == before + one;
    assert (before + one)[..|before| + 1] == before + [DevNonce.Attempt];
    assert (before + [DevNonce.Attempt])[..|before|] == before;
  }

  lemma NoJoins(d: DevNonce.Device, results: seq<JoinResult>)
    requires results == []
    ensures DevNonce.Run(d, JoinEvents(results)) == d
  {
  }

  /** One turn of the join loop */
  lemma JoinOnce(start: DevNonce.Device, results: seq<JoinResult>, n: nat, d: DevNonce.Device, nonce: DevNonce.Nonce)
    requires n < |results| && d == DevNonce.Run(start, JoinEvents(results[..n])) && d.phase == DevNonce.Ready(nonce)
    ensures DevNonce.Run(start, JoinEvents(results[..n + 1]))
         == DevNonce.Device(d.target,
                            Settings.After(d.flash, d.target.KeyId(DevNonce.KEY),
                                           DevNonce.SaveCall(nonce, results[n].errno)),
                            DevNonce.Ready(DevNonce.ToUint16(nonce + 1)), d.log + [nonce])
  {
    hide DevNonce.Run, JoinEvents, Settings.After, DevNonce.SaveCall, Settings.Target.KeyId;
    RunJoinEvents(start, results[..n], results[n]);
    assert results[..n] + [results[n]] == results[..n + 1];
  }

  // ----- the task -----

  class ControlTask {
    const framework: MessageFramework
    const store: Settings.SettingsStore
    const txData: array<bv8>
    var devNonce: DevNonce.Nonce
    var bSendMsgLorawan: bool
    var timerArmed: bool

    /** tx_data always holds a C string. */
    ghost predicate Valid()
      reads txData
    {
      framework.Valid() && txData.Length == TX_SIZE && 0 in txData[..]
    }

    ghost function Record(): Bytes
      reads store
    {
      Settings.At(store.fs, store.target.KeyId(DevNonce.KEY))
    }

    /** The device of the DevNonce runs, with the attempts so far */
    ghost function DeviceNow(log: seq<DevNonce.Nonce>): DevNonce.Device
      reads store, this
    {
      DevNonce.Device(store.target, store.fs, DevNonce.Ready(devNonce), log)
    }

    constructor (framework: MessageFramework, store: Settings.SettingsStore)
      requires framework.Valid()
      ensures Valid() && fresh(txData) && txData[..] == Zeros(TX_SIZE)
      ensures this.framework == framework && this.store == store
      ensures devNonce == 0 && !bSendMsgLorawan && !timerArmed
    {
      this.framework, this.store := framework, store;
      txData := new bv8[TX_SIZE](_ => 0);
      devNonce, bSendMsgLorawan, timerArmed := 0, false, false;
      new;
      assert txData[..] == Zeros(TX_SIZE);
      assert txData[..][0] == 0;
    }

    method GetDevNonce() returns (nonce: DevNonce.Nonce)
      ensures nonce == DevNonce.Load(Record())
      ensures Record() == [] ==> nonce == 0
      ensures forall n: nat :: n < 0x1_0000 && Record() == Digits(n) ==> nonce == n
    {
      forall n: nat | n < 0x1_0000 ensures DevNonce.Load([]) == 0 && DevNonce.Load(Digits(n)) == n {
        DevNonce.LoadsRecord(n);
      }
      DevNonce.LoadsRecord(0);
      hide Digits;
      hide Atoi, CString, DevNonce.ToUint16, Settings.Target.KeyId;
      assert 0 !in DevNonce.KEY;
      nonce := 0;
      var ret, text := store.SyscfgGet(DevNonce.KEY, Zeros(10));
      if ret == -1 {
        return;
      }
      nonce := DevNonce.ToUint16(Atoi(CString(text)));
    }

    method IncDevNonce(nonce: DevNonce.Nonce, errno: int) returns (next: DevNonce.Nonce)
      modifies store
      ensures next == DevNonce.ToUint16(nonce + 1)
      ensures store.fs
           == Settings.After(old(store.fs), store.target.KeyId(DevNonce.KEY), DevNonce.SaveCall(nonce, errno))
      ensures next == (nonce + 1) % 0x1_0000
      ensures if errno < 0 then store.fs == old(store.fs) else Record() == Digits(next)
    {
      if errno >= 0 {
        DevNonce.SavedText(store.fs, store.target, nonce, errno);
      }
      hide Digits, Settings.Target.KeyId, Settings.At, CString;
      assert 0 !in DevNonce.KEY;
      next := DevNonce.ToUint16(nonce + 1);
      var text := Snprintf(Zeros(10), Digits(next));
      NonceTextFits(next);
      var ret := store.SyscfgSet(DevNonce.KEY, text, errno);
    }

    /** lorawan_init: the answer of lorawan_start decides. */
    method LorawanInit(startRet: int, grants: Grants) returns (ok: bool)
      requires Valid()
      modifies framework, this`devNonce
      ensures Valid() && ok == (startRet >= 0)
      ensures devNonce == if ok then DevNonce.Load(Record()) else old(devNonce)
      ensures ok && Record() == [] ==> devNonce == 0
      ensures framework.Now() == if ok then Sent(old(framework.Now()), Create(Msg(9, 0, 1, 0, []), Direct(1)), grants)
                                 else old(framework.Now())
    {
      hide DevNonce.Load, Finish;
      if startRet < 0 {
        return false;
      }
      devNonce := GetDevNonce();
      var result := framework.SysmsgCreateAndSend(MSG_ID_CONTROL_TASK, MSG_ID_CONTROL_TASK,
                                                         SMC_JOIN_LORAWAN, grants);
      ok := true;
    }

    method HeartBeatMsgHandler(grants: Grants)
      requires Valid()
      modifies framework, this`timerArmed
      ensures Valid() && timerArmed
      ensures framework.Now() == Sent(old(framework.Now()), Create(Msg(12, 0, 1, 0, []), Direct(2)), grants)
    {
      hide Finish;
      var result := framework.SysmsgCreateAndSend(MSG_ID_CONTROL_TASK, MSG_ID_SENSOR_TASK,
                                                         SMC_SENSOR_MEASURE, grants);
      timerArmed := true;
    }

    /** join_lorawan_msg_handler, for as long as results last: a power cycle may end the loop. It tries
        until the first answer 0, every attempt with the next nonce, and then asks for a measurement. */
    method JoinLorawanMsgHandler(results: seq<JoinResult>, grants: Grants, ghost log: seq<DevNonce.Nonce>)
      returns (n: nat, joined: bool, ghost used: seq<DevNonce.Nonce>)
      requires Valid()
      modifies framework, store, this`devNonce
      ensures Valid() && n <= |results|
      ensures forall k :: 0 <= k < n - 1 ==> results[k].ret != 0
      ensures if joined then n > 0 && results[n - 1].ret == 0 else n == |results| && (n > 0 ==> results[n - 1].ret != 0)
      ensures |used| == n && forall k :: 0 <= k < n ==> used[k] == DevNonce.NonceAt(old(devNonce), k)
      ensures forall k :: 0 <= k < n ==> used[k] == (old(devNonce) + k) % 0x1_0000
      ensures DeviceNow(log + used) == DevNonce.Run(old(DeviceNow(log)), JoinEvents(results[..n]))
      ensures var ask := Create(Msg(12, 0, 1, 0, []), Direct(2));
              framework.Now() == if joined then Sent(old(framework.Now()), ask, grants) else old(framework.Now())
    {
      hide Finish, DevNonce.SaveCall, Settings.After, Settings.Target.KeyId, DevNonce.NonceAt;
      hide DevNonce.ToUint16, DevNonce.Run, JoinEvents;
      NoJoins(DeviceNow(log), results[..0]);
      assert log + [] == log;
      n, joined, used := 0, false, [];
      DevNonce.NextNonce(devNonce, 0);
      while n < |results| && !joined
        invariant n <= |results| && Valid() && framework.Now() == old(framework.Now())
        invariant joined ==> n > 0 && results[n - 1].ret == 0
        invariant forall k :: 0 <= k < n && !(joined && k == n - 1) ==> results[k].ret != 0
        invariant |used| == n && forall k :: 0 <= k < n ==> used[k] == DevNonce.NonceAt(old(devNonce), k)
        invariant devNonce == DevNonce.NonceAt(old(devNonce), n)
        invariant DeviceNow(log + used) == DevNonce.Run(old(DeviceNow(log)), JoinEvents(results[..n]))
      {
        JoinOnce(old(DeviceNow(log)), results, n, DeviceNow(log + used), devNonce);
        assert log + used + [devNonce] == log + (used + [devNonce]);
        var ret := results[n].ret;
        if ret < 0 {
          // the source assigns here where it means to compare
          ret := -DevNonce.ETIMEDOUT;
        }
        used := used + [devNonce];
        DevNonce.NextNonce(old(devNonce), n + 1);
        devNonce := IncDevNonce(devNonce, results[n].errno);
        n := n + 1;
        joined := ret == 0;
      }
      forall k | 0 <= k < n ensures used[k] == (old(devNonce) + k) % 0x1_0000 {
        DevNonce.NonceAtIs(old(devNonce), k);
      }
      if joined {
        var result := framework.SysmsgCreateAndSend(MSG_ID_CONTROL_TASK, MSG_ID_SENSOR_TASK,
                                                           SMC_SENSOR_MEASURE, grants);
      }
    }

    method SensorEventMsgHandler(p: Ptr, grants: Grants)
      requires Valid() && p in framework.heap && |framework.heap[p].body| >= EVENT_BODY_SIZE
      modifies framework, txData, this`bSendMsgLorawan
      ensures Valid()
      ensures txData[..] == TxAfter(old(txData[..]), Decode(old(framework.heap)[p].body))
      ensures bSendMsgLorawan == FlagAfter(old(bSendMsgLorawan), Decode(old(framework.heap)[p].body))
      ensures var e := Decode(old(framework.heap)[p].body);
              if e.eventType == 10
              then
                && bSendMsgLorawan == !old(bSendMsgLorawan)
                && SaysFlow(CString(txData[..]), e.data)
              else bSendMsgLorawan == old(bSendMsgLorawan) && txData[..] == old(txData[..])
      ensures framework.Now()
           == if bSendMsgLorawan
              then Sent(old(framework.Now()), Create(Msg(10, 0, 1, 0, []), Direct(1)), grants)
              else old(framework.Now())
    {
      hide Finish, FormatInt, CString, WordAt;
      var e := Decode(framework.heap[p].body);
      if e.eventType == SENSOR_EVENT_WATER_FLOW {
        FlowTextFits(e.data);
        CStringOfSnprintf(txData[..], FlowText(e.data));
        FlowTextSays(e.data);
        hide Snprintf, FlowText, SaysFlow;
        Overwrite(Snprintf(txData[..], FlowText(e.data)));
        bSendMsgLorawan := !bSendMsgLorawan;
      }
      if bSendMsgLorawan {
        var result := framework.SysmsgCreateAndSend(MSG_ID_CONTROL_TASK, MSG_ID_CONTROL_TASK,
                                                           SMC_SEND_DATA_LORAWAN, grants);
      }
    }

    method Overwrite(bytes: Bytes)
      requires |bytes| == txData.Length
      modifies txData
      ensures txData[..] == bytes
    {
      forall i | 0 <= i < txData.Length {
        txData[i] := bytes[i];
      }
    }

    /** send_data_lorawan_msg_handler, for as long as results last. It stops at the first attempt that
        ends the sending, never before, and then clears the payload. */
    method SendDataLorawanMsgHandler(results: seq<int>) returns (n: nat, finished: bool, payload: Bytes)
      requires Valid()
      modifies txData
      ensures Valid() && n <= |results| && payload == CString(old(txData[..]))
      ensures forall k :: 0 < k < n ==> !EndsSending(results, k)
      ensures finished ==> n > 0 && EndsSending(results, n) && txData[..] == Zeros(TX_SIZE)
      ensures !finished ==> n == |results| && (n > 0 ==> !EndsSending(results, n)) && txData[..] == old(txData[..])
      ensures HardFailures(results[..n]) <= 7
      ensures forall k :: 0 <= k < n - 1 ==> results[k] < 0
      ensures finished ==> results[n - 1] >= 0
                           || (results[n - 1] != -11
                               && |set k | 0 <= k < n && results[k] < 0 && results[k] != -11| == 7)
      ensures finished ==> txData.Length == 51 && forall i :: 0 <= i < 51 ==> txData[i] == 0
      ensures !finished ==> (forall k :: 0 <= k < n ==> results[k] < 0)
                            && |set k | 0 <= k < n && results[k] < 0 && results[k] != -11| < 7
      ensures forall s :: 0 <= s < |results| && results[s] >= 0 && (forall k :: 0 <= k < s ==> results[k] < 0)
                          && |set k | 0 <= k < s && results[k] < 0 && results[k] != -11| < 7
                ==> finished && n == s + 1
    {
      hide CString;
      payload := CString(txData[..]);
      n, finished := 0, false;
      var retries := 0;
      while n < |results| && !finished
        invariant n <= |results| && retries <= 6 && txData[..] == old(txData[..])
        invariant finished ==> n > 0 && EndsSending(results, n)
        invariant forall k :: 0 <= k < n && !(finished && k == n - 1) ==> results[k] < 0
        invariant HardFailures(results[..n]) == if finished && results[n - 1] < 0 then 7 else retries
        invariant forall k :: 0 < k <= n && !(finished && k == n) ==> !EndsSending(results, k)
      {
        var ret := results[n];
        assert results[..n + 1][..n] == results[..n];
        n := n + 1;
        if ret == -EAGAIN {
        } else if ret < 0 {
          if retries > 5 {
            finished := true;
          } else {
            retries := retries + 1;
          }
        } else {
          finished := true;
        }
      }
      HardFailuresCount(results, n);
      forall s | 0 <= s < |results| && results[s] >= 0 && (forall k :: 0 <= k < s ==> results[k] < 0)
                 && |set k | 0 <= k < s && results[k] < 0 && results[k] != -11| < 7
        ensures finished && n == s + 1
      {
        FirstSuccessEnds(results, n, finished, s);
      }
      if finished {
        Overwrite(Zeros(TX_SIZE));
        assert txData[..][0] == 0;
      }
    }
  }

  lemma NonceTextFits(nonce: DevNonce.Nonce)
    ensures 0 in Snprintf(Zeros(10), Digits(nonce))
  {
    AtoiOfDigits(nonce);
    assert Power10(5) == 100000;
    hide Digits;
    DigitsLength(nonce, 5, 100000);
    CStringOfSnprintf(Zeros(10), Digits(nonce));
  }
}
