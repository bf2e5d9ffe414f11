/** The handlers and timer callbacks of app/src/sensor_task.c. */
module SensorTask {
  import opened Messages
  import opened Calls
  import opened Outcomes
  import opened Framework
  import opened AppMessages
  import opened ConfigHash
  import opened Decimal
  import Settings
  import DevNonce

  type Bytes = Settings.Bytes

  /** The reading that the measure handler makes of the record of "water_flow" */
  function Reading(record: Bytes): Word {
    ToUint32(Atoi(CString(Settings.CopyInto(record, Zeros(12)))))
  }

  /** What water_flower_check (app/src/bsp.c, lines 167 to 176) writes for its pulse count */
  function MeterCall(count: Word, errno: int): Settings.Call {
    Settings.Set(DevNonce.WATER_FLOW, Snprintf(Zeros(12), Digits(count)), errno)
  }

  lemma ReadingOfDigits(count: Word)
    requires count < 0x8000_0000
    ensures Reading(Digits(count)) == count && |Digits(count)| <= 10 && 0 !in Digits(count)
  {
    hide Settings.CopyInto, Atoi, CString, Snprintf, Zeros;
    AtoiOfDigits(count);
    assert Power10(10) == 10_000_000_000 by {
      assert Power10(5) == 100_000;
    }
    hide Power10, Digits;
    DigitsLength(count, 10, 10_000_000_000);
    CStringOfRecord(Digits(count), 12);
  }

  /** The meter's last count that was stored is the record in decimal, and the reading is that count. Beyond INT_MAX,
      atoi is undefined in C. */
  lemma ReadingOfMeter(flash: Settings.Flash, t: Settings.Target, count: Word, errno: int)
    requires errno >= 0 && count < 0x8000_0000
    ensures var id := t.KeyId(DevNonce.WATER_FLOW);
            && Settings.At(Settings.After(flash, id, MeterCall(count, errno)), id) == Digits(count)
            && Reading(Digits(count)) == count
  {
    hide Settings.Target.KeyId, CString, Snprintf, Zeros;
    ReadingOfDigits(count);
    hide Digits, Reading;
    CStringOfSnprintf(Zeros(12), Digits(count));
  }

  /** Before the meter has counted, the reading is 0. */
  lemma ReadingWithoutRecord()
    ensures Reading([]) == 0
  {
    NoRecord();
    hide Settings.CopyInto;
    var buf := Zeros(12);
    assert CString(buf) == [] by {
      assert buf[0] == 0;
    }
    hide CString;
  }

  function TriggerOf(reading: Word): Create {
    EventCreate(SMC_EVENT_TRIGGER, MSG_ID_EVENT_TASK, EventBody(SENSOR_EVENT_WATER_FLOW, reading, 0, 0))
  }

  const INTERVAL_SECONDS := 60

  /** A running timer goes on; one that does not run is started. */
  function Restarted(remaining: nat): (r: nat)
    ensures remaining > 0 ==> r == remaining
    ensures remaining == 0 ==> r == 60
  {
    if remaining == 0 then INTERVAL_SECONDS else remaining
  }

  // the read timer over time

  datatype TimerEvent = MeasureHandled | SecondPasses

  /** The read timer, the time, and the times at which the timer has fired */
  datatype Timer = Timer(remaining: nat, now: nat, fired: seq<nat>)

  function TimerStep(t: Timer, e: TimerEvent): Timer {
    match e
    case MeasureHandled => t.(remaining := Restarted(t.remaining))
    case SecondPasses =>
      if t.remaining == 0 then t.(now := t.now + 1)
      else Timer(t.remaining - 1, t.now + 1, if t.remaining == 1 then t.fired + [t.now + 1] else t.fired)
  }

  function TimerRun(t: Timer, events: seq<TimerEvent>): Timer
    decreases |events|
  {
    if events == [] then t else TimerRun(TimerStep(t, events[0]), events[1..])
  }

  function Seconds(events: seq<TimerEvent>): nat {
    if events == [] then 0 else (if events[0] == SecondPasses then 1 else 0) + Seconds(events[1..])
  }

  /** A run only adds to the times. */
  lemma {:induction false} FiredGrows(t: Timer, events: seq<TimerEvent>)
    ensures t.fired <= TimerRun(t, events).fired && TimerRun(t, events).now == t.now + Seconds(events)
    decreases |events|
  {
    if events != [] {
      FiredGrows(TimerStep(t, events[0]), events[1..]);
    }
  }

  /** A running timer fires next at the time for which it was started, however many measures are handled before. */
  lemma {:induction false} FiresOnTime(t: Timer, events: seq<TimerEvent>)
    requires t.remaining > 0
    ensures var r, end := t.remaining, TimerRun(t, events);
            if Seconds(events) < r then end == Timer(r - Seconds(events), t.now + Seconds(events), t.fired)
            else t.fired + [t.now + r] <= end.fired
    decreases |events|
  {
    if events != [] {
      if events[0] == SecondPasses && t.remaining == 1 {
        FiredGrows(TimerStep(t, events[0]), events[1..]);
      } else {
        FiresOnTime(TimerStep(t, events[0]), events[1..]);
      }
    }
  }

  /** A timer that does not run waits for a measure, whose handler makes it fire 60 seconds later. */
  lemma {:induction false} IdleUntilMeasure(t: Timer, waiting: nat, after: seq<TimerEvent>)
    requires t.remaining == 0
    ensures TimerRun(t, seq(waiting, _ => SecondPasses)) == Timer(0, t.now + waiting, t.fired)
    ensures var end := TimerRun(Timer(0, t.now + waiting, t.fired), [MeasureHandled] + after);
            if Seconds(after) < 60 then end.fired == t.fired
            else t.fired + [t.now + waiting + 60] <= end.fired
    decreases waiting
  {
    var events := seq(waiting, _ => SecondPasses);
    if waiting > 0 {
      assert events[1..] == seq(waiting - 1, _ => SecondPasses);
      IdleUntilMeasure(t.(now := t.now + 1), waiting - 1, after);
    } else {
      assert ([MeasureHandled] + after)[1..] == after;
      FiresOnTime(TimerStep(t, MeasureHandled), after);
    }
  }

  class SensorTask {
    const framework: MessageFramework
    const store: Settings.SettingsStore
    var powerTimerArmed: bool
    /** What k_timer_remaining_get tells, in seconds: 0 when the timer does not run */
    var readTimer: nat

    constructor (framework: MessageFramework, store: Settings.SettingsStore)
      ensures this.framework == framework && this.store == store && !powerTimerArmed && readTimer == 0
    {
      this.framework, this.store := framework, store;
      powerTimerArmed, readTimer := false, 0;
    }

    method InitIntervalTimers()
      modifies this
      ensures powerTimerArmed
      ensures readTimer == if old(readTimer) > 0 then old(readTimer) else 60
    {
      powerTimerArmed := true;
      StartSensorInterval();
    }

    method StartSensorInterval()
      modifies this`readTimer
      ensures readTimer == Restarted(old(readTimer))
      ensures old(readTimer) > 0 ==> readTimer == old(readTimer)
      ensures old(readTimer) == 0 ==> readTimer == 60
    {
      if readTimer == 0 {
        readTimer := INTERVAL_SECONDS;
      }
    }

    ghost function Record(): Bytes
      reads store
    {
      Settings.At(store.fs, store.target.KeyId(DevNonce.WATER_FLOW))
    }

    method SensorMeasureMsgHandler(grants: Grants)
      requires framework.Valid()
      modifies framework, this`readTimer
      ensures readTimer == Restarted(old(readTimer))
      ensures old(readTimer) > 0 ==> readTimer == old(readTimer)
      ensures old(readTimer) == 0 ==> readTimer == 60
      ensures var body := Encode(EventBody(10, Reading(Record()), 0, 0));
              framework.Now() == Sent(old(framework.Now()), Create(Msg(14, 3, 2, 0, body), Direct(3)), grants)
    {
      hide Sent, Atoi, CString, ToUint32, Settings.Target.KeyId;
      assert 0 !in DevNonce.WATER_FLOW;
      var ret, waterFlow := store.SyscfgGet(DevNonce.WATER_FLOW, Zeros(12));
      NoRecord();
      var waterFlowCnt := ToUint32(Atoi(CString(waterFlow)));
      SendSensorEvent(SENSOR_EVENT_WATER_FLOW, waterFlowCnt, grants);
      StartSensorInterval();
    }

    method SendSensorEvent(eventType: Word, data: Word, grants: Grants)
      requires framework.Valid()
      modifies framework
      ensures framework.Now()
           == Sent(old(framework.Now()),
                   Create(Msg(14, 3, 2, 0, Encode(EventBody(eventType, data, 0, 0))), Direct(3)), grants)
    {
      hide Finish, Sent, Encode;
      ghost var c := EventCreate(SMC_EVENT_TRIGGER, MSG_ID_EVENT_TASK, EventBody(eventType, data, 0, 0));
      var p := framework.TryToTake(EVENT_BODY_SIZE, grants(0));
      if p.Some? {
        CreateGranted(old(framework.Now()), c, p.value, grants);
        var m := framework.heap[p.value];
        m := m.(code := SMC_EVENT_TRIGGER, tx := MSG_ID_SENSOR_TASK, rx := MSG_ID_EVENT_TASK);
        m := m.(body := Encode(EventBody(eventType, data, 0, 0)));
        framework.heap := framework.heap[p.value := m];
        assert framework.heap == old(framework.heap)[p.value := c.msg];
        var result := framework.SysmsgSend(p.value, grants);
      } else {
        CreateRefused(old(framework.Now()), c, grants);
      }
    }

    method PowerTimerCallback(grants: Grants)
      requires framework.Valid()
      modifies framework, this`powerTimerArmed
      ensures !powerTimerArmed
      ensures framework.Now() == Sent(old(framework.Now()), Create(Msg(11, 0, 2, 0, []), Direct(2)), grants)
    {
      hide Finish;
      powerTimerArmed := false;
      var result := framework.SysmsgCreateAndSend(MSG_ID_SENSOR_TASK, MSG_ID_SENSOR_TASK,
                                                         SMC_READ_POWER, grants);
    }

    method SensorReadTimerCallback(grants: Grants)
      requires framework.Valid()
      modifies framework, this`readTimer
      ensures readTimer == 0
      ensures framework.Now() == Sent(old(framework.Now()), Create(Msg(12, 0, 2, 0, []), Direct(2)), grants)
    {
      hide Finish;
      readTimer := 0;
      var result := framework.SysmsgCreateAndSend(MSG_ID_SENSOR_TASK, MSG_ID_SENSOR_TASK,
                                                         SMC_SENSOR_MEASURE, grants);
    }
  }

  /** Without a record the buffer stays zeroed. */
  lemma NoRecord()
    ensures Settings.CopyInto([], Zeros(12)) == Zeros(12)
  {
  }
}
