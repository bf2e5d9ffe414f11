/** The numbers that the event task gives to its events (app/src/event_task.c, lines 109 to 122). */
module EventIds {
  import opened Messages
  import opened Calls
  import opened AppMessages
  import opened ConfigHash
  import opened Decimal
  import opened ControlTask
  import opened SensorTask
  import opened Application
  import opened Books

  /** The ids of the events among the messages */
  function IdsIn(ms: seq<Msg>): seq<Word> {
    if ms == [] then [] else IdOfEvent(ms[0]) + IdsIn(ms[1..])
  }

  function IdOfEvent(m: Msg): seq<Word> {
    if m.code == SMC_SENSOR_EVENT then [EventOf(m).id] else []
  }

  lemma {:induction false} IdsAppend(ms: seq<Msg>, m: Msg)
    ensures IdsIn(ms + [m]) == IdsIn(ms) + IdOfEvent(m)
  {
    hide IdOfEvent;
    if ms == [] {
      assert [m][1..] == [] && ms + [m] == [m];
    } else {
      assert (ms + [m])[1..] == ms[1..] + [m];
      IdsAppend(ms[1..], m);
    }
  }

  lemma {:induction false} IdsPlaced(ms: seq<Msg>, i: nat) returns (k: nat)
    requires i < |ms| && ms[i].code == SMC_SENSOR_EVENT
    ensures k < |IdsIn(ms)| && IdsIn(ms)[k] == EventOf(ms[i]).id && |IdsIn(ms)| - k == |IdsIn(ms[i..])|
  {
    hide EventOf;
    if i == 0 {
      k := 0;
      assert ms[0..] == ms;
    } else {
      k := IdsPlaced(ms[1..], i - 1);
      assert ms[1..][i - 1..] == ms[i..];
      k := k + if ms[0].code == SMC_SENSOR_EVENT then 1 else 0;
    }
  }

  /** The ids rise, and all are below next. */
  predicate Rising(ids: seq<Word>, next: nat) {
    && (forall i :: 0 <= i < |ids| ==> ids[i] < next)
    && (forall i, j :: 0 <= i < j < |ids| ==> ids[i] < ids[j])
  }

  /** What waits has risen to the next id, and an event that is about to be posted has it. */
  ghost predicate IdBook(a: App) {
    && Rising(IdsIn(a.control.queue), a.local.eventId)
    && (a.event.todo != [] ==>
          && |a.event.todo| == 1 && a.event.todo[0].Post? && a.event.todo[0].msg.code == SMC_SENSOR_EVENT
          && EventOf(a.event.todo[0].msg).id == a.local.eventId)
  }

  /** Nothing but the event task's own posts concerns the book. */
  lemma SameIds(a: App, b: App)
    requires IdBook(a) && b.local.eventId == a.local.eventId
    requires b.event.todo == a.event.todo || b.event.todo == []
    requires IdsIn(b.control.queue) == IdsIn(a.control.queue) || IdsIn(b.control.queue) == []
             || (IdsIn(a.control.queue) != [] && IdsIn(b.control.queue) == IdsIn(a.control.queue)[1..])
    ensures IdBook(b)
  {
    hide IdsIn, EventOf;
  }

  lemma DeliverIds(a: App, t: TaskId, m: Msg, granted: bool)
    ensures var b := Deliver(a, t, m, granted);
            && b.local == a.local && b.event.todo == a.event.todo
            && (t != Control || m.code != SMC_SENSOR_EVENT ==> IdsIn(b.control.queue) == IdsIn(a.control.queue))
            && (IdsIn(b.control.queue) == IdsIn(a.control.queue) || (granted && t == Control
                && m.code == SMC_SENSOR_EVENT && IdsIn(b.control.queue) == IdsIn(a.control.queue) + [EventOf(m).id]))
  {
    IdsAppend(a.control.queue, m);
    hide EventOf, IdsIn, KindOf;
  }

  lemma PoppedIds(a: App, t: TaskId)
    requires TaskAt(a, t).todo != []
    ensures var b := Popped(a, t);
            && b.control.queue == a.control.queue && b.local == a.local
            && b.event.todo == if t == Event then a.event.todo[1..] else a.event.todo
  {
  }

  lemma ExecuteIds(a: App, t: TaskId, op: Op, granted: bool)
    requires a.local.eventId < 0xFFFF_FFFF
    ensures var b := Execute(a, t, op, granted);
            && b.event.todo == a.event.todo
            && b.local.eventId == a.local.eventId + (if op.Post? && t == Event && granted then 1 else 0)
            && if !op.Post? || op.to != Control || op.msg.code != SMC_SENSOR_EVENT || !granted
               then IdsIn(b.control.queue) == IdsIn(a.control.queue)
               else IdsIn(b.control.queue) == IdsIn(a.control.queue)
                    || IdsIn(b.control.queue) == IdsIn(a.control.queue) + [EventOf(op.msg).id]
  {
    hide Deliver, EventOf, IdsIn;
    if op.Post? {
      DeliverIds(if t == Event && granted then WithNextId(a) else a, op.to, op.msg, granted);
    } else if op.Register? {
    } else {
    }
  }

  lemma PerformOthers(a: App, t: TaskId, granted: bool)
    requires IdBook(a) && InPlace(a) && TaskAt(a, t).todo != [] && t != Event && a.local.eventId < 0xFFFF_FFFF
    ensures IdBook(Performed(a, t, granted)) && Performed(a, t, granted).local.eventId == a.local.eventId
  {
    var op := TaskAt(a, t).todo[0];
    NextIsProper(a, t);
    if op.Post? {
      ProperPosts(t, op);
      ProperPost(t, op);
      assert op.to != Control || op.msg.code != SMC_SENSOR_EVENT;
    }
    hide ProperOp, Proper, Popped, Execute, EventOf, IdsIn, InPlace, KindOf, IdBook;
    PoppedIds(a, t);
    ExecuteIds(Popped(a, t), t, op, granted);
    SameIds(a, Performed(a, t, granted));
  }

  /** An event that gets a buffer uses up its id, whether it is then queued or not. */
  lemma PerformEvent(a: App, granted: bool)
    requires IdBook(a) && a.event.todo != [] && a.local.eventId < 0xFFFF_FFFF
    ensures var b := Performed(a, Event, granted);
            IdBook(b) && b.local.eventId == a.local.eventId + if granted then 1 else 0
  {
    hide Popped, Execute, EventOf, IdsIn;
    PoppedIds(a, Event);
    ExecuteIds(Popped(a, Event), Event, a.event.todo[0], granted);
  }

  lemma ReceiveIds(a: App, t: TaskId, timestamp: Word)
    requires IdBook(a) && MayReceive(a, t)
    ensures IdBook(Received(a, t, timestamp)) && Received(a, t, timestamp).local.eventId == a.local.eventId
  {
    var m, b := TaskAt(a, t).queue[0], Dequeued(a, t);
    TakenFrame(a, t);
    ReactQueues(a, t, timestamp);
    match t
    case Control =>
      ControlLeaves(b, m);
      ControlId(b, m);
      hide ControlReacts, EventOf, IdBook;
      assert IdsIn(a.control.queue)
          == (if m.code == SMC_SENSOR_EVENT then [EventOf(m).id] else []) + IdsIn(a.control.queue[1..]);
      hide IdsIn;
      SameIds(a, Received(a, t, timestamp));
    case Sensor =>
      SensorLeaves(b, m);
      hide SensorReacts, EventOf, IdsIn, IdBook;
      SameIds(a, Received(a, t, timestamp));
    case Event =>
      EventId(b, m, timestamp);
      hide EventReacts, EventOf, IdsIn;
  }

  lemma ControlId(a: App, m: Msg)
    ensures ControlReacts(a, m).local.eventId == a.local.eventId
  {
    hide AskPost, SendPost, TxAfter, FlagAfter, Zeros, CString, EventOf;
  }

  lemma EventId(a: App, m: Msg, timestamp: Word)
    ensures var b := EventReacts(a, m, timestamp);
            && b.local == a.local
            && if m.code != SMC_EVENT_TRIGGER then b.event.todo == a.event.todo
               else
                 && |b.event.todo| == 1 && b.event.todo[0].Post? && b.event.todo[0].msg.code == SMC_SENSOR_EVENT
                 && EventOf(b.event.todo[0].msg).id == a.local.eventId
  {
    DecodeOfEncode(EventBody(EventOf(m).eventType, EventOf(m).data, a.local.eventId, timestamp));
    hide Encode, Decode;
  }

  lemma FireIds(a: App, b: App, c: Create, granted: bool)
    requires IdBook(a) && c.route.Direct? && c.msg.code != SMC_SENSOR_EVENT
    requires b.control == a.control && b.event == a.event && b.local == a.local
    ensures IdBook(Fire(b, c, granted)) && Fire(b, c, granted).local == a.local
  {
    DeliverIds(b, PostOf(c).to, PostOf(c).msg, granted);
    hide Deliver, EventOf, IdsIn, IdBook;
    SameIds(a, Fire(b, c, granted));
  }

  lemma StepIds(a: App, c: Choice)
    requires IdBook(a) && InPlace(a) && a.local.eventId < 0xFFFF_FFFF
    ensures IdBook(Step(a, c)) && Step(a, c).local.eventId <= a.local.eventId + 1
  {
    assert IdsIn([]) == [];
    hide IdBook, InPlace, Performed, Received, Fire, Kinds, IdsIn;
    match c
    case Perform(t, granted) =>
      if TaskAt(a, t).todo != [] {
        if t == Event {
          PerformEvent(a, granted);
        } else {
          PerformOthers(a, t, granted);
        }
      }
    case Receive(t, timestamp) =>
      if MayReceive(a, t) {
        ReceiveIds(a, t, timestamp);
      }
    case FireBeat(granted) =>
      FireIds(a, a.(timers := a.timers.(beat := false)), TimerCreate(MSG_ID_CONTROL_TASK), granted);
    case FireRead(granted) =>
      FireIds(a, a.(timers := a.timers.(read := false)), TickCreate(), granted);
    case FirePower(granted) =>
      FireIds(a, a.(timers := a.timers.(power := false)), PowerCreate(), granted);
    case _ => SameIds(a, Step(a, c));
  }

  lemma {:induction false} RunIds(lorawanOk: bool, record: Bytes, choices: seq<Choice>)
    requires |choices| < 0x1_0000_0000
    ensures var a := Run(PowerUp(lorawanOk, record), choices);
            IdBook(a) && a.local.eventId <= |choices|
    decreases |choices|
  {
    hide IdBook, InPlace, Conserved, Books.Books, Step;
    if choices == [] {
      PowerUpIds(lorawanOk, record);
    } else {
      hide PowerUp;
      var n := |choices| - 1;
      RunIds(lorawanOk, record, choices[..n]);
      RunBooks(lorawanOk, record, choices[..n]);
      StepIds(Run(PowerUp(lorawanOk, record), choices[..n]), choices[n]);
    }
  }

  lemma PowerUpIds(lorawanOk: bool, record: Bytes)
    ensures IdBook(PowerUp(lorawanOk, record)) && PowerUp(lorawanOk, record).local.eventId == 0
  {
    hide Zeros, StartUp;
  }

  /** In every run of fewer than 2^32 steps the events that wait for the control task have ids that rise strictly, from
      first to last, and are below the next id: no two events are mistaken for each other, and none was overtaken. */
  lemma WaitingIdsRise(lorawanOk: bool, record: Bytes, choices: seq<Choice>, i: nat, j: nat)
    requires |choices| < 0x1_0000_0000
    requires i < j < |Run(PowerUp(lorawanOk, record), choices).control.queue|
    requires Run(PowerUp(lorawanOk, record), choices).control.queue[i].code == 13
    requires Run(PowerUp(lorawanOk, record), choices).control.queue[j].code == 13
    ensures var a := Run(PowerUp(lorawanOk, record), choices);
            EventOf(a.control.queue[i]).id < EventOf(a.control.queue[j]).id < a.local.eventId
  {
    hide Run, PowerUp, EventOf;
    RunIds(lorawanOk, record, choices);
    var queue := Run(PowerUp(lorawanOk, record), choices).control.queue;
    var k := IdsPlaced(queue, i);
    var l := IdsPlaced(queue, j);
    IdsShrink(queue, i, j);
    hide IdsIn;
  }

  /** An event in front has more ids behind it. */
  lemma {:induction false} IdsShrink(ms: seq<Msg>, i: nat, j: nat)
    requires i < j <= |ms| && ms[i].code == SMC_SENSOR_EVENT
    ensures |IdsIn(ms[i..])| > |IdsIn(ms[j..])|
    decreases j
  {
    hide EventOf;
    if j > i + 1 {
      IdsShrink(ms, i, j - 1);
    }
    assert ms[j - 1..][1..] == ms[j..];
    assert |IdsIn(ms[j - 1..])| >= |IdsIn(ms[j..])|;
  }
}
