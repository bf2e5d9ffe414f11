/** What every run of the application keeps: no message gets lost track of, every message is where it
    belongs, and every message has its effect. */
module Books {
  import opened Messages
  import opened Calls
  import opened AppMessages
  import opened ConfigHash
  import opened Decimal
  import opened ControlTask
  import opened SensorTask
  import opened Application

  // ----- no message gets lost track of -----

  /** Every message that was posted waits in a queue, or was received, or was refused or flushed. */
  ghost predicate Conserved(a: App) {
    a.h.posted
    == a.h.lost + a.h.received + Kinds(a.control.queue) + Kinds(a.sensor.queue) + Kinds(a.event.queue)
  }

  lemma DeliverConserves(a: App, t: TaskId, m: Msg, granted: bool)
    requires Conserved(a)
    ensures Conserved(Deliver(a, t, m, granted))
  {
    KindsAppend(TaskAt(a, t).queue, m);
    hide Kinds, KindOf;
  }

  lemma TakenConserves(a: App, t: TaskId)
    requires Conserved(a) && MayReceive(a, t)
    ensures Conserved(Dequeued(a, t))
  {
    var queue := TaskAt(a, t).queue;
    assert Kinds(queue) == multiset{KindOf(queue[0])} + Kinds(queue[1..]);
    hide Kinds, KindOf;
  }

  lemma FlushConserves(a: App, t: TaskId)
    requires Conserved(a)
    ensures Conserved(Step(a, Flush(t)))
  {
    assert Kinds([]) == multiset{};
    hide Kinds, KindOf;
    LostInstead(a.h.lost, a.h.received, Kinds(a.control.queue), Kinds(a.sensor.queue), Kinds(a.event.queue));
  }

  lemma LostInstead(lost: multiset<Kind>, received: multiset<Kind>, c: multiset<Kind>, s: multiset<Kind>,
                    e: multiset<Kind>)
    ensures lost + received + c + s + e == lost + c + received + multiset{} + s + e
    ensures lost + received + c + s + e == lost + s + received + c + multiset{} + e
    ensures lost + received + c + s + e == lost + e + received + c + s + multiset{}
  {
  }

  /** Conservation depends on the counts and the queues only. */
  lemma SameQueues(a: App, b: App)
    requires Conserved(a)
    requires b.control.queue == a.control.queue && b.sensor.queue == a.sensor.queue && b.event.queue == a.event.queue
    requires b.h.posted == a.h.posted && b.h.lost == a.h.lost && b.h.received == a.h.received
    ensures Conserved(b)
  {
    hide Kinds;
  }

  lemma StepConserves(a: App, c: Choice)
    requires Conserved(a)
    ensures Conserved(Step(a, c))
  {
    hide Conserved, Kinds, KindOf, Deliver;
    match c
    case Perform(t, granted) =>
      if TaskAt(a, t).todo != [] {
        PerformConserves(a, t, granted);
      }
    case Receive(t, timestamp) =>
      if MayReceive(a, t) {
        TakenConserves(a, t);
        ReactQueues(a, t, timestamp);
        SameQueues(Dequeued(a, t), Received(a, t, timestamp));
      }
    case BeginSensor => SameQueues(a, Step(a, c));
    case FireBeat(granted) =>
      FireConserves(a, a.(timers := a.timers.(beat := false)), TimerCreate(MSG_ID_CONTROL_TASK), granted);
    case FireRead(granted) =>
      FireConserves(a, a.(timers := a.timers.(read := false)), TickCreate(), granted);
    case FirePower(granted) =>
      FireConserves(a, a.(timers := a.timers.(power := false)), PowerCreate(), granted);
    case Flush(t) => FlushConserves(a, t);
    case Meter(record) => SameQueues(a, Step(a, c));
  }

  lemma FireConserves(a: App, b: App, c: Create, granted: bool)
    requires Conserved(a) && c.route.Direct?
    requires b.control == a.control && b.sensor == a.sensor && b.event == a.event && b.h == a.h
    ensures Conserved(Fire(b, c, granted))
  {
    hide Conserved, Deliver;
    SameQueues(a, b);
    DeliverConserves(b, PostOf(c).to, PostOf(c).msg, granted);
  }

  lemma PerformConserves(a: App, t: TaskId, granted: bool)
    requires Conserved(a) && TaskAt(a, t).todo != []
    ensures Conserved(Performed(a, t, granted))
  {
    hide Conserved, Execute;
    SameQueues(a, Popped(a, t));
    ExecuteConserves(Popped(a, t), t, TaskAt(a, t).todo[0], granted);
  }

  lemma ExecuteConserves(a: App, t: TaskId, op: Op, granted: bool)
    requires Conserved(a)
    ensures Conserved(Execute(a, t, op, granted))
  {
    hide Conserved, Deliver, ToUint32;
    if op.Post? {
      var b := if t == Event && granted then WithNextId(a) else a;
      SameQueues(a, b);
      DeliverConserves(b, op.to, op.msg, granted);
    } else {
      SameQueues(a, Execute(a, t, op, granted));
    }
  }

  lemma ReactQueues(a: App, t: TaskId, timestamp: Word)
    requires MayReceive(a, t)
    ensures var b, c := Dequeued(a, t), Received(a, t, timestamp);
            && c.control.queue == b.control.queue && c.sensor.queue == b.sensor.queue && c.event.queue == b.event.queue
            && c.h == b.h
  {
    hide Dequeued, EventOf, TxAfter, FlagAfter, PostOf, AskPost, SendPost, SensorEventOf, TriggerOf, Reading;
    hide Zeros, CString;
    match t
    case Control =>
    case Sensor =>
    case Event =>
  }

  // ----- every message is where it belongs -----

  /** An event message about the water flow, whole */
  predicate IsFlow(m: Msg) {
    EventOf(m).eventType == SENSOR_EVENT_WATER_FLOW
  }

  /** The header is addressed to the task and asks for no callback, and only events have a body. */
  predicate Plain(t: TaskId, m: Msg) {
    && m.rx == IdOf(t) && m.options == MSG_OPTION_NONE
    && (KindOf(m) in {TRIGGER, EVENT} || m.body == [])
  }

  predicate Proper(t: TaskId, m: Msg) {
    && Plain(t, m)
    && match t
       case Control => KindOf(m) in {BEAT, JOIN, SEND} || (KindOf(m) == EVENT && IsFlow(m))
       case Sensor => KindOf(m) in {ASK, TICK, POWER}
       case Event => KindOf(m) == TRIGGER && IsFlow(m)
  }

  predicate ProperOp(t: TaskId, op: Op) {
    match t
    case Control => op == ArmBeat || op.Register? || op in {AskPost(), SendPost(), JoinPost()}
    case Sensor => op == ArmRead || op == ArmPower || (op.Post? && op.to == Event && Proper(Event, op.msg))
    case Event => op.Post? && op.to == Control && KindOf(op.msg) == EVENT && Proper(Control, op.msg)
  }

  ghost predicate ProperTask(t: TaskId, task: Task) {
    && (forall i :: 0 <= i < |task.queue| ==> Proper(t, task.queue[i]))
    && (forall i :: 0 <= i < |task.todo| ==> ProperOp(t, task.todo[i]))
  }

  ghost predicate InPlace(a: App) {
    && (forall t :: ProperTask(t, TaskAt(a, t)))
    && (!a.begun ==> a.sensor.todo == [])
  }

  lemma PostKinds()
    ensures Proper(Sensor, AskPost().msg) && AskPost().to == Sensor && KindOf(AskPost().msg) == ASK
    ensures Proper(Control, SendPost().msg) && SendPost().to == Control && KindOf(SendPost().msg) == SEND
    ensures Proper(Control, JoinPost().msg) && JoinPost().to == Control && KindOf(JoinPost().msg) == JOIN
  {
  }

  lemma EventKinds(reading: Word, e: EventBody, id: Word, timestamp: Word)
    ensures var op := PostOf(TriggerOf(reading));
            ProperOp(Sensor, op) && KindOf(op.msg) == TRIGGER && EventOf(op.msg).data == reading
    ensures var op := PostOf(SensorEventOf(e, id, timestamp));
            && (e.eventType == SENSOR_EVENT_WATER_FLOW ==> ProperOp(Event, op))
            && KindOf(op.msg) == EVENT && EventOf(op.msg).data == e.data
  {
    DecodeOfEncode(EventBody(SENSOR_EVENT_WATER_FLOW, reading, 0, 0));
    DecodeOfEncode(EventBody(e.eventType, e.data, id, timestamp));
    hide Encode, Decode;
  }

  lemma DeliverRoutes(a: App, t: TaskId, m: Msg, granted: bool)
    requires InPlace(a) && Proper(t, m)
    ensures InPlace(Deliver(a, t, m, granted))
  {
    hide Proper, ProperOp;
    var b := Deliver(a, t, m, granted);
    assert ProperTask(t, TaskAt(a, t));
    forall u ensures ProperTask(u, TaskAt(b, u)) {
      assert ProperTask(u, TaskAt(a, u));
    }
  }

  /** A task replaced by a proper one */
  lemma TaskRoutes(a: App, b: App, t: TaskId)
    requires InPlace(a) && ProperTask(t, TaskAt(b, t)) && (!b.begun ==> b.sensor.todo == [])
    requires forall u :: u != t ==> TaskAt(b, u) == TaskAt(a, u)
    ensures InPlace(b)
  {
    hide ProperTask, TaskAt;
    forall u ensures ProperTask(u, TaskAt(b, u)) {
      assert ProperTask(u, TaskAt(a, u));
    }
  }

  lemma PerformRoutes(a: App, t: TaskId, granted: bool)
    requires InPlace(a) && TaskAt(a, t).todo != []
    ensures InPlace(Performed(a, t, granted))
  {
    hide Proper, ProperOp, Execute;
    assert ProperTask(t, TaskAt(a, t)) && ProperOp(t, TaskAt(a, t).todo[0]);
    TaskRoutes(a, Popped(a, t), t);
    ExecuteRoutes(Popped(a, t), t, TaskAt(a, t).todo[0], granted);
  }

  lemma ExecuteRoutes(a: App, t: TaskId, op: Op, granted: bool)
    requires InPlace(a) && ProperOp(t, op)
    ensures InPlace(Execute(a, t, op, granted))
  {
    hide Proper, Deliver, ToUint32, KindOf, AskPost, SendPost, JoinPost;
    match op
    case Post(to, m) =>
      ProperPost(t, op);
      var b := if t == Event && granted then WithNextId(a) else a;
      hide ProperOp, ProperTask;
      SameTasks(a, b);
      DeliverRoutes(b, to, m, granted);
    case Register(u) =>
      hide ProperOp;
      assert ProperTask(u, TaskAt(a, u));
      TaskRoutes(a, Execute(a, t, op, granted), u);
    case _ =>
      hide ProperOp, ProperTask;
      SameTasks(a, Execute(a, t, op, granted));
  }

  lemma SameTasks(a: App, b: App)
    requires InPlace(a) && b.control == a.control && b.sensor == a.sensor && b.event == a.event && b.begun == a.begun
    ensures InPlace(b)
  {
    hide ProperTask;
    forall t ensures ProperTask(t, TaskAt(b, t)) {
      assert ProperTask(t, TaskAt(a, t));
    }
  }

  lemma ProperPost(t: TaskId, op: Op)
    requires ProperOp(t, op) && op.Post?
    ensures Proper(op.to, op.msg)
  {
    PostKinds();
  }

  lemma TakenRoutes(a: App, t: TaskId)
    requires InPlace(a) && MayReceive(a, t)
    ensures InPlace(Dequeued(a, t)) && Proper(t, TaskAt(a, t).queue[0]) && TaskAt(Dequeued(a, t), t).todo == []
  {
    hide Proper, ProperOp, KindOf;
    assert ProperTask(t, TaskAt(a, t));
    TaskRoutes(a, Dequeued(a, t), t);
  }

  lemma ControlRoutes(a: App, m: Msg)
    requires InPlace(a) && a.control.todo == []
    ensures InPlace(ControlReacts(a, m))
  {
    hide Proper, EventOf, TxAfter, FlagAfter, AskPost, SendPost, JoinPost, Zeros, CString;
    assert ProperTask(Control, TaskAt(a, Control));
    TaskRoutes(a, ControlReacts(a, m), Control);
  }

  lemma SensorRoutes(a: App, m: Msg)
    requires InPlace(a) && a.sensor.todo == [] && a.begun
    ensures InPlace(SensorReacts(a, m))
  {
    hide Proper, Reading, PostOf, TriggerOf;
    EventKinds(Reading(a.record), EventBody(0, 0, 0, 0), 0, 0);
    assert ProperTask(Sensor, TaskAt(a, Sensor));
    TaskRoutes(a, SensorReacts(a, m), Sensor);
  }

  lemma EventRoutes(a: App, m: Msg, timestamp: Word)
    requires InPlace(a) && a.event.todo == [] && Proper(Event, m)
    ensures InPlace(EventReacts(a, m, timestamp))
  {
    EventKinds(0, EventOf(m), a.local.eventId, timestamp);
    hide KindOf, PostOf, SensorEventOf, EventOf;
    assert ProperTask(Event, TaskAt(a, Event));
    TaskRoutes(a, EventReacts(a, m, timestamp), Event);
  }

  lemma ReceiveRoutes(a: App, t: TaskId, timestamp: Word)
    requires InPlace(a) && MayReceive(a, t)
    ensures InPlace(Received(a, t, timestamp))
  {
    TakenRoutes(a, t);
    var m := TaskAt(a, t).queue[0];
    hide InPlace, Proper, ControlReacts, SensorReacts, EventReacts;
    match t
    case Control => ControlRoutes(Dequeued(a, t), m);
    case Sensor => SensorRoutes(Dequeued(a, t), m);
    case Event => EventRoutes(Dequeued(a, t), m, timestamp);
  }

  lemma FireRoutes(a: App, b: App, c: Create, granted: bool)
    requires InPlace(a) && c.route.Direct? && Proper(PostOf(c).to, PostOf(c).msg)
    requires b.control == a.control && b.sensor == a.sensor && b.event == a.event && b.begun == a.begun
    ensures InPlace(Fire(b, c, granted))
  {
    hide InPlace, Proper, Deliver, PostOf;
    SameTasks(a, b);
    DeliverRoutes(b, PostOf(c).to, PostOf(c).msg, granted);
  }

  lemma BeginRoutes(a: App)
    requires InPlace(a)
    ensures InPlace(Step(a, BeginSensor))
  {
    hide Proper;
    assert ProperTask(Sensor, TaskAt(a, Sensor));
    TaskRoutes(a, Step(a, BeginSensor), Sensor);
  }

  lemma FlushRoutes(a: App, t: TaskId)
    requires InPlace(a)
    ensures InPlace(Step(a, Flush(t)))
  {
    hide Proper, ProperOp, Kinds;
    assert ProperTask(t, TaskAt(a, t));
    TaskRoutes(a, Step(a, Flush(t)), t);
  }

  lemma StepRoutes(a: App, c: Choice)
    requires InPlace(a)
    ensures InPlace(Step(a, c))
  {
    match c
    case Perform(t, granted) =>
      hide InPlace, Performed;
      if TaskAt(a, t).todo != [] {
        PerformRoutes(a, t, granted);
      }
    case Receive(t, timestamp) =>
      hide InPlace, Received;
      if MayReceive(a, t) {
        ReceiveRoutes(a, t, timestamp);
      }
    case BeginSensor => BeginRoutes(a);
    case FireBeat(granted) =>
      hide InPlace, Fire;
      FireRoutes(a, a.(timers := a.timers.(beat := false)), TimerCreate(MSG_ID_CONTROL_TASK), granted);
    case FireRead(granted) =>
      hide InPlace, Fire;
      FireRoutes(a, a.(timers := a.timers.(read := false)), TickCreate(), granted);
    case FirePower(granted) =>
      hide InPlace, Fire;
      FireRoutes(a, a.(timers := a.timers.(power := false)), PowerCreate(), granted);
    case Flush(t) => FlushRoutes(a, t);
    case Meter(record) => SameTasks(a, Step(a, c));
  }

  // ----- every message has its effect -----

  /** The heartbeat goes round: the timer runs, or is about to be started, or its message is under way. */
  ghost predicate BeatBook(a: App) {
    One(a.timers.beat) + Arms(a.control.todo, ArmBeat) + a.h.posted[BEAT] == 1 + a.h.received[BEAT]
  }

  /** So does the measurement, which the control task also asks for. */
  ghost predicate MeasureBook(a: App) {
    One(a.timers.read) + Arms(a.sensor.todo, ArmRead) + One(!a.begun) + a.h.merged + a.h.posted[TICK]
    == 1 + a.h.received[ASK] + a.h.received[TICK]
  }

  ghost predicate AskBook(a: App) {
    a.h.posted[ASK] + Due(a.control.todo, ASK) == a.h.received[BEAT] + a.h.received[JOIN]
  }

  ghost predicate JoinBook(a: App, lorawanOk: bool) {
    a.h.posted[JOIN] + Due(a.control.todo, JOIN) == One(lorawanOk)
  }

  ghost predicate TriggerBook(a: App) {
    a.h.posted[TRIGGER] + Due(a.sensor.todo, TRIGGER) == a.h.received[ASK] + a.h.received[TICK]
  }

  ghost predicate EventBook(a: App) {
    a.h.posted[EVENT] + Due(a.event.todo, EVENT) == a.h.received[TRIGGER]
  }

  ghost predicate SendBook(a: App) {
    && a.h.posted[SEND] + Due(a.control.todo, SEND) == (a.h.received[EVENT] + 1) / 2
    && (a.local.flag <==> a.h.received[EVENT] % 2 == 1)
  }

  ghost predicate Books(a: App, lorawanOk: bool) {
    && BeatBook(a) && MeasureBook(a)
    && AskBook(a) && JoinBook(a, lorawanOk) && TriggerBook(a) && EventBook(a) && SendBook(a)
  }

  /** What posting leaves alone */
  lemma DeliverFrame(a: App, t: TaskId, m: Msg, granted: bool, k: Kind)
    ensures var b := Deliver(a, t, m, granted);
            && b.control.todo == a.control.todo && b.sensor.todo == a.sensor.todo && b.event.todo == a.event.todo
            && b.begun == a.begun && b.timers == a.timers && b.local == a.local && b.log == a.log
            && b.h.merged == a.h.merged && b.h.received == a.h.received
            && b.h.posted[k] == a.h.posted[k] + One(KindOf(m) == k)
  {
    hide KindOf;
  }

  lemma PoppedFrame(a: App, t: TaskId)
    requires TaskAt(a, t).todo != []
    ensures var b := Popped(a, t);
            && b.control.todo == (if t == Control then a.control.todo[1..] else a.control.todo)
            && b.sensor.todo == (if t == Sensor then a.sensor.todo[1..] else a.sensor.todo)
            && b.event.todo == (if t == Event then a.event.todo[1..] else a.event.todo)
            && b.begun == a.begun && b.timers == a.timers && b.local == a.local && b.log == a.log && b.h == a.h
  {
  }

  lemma HeadOf(todo: seq<Op>, op: Op, k: Kind)
    requires todo != []
    ensures Due(todo, k) == (if todo[0].Post? && KindOf(todo[0].msg) == k then 1 else 0) + Due(todo[1..], k)
    ensures Arms(todo, op) == (if todo[0] == op then 1 else 0) + Arms(todo[1..], op)
  {
  }

  /** The kinds that the handlers of a task post */
  predicate Posts(t: TaskId, k: Kind) {
    match t
    case Control => k in {ASK, JOIN, SEND}
    case Sensor => k == TRIGGER
    case Event => k == EVENT
  }

  lemma ProperPosts(t: TaskId, op: Op)
    requires ProperOp(t, op) && op.Post?
    ensures Posts(t, KindOf(op.msg))
  {
    PostKinds();
  }

  lemma NextIsProper(a: App, t: TaskId)
    requires InPlace(a) && TaskAt(a, t).todo != []
    ensures ProperOp(t, TaskAt(a, t).todo[0])
  {
    hide ProperOp;
    assert ProperTask(t, TaskAt(a, t));
  }

  lemma PostersDiffer(t: TaskId, u: TaskId, k: Kind)
    requires Posts(t, k) && Posts(u, k)
    ensures t == u && k != BEAT && k != TICK
  {
  }

  lemma ExecuteFrame(a: App, t: TaskId, op: Op, granted: bool, k: Kind)
    ensures var b := Execute(a, t, op, granted);
            && b.control.todo == a.control.todo && b.sensor.todo == a.sensor.todo && b.event.todo == a.event.todo
            && b.begun == a.begun && b.log == a.log && b.local.flag == a.local.flag && b.local.tx == a.local.tx
            && b.h.received == a.h.received
            && b.h.posted[k] == a.h.posted[k] + One(op.Post? && KindOf(op.msg) == k)
    ensures var b := Execute(a, t, op, granted);
            && b.timers.beat == (a.timers.beat || op == ArmBeat) && b.timers.read == (a.timers.read || op == ArmRead)
            && b.timers.power == (a.timers.power || op == ArmPower)
            && b.h.merged == a.h.merged + One(op == ArmRead && a.timers.read)
  {
    hide Deliver, ToUint32, KindOf;
    if op.Post? {
      var c := if t == Event && granted then WithNextId(a) else a;
      DeliverFrame(c, op.to, op.msg, granted, k);
    } else if op.Register? {
    } else {
    }
  }

  lemma PerformFrame(a: App, t: TaskId, granted: bool, k: Kind)
    requires TaskAt(a, t).todo != []
    ensures var b, op := Performed(a, t, granted), TaskAt(a, t).todo[0];
            && b.control.todo == (if t == Control then a.control.todo[1..] else a.control.todo)
            && b.sensor.todo == (if t == Sensor then a.sensor.todo[1..] else a.sensor.todo)
            && b.event.todo == (if t == Event then a.event.todo[1..] else a.event.todo)
            && b.begun == a.begun && b.log == a.log && b.local.flag == a.local.flag && b.local.tx == a.local.tx
            && b.h.received == a.h.received
            && b.h.posted[k] == a.h.posted[k] + One(op.Post? && KindOf(op.msg) == k)
    ensures var b, op := Performed(a, t, granted), TaskAt(a, t).todo[0];
            && b.timers.beat == (a.timers.beat || op == ArmBeat) && b.timers.read == (a.timers.read || op == ArmRead)
            && b.timers.power == (a.timers.power || op == ArmPower)
            && b.h.merged == a.h.merged + One(op == ArmRead && a.timers.read)
  {
    PoppedFrame(a, t);
    ExecuteFrame(Popped(a, t), t, TaskAt(a, t).todo[0], granted, k);
    hide Popped, Execute, KindOf, One;
  }

  lemma PerformDue(a: App, t: TaskId, granted: bool, u: TaskId, k: Kind)
    requires InPlace(a) && TaskAt(a, t).todo != [] && Posts(u, k)
    ensures var b := Performed(a, t, granted);
            b.h.posted[k] + Due(TaskAt(b, u).todo, k) == a.h.posted[k] + Due(TaskAt(a, u).todo, k)
  {
    var op := TaskAt(a, t).todo[0];
    NextIsProper(a, t);
    PerformFrame(a, t, granted, k);
    HeadOf(TaskAt(a, t).todo, op, k);
    if op.Post? {
      ProperPosts(t, op);
      if KindOf(op.msg) == k {
        PostersDiffer(t, u, k);
      }
    }
    hide Performed, InPlace, ProperOp, Posts, Due, KindOf;
  }

  lemma PerformBeat(a: App, t: TaskId, granted: bool)
    requires InPlace(a) && TaskAt(a, t).todo != [] && Conserved(a) && BeatBook(a)
    ensures BeatBook(Performed(a, t, granted))
  {
    var op := TaskAt(a, t).todo[0];
    NextIsProper(a, t);
    PerformFrame(a, t, granted, BEAT);
    HeadOf(TaskAt(a, t).todo, ArmBeat, BEAT);
    TimerOps(t, op);
    assert a.h.posted[BEAT] >= a.h.received[BEAT];
    hide Performed, InPlace, ProperOp, Posts, Due, Arms, Conserved, KindOf;
  }

  lemma PerformMeasure(a: App, t: TaskId, granted: bool)
    requires InPlace(a) && TaskAt(a, t).todo != [] && MeasureBook(a)
    ensures MeasureBook(Performed(a, t, granted))
  {
    var op := TaskAt(a, t).todo[0];
    NextIsProper(a, t);
    PerformFrame(a, t, granted, TICK);
    HeadOf(TaskAt(a, t).todo, ArmRead, TICK);
    TimerOps(t, op);
    hide Performed, InPlace, ProperOp, Posts, Due, Arms, KindOf;
  }

  lemma TimerOps(t: TaskId, op: Op)
    requires ProperOp(t, op)
    ensures op == ArmBeat ==> t == Control
    ensures op == ArmRead ==> t == Sensor
    ensures op.Post? ==> KindOf(op.msg) != BEAT && KindOf(op.msg) != TICK
  {
  }

  lemma PerformPosts(a: App, t: TaskId, granted: bool, lorawanOk: bool)
    requires InPlace(a) && Books(a, lorawanOk) && TaskAt(a, t).todo != []
    ensures var b := Performed(a, t, granted); AskBook(b) && JoinBook(b, lorawanOk) && SendBook(b)
  {
    PerformDue(a, t, granted, Control, ASK);
    PerformDue(a, t, granted, Control, JOIN);
    PerformDue(a, t, granted, Control, SEND);
    PerformFrame(a, t, granted, ASK);
    hide Performed, InPlace, Due, KindOf, BeatBook, MeasureBook, TriggerBook, EventBook;
  }

  lemma PerformEvents(a: App, t: TaskId, granted: bool)
    requires InPlace(a) && TriggerBook(a) && EventBook(a) && TaskAt(a, t).todo != []
    ensures TriggerBook(Performed(a, t, granted)) && EventBook(Performed(a, t, granted))
  {
    PerformDue(a, t, granted, Sensor, TRIGGER);
    PerformDue(a, t, granted, Event, EVENT);
    PerformFrame(a, t, granted, ASK);
    hide Performed, InPlace, Due, KindOf;
  }

  lemma PerformBooks(a: App, t: TaskId, granted: bool, lorawanOk: bool)
    requires InPlace(a) && Conserved(a) && Books(a, lorawanOk) && TaskAt(a, t).todo != []
    ensures Books(Performed(a, t, granted), lorawanOk)
  {
    hide Performed, InPlace, Conserved, AskBook, JoinBook, SendBook, TriggerBook, EventBook, BeatBook, MeasureBook;
    PerformBeat(a, t, granted);
    PerformMeasure(a, t, granted);
    PerformPosts(a, t, granted, lorawanOk);
    PerformEvents(a, t, granted);
  }

  lemma NothingDue(k: Kind, op: Op)
    ensures Due([], k) == 0 && Arms([], op) == 0
  {
  }

  lemma OneDue(op: Op, k: Kind, arm: Op)
    ensures Due([op], k) == One(op.Post? && KindOf(op.msg) == k) && Arms([op], arm) == One(op == arm)
  {
    hide KindOf;
    assert [op][1..] == [];
  }

  lemma TwoDue(op: Op, next: Op, k: Kind, arm: Op)
    ensures Due([op, next], k) == One(op.Post? && KindOf(op.msg) == k) + One(next.Post? && KindOf(next.msg) == k)
    ensures Arms([op, next], arm) == One(op == arm) + One(next == arm)
  {
    hide KindOf;
    assert [op, next][1..] == [next];
    OneDue(next, k, arm);
  }

  lemma TakenFrame(a: App, t: TaskId)
    requires MayReceive(a, t)
    ensures var b := Dequeued(a, t);
            && b.control.todo == a.control.todo && b.sensor.todo == a.sensor.todo && b.event.todo == a.event.todo
            && b.begun == a.begun && b.timers == a.timers && b.local == a.local && b.log == a.log
            && b.record == a.record
            && b.h.merged == a.h.merged && b.h.posted == a.h.posted
            && b.h.received == a.h.received + multiset{KindOf(TaskAt(a, t).queue[0])}
  {
    hide KindOf;
  }

  /** What a message does to the books of the control task, given what it makes the handler do */
  lemma ControlBooks(a: App, b: App, todo: seq<Op>, lorawanOk: bool)
    requires Books(a, lorawanOk) && MayReceive(a, Control)
    requires b.control.todo == todo && b.sensor.todo == a.sensor.todo && b.event.todo == a.event.todo
    requires b.begun == a.begun && b.timers == a.timers && b.h == Dequeued(a, Control).h
    requires var k := KindOf(a.control.queue[0]);
             && k in {BEAT, JOIN, SEND, EVENT}
             && (b.local.flag <==> if k == EVENT then !a.local.flag else a.local.flag)
             && Arms(todo, ArmBeat) == One(k == BEAT) && Due(todo, ASK) == One(k == BEAT || k == JOIN)
             && Due(todo, JOIN) == 0 && Due(todo, SEND) == One(k == EVENT && b.local.flag)
    ensures Books(b, lorawanOk)
  {
    TakenFrame(a, Control);
    NothingDue(ASK, ArmBeat);
    NothingDue(JOIN, ArmBeat);
    NothingDue(SEND, ArmBeat);
    hide Dequeued, Due, Arms, KindOf;
  }

  lemma ControlTodo(a: App, m: Msg)
    requires Proper(Control, m) && a.control.todo == []
    ensures var todo, k := ControlReacts(a, m).control.todo, KindOf(m);
            && Arms(todo, ArmBeat) == One(k == BEAT) && Due(todo, ASK) == One(k == BEAT || k == JOIN)
            && Due(todo, JOIN) == 0 && Due(todo, SEND) == One(k == EVENT && ControlReacts(a, m).local.flag)
  {
    PostKinds();
    hide AskPost, SendPost, JoinPost, EventOf, TxAfter, Zeros, CString, FlagAfter;
    var todo := ControlReacts(a, m).control.todo;
    forall k ensures todo == [AskPost(), ArmBeat] ==> Due(todo, k) == One(k == ASK) && Arms(todo, ArmBeat) == 1 {
      TwoDue(AskPost(), ArmBeat, k, ArmBeat);
    }
    forall k ensures todo == [AskPost()] ==> Due(todo, k) == One(k == ASK) && Arms(todo, ArmBeat) == 0 {
      OneDue(AskPost(), k, ArmBeat);
    }
    forall k ensures todo == [SendPost()] ==> Due(todo, k) == One(k == SEND) && Arms(todo, ArmBeat) == 0 {
      OneDue(SendPost(), k, ArmBeat);
    }
    forall k ensures todo == [] ==> Due(todo, k) == 0 && Arms(todo, ArmBeat) == 0 {
      NothingDue(k, ArmBeat);
    }
  }

  lemma ControlFlag(a: App, m: Msg)
    requires Proper(Control, m)
    ensures ControlReacts(a, m).local.flag == if KindOf(m) == EVENT then !a.local.flag else a.local.flag
  {
    hide AskPost, SendPost, TxAfter, Zeros, CString, EventOf;
  }

  lemma ControlReceives(a: App, timestamp: Word, lorawanOk: bool)
    requires InPlace(a) && Books(a, lorawanOk) && MayReceive(a, Control)
    ensures Books(Received(a, Control, timestamp), lorawanOk)
  {
    var m, b := a.control.queue[0], Received(a, Control, timestamp);
    TakenRoutes(a, Control);
    TakenFrame(a, Control);
    ControlTodo(Dequeued(a, Control), m);
    ControlFlag(Dequeued(a, Control), m);
    ReactQueues(a, Control, timestamp);
    assert KindOf(m) in {BEAT, JOIN, SEND, EVENT};
    ControlLeaves(Dequeued(a, Control), m);
    hide Dequeued, InPlace, Due, Arms, Proper, ControlReacts, Books, KindOf;
    ControlBooks(a, b, b.control.todo, lorawanOk);
  }

  lemma ControlLeaves(a: App, m: Msg)
    ensures var b := ControlReacts(a, m);
            && b.sensor == a.sensor && b.event == a.event && b.begun == a.begun && b.timers == a.timers && b.h == a.h
            && b.control.queue == a.control.queue && b.log.measured == a.log.measured
  {
    hide AskPost, SendPost, TxAfter, FlagAfter, Zeros, CString, EventOf;
  }

  lemma SensorReceives(a: App, timestamp: Word, lorawanOk: bool)
    requires InPlace(a) && Books(a, lorawanOk) && MayReceive(a, Sensor)
    ensures Books(Received(a, Sensor, timestamp), lorawanOk)
  {
    var m, op := a.sensor.queue[0], PostOf(TriggerOf(Reading(a.record)));
    TakenRoutes(a, Sensor);
    TakenFrame(a, Sensor);
    assert KindOf(m) in {ASK, TICK, POWER} && (m.code == SMC_SENSOR_MEASURE <==> KindOf(m) != POWER);
    EventKinds(Reading(a.record), EventBody(0, 0, 0, 0), 0, 0);
    NothingDue(TRIGGER, ArmRead);
    TwoDue(op, ArmRead, TRIGGER, ArmRead);
    SensorLeaves(Dequeued(a, Sensor), m);
    hide Dequeued, InPlace, Due, Arms, Reading, TriggerOf, PostOf, AskBook, JoinBook, EventBook, SendBook;
    hide TriggerBook, MeasureBook, BeatBook, Proper, ProperOp, KindOf, SensorReacts;
    var b := Received(a, Sensor, timestamp);
    OtherBooks(a, b, lorawanOk, Sensor);
    SensorBooks(a, b, lorawanOk);
  }

  lemma SensorLeaves(a: App, m: Msg)
    ensures var b := SensorReacts(a, m);
            && b.control == a.control && b.event == a.event && b.begun == a.begun && b.timers == a.timers
            && b.local == a.local && b.h == a.h && b.sensor.queue == a.sensor.queue
            && b.sensor.todo == if m.code == SMC_SENSOR_MEASURE then [PostOf(TriggerOf(Reading(a.record))), ArmRead]
                                else a.sensor.todo
  {
    hide PostOf, TriggerOf, Reading;
  }

  /** What a message does to the books of the sensor task, given what it makes the handler do */
  lemma SensorBooks(a: App, b: App, lorawanOk: bool)
    requires Books(a, lorawanOk) && MayReceive(a, Sensor)
    requires b.begun == a.begun && b.timers == a.timers && b.h == Dequeued(a, Sensor).h
    requires var k := KindOf(a.sensor.queue[0]);
             && k in {ASK, TICK, POWER}
             && Due(b.sensor.todo, TRIGGER) == One(k != POWER) && Arms(b.sensor.todo, ArmRead) == One(k != POWER)
    ensures MeasureBook(b) && TriggerBook(b)
  {
    TakenFrame(a, Sensor);
    NothingDue(TRIGGER, ArmRead);
    hide Dequeued, Due, Arms, KindOf;
  }

  /** The books of the tasks that have not received */
  lemma OtherBooks(a: App, b: App, lorawanOk: bool, t: TaskId)
    requires Books(a, lorawanOk) && MayReceive(a, t) && (t == Sensor || t == Event)
    requires b.control.todo == a.control.todo && (t == Event ==> b.sensor.todo == a.sensor.todo)
    requires (t == Sensor ==> b.event.todo == a.event.todo)
    requires b.begun == a.begun && b.timers == a.timers && b.local.flag == a.local.flag && b.h == Dequeued(a, t).h
    requires KindOf(TaskAt(a, t).queue[0]) in if t == Sensor then {ASK, TICK, POWER} else {TRIGGER}
    ensures AskBook(b) && JoinBook(b, lorawanOk) && SendBook(b) && BeatBook(b)
    ensures if t == Sensor then EventBook(b) else TriggerBook(b) && MeasureBook(b)
  {
    TakenFrame(a, t);
    hide Dequeued, Due, Arms, KindOf;
  }

  lemma EventReceives(a: App, timestamp: Word, lorawanOk: bool)
    requires InPlace(a) && Books(a, lorawanOk) && MayReceive(a, Event)
    ensures Books(Received(a, Event, timestamp), lorawanOk)
  {
    var m := a.event.queue[0];
    TakenRoutes(a, Event);
    TakenFrame(a, Event);
    var op := PostOf(SensorEventOf(EventOf(m), a.local.eventId, timestamp));
    EventKinds(0, EventOf(m), a.local.eventId, timestamp);
    NothingDue(EVENT, ArmRead);
    OneDue(op, EVENT, ArmRead);
    hide Dequeued, InPlace, Due, Arms, PostOf, SensorEventOf, EventOf, AskBook, JoinBook, TriggerBook, SendBook;
    hide BeatBook, MeasureBook;
    var b := Received(a, Event, timestamp);
    assert EventBook(b);
    OtherBooks(a, b, lorawanOk, Event);
  }

  lemma FireBooks(a: App, b: App, c: Create, granted: bool, lorawanOk: bool)
    requires Books(a, lorawanOk) && c.route.Direct?
    requires b.control.todo == a.control.todo && b.sensor.todo == a.sensor.todo && b.event.todo == a.event.todo
    requires b.begun == a.begun && b.local.flag == a.local.flag && b.h == a.h
    requires var k := KindOf(PostOf(c).msg);
             && k in {BEAT, TICK, POWER}
             && One(b.timers.beat) + One(k == BEAT) == One(a.timers.beat)
             && One(b.timers.read) + One(k == TICK) == One(a.timers.read)
    ensures Books(Fire(b, c, granted), lorawanOk)
  {
    FireTimers(a, b, c, granted);
    FireOthers(a, b, c, granted, lorawanOk);
    hide Fire, PostOf, KindOf, BeatBook, MeasureBook, AskBook, JoinBook, TriggerBook, EventBook, SendBook;
  }

  lemma FireTimers(a: App, b: App, c: Create, granted: bool)
    requires BeatBook(a) && MeasureBook(a) && c.route.Direct?
    requires b.control.todo == a.control.todo && b.sensor.todo == a.sensor.todo && b.begun == a.begun && b.h == a.h
    requires var k := KindOf(PostOf(c).msg);
             && One(b.timers.beat) + One(k == BEAT) == One(a.timers.beat)
             && One(b.timers.read) + One(k == TICK) == One(a.timers.read)
    ensures BeatBook(Fire(b, c, granted)) && MeasureBook(Fire(b, c, granted))
  {
    var op := PostOf(c);
    DeliverFrame(b, op.to, op.msg, granted, BEAT);
    DeliverFrame(b, op.to, op.msg, granted, TICK);
    hide Deliver, KindOf, PostOf, Due, Arms;
  }

  lemma FireOthers(a: App, b: App, c: Create, granted: bool, lorawanOk: bool)
    requires AskBook(a) && JoinBook(a, lorawanOk) && TriggerBook(a) && EventBook(a) && SendBook(a) && c.route.Direct?
    requires b.control.todo == a.control.todo && b.sensor.todo == a.sensor.todo && b.event.todo == a.event.todo
    requires b.local.flag == a.local.flag && b.h == a.h
    requires KindOf(PostOf(c).msg) in {BEAT, TICK, POWER}
    ensures var d := Fire(b, c, granted);
            AskBook(d) && JoinBook(d, lorawanOk) && TriggerBook(d) && EventBook(d) && SendBook(d)
  {
    var op := PostOf(c);
    DeliverFrame(b, op.to, op.msg, granted, ASK);
    DeliverFrame(b, op.to, op.msg, granted, JOIN);
    DeliverFrame(b, op.to, op.msg, granted, SEND);
    DeliverFrame(b, op.to, op.msg, granted, TRIGGER);
    DeliverFrame(b, op.to, op.msg, granted, EVENT);
    hide Deliver, KindOf, PostOf, Due, Arms;
  }

  lemma BeginBooks(a: App, lorawanOk: bool)
    requires InPlace(a) && Books(a, lorawanOk)
    ensures Books(Step(a, BeginSensor), lorawanOk)
  {
    NothingDue(TRIGGER, ArmRead);
    TwoDue(ArmPower, ArmRead, TRIGGER, ArmRead);
    hide ProperTask, Due, Arms;
  }

  /** Steps that change no book */
  lemma SameBooks(a: App, b: App, lorawanOk: bool)
    requires Books(a, lorawanOk)
    requires b.control.todo == a.control.todo && b.sensor.todo == a.sensor.todo && b.event.todo == a.event.todo
    requires b.begun == a.begun && b.timers == a.timers && b.local == a.local
    requires b.h.posted == a.h.posted && b.h.received == a.h.received && b.h.merged == a.h.merged
    ensures Books(b, lorawanOk)
  {
    hide Due, Arms;
  }

  lemma FlushBooks(a: App, t: TaskId, lorawanOk: bool)
    requires Books(a, lorawanOk)
    ensures Books(Step(a, Flush(t)), lorawanOk)
  {
    hide Books, Kinds;
    SameBooks(a, Step(a, Flush(t)), lorawanOk);
  }

  lemma TimerKinds()
    ensures var op := PostOf(TimerCreate(MSG_ID_CONTROL_TASK)); KindOf(op.msg) == BEAT && Proper(op.to, op.msg)
    ensures var op := PostOf(TickCreate());
            KindOf(op.msg) == TICK && Proper(op.to, op.msg)
    ensures var op := PostOf(PowerCreate());
            KindOf(op.msg) == POWER && Proper(op.to, op.msg)
  {
  }

  lemma StepBooks(a: App, c: Choice, lorawanOk: bool)
    requires InPlace(a) && Conserved(a) && Books(a, lorawanOk)
    ensures Books(Step(a, c), lorawanOk)
  {
    TimerKinds();
    hide InPlace, Conserved, Books, Performed, Received, Fire, PostOf, KindOf, Proper, Kinds;
    match c
    case Perform(t, granted) =>
      if TaskAt(a, t).todo != [] {
        PerformBooks(a, t, granted, lorawanOk);
      }
    case Receive(t, timestamp) =>
      if MayReceive(a, t) {
        match t
        case Control => ControlReceives(a, timestamp, lorawanOk);
        case Sensor => SensorReceives(a, timestamp, lorawanOk);
        case Event => EventReceives(a, timestamp, lorawanOk);
      }
    case BeginSensor => BeginBooks(a, lorawanOk);
    case FireBeat(granted) =>
      if a.timers.beat {
        FireBooks(a, a.(timers := a.timers.(beat := false)), TimerCreate(MSG_ID_CONTROL_TASK), granted, lorawanOk);
      }
    case FireRead(granted) =>
      if a.timers.read {
        FireBooks(a, a.(timers := a.timers.(read := false)), TickCreate(), granted, lorawanOk);
      }
    case FirePower(granted) =>
      if a.timers.power {
        FireBooks(a, a.(timers := a.timers.(power := false)), PowerCreate(), granted, lorawanOk);
      }
    case Flush(t) => FlushBooks(a, t, lorawanOk);
    case Meter(record) => SameBooks(a, Step(a, c), lorawanOk);
  }

  /** The power timer is started once, with the thread, and fires once. */
  ghost predicate PowerBook(a: App) {
    One(a.timers.power) + Arms(a.sensor.todo, ArmPower) + One(!a.begun) + a.h.posted[POWER] == 1
  }

  lemma PerformPower(a: App, t: TaskId, granted: bool)
    requires InPlace(a) && PowerBook(a) && TaskAt(a, t).todo != []
    ensures PowerBook(Performed(a, t, granted))
  {
    var op := TaskAt(a, t).todo[0];
    NextIsProper(a, t);
    PerformFrame(a, t, granted, POWER);
    HeadOf(TaskAt(a, t).todo, ArmPower, POWER);
    if op.Post? {
      ProperPosts(t, op);
    } else {
      assert op == ArmPower ==> t == Sensor;
    }
    hide Performed, InPlace, ProperOp, Posts, Due, Arms, KindOf;
  }

  lemma ReceivePower(a: App, t: TaskId, timestamp: Word)
    requires PowerBook(a) && MayReceive(a, t)
    ensures PowerBook(Received(a, t, timestamp))
  {
    var op := PostOf(TriggerOf(Reading(a.record)));
    TakenFrame(a, t);
    NothingDue(POWER, ArmPower);
    TwoDue(op, ArmRead, POWER, ArmPower);
    ControlLeaves(Dequeued(a, t), TaskAt(a, t).queue[0]);
    SensorLeaves(Dequeued(a, t), TaskAt(a, t).queue[0]);
    hide Dequeued, Due, Arms, Reading, TriggerOf, PostOf, EventOf, SensorEventOf, KindOf, ControlReacts, SensorReacts;
    match t
    case Control =>
    case Sensor =>
    case Event =>
  }

  lemma FireKeepsPower(a: App, b: App, c: Create, granted: bool)
    requires PowerBook(a) && c.route.Direct? && b.sensor == a.sensor && b.begun == a.begun && b.h == a.h
    requires One(b.timers.power) + One(KindOf(PostOf(c).msg) == POWER) == One(a.timers.power)
    ensures PowerBook(Fire(b, c, granted))
  {
    var op := PostOf(c);
    DeliverFrame(b, op.to, op.msg, granted, POWER);
    hide Deliver, KindOf, PostOf, Due, Arms;
  }

  lemma StepPower(a: App, c: Choice)
    requires InPlace(a) && PowerBook(a)
    ensures PowerBook(Step(a, c))
  {
    TimerKinds();
    NothingDue(POWER, ArmPower);
    TwoDue(ArmPower, ArmRead, POWER, ArmPower);
    hide InPlace, Performed, Received, Fire, PostOf, KindOf, Proper, Kinds, Arms, Due;
    match c
    case Perform(t, granted) =>
      if TaskAt(a, t).todo != [] {
        PerformPower(a, t, granted);
      }
    case Receive(t, timestamp) =>
      if MayReceive(a, t) {
        ReceivePower(a, t, timestamp);
      }
    case BeginSensor =>
    case FireBeat(granted) =>
      FireKeepsPower(a, a.(timers := a.timers.(beat := false)), TimerCreate(MSG_ID_CONTROL_TASK), granted);
    case FireRead(granted) =>
      FireKeepsPower(a, a.(timers := a.timers.(read := false)), TickCreate(), granted);
    case FirePower(granted) =>
      if a.timers.power {
        FireKeepsPower(a, a.(timers := a.timers.(power := false)), PowerCreate(), granted);
      }
    case Flush(t) =>
    case Meter(record) =>
  }

  lemma PowerUpBooks(lorawanOk: bool, record: Bytes)
    ensures var a := PowerUp(lorawanOk, record); Conserved(a) && InPlace(a) && Books(a, lorawanOk)
  {
    StartUpDue(lorawanOk, ASK);
    StartUpDue(lorawanOk, JOIN);
    StartUpDue(lorawanOk, SEND);
    StartUpProper(lorawanOk);
    hide Zeros, KindOf, StartUp;
    var a := PowerUp(lorawanOk, record);
    forall t ensures ProperTask(t, TaskAt(a, t)) {
    }
  }

  lemma StartUpProper(lorawanOk: bool)
    ensures forall i :: 0 <= i < |StartUp(lorawanOk)| ==> ProperOp(Control, StartUp(lorawanOk)[i])
  {
    hide JoinPost, AskPost, SendPost;
  }

  lemma StartUpDue(lorawanOk: bool, k: Kind)
    ensures Arms(StartUp(lorawanOk), ArmBeat) == 1 && Due(StartUp(lorawanOk), k) == One(lorawanOk && k == JOIN)
  {
    PostKinds();
    hide JoinPost, KindOf;
    var todo, rest := StartUp(lorawanOk), if lorawanOk then [JoinPost(), ArmBeat] else [ArmBeat];
    assert todo[1..][1..] == rest;
    HeadOf(todo, ArmBeat, k);
    HeadOf(todo[1..], ArmBeat, k);
    TwoDue(JoinPost(), ArmBeat, k, ArmBeat);
    OneDue(ArmBeat, k, ArmBeat);
  }

  // ----- all runs -----

  lemma {:induction false} RunPower(lorawanOk: bool, record: Bytes, choices: seq<Choice>)
    ensures PowerBook(Run(PowerUp(lorawanOk, record), choices))
    decreases |choices|
  {
    hide Step, PowerUp, InPlace, PowerBook, Conserved, Books;
    if choices == [] {
      PowerUpPower(lorawanOk, record);
    } else {
      var n := |choices| - 1;
      RunPower(lorawanOk, record, choices[..n]);
      RunBooks(lorawanOk, record, choices[..n]);
      StepPower(Run(PowerUp(lorawanOk, record), choices[..n]), choices[n]);
    }
  }

  lemma PowerUpPower(lorawanOk: bool, record: Bytes)
    ensures PowerBook(PowerUp(lorawanOk, record))
  {
    hide StartUp, Zeros;
    NothingDue(POWER, ArmPower);
  }

  /** In every run the power timer is started once and sends one SMC_READ_POWER, and no more. */
  lemma PowerTimerFiresOnce(lorawanOk: bool, record: Bytes, choices: seq<Choice>)
    ensures var a := Run(PowerUp(lorawanOk, record), choices);
            One(a.timers.power) + Arms(a.sensor.todo, ArmPower) + One(!a.begun) + a.h.posted[POWER] == 1
  {
    hide Run, PowerUp, Arms;
    RunPower(lorawanOk, record, choices);
  }

  /** In every state of every run each waiting message is addressed to the task in whose queue it waits, has a code and
      sender that belong there, asks for no callback, and has a body only if it is an event. */
  lemma WaitingMessages(lorawanOk: bool, record: Bytes, choices: seq<Choice>, t: TaskId, i: nat)
    requires i < |TaskAt(Run(PowerUp(lorawanOk, record), choices), t).queue|
    ensures var m := TaskAt(Run(PowerUp(lorawanOk, record), choices), t).queue[i];
            && m.options == 0
            && (m.code == 13 || m.code == 14 || m.body == [])
            && match t
               case Control => m.rx == 1 && (m.code, m.tx) in {(1, 1), (9, 1), (10, 1), (13, 2)}
               case Sensor => m.rx == 2 && (m.code, m.tx) in {(12, 1), (12, 2), (11, 2)}
               case Event => m.rx == 3 && (m.code, m.tx) == (14, 2)
  {
    RunBooks(lorawanOk, record, choices);
    var a := Run(PowerUp(lorawanOk, record), choices);
    assert ProperTask(t, TaskAt(a, t));
    hide Run, PowerUp, Books, Conserved, IsFlow;
    assert Proper(t, TaskAt(a, t).queue[i]);
  }

  lemma {:induction false} RunBooks(lorawanOk: bool, record: Bytes, choices: seq<Choice>)
    ensures var a := Run(PowerUp(lorawanOk, record), choices); Conserved(a) && InPlace(a) && Books(a, lorawanOk)
    decreases |choices|
  {
    hide Conserved, InPlace, Books, Step, PowerUp;
    if choices == [] {
      PowerUpBooks(lorawanOk, record);
    } else {
      var n := |choices| - 1;
      var a := Run(PowerUp(lorawanOk, record), choices[..n]);
      RunBooks(lorawanOk, record, choices[..n]);
      StepConserves(a, choices[n]);
      StepRoutes(a, choices[n]);
      StepBooks(a, choices[n], lorawanOk);
    }
  }

  lemma {:induction false} KindsElsewhere(ms: seq<Msg>, k: Kind)
    requires forall i :: 0 <= i < |ms| ==> KindOf(ms[i]) != k
    ensures Kinds(ms)[k] == 0
  {
    hide KindOf;
    if ms != [] {
      KindsElsewhere(ms[1..], k);
    }
  }

  /** Messages of a kind wait in the queue of their task only. */
  lemma WaitingAt(a: App, k: Kind)
    requires InPlace(a)
    ensures k in {BEAT, JOIN, SEND, EVENT} ==> Kinds(a.sensor.queue)[k] == 0 && Kinds(a.event.queue)[k] == 0
    ensures k in {ASK, TICK, POWER} ==> Kinds(a.control.queue)[k] == 0 && Kinds(a.event.queue)[k] == 0
    ensures k == TRIGGER ==> Kinds(a.control.queue)[k] == 0 && Kinds(a.sensor.queue)[k] == 0
  {
    assert ProperTask(Control, TaskAt(a, Control));
    assert ProperTask(Sensor, TaskAt(a, Sensor)) && ProperTask(Event, TaskAt(a, Event));
    hide KindOf, Kinds, IsFlow, InPlace;
    if k in {BEAT, JOIN, SEND, EVENT} {
      KindsElsewhere(a.sensor.queue, k);
      KindsElsewhere(a.event.queue, k);
    } else if k in {ASK, TICK, POWER} {
      KindsElsewhere(a.control.queue, k);
      KindsElsewhere(a.event.queue, k);
    } else if k == TRIGGER {
      KindsElsewhere(a.control.queue, k);
      KindsElsewhere(a.sensor.queue, k);
    }
  }

  /** There is one heartbeat: in every state, the running timer, a handler that is about to start it, the
      waiting heartbeat message and the lost ones make one together. */
  lemma HeartbeatToken(lorawanOk: bool, record: Bytes, choices: seq<Choice>)
    ensures var a := Run(PowerUp(lorawanOk, record), choices);
            One(a.timers.beat) + Arms(a.control.todo, ArmBeat) + Kinds(a.control.queue)[BEAT] + a.h.lost[BEAT] == 1
  {
    RunBooks(lorawanOk, record, choices);
    WaitingAt(Run(PowerUp(lorawanOk, record), choices), BEAT);
    hide Run, PowerUp, InPlace, Kinds, Arms, MeasureBook, AskBook, JoinBook, TriggerBook, EventBook, SendBook;
  }

  /** Measurements under way: one chain from the start-up of the sensor task, and one for each that the
      control task asked for, less those that met a running timer or were lost. The control task asks once
      for each heartbeat and once for the join. */
  lemma MeasurementPotential(lorawanOk: bool, record: Bytes, choices: seq<Choice>)
    ensures var a := Run(PowerUp(lorawanOk, record), choices);
            && One(a.timers.read) + Arms(a.sensor.todo, ArmRead) + One(!a.begun)
               + Kinds(a.sensor.queue)[ASK] + Kinds(a.sensor.queue)[TICK] + a.h.lost[ASK] + a.h.lost[TICK] + a.h.merged
               == 1 + a.h.posted[ASK]
            && a.h.posted[ASK] + Due(a.control.todo, ASK) == a.h.received[BEAT] + a.h.received[JOIN]
            && a.h.received[JOIN] <= One(lorawanOk)
  {
    RunBooks(lorawanOk, record, choices);
    WaitingAt(Run(PowerUp(lorawanOk, record), choices), ASK);
    WaitingAt(Run(PowerUp(lorawanOk, record), choices), TICK);
    hide Run, PowerUp, InPlace, Kinds, Arms, Due, BeatBook, TriggerBook, EventBook, SendBook;
    var a := Run(PowerUp(lorawanOk, record), choices);
    assert a.h.posted[JOIN] >= a.h.received[JOIN];
  }

  /** From the measurement to the uplink: every measure handled posts one trigger, every trigger handled
      one event, and every other event, from the first, one uplink: ceil(n / 2) of them for n events. */
  lemma ChainOfEvents(lorawanOk: bool, record: Bytes, choices: seq<Choice>)
    ensures var a := Run(PowerUp(lorawanOk, record), choices);
            && a.h.posted[TRIGGER] + Due(a.sensor.todo, TRIGGER) == a.h.received[ASK] + a.h.received[TICK]
            && a.h.posted[TRIGGER] == a.h.received[TRIGGER] + Kinds(a.event.queue)[TRIGGER] + a.h.lost[TRIGGER]
            && a.h.posted[EVENT] + Due(a.event.todo, EVENT) == a.h.received[TRIGGER]
            && a.h.posted[EVENT] == a.h.received[EVENT] + Kinds(a.control.queue)[EVENT] + a.h.lost[EVENT]
            && a.h.posted[SEND] + Due(a.control.todo, SEND) == (a.h.received[EVENT] + 1) / 2
            && a.h.posted[SEND] == a.h.received[SEND] + Kinds(a.control.queue)[SEND] + a.h.lost[SEND]
  {
    RunBooks(lorawanOk, record, choices);
    var a := Run(PowerUp(lorawanOk, record), choices);
    WaitingAt(a, TRIGGER);
    WaitingAt(a, EVENT);
    WaitingAt(a, SEND);
    hide Run, PowerUp, InPlace, Kinds, Arms, Due, BeatBook, MeasureBook, AskBook, JoinBook;
  }
}
