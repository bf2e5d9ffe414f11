/** The three tasks and their timers as one closed system (app/src/control_task.c, app/src/sensor_task.c,
    app/src/event_task.c) over mailboxes of message values. Any interleaving of threads and timer
    interrupts is possible; any allocation may fail, and any queue may be flushed. */
module Application {
  import opened Messages
  import opened Calls
  import opened AppMessages
  import opened ConfigHash
  import opened Decimal
  import opened ControlTask
  import opened SensorTask

  const QUEUE_DEPTH := 32

  datatype TaskId = Control | Sensor | Event

  /** One access of a handler to what the threads share */
  datatype Op =
    | Post(to: TaskId, msg: Msg)
    | ArmBeat                   // msg_start_timer
    | ArmRead                   // start_sensor_interval
    | ArmPower
    | Register(task: TaskId)

  /** todo: what the handler that is running, or the start-up code, has yet to do */
  datatype Task = Task(registered: bool, queue: seq<Msg>, todo: seq<Op>)

  /** A kind of message: code and sender */
  datatype Kind = Kind(code: Byte, tx: Byte)

  /** What the control task did, in order: handled a water flow reading, tried to send a payload */
  datatype Note = Heard(reading: Word) | Dispatched(payload: Bytes)

  /** Of all messages: which were posted, which of these were refused or flushed, and which were received.
      merged counts the times that the read timer was to be started while it ran. */
  datatype Counts = Counts(posted: multiset<Kind>, lost: multiset<Kind>, received: multiset<Kind>, merged: nat)

  datatype Log = Log(measured: seq<Word>, notes: seq<Note>)

  /** Which timers run */
  datatype Timers = Timers(beat: bool, read: bool, power: bool)

  /** The variables of control_task.c and event_task.c */
  datatype Local = Local(flag: bool, tx: Bytes, eventId: Word)

  /** begun: the sensor thread has started. record: the stored count of the water meter */
  datatype App = App(control: Task, sensor: Task, event: Task, begun: bool, timers: Timers, local: Local, record: Bytes,
                     h: Counts, log: Log)

  function KindOf(m: Msg): Kind {
    Kind(m.code, m.tx)
  }

  const BEAT := Kind(SMC_PERIODIC, MSG_ID_CONTROL_TASK)
  const JOIN := Kind(SMC_JOIN_LORAWAN, MSG_ID_CONTROL_TASK)
  const SEND := Kind(SMC_SEND_DATA_LORAWAN, MSG_ID_CONTROL_TASK)
  const POWER := Kind(SMC_READ_POWER, MSG_ID_SENSOR_TASK)
  const ASK := Kind(SMC_SENSOR_MEASURE, MSG_ID_CONTROL_TASK)
  const TICK := Kind(SMC_SENSOR_MEASURE, MSG_ID_SENSOR_TASK)
  const TRIGGER := Kind(SMC_EVENT_TRIGGER, MSG_ID_SENSOR_TASK)
  const EVENT := Kind(SMC_SENSOR_EVENT, MSG_ID_SENSOR_TASK)

  function TaskOf(rx: Byte): TaskId {
    if rx == MSG_ID_CONTROL_TASK then Control else if rx == MSG_ID_SENSOR_TASK then Sensor else Event
  }

  function IdOf(t: TaskId): Byte {
    match t
    case Control => MSG_ID_CONTROL_TASK
    case Sensor => MSG_ID_SENSOR_TASK
    case Event => MSG_ID_EVENT_TASK
  }

  function PostOf(c: Create): (op: Op)
    requires c.route.Direct?
    ensures op.Post?
  {
    Post(TaskOf(c.route.rx), c.msg.(rx := c.route.rx))
  }

  function AskPost(): (op: Op)
    ensures op.Post?
  {
    PostOf(AskCreate())
  }

  function SendPost(): (op: Op)
    ensures op.Post?
  {
    PostOf(UplinkCreate())
  }

  function JoinPost(): (op: Op)
    ensures op.Post?
  {
    PostOf(JoinCreate())
  }

  function TaskAt(a: App, t: TaskId): Task {
    match t
    case Control => a.control
    case Sensor => a.sensor
    case Event => a.event
  }

  function WithTask(a: App, t: TaskId, task: Task): App {
    match t
    case Control => a.(control := task)
    case Sensor => a.(sensor := task)
    case Event => a.(event := task)
  }

  /** Create and send: the message is in the queue, or it is lost. */
  function Deliver(a: App, t: TaskId, m: Msg, granted: bool): App {
    var task := TaskAt(a, t);
    var h := a.h.(posted := a.h.posted + multiset{KindOf(m)});
    if granted && task.registered && |task.queue| < QUEUE_DEPTH
    then WithTask(a, t, task.(queue := task.queue + [m])).(h := h)
    else a.(h := h.(lost := h.lost + multiset{KindOf(m)}))
  }

  function Popped(a: App, t: TaskId): App
    requires TaskAt(a, t).todo != []
  {
    WithTask(a, t, TaskAt(a, t).(todo := TaskAt(a, t).todo[1..]))
  }

  /** The event task numbers the messages for which it gets a buffer. */
  function WithNextId(a: App): App {
    a.(local := a.local.(eventId := ToUint32(a.local.eventId + 1)))
  }

  function Execute(a: App, t: TaskId, op: Op, granted: bool): App {
    match op
    case Post(to, m) => Deliver(if t == Event && granted then WithNextId(a) else a, to, m, granted)
    case ArmBeat => a.(timers := a.timers.(beat := true))
    case ArmRead =>
      if a.timers.read then a.(h := a.h.(merged := a.h.merged + 1)) else a.(timers := a.timers.(read := true))
    case ArmPower => a.(timers := a.timers.(power := true))
    case Register(u) => WithTask(a, u, TaskAt(a, u).(registered := true))
  }

  /** The next access of task t, which has something to do */
  function Performed(a: App, t: TaskId, granted: bool): App
    requires TaskAt(a, t).todo != []
  {
    Execute(Popped(a, t), t, TaskAt(a, t).todo[0], granted)
  }

  function EventOf(m: Msg): EventBody {
    if |m.body| >= EVENT_BODY_SIZE then Decode(m.body) else EventBody(0, 0, 0, 0)
  }

  function Noted(log: Log, note: Note): Log {
    log.(notes := log.notes + [note])
  }

  /** The handlers of the control task, up to their next access to shared state. The join loop has ended. */
  function ControlReacts(a: App, m: Msg): App {
    if m.code == SMC_PERIODIC then a.(control := a.control.(todo := [AskPost(), ArmBeat]))
    else if m.code == SMC_JOIN_LORAWAN then a.(control := a.control.(todo := [AskPost()]))
    else if m.code == SMC_SENSOR_EVENT then
      var e := EventOf(m);
      var flag := FlagAfter(a.local.flag, e);
      a.(control := a.control.(todo := if flag then [SendPost()] else []),
         local := a.local.(flag := flag, tx := if |a.local.tx| == TX_SIZE then TxAfter(a.local.tx, e) else a.local.tx),
         log := if e.eventType == SENSOR_EVENT_WATER_FLOW then Noted(a.log, Heard(e.data)) else a.log)
    else if m.code == SMC_SEND_DATA_LORAWAN then
      a.(local := a.local.(tx := Zeros(TX_SIZE)), log := Noted(a.log, Dispatched(CString(a.local.tx))))
    else a
  }

  function SensorReacts(a: App, m: Msg): App {
    if m.code == SMC_SENSOR_MEASURE then
      var reading := Reading(a.record);
      a.(sensor := a.sensor.(todo := [PostOf(TriggerOf(reading)), ArmRead]),
         log := a.log.(measured := a.log.measured + [reading]))
    else a
  }

  function SensorEventOf(e: EventBody, id: Word, timestamp: Word): Create {
    EventCreate(SMC_SENSOR_EVENT, MSG_ID_CONTROL_TASK, EventBody(e.eventType, e.data, id, timestamp))
  }

  function EventReacts(a: App, m: Msg, timestamp: Word): App {
    if m.code == SMC_EVENT_TRIGGER
    then a.(event := a.event.(todo := [PostOf(SensorEventOf(EventOf(m), a.local.eventId, timestamp))]))
    else a
  }

  predicate MayReceive(a: App, t: TaskId) {
    TaskAt(a, t).todo == [] && TaskAt(a, t).queue != [] && (t == Sensor ==> a.begun)
  }

  function Dequeued(a: App, t: TaskId): App
    requires MayReceive(a, t)
  {
    var task := TaskAt(a, t);
    var h := a.h.(received := a.h.received + multiset{KindOf(task.queue[0])});
    WithTask(a, t, task.(queue := task.queue[1..])).(h := h)
  }

  function Received(a: App, t: TaskId, timestamp: Word): App
    requires MayReceive(a, t)
  {
    var m := TaskAt(a, t).queue[0];
    match t
    case Control => ControlReacts(Dequeued(a, t), m)
    case Sensor => SensorReacts(Dequeued(a, t), m)
    case Event => EventReacts(Dequeued(a, t), m, timestamp)
  }

  datatype Choice =
    | Perform(t: TaskId, granted: bool)
    | Receive(t: TaskId, timestamp: Word)
    | BeginSensor                           // the sensor thread starts
    | FireBeat(granted: bool)               // the timer interrupts
    | FireRead(granted: bool)
    | FirePower(granted: bool)
    | Flush(t: TaskId)                      // msg_flush
    | Meter(record: Bytes)                  // the meter's interrupt stores its count

  /** What cannot happen now changes nothing. */
  function Step(a: App, c: Choice): App {
    match c
    case Perform(t, granted) => if TaskAt(a, t).todo != [] then Performed(a, t, granted) else a
    case Receive(t, timestamp) => if MayReceive(a, t) then Received(a, t, timestamp) else a
    case BeginSensor =>
      if a.sensor.registered && !a.begun
      then a.(begun := true, sensor := a.sensor.(todo := [ArmPower, ArmRead]))
      else a
    case FireBeat(granted) =>
      if a.timers.beat then Fire(a.(timers := a.timers.(beat := false)), TimerCreate(MSG_ID_CONTROL_TASK), granted)
      else a
    case FireRead(granted) =>
      if a.timers.read then Fire(a.(timers := a.timers.(read := false)), TickCreate(), granted) else a
    case FirePower(granted) =>
      if a.timers.power then Fire(a.(timers := a.timers.(power := false)), PowerCreate(), granted) else a
    case Flush(t) =>
      var task := TaskAt(a, t);
      WithTask(a, t, task.(queue := [])).(h := a.h.(lost := a.h.lost + Kinds(task.queue)))
    case Meter(record) => a.(record := record)
  }

  function Fire(a: App, c: Create, granted: bool): App
    requires c.route.Direct?
  {
    Deliver(a, PostOf(c).to, PostOf(c).msg, granted)
  }

  function Run(a: App, choices: seq<Choice>): App
    decreases |choices|
  {
    if choices == [] then a else Step(Run(a, choices[..|choices| - 1]), choices[|choices| - 1])
  }

  /** ctrl_task_thread starts the others, posts the join if lorawan_start works, and starts its timer. */
  function StartUp(lorawanOk: bool): seq<Op> {
    [Register(Sensor), Register(Event)] + (if lorawanOk then [JoinPost(), ArmBeat] else [ArmBeat])
  }

  /** Power-up: the control task is registered, and its thread about to begin. */
  function PowerUp(lorawanOk: bool, record: Bytes): App {
    App(Task(true, [], StartUp(lorawanOk)),
        Task(false, [], []), Task(false, [], []), false, Timers(false, false, false), Local(false, Zeros(TX_SIZE), 0),
        record,
        Counts(multiset{}, multiset{}, multiset{}, 0), Log([], []))
  }

  // ----- counting -----

  function Kinds(ms: seq<Msg>): multiset<Kind> {
    if ms == [] then multiset{} else multiset{KindOf(ms[0])} + Kinds(ms[1..])
  }

  lemma {:induction false} KindsAppend(ms: seq<Msg>, m: Msg)
    ensures Kinds(ms + [m]) == Kinds(ms) + multiset{KindOf(m)}
  {
    if ms == [] {
      assert ms + [m] == [m];
    } else {
      assert (ms + [m])[1..] == ms[1..] + [m];
      KindsAppend(ms[1..], m);
    }
  }

  /** The messages that the rest of a handler will post */
  function Due(todo: seq<Op>, k: Kind): nat {
    if todo == [] then 0
    else (if todo[0].Post? && KindOf(todo[0].msg) == k then 1 else 0) + Due(todo[1..], k)
  }

  /** How often the rest of a handler will start a timer */
  function Arms(todo: seq<Op>, op: Op): nat {
    if todo == [] then 0 else (if todo[0] == op then 1 else 0) + Arms(todo[1..], op)
  }

  function One(b: bool): nat {
    if b then 1 else 0
  }
}
