/** What the uplinks say: the readings that reach the control task, and the payloads it sends. */
module Uplinks {
  import opened Messages
  import opened Calls
  import opened AppMessages
  import opened ConfigHash
  import opened Decimal
  import opened ControlTask
  import opened SensorTask
  import opened Application
  import opened Books

  // ----- subsequences -----

  /** places says where in whole the elements of part are found, from left to right. */
  ghost predicate Places(places: seq<nat>, part: seq<Word>, whole: seq<Word>) {
    && |places| == |part|
    && (forall i :: 0 <= i < |part| ==> places[i] < |whole| && part[i] == whole[places[i]])
    && (forall i, j :: 0 <= i < j < |part| ==> places[i] < places[j])
  }

  ghost predicate Subsequence(part: seq<Word>, whole: seq<Word>) {
    exists places :: Places(places, part, whole)
  }

  lemma DropKeeps(before: seq<Word>, dropped: seq<Word>, after: seq<Word>, whole: seq<Word>)
    requires Subsequence(before + dropped + after, whole)
    ensures Subsequence(before + after, whole)
  {
    var all, kept := before + dropped + after, before + after;
    var places :| Places(places, all, whole);
    var n, gap := |before|, |dropped|;
    var rest := places[..n] + places[n + gap..];
    forall k | 0 <= k < |kept| ensures rest[k] < |whole| && kept[k] == whole[rest[k]] {
      assert all[if k < n then k else k + gap] == kept[k];
    }
    assert Places(rest, kept, whole);
  }

  lemma BothGrow(part: seq<Word>, whole: seq<Word>, reading: Word)
    requires Subsequence(part, whole)
    ensures Subsequence(part + [reading], whole + [reading])
  {
    var places :| Places(places, part, whole);
    var last: nat := |whole|;
    var more: seq<nat> := places + [last];
    assert Places(more, part + [reading], whole + [reading]);
  }

  lemma {:induction false} PlacesGrow(places: seq<nat>, part: seq<Word>, whole: seq<Word>, i: nat)
    requires Places(places, part, whole) && i < |part|
    ensures i <= places[i]
  {
    if i > 0 {
      PlacesGrow(places, part, whole, i - 1);
    }
  }

  lemma {:induction false} PlacesFit(places: seq<nat>, part: seq<Word>, whole: seq<Word>, i: nat)
    requires Places(places, part, whole) && i < |part| && |part| == |whole|
    ensures places[i] <= i
    decreases |part| - i
  {
    if i + 1 < |part| {
      PlacesFit(places, part, whole, i + 1);
    }
  }

  /** A subsequence that is not shorter is the whole. */
  lemma SubsequenceWhole(part: seq<Word>, whole: seq<Word>)
    requires Subsequence(part, whole) && |part| == |whole|
    ensures part == whole
  {
    var places :| Places(places, part, whole);
    forall i | 0 <= i < |part| ensures part[i] == whole[i] {
      PlacesGrow(places, part, whole, i);
      PlacesFit(places, part, whole, i);
    }
  }

  // ----- readings on their way -----

  /** The reading that a message carries */
  function ReadingOf(m: Msg): seq<Word> {
    if m.code == SMC_EVENT_TRIGGER || m.code == SMC_SENSOR_EVENT then [EventOf(m).data] else []
  }

  function ReadingsIn(ms: seq<Msg>): seq<Word> {
    if ms == [] then [] else ReadingOf(ms[0]) + ReadingsIn(ms[1..])
  }

  function ReadingsDue(todo: seq<Op>): seq<Word> {
    if todo == [] then [] else (if todo[0].Post? then ReadingOf(todo[0].msg) else []) + ReadingsDue(todo[1..])
  }

  function HeardIn(notes: seq<Note>): seq<Word> {
    if notes == [] then []
    else
      var n := |notes| - 1;
      HeardIn(notes[..n]) + (if notes[n].Heard? then [notes[n].reading] else [])
  }

  /** The stages that a reading passes, the last first */
  datatype Stages = Stages(heard: seq<Word>, atControl: seq<Word>, inEvent: seq<Word>, atEvent: seq<Word>,
                           inSensor: seq<Word>)

  function StagesOf(a: App): Stages {
    Stages(HeardIn(a.log.notes), ReadingsIn(a.control.queue), ReadingsDue(a.event.todo),
           ReadingsIn(a.event.queue), ReadingsDue(a.sensor.todo))
  }

  function Flow(s: Stages): seq<Word> {
    s.heard + s.atControl + s.inEvent + s.atEvent + s.inSensor
  }

  /** Readings are not reordered, invented or doubled; those that are missing were lost. */
  ghost predicate Unshuffled(s: Stages, measured: seq<Word>, lost: nat) {
    Subsequence(Flow(s), measured) && |Flow(s)| + lost == |measured|
  }

  function LostReadings(a: App): nat {
    a.h.lost[TRIGGER] + a.h.lost[EVENT]
  }

  ghost predicate Lineage(a: App) {
    Unshuffled(StagesOf(a), a.log.measured, LostReadings(a))
  }

  lemma {:induction false} ReadingsAppend(ms: seq<Msg>, m: Msg)
    ensures ReadingsIn(ms + [m]) == ReadingsIn(ms) + ReadingOf(m)
  {
    hide ReadingOf;
    if ms == [] {
      assert [m][1..] == [] && ms + [m] == [m];
    } else {
      assert (ms + [m])[1..] == ms[1..] + [m];
      ReadingsAppend(ms[1..], m);
    }
  }

  // one move of a reading from a stage to the next, or out of the system

  lemma HeardMoves(s: Stages, s': Stages, reading: Word, measured: seq<Word>, lost: nat)
    requires Unshuffled(s, measured, lost)
    requires s.atControl == [reading] + s'.atControl
    requires s' == s.(heard := s.heard + [reading], atControl := s'.atControl)
    ensures Unshuffled(s', measured, lost)
  {
    assert Flow(s') == Flow(s);
  }

  lemma EventPostMoves(s: Stages, s': Stages, reading: Word, measured: seq<Word>, lost: nat)
    requires Unshuffled(s, measured, lost)
    requires s.inEvent == [reading] + s'.inEvent
    requires s' == s.(atControl := s.atControl + [reading], inEvent := s'.inEvent)
    ensures Unshuffled(s', measured, lost)
  {
    assert Flow(s') == Flow(s);
  }

  lemma TriggerTakenMoves(s: Stages, s': Stages, reading: Word, measured: seq<Word>, lost: nat)
    requires Unshuffled(s, measured, lost) && s.inEvent == []
    requires s.atEvent == [reading] + s'.atEvent && s' == s.(inEvent := [reading], atEvent := s'.atEvent)
    ensures Unshuffled(s', measured, lost)
  {
    assert Flow(s') == Flow(s);
  }

  lemma TriggerPostMoves(s: Stages, s': Stages, reading: Word, measured: seq<Word>, lost: nat)
    requires Unshuffled(s, measured, lost)
    requires s.inSensor == [reading] + s'.inSensor
    requires s' == s.(atEvent := s.atEvent + [reading], inSensor := s'.inSensor)
    ensures Unshuffled(s', measured, lost)
  {
    assert Flow(s') == Flow(s);
  }

  lemma MeasuredMoves(s: Stages, reading: Word, measured: seq<Word>, lost: nat)
    requires Unshuffled(s, measured, lost) && s.inSensor == []
    ensures Unshuffled(s.(inSensor := [reading]), measured + [reading], lost)
  {
    assert Flow(s.(inSensor := [reading])) == Flow(s) + [reading];
    BothGrow(Flow(s), measured, reading);
  }

  lemma DroppedLoses(s: Stages, s': Stages, before: seq<Word>, dropped: seq<Word>, after: seq<Word>,
                     measured: seq<Word>, lost: nat)
    requires Unshuffled(s, measured, lost)
    requires Flow(s) == before + dropped + after && Flow(s') == before + after
    ensures Unshuffled(s', measured, lost + |dropped|)
  {
    DropKeeps(before, dropped, after, measured);
  }

  lemma EventDropped(s: Stages, s': Stages, dropped: seq<Word>, measured: seq<Word>, lost: nat)
    requires Unshuffled(s, measured, lost)
    requires s.inEvent == dropped + s'.inEvent && s' == s.(inEvent := s'.inEvent)
    ensures Unshuffled(s', measured, lost + |dropped|)
  {
    hide Subsequence;
    DroppedLoses(s, s', s.heard + s.atControl, dropped, s'.inEvent + s.atEvent + s.inSensor, measured, lost);
  }

  lemma TriggerDropped(s: Stages, s': Stages, dropped: seq<Word>, measured: seq<Word>, lost: nat)
    requires Unshuffled(s, measured, lost)
    requires s.inSensor == dropped + s'.inSensor && s' == s.(inSensor := s'.inSensor)
    ensures Unshuffled(s', measured, lost + |dropped|)
  {
    hide Subsequence;
    DroppedLoses(s, s', s.heard + s.atControl + s.inEvent + s.atEvent, dropped, s'.inSensor, measured, lost);
  }

  lemma ControlFlushed(s: Stages, measured: seq<Word>, lost: nat)
    requires Unshuffled(s, measured, lost)
    ensures Unshuffled(s.(atControl := []), measured, lost + |s.atControl|)
  {
    hide Subsequence;
    DroppedLoses(s, s.(atControl := []), s.heard, s.atControl, s.inEvent + s.atEvent + s.inSensor, measured, lost);
  }

  lemma EventFlushed(s: Stages, measured: seq<Word>, lost: nat)
    requires Unshuffled(s, measured, lost)
    ensures Unshuffled(s.(atEvent := []), measured, lost + |s.atEvent|)
  {
    hide Subsequence;
    DroppedLoses(s, s.(atEvent := []), s.heard + s.atControl + s.inEvent, s.atEvent, s.inSensor, measured, lost);
  }

  // ----- the steps -----

  lemma SameLineage(a: App, b: App)
    requires Lineage(a) && StagesOf(b) == StagesOf(a) && b.log.measured == a.log.measured
    requires LostReadings(b) == LostReadings(a)
    ensures Lineage(b)
  {
  }

  lemma ReadingKinds(t: TaskId, m: Msg)
    requires Proper(t, m)
    ensures |ReadingOf(m)| == One(KindOf(m) == TRIGGER) + One(KindOf(m) == EVENT)
    ensures KindOf(m) == TRIGGER ==> t == Event && ReadingOf(m) == [EventOf(m).data]
    ensures KindOf(m) == EVENT ==> t == Control && ReadingOf(m) == [EventOf(m).data]
  {
    hide EventOf;
  }

  predicate Arrives(a: App, t: TaskId, granted: bool) {
    granted && TaskAt(a, t).registered && |TaskAt(a, t).queue| < QUEUE_DEPTH
  }

  lemma DeliverStages(a: App, t: TaskId, m: Msg, granted: bool)
    requires Proper(t, m)
    ensures var b, s := Deliver(a, t, m, granted), StagesOf(a);
            && StagesOf(b) == (if !Arrives(a, t, granted) then s
                               else if t == Control then s.(atControl := s.atControl + ReadingOf(m))
                               else if t == Event then s.(atEvent := s.atEvent + ReadingOf(m))
                               else s)
            && b.log == a.log
            && LostReadings(b) == LostReadings(a) + if Arrives(a, t, granted) then 0 else |ReadingOf(m)|
  {
    ReadingsAppend(TaskAt(a, t).queue, m);
    ReadingKinds(t, m);
    hide ReadingOf, ReadingsIn, ReadingsDue, HeardIn, KindOf, Proper;
  }

  lemma NoReading(a: App, t: TaskId, m: Msg, granted: bool)
    requires Lineage(a) && Proper(t, m) && ReadingOf(m) == []
    ensures Lineage(Deliver(a, t, m, granted))
  {
    DeliverStages(a, t, m, granted);
    hide StagesOf, Unshuffled, Deliver, ReadingOf, Proper, LostReadings;
    var s := StagesOf(a);
    assert s.atControl + [] == s.atControl && s.atEvent + [] == s.atEvent;
  }

  lemma DueHead(todo: seq<Op>)
    requires todo != []
    ensures ReadingsDue(todo) == (if todo[0].Post? then ReadingOf(todo[0].msg) else []) + ReadingsDue(todo[1..])
  {
  }

  lemma PoppedStages(a: App, t: TaskId)
    requires TaskAt(a, t).todo != []
    ensures var b, s, rest := Popped(a, t), StagesOf(a), ReadingsDue(TaskAt(a, t).todo[1..]);
            && StagesOf(b) == (if t == Event then s.(inEvent := rest)
                               else if t == Sensor then s.(inSensor := rest) else s)
            && b.log == a.log && LostReadings(b) == LostReadings(a)
            && forall u :: Arrives(b, u, true) == Arrives(a, u, true)
  {
    hide ReadingOf, ReadingsIn, ReadingsDue, HeardIn;
  }

  lemma ExecuteStages(a: App, t: TaskId, op: Op, granted: bool)
    requires ProperOp(t, op)
    ensures var b, s := Execute(a, t, op, granted), StagesOf(a);
            if op.Post?
            then var arrives, r := Arrives(a, op.to, granted), ReadingOf(op.msg);
                 && StagesOf(b) == (if !arrives then s
                                    else if op.to == Control then s.(atControl := s.atControl + r)
                                    else if op.to == Event then s.(atEvent := s.atEvent + r)
                                    else s)
                 && b.log == a.log && LostReadings(b) == LostReadings(a) + if arrives then 0 else |r|
            else StagesOf(b) == s && b.log == a.log && LostReadings(b) == LostReadings(a)
  {
    hide ProperOp, Proper, Deliver, ReadingOf, ReadingsIn, ReadingsDue, HeardIn, ToUint32;
    if op.Post? {
      ProperPost(t, op);
      var b := if t == Event && granted then WithNextId(a) else a;
      assert StagesOf(b) == StagesOf(a) && Arrives(b, op.to, granted) == Arrives(a, op.to, granted);
      DeliverStages(b, op.to, op.msg, granted);
    } else if op.Register? {
    } else {
    }
  }

  lemma PerformLineage(a: App, t: TaskId, granted: bool)
    requires Lineage(a) && InPlace(a) && TaskAt(a, t).todo != []
    ensures Lineage(Performed(a, t, granted))
  {
    var op := TaskAt(a, t).todo[0];
    NextIsProper(a, t);
    DueHead(TaskAt(a, t).todo);
    PoppedStages(a, t);
    ExecuteStages(Popped(a, t), t, op, granted);
    if op.Post? {
      PostReading(t, op);
      hide ProperOp, Popped, Execute, ReadingOf, ReadingsIn, ReadingsDue, HeardIn, Unshuffled, Arrives;
      hide LostReadings, InPlace, EventOf;
      PostMoves(t, Arrives(Popped(a, t), op.to, granted), StagesOf(a), StagesOf(Performed(a, t, granted)),
                ReadingOf(op.msg), a.log.measured, LostReadings(a));
    } else {
      OnlyPosts(t, op);
      hide ProperOp, Popped, Execute, ReadingOf, ReadingsIn, ReadingsDue, HeardIn, Unshuffled, LostReadings, InPlace;
      PostNothing(StagesOf(a), StagesOf(Performed(a, t, granted)), a.log.measured, LostReadings(a));
    }
  }

  /** A post moves its reading on, or loses it. */
  lemma PostMoves(t: TaskId, arrives: bool, s: Stages, s': Stages, r: seq<Word>, measured: seq<Word>, lost: nat)
    requires Unshuffled(s, measured, lost)
    requires if t == Control then r == [] else |r| == 1
    requires t == Event ==> s.inEvent == r + s'.inEvent
    requires t == Sensor ==> s.inSensor == r + s'.inSensor
    requires s' == (match t
                    case Control => if arrives && s'.atControl != s.atControl then s.(atControl := s.atControl + r)
                                    else if arrives && s'.atEvent != s.atEvent then s.(atEvent := s.atEvent + r) else s
                    case Sensor => s.(inSensor := s'.inSensor, atEvent := if arrives then s.atEvent + r else s.atEvent)
                    case Event =>
                      s.(inEvent := s'.inEvent, atControl := if arrives then s.atControl + r else s.atControl))
    ensures Unshuffled(s', measured, lost + if arrives then 0 else |r|)
  {
    hide Unshuffled;
    match t
    case Control => PostNothing(s, s', measured, lost);
    case Sensor =>
      if arrives {
        TriggerPostMoves(s, s', r[0], measured, lost);
      } else {
        TriggerDropped(s, s', r, measured, lost);
      }
    case Event =>
      if arrives {
        EventPostMoves(s, s', r[0], measured, lost);
      } else {
        EventDropped(s, s', r, measured, lost);
      }
  }

  lemma OnlyPosts(t: TaskId, op: Op)
    requires ProperOp(t, op) && !op.Post?
    ensures t != Event
  {
  }

  /** What the posts of each task carry */
  lemma PostReading(t: TaskId, op: Op)
    requires ProperOp(t, op) && op.Post?
    ensures t == Control ==> ReadingOf(op.msg) == []
    ensures t == Sensor ==> op.to == Event && ReadingOf(op.msg) == [EventOf(op.msg).data]
    ensures t == Event ==> op.to == Control && ReadingOf(op.msg) == [EventOf(op.msg).data]
  {
    PostKinds();
    hide EventOf;
  }

  /** Stages that differ in nothing but an empty part */
  lemma PostNothing(s: Stages, s': Stages, measured: seq<Word>, lost: nat)
    requires Unshuffled(s, measured, lost)
    requires s'.heard == s.heard && s'.inEvent == s.inEvent
    requires s'.atControl == s.atControl || s'.atControl == s.atControl + []
    requires s'.atEvent == s.atEvent || s'.atEvent == s.atEvent + []
    requires s.inSensor == s'.inSensor || s.inSensor == [] + s'.inSensor
    ensures Unshuffled(s', measured, lost)
  {
    assert Flow(s') == Flow(s);
  }

  lemma QueueHead(ms: seq<Msg>)
    requires ms != []
    ensures ReadingsIn(ms) == ReadingOf(ms[0]) + ReadingsIn(ms[1..])
  {
  }

  lemma TakenStages(a: App, t: TaskId)
    requires MayReceive(a, t)
    ensures var b, s, rest := Dequeued(a, t), StagesOf(a), ReadingsIn(TaskAt(a, t).queue[1..]);
            && StagesOf(b) == (if t == Control then s.(atControl := rest)
                               else if t == Event then s.(atEvent := rest) else s)
            && b.log == a.log && LostReadings(b) == LostReadings(a) && b.local == a.local
  {
    hide ReadingOf, ReadingsIn, ReadingsDue, HeardIn, KindOf;
  }

  lemma HeardAppend(notes: seq<Note>, note: Note)
    ensures HeardIn(notes + [note]) == HeardIn(notes) + if note.Heard? then [note.reading] else []
  {
    assert (notes + [note])[..|notes|] == notes;
  }

  /** What the control task notes about a message */
  function NotesOf(a: App, m: Msg): seq<Note> {
    if m.code == SMC_SENSOR_EVENT && IsFlow(m) then [Heard(EventOf(m).data)]
    else if m.code == SMC_SEND_DATA_LORAWAN then [Dispatched(CString(a.local.tx))]
    else []
  }

  lemma ControlNotes(a: App, m: Msg)
    ensures ControlReacts(a, m).log.notes == a.log.notes + NotesOf(a, m)
  {
    hide EventOf, TxAfter, FlagAfter, Zeros, CString, AskPost, SendPost;
  }

  lemma ControlHears(a: App, timestamp: Word)
    requires Lineage(a) && InPlace(a) && MayReceive(a, Control)
    ensures Lineage(Received(a, Control, timestamp))
  {
    var m, b, c := a.control.queue[0], Dequeued(a, Control), Received(a, Control, timestamp);
    TakenRoutes(a, Control);
    ReadingKinds(Control, m);
    QueueHead(a.control.queue);
    TakenStages(a, Control);
    ControlLeaves(b, m);
    ControlNotes(b, m);
    var s, s', notes := StagesOf(a), StagesOf(c), NotesOf(b, m);
    if notes != [] {
      HeardAppend(a.log.notes, notes[0]);
    }
    assert b.log.notes == a.log.notes;
    assert KindOf(m) == EVENT <==> m.code == SMC_SENSOR_EVENT;
    hide ReadingOf, ReadingsIn, ReadingsDue, HeardIn, Unshuffled, LostReadings, Dequeued, InPlace, Flow;
    hide ControlReacts, EventOf, CString;
    assert notes == [] ==> a.log.notes + notes == a.log.notes;
    assert s'.atControl == ReadingsIn(a.control.queue[1..]);
    if KindOf(m) == EVENT {
      hide KindOf, Proper;
      assert LostReadings(c) == LostReadings(a) by { SameLost(b, c); }
      HeardMoves(s, s', EventOf(m).data, a.log.measured, LostReadings(a));
    } else {
      hide KindOf, Proper;
      assert LostReadings(c) == LostReadings(a) by { SameLost(b, c); }
      assert s'.heard == s.heard || s'.heard == s.heard + [];
      PopNothing(s, s', a.log.measured, LostReadings(a));
    }
  }

  lemma SameLost(a: App, b: App)
    requires a.h == b.h
    ensures LostReadings(a) == LostReadings(b)
  {
  }

  lemma PopNothing(s: Stages, s': Stages, measured: seq<Word>, lost: nat)
    requires Unshuffled(s, measured, lost)
    requires s.atControl == [] + s'.atControl && s'.inEvent == s.inEvent && s'.inSensor == s.inSensor
    requires s'.atEvent == s.atEvent
    requires s'.heard == s.heard || s'.heard == s.heard + []
    ensures Unshuffled(s', measured, lost)
  {
    assert Flow(s') == Flow(s);
  }

  lemma IdleStages(a: App, t: TaskId)
    requires TaskAt(a, t).todo == []
    ensures t == Sensor ==> StagesOf(a).inSensor == []
    ensures t == Event ==> StagesOf(a).inEvent == []
  {
  }

  /** A handler's posts, read off: the first carries the reading, and nothing after it does. */
  lemma DueReading(op: Op, next: seq<Op>)
    requires op.Post? && (next == [] || next == [ArmRead])
    ensures ReadingsDue([op] + next) == ReadingOf(op.msg)
  {
    assert ([op] + next)[1..] == next;
    assert next != [] ==> next[1..] == [];
    hide ReadingOf;
    assert ReadingsDue(next) == [];
  }

  lemma TriggerDue(reading: Word)
    ensures ReadingsDue([PostOf(TriggerOf(reading)), ArmRead]) == [reading]
  {
    var op := PostOf(TriggerOf(reading));
    EventKinds(reading, EventBody(0, 0, 0, 0), 0, 0);
    PostReading(Sensor, op);
    DueReading(op, [ArmRead]);
    assert [op] + [ArmRead] == [op, ArmRead];
    hide PostOf, TriggerOf, ReadingOf, ReadingsDue, EventOf, ProperOp, KindOf;
  }

  lemma SensorStages(a: App, m: Msg)
    requires a.sensor.todo == []
    ensures var c, reading := SensorReacts(a, m), Reading(a.record);
            && c.h == a.h
            && StagesOf(c) == (if m.code == SMC_SENSOR_MEASURE then StagesOf(a).(inSensor := [reading])
                               else StagesOf(a))
            && c.log.measured == if m.code == SMC_SENSOR_MEASURE then a.log.measured + [reading] else a.log.measured
  {
    TriggerDue(Reading(a.record));
    hide ReadingsIn, ReadingsDue, HeardIn, Reading, PostOf, TriggerOf;
  }

  lemma SensorHears(a: App, timestamp: Word)
    requires Lineage(a) && InPlace(a) && MayReceive(a, Sensor)
    ensures Lineage(Received(a, Sensor, timestamp))
  {
    var m, c := a.sensor.queue[0], Received(a, Sensor, timestamp);
    TakenStages(a, Sensor);
    TakenFrame(a, Sensor);
    IdleStages(a, Sensor);
    SensorStages(Dequeued(a, Sensor), m);
    SameLost(Dequeued(a, Sensor), c);
    hide StagesOf, Unshuffled, Dequeued, InPlace, SensorReacts, Reading, LostReadings;
    if m.code == SMC_SENSOR_MEASURE {
      MeasuredMoves(StagesOf(a), Reading(a.record), a.log.measured, LostReadings(a));
    }
  }

  lemma EventHears(a: App, timestamp: Word)
    requires Lineage(a) && InPlace(a) && MayReceive(a, Event)
    ensures Lineage(Received(a, Event, timestamp))
  {
    hide ReadingOf, ReadingsIn, ReadingsDue, HeardIn, Unshuffled, Dequeued, InPlace, Flow, EventOf, PostOf;
    hide LostReadings, Plain;
    var m, b, c := a.event.queue[0], Dequeued(a, Event), Received(a, Event, timestamp);
    var op := PostOf(SensorEventOf(EventOf(m), b.local.eventId, timestamp));
    TakenRoutes(a, Event);
    ReadingKinds(Event, m);
    QueueHead(a.event.queue);
    TakenStages(a, Event);
    IdleStages(a, Event);
    EventKinds(0, EventOf(m), b.local.eventId, timestamp);
    PostReading(Event, op);
    DueReading(op, []);
    assert [op] + [] == [op];
    assert m.code == SMC_EVENT_TRIGGER && KindOf(m) == TRIGGER;
    hide ProperOp, Proper, KindOf, SensorEventOf;
    SameLost(b, c);
    TriggerTakenMoves(StagesOf(a), StagesOf(c), EventOf(m).data, a.log.measured, LostReadings(a));
  }

  lemma FireLineage(a: App, b: App, c: Create, granted: bool)
    requires Lineage(a) && c.route.Direct? && Proper(PostOf(c).to, PostOf(c).msg)
    requires KindOf(PostOf(c).msg) in {BEAT, TICK, POWER}
    requires b.control == a.control && b.sensor == a.sensor && b.event == a.event && b.h == a.h && b.log == a.log
    ensures Lineage(Fire(b, c, granted))
  {
    ReadingKinds(PostOf(c).to, PostOf(c).msg);
    hide ReadingOf, ReadingsIn, ReadingsDue, HeardIn, Unshuffled, Deliver, Proper, PostOf, KindOf;
    SameLineage(a, b);
    NoReading(b, PostOf(c).to, PostOf(c).msg, granted);
  }

  lemma {:induction false} CountReadings(t: TaskId, ms: seq<Msg>)
    requires forall i :: 0 <= i < |ms| ==> Proper(t, ms[i])
    ensures |ReadingsIn(ms)| == Kinds(ms)[TRIGGER] + Kinds(ms)[EVENT]
    ensures t == Sensor ==> |ReadingsIn(ms)| == 0
  {
    hide ReadingOf, KindOf, Proper;
    if ms != [] {
      ReadingKinds(t, ms[0]);
      CountReadings(t, ms[1..]);
    }
  }

  lemma FlushStages(a: App, t: TaskId)
    ensures var b, s := Step(a, Flush(t)), StagesOf(a);
            && StagesOf(b) == (if t == Control then s.(atControl := [])
                               else if t == Event then s.(atEvent := []) else s)
            && b.log == a.log
  {
    assert ReadingsIn([]) == [];
    hide ReadingsIn, ReadingsDue, HeardIn, Kinds;
  }

  lemma FlushLost(a: App, t: TaskId)
    requires InPlace(a)
    ensures LostReadings(Step(a, Flush(t))) == LostReadings(a) + |ReadingsIn(TaskAt(a, t).queue)|
    ensures t == Sensor ==> LostReadings(Step(a, Flush(t))) == LostReadings(a)
  {
    assert ProperTask(t, TaskAt(a, t));
    CountReadings(t, TaskAt(a, t).queue);
    hide ReadingsIn, InPlace, Kinds, Proper, ProperOp, ProperTask;
  }

  lemma FlushLineage(a: App, t: TaskId)
    requires Lineage(a) && InPlace(a)
    ensures Lineage(Step(a, Flush(t)))
  {
    FlushStages(a, t);
    FlushLost(a, t);
    hide ReadingsIn, ReadingsDue, HeardIn, Unshuffled, InPlace, Step, LostReadings;
    match t
    case Control => ControlFlushed(StagesOf(a), a.log.measured, LostReadings(a));
    case Event => EventFlushed(StagesOf(a), a.log.measured, LostReadings(a));
    case Sensor =>
  }

  lemma BeginLineage(a: App)
    requires Lineage(a) && InPlace(a)
    ensures Lineage(Step(a, BeginSensor))
  {
    assert ReadingsDue([ArmRead]) == [] && [ArmPower, ArmRead][1..] == [ArmRead];
    hide ReadingOf, ReadingsIn, HeardIn, Unshuffled, ProperTask;
    SameLineage(a, Step(a, BeginSensor));
  }

  lemma StepLineage(a: App, c: Choice)
    requires Lineage(a) && InPlace(a)
    ensures Lineage(Step(a, c))
  {
    TimerKinds();
    hide Lineage, InPlace, Performed, Received, Fire, PostOf, KindOf, Proper, Kinds;
    match c
    case Perform(t, granted) =>
      if TaskAt(a, t).todo != [] {
        PerformLineage(a, t, granted);
      }
    case Receive(t, timestamp) =>
      if MayReceive(a, t) {
        match t
        case Control => ControlHears(a, timestamp);
        case Sensor => SensorHears(a, timestamp);
        case Event => EventHears(a, timestamp);
      }
    case BeginSensor => BeginLineage(a);
    case FireBeat(granted) =>
      FireLineage(a, a.(timers := a.timers.(beat := false)), TimerCreate(MSG_ID_CONTROL_TASK), granted);
    case FireRead(granted) =>
      FireLineage(a, a.(timers := a.timers.(read := false)), TickCreate(), granted);
    case FirePower(granted) =>
      FireLineage(a, a.(timers := a.timers.(power := false)), PowerCreate(), granted);
    case Flush(t) => FlushLineage(a, t);
    case Meter(record) => MeterLineage(a, record);
  }

  lemma MeterLineage(a: App, record: Bytes)
    requires Lineage(a)
    ensures Lineage(Step(a, Meter(record)))
  {
    hide Unshuffled;
    SameLineage(a, Step(a, Meter(record)));
  }

  lemma PowerUpLineage(lorawanOk: bool, record: Bytes)
    ensures Lineage(PowerUp(lorawanOk, record))
  {
    hide Zeros, StartUp;
    assert Places([], [], []);
  }

  // ----- payloads -----

  /** The newest reading heard since the last dispatch */
  function NewestSince(notes: seq<Note>): Option<Word> {
    if notes == [] || notes[|notes| - 1].Dispatched? then None else Some(notes[|notes| - 1].reading)
  }

  function Payload(reading: Option<Word>): Bytes {
    if reading.None? then [] else FlowText(reading.value)
  }

  /** Every payload reports the newest reading heard since the dispatch before, and is empty if there is none. */
  ghost predicate Truthful(notes: seq<Note>) {
    forall k :: 0 <= k < |notes| && notes[k].Dispatched? ==> notes[k].payload == Payload(NewestSince(notes[..k]))
  }

  function Dispatches(notes: seq<Note>): nat {
    if notes == [] then 0 else Dispatches(notes[..|notes| - 1]) + One(notes[|notes| - 1].Dispatched?)
  }

  /** tx_data is always what the next dispatch has to send. */
  ghost predicate TxBook(a: App) {
    TxIs(a.local.tx, a.log.notes, a.h.received[EVENT], a.h.received[SEND])
  }

  ghost predicate TxIs(tx: Bytes, notes: seq<Note>, events: nat, dispatches: nat) {
    && |tx| == TX_SIZE && CString(tx) == Payload(NewestSince(notes)) && Truthful(notes)
    && |HeardIn(notes)| == events && Dispatches(notes) == dispatches
  }

  lemma TruthfulAppend(notes: seq<Note>, note: Note)
    requires Truthful(notes) && (note.Dispatched? ==> note.payload == Payload(NewestSince(notes)))
    ensures Truthful(notes + [note])
    ensures NewestSince(notes + [note]) == if note.Dispatched? then None else Some(note.reading)
    ensures Dispatches(notes + [note]) == Dispatches(notes) + One(note.Dispatched?)
  {
    hide NewestSince, Payload;
    var all := notes + [note];
    assert all[..|notes|] == notes;
    forall k | 0 <= k < |all| && all[k].Dispatched? ensures all[k].payload == Payload(NewestSince(all[..k])) {
      if k < |notes| {
        assert all[..k] == notes[..k];
      }
    }
    LastNote(notes, note);
  }

  lemma LastNote(notes: seq<Note>, note: Note)
    ensures NewestSince(notes + [note]) == if note.Dispatched? then None else Some(note.reading)
  {
  }

  /** tx_data after a message */
  lemma ControlTx(a: App, m: Msg)
    requires |a.local.tx| == TX_SIZE && Proper(Control, m)
    ensures var tx := ControlReacts(a, m).local.tx;
            && |tx| == TX_SIZE
            && CString(tx) == if KindOf(m) == EVENT then FlowText(EventOf(m).data)
                              else if KindOf(m) == SEND then [] else CString(a.local.tx)
    ensures NotesOf(a, m) == if KindOf(m) == EVENT then [Heard(EventOf(m).data)]
                             else if KindOf(m) == SEND then [Dispatched(CString(a.local.tx))] else []
  {
    if KindOf(m) == EVENT {
      FlowTextFits(EventOf(m).data);
      CStringOfSnprintf(a.local.tx, FlowText(EventOf(m).data));
    }
    assert CString(Zeros(TX_SIZE)) == [];
    hide EventOf, FlowText, Snprintf, Zeros, CString, AskPost, SendPost;
  }

  lemma ControlTxBook(a: App, m: Msg, events: nat, dispatches: nat)
    requires TxIs(a.local.tx, a.log.notes, events, dispatches) && Proper(Control, m)
    ensures var b := ControlReacts(a, m);
            TxIs(b.local.tx, b.log.notes, events + One(KindOf(m) == EVENT), dispatches + One(KindOf(m) == SEND))
  {
    assert |a.local.tx| == TX_SIZE;
    hide ControlReacts, NotesOf, EventOf, CString, FlowText, KindOf, Proper, TxIs;
    ControlTx(a, m);
    ControlNotes(a, m);
    var b := ControlReacts(a, m);
    assert a.log.notes + [] == a.log.notes;
    if KindOf(m) == EVENT {
      TxHeard(a.local.tx, b.local.tx, a.log.notes, EventOf(m).data, events, dispatches);
    } else if KindOf(m) == SEND {
      TxDispatched(a.local.tx, b.local.tx, a.log.notes, events, dispatches);
    } else {
      TxSame(a.local.tx, b.local.tx, a.log.notes, events, dispatches);
    }
  }

  lemma ControlDispatches(a: App, timestamp: Word)
    requires TxBook(a) && InPlace(a) && MayReceive(a, Control)
    ensures TxBook(Received(a, Control, timestamp))
  {
    var m, events, dispatches := a.control.queue[0], a.h.received[EVENT], a.h.received[SEND];
    TakenRoutes(a, Control);
    TakenFrame(a, Control);
    ControlLeaves(Dequeued(a, Control), m);
    ControlTxBook(Dequeued(a, Control), m, events, dispatches);
    hide Dequeued, InPlace, ControlReacts, KindOf, Proper, TxIs;
  }

  lemma TxHeard(tx: Bytes, tx': Bytes, notes: seq<Note>, reading: Word, events: nat, dispatches: nat)
    requires TxIs(tx, notes, events, dispatches) && |tx'| == TX_SIZE && CString(tx') == FlowText(reading)
    ensures TxIs(tx', notes + [Heard(reading)], events + 1, dispatches)
  {
    TruthfulAppend(notes, Heard(reading));
    HeardAppend(notes, Heard(reading));
    hide CString, FlowText, Truthful, HeardIn, Dispatches, NewestSince;
  }

  lemma TxDispatched(tx: Bytes, tx': Bytes, notes: seq<Note>, events: nat, dispatches: nat)
    requires TxIs(tx, notes, events, dispatches) && |tx'| == TX_SIZE && CString(tx') == []
    ensures TxIs(tx', notes + [Dispatched(CString(tx))], events, dispatches + 1)
  {
    TruthfulAppend(notes, Dispatched(CString(tx)));
    HeardAppend(notes, Dispatched(CString(tx)));
    hide CString, FlowText, Truthful, HeardIn, Dispatches, NewestSince;
  }

  lemma TxSame(tx: Bytes, tx': Bytes, notes: seq<Note>, events: nat, dispatches: nat)
    requires TxIs(tx, notes, events, dispatches) && |tx'| == TX_SIZE && CString(tx') == CString(tx)
    ensures TxIs(tx', notes, events, dispatches)
  {
    hide CString, FlowText, Truthful, HeardIn, Dispatches, NewestSince;
  }

  /** What the other tasks, the timers and posting leave alone */
  lemma SameTx(a: App, b: App)
    requires TxBook(a) && b.local.tx == a.local.tx && b.log.notes == a.log.notes
    requires b.h.received[EVENT] == a.h.received[EVENT] && b.h.received[SEND] == a.h.received[SEND]
    ensures TxBook(b)
  {
    hide TxIs;
  }

  lemma OthersTx(a: App, t: TaskId, timestamp: Word)
    requires TxBook(a) && InPlace(a) && MayReceive(a, t) && t != Control
    ensures TxBook(Received(a, t, timestamp))
  {
    TakenRoutes(a, t);
    TakenFrame(a, t);
    ReactQueues(a, t, timestamp);
    assert KindOf(TaskAt(a, t).queue[0]) !in {EVENT, SEND};
    hide InPlace, Dequeued, TxBook, KindOf, Reading, PostOf, TriggerOf, SensorEventOf, EventOf;
    SameTx(a, Received(a, t, timestamp));
  }

  lemma FireTx(a: App, b: App, c: Create, granted: bool)
    requires TxBook(a) && c.route.Direct? && b.local == a.local && b.log == a.log && b.h == a.h
    ensures TxBook(Fire(b, c, granted))
  {
    DeliverFrame(b, PostOf(c).to, PostOf(c).msg, granted, BEAT);
    hide TxBook, Deliver, PostOf;
    SameTx(a, Fire(b, c, granted));
  }

  lemma StepTx(a: App, c: Choice)
    requires TxBook(a) && InPlace(a)
    ensures TxBook(Step(a, c))
  {
    hide TxBook, InPlace, Performed, Received, Fire, PostOf, Kinds;
    match c
    case Perform(t, granted) =>
      if TaskAt(a, t).todo != [] {
        PerformFrame(a, t, granted, BEAT);
        SameTx(a, Performed(a, t, granted));
      }
    case Receive(t, timestamp) =>
      if MayReceive(a, t) {
        if t == Control {
          ControlDispatches(a, timestamp);
        } else {
          OthersTx(a, t, timestamp);
        }
      }
    case FireBeat(granted) =>
      FireTx(a, a.(timers := a.timers.(beat := false)), TimerCreate(MSG_ID_CONTROL_TASK), granted);
    case FireRead(granted) =>
      FireTx(a, a.(timers := a.timers.(read := false)), TickCreate(), granted);
    case FirePower(granted) =>
      FireTx(a, a.(timers := a.timers.(power := false)), PowerCreate(), granted);
    case _ => SameTx(a, Step(a, c));
  }

  lemma PowerUpTx(lorawanOk: bool, record: Bytes)
    ensures TxBook(PowerUp(lorawanOk, record))
  {
    assert CString(Zeros(TX_SIZE)) == [];
    hide Zeros, StartUp, CString;
  }

  // ----- all runs -----

  lemma {:induction false} RunUplinks(lorawanOk: bool, record: Bytes, choices: seq<Choice>)
    ensures var a := Run(PowerUp(lorawanOk, record), choices); Lineage(a) && TxBook(a)
    decreases |choices|
  {
    hide Lineage, TxBook, InPlace, Step, PowerUp;
    if choices == [] {
      PowerUpLineage(lorawanOk, record);
      PowerUpTx(lorawanOk, record);
    } else {
      var n := |choices| - 1;
      RunUplinks(lorawanOk, record, choices[..n]);
      RunBooks(lorawanOk, record, choices[..n]);
      StepLineage(Run(PowerUp(lorawanOk, record), choices[..n]), choices[n]);
      StepTx(Run(PowerUp(lorawanOk, record), choices[..n]), choices[n]);
    }
  }

  /** The control task hears readings in the order in which they were measured, none twice and none that
      was not measured. What it has not heard is on its way or lost: if nothing was lost and nothing is on
      its way, it has heard them all. */
  lemma ReadingsInOrder(lorawanOk: bool, record: Bytes, choices: seq<Choice>)
    ensures var a := Run(PowerUp(lorawanOk, record), choices);
            var s := StagesOf(a);
            && s.heard == HeardIn(a.log.notes)
            && Subsequence(Flow(s), a.log.measured) && |Flow(s)| + LostReadings(a) == |a.log.measured|
            && (LostReadings(a) == 0 ==> Flow(s) == a.log.measured)
            && (LostReadings(a) == 0 && Flow(s) == s.heard ==> s.heard == a.log.measured)
  {
    hide Run, PowerUp, Flow, Subsequence, LostReadings;
    RunUplinks(lorawanOk, record, choices);
    var a := Run(PowerUp(lorawanOk, record), choices);
    if LostReadings(a) == 0 {
      SubsequenceWhole(Flow(StagesOf(a)), a.log.measured);
    }
  }

  lemma PayloadAt(notes: seq<Note>, k: nat)
    requires Truthful(notes) && k < |notes| && notes[k].Dispatched?
    ensures notes[k].payload
         == if k == 0 || notes[k - 1].Dispatched? then [] else FlowText(notes[k - 1].reading)
  {
    hide FlowText;
    assert notes[k].payload == Payload(NewestSince(notes[..k]));
  }

  /** Every uplink reports the newest reading heard since the uplink before: "flow: " and a text that atoi reads as
      that reading, signed. It is empty exactly if there is none. That reading was measured. */
  lemma UplinkContent(lorawanOk: bool, record: Bytes, choices: seq<Choice>, k: nat)
    requires k < |Run(PowerUp(lorawanOk, record), choices).log.notes|
    requires Run(PowerUp(lorawanOk, record), choices).log.notes[k].Dispatched?
    ensures var log := Run(PowerUp(lorawanOk, record), choices).log;
            var payload := log.notes[k].payload;
            if k == 0 || log.notes[k - 1].Dispatched? then payload == []
            else
              var reading := log.notes[k - 1].reading;
              && reading in log.measured
              && |payload| > 6 && payload[..6] == [0x66, 0x6C, 0x6F, 0x77, 0x3A, 0x20]
              && (reading < 0x8000_0000 ==> Atoi(payload[6..]) == reading)
              && (reading >= 0x8000_0000 ==> Atoi(payload[6..]) == reading - 0x1_0000_0000)
  {
    hide Run, PowerUp, Lineage, FlowText, Atoi, CString, Truthful, HeardIn, Dispatches, NewestSince;
    RunUplinks(lorawanOk, record, choices);
    var a := Run(PowerUp(lorawanOk, record), choices);
    PayloadAt(a.log.notes, k);
    hide TxBook;
    if k > 0 && a.log.notes[k - 1].Heard? {
      HeardIsMeasured(a, k - 1);
      FlowTextTellsReading(a.log.notes[k - 1].reading);
    }
  }

  lemma {:induction false} NoteHeard(notes: seq<Note>, k: nat)
    requires k < |notes| && notes[k].Heard?
    ensures notes[k].reading in HeardIn(notes)
    decreases |notes|
  {
    if k < |notes| - 1 {
      NoteHeard(notes[..|notes| - 1], k);
    }
  }

  lemma HeardIsMeasured(a: App, k: nat)
    requires Lineage(a) && k < |a.log.notes| && a.log.notes[k].Heard?
    ensures a.log.notes[k].reading in a.log.measured
  {
    NoteHeard(a.log.notes, k);
    hide HeardIn, ReadingsIn, ReadingsDue;
    var i :| 0 <= i < |HeardIn(a.log.notes)| && HeardIn(a.log.notes)[i] == a.log.notes[k].reading;
    assert Flow(StagesOf(a))[i] == a.log.notes[k].reading;
    var places :| Places(places, Flow(StagesOf(a)), a.log.measured);
    assert a.log.measured[places[i]] == a.log.notes[k].reading;
  }

  // ----- from the meter to the uplink -----

  /** r was the stored count at some time: at power-up, or since the meter stored it. */
  predicate Held(record: Bytes, choices: seq<Choice>, r: Bytes) {
    r == record || Meter(r) in choices
  }

  ghost predicate ReadFrom(record: Bytes, choices: seq<Choice>, reading: Word) {
    exists r :: Held(record, choices, r) && reading == Reading(r)
  }

  lemma StepRecord(a: App, c: Choice)
    ensures Step(a, c).record == if c.Meter? then c.record else a.record
    ensures var measured := Step(a, c).log.measured;
            measured == a.log.measured || measured == a.log.measured + [Reading(a.record)]
  {
    hide Reading, Deliver, EventOf, TriggerOf, SensorEventOf, PostOf, TxAfter, FlagAfter, Zeros, CString, Kinds, KindOf;
    match c
    case Perform(t, granted) =>
      hide Popped;
      if TaskAt(a, t).todo != [] {
        PopRecord(a, t);
        ExecuteRecord(Popped(a, t), t, TaskAt(a, t).todo[0], granted);
      }
    case Receive(t, timestamp) =>
      if MayReceive(a, t) {
        TakenFrame(a, t);
        hide Dequeued;
        match t
        case Control => ControlRecord(Dequeued(a, t), a.control.queue[0]);
        case Sensor =>
        case Event =>
      }
    case FireBeat(granted) => DeliverRecord(a);
    case FireRead(granted) => DeliverRecord(a);
    case FirePower(granted) => DeliverRecord(a);
    case _ =>
  }

  lemma PopRecord(a: App, t: TaskId)
    requires TaskAt(a, t).todo != []
    ensures Popped(a, t).record == a.record && Popped(a, t).log == a.log
  {
  }

  lemma ExecuteRecord(a: App, t: TaskId, op: Op, granted: bool)
    ensures Execute(a, t, op, granted).record == a.record && Execute(a, t, op, granted).log == a.log
  {
    hide ToUint32, KindOf;
  }

  lemma ControlRecord(a: App, m: Msg)
    ensures ControlReacts(a, m).record == a.record && ControlReacts(a, m).log.measured == a.log.measured
  {
    hide EventOf, TxAfter, FlagAfter, Zeros, CString, AskPost, SendPost;
  }

  lemma DeliverRecord(a: App)
    ensures forall b: App, t, m, granted :: b.record == a.record && b.log == a.log ==>
              Deliver(b, t, m, granted).record == a.record && Deliver(b, t, m, granted).log == a.log
  {
    hide KindOf;
  }

  lemma {:induction false} ReadingsAreRecords(lorawanOk: bool, record: Bytes, choices: seq<Choice>)
    ensures var a := Run(PowerUp(lorawanOk, record), choices);
            && Held(record, choices, a.record)
            && forall i :: 0 <= i < |a.log.measured| ==> ReadFrom(record, choices, a.log.measured[i])
    decreases |choices|
  {
    hide Step, Reading;
    if choices != [] {
      var n := |choices| - 1;
      var a, b := Run(PowerUp(lorawanOk, record), choices[..n]), Run(PowerUp(lorawanOk, record), choices);
      hide PowerUp, Run;
      ReadingsAreRecords(lorawanOk, record, choices[..n]);
      StepRecord(a, choices[n]);
      RunLast(PowerUp(lorawanOk, record), choices);
      assert choices == choices[..n] + [choices[n]];
      forall i | 0 <= i < |b.log.measured| ensures ReadFrom(record, choices, b.log.measured[i]) {
        if i < |a.log.measured| {
          var r :| Held(record, choices[..n], r) && a.log.measured[i] == Reading(r);
          assert Held(record, choices, r);
        } else {
          assert Held(record, choices, a.record);
        }
      }
    }
  }

  lemma RunLast(a: App, choices: seq<Choice>)
    requires choices != []
    ensures Run(a, choices) == Step(Run(a, choices[..|choices| - 1]), choices[|choices| - 1])
  {
  }

  /** From the meter to the air: if the meter's interrupt stores its count in decimal, the number in an uplink is a
      count that was stored, at power-up or in the run, or 0 for a store without a record. */
  lemma UplinkReportsCount(lorawanOk: bool, record: Bytes, choices: seq<Choice>, k: nat) returns (count: Word)
    requires record == [] || exists n: Word :: n < 0x8000_0000 && record == Digits(n)
    requires forall r :: Meter(r) in choices ==> exists n: Word :: n < 0x8000_0000 && r == Digits(n)
    requires k < |Run(PowerUp(lorawanOk, record), choices).log.notes|
    requires Run(PowerUp(lorawanOk, record), choices).log.notes[k].Dispatched?
    ensures var payload := Run(PowerUp(lorawanOk, record), choices).log.notes[k].payload;
            payload != [] ==>
              && |payload| > 6 && payload[..6] == [0x66, 0x6C, 0x6F, 0x77, 0x3A, 0x20] && Atoi(payload[6..]) == count
              && (record == Digits(count) || Meter(Digits(count)) in choices || (record == [] && count == 0))
  {
    hide Run, PowerUp, Atoi, Digits, Reading;
    count := 0;
    var log := Run(PowerUp(lorawanOk, record), choices).log;
    UplinkContent(lorawanOk, record, choices, k);
    if k > 0 && log.notes[k - 1].Heard? {
      ReadingsAreRecords(lorawanOk, record, choices);
      var reading := log.notes[k - 1].reading;
      var i :| 0 <= i < |log.measured| && log.measured[i] == reading;
      assert ReadFrom(record, choices, log.measured[i]);
      var r :| Held(record, choices, r) && reading == Reading(r);
      if r == [] && r == record {
        ReadingWithoutRecord();
      } else {
        count :| count < 0x8000_0000 && r == Digits(count);
        ReadingOfDigits(count);
      }
    }
  }

  // ----- a reading that arrives -----

  lemma {:induction false} RunMore(a: App, choices: seq<Choice>, more: seq<Choice>)
    ensures Run(a, choices + more) == Run(Run(a, choices), more)
    decreases |more|
  {
    hide Step;
    if more == [] {
      assert choices + more == choices;
    } else {
      var n := |more| - 1;
      RunMore(a, choices, more[..n]);
      assert (choices + more)[..|choices| + n] == choices + more[..n];
    }
  }

  lemma RunTwo(a: App, c: Choice, d: Choice)
    ensures Run(a, [c, d]) == Step(Step(a, c), d)
  {
    hide Step;
    assert [c, d][..1] == [c];
    assert Run(a, [c]) == Step(Run(a, []), c);
  }

  lemma RunThree(a: App, c: Choice, d: Choice, e: Choice)
    ensures Run(a, [c, d, e]) == Step(Step(Step(a, c), d), e)
  {
    hide Step, Run;
    assert [c, d, e][..2] == [c, d];
    RunTwo(a, c, d);
    RunLast(a, [c, d, e]);
  }

  /** The tasks are registered and the sensor thread has begun, the queues are empty, the read timer runs, and nothing
      was measured yet. */
  predicate Quiet(a: App, record: Bytes) {
    && a.control == Task(true, [], []) && a.sensor == Task(true, [], []) && a.event == Task(true, [], [])
    && a.begun && a.timers.read && a.local == Local(false, Zeros(TX_SIZE), 0)
    && a.record == record && a.log == Log([], [])
  }

  lemma QuietStart(record: Bytes) returns (choices: seq<Choice>)
    ensures Quiet(Run(PowerUp(false, record), choices), record)
  {
    hide Zeros, Deliver, Run;
    var a, go, own := PowerUp(false, record), Perform(Control, true), Perform(Sensor, true);
    var ready := Step(Step(Step(a, go), go), go);
    assert ready.control == Task(true, [], []);
    assert ready.sensor == Task(true, [], []) && ready.event == Task(true, [], []);
    RunThree(a, go, go, go);
    RunThree(ready, BeginSensor, own, own);
    choices := [go, go, go] + [BeginSensor, own, own];
    RunMore(a, [go, go, go], [BeginSensor, own, own]);
  }

  /** The timer fires, the sensor task measures, and its trigger reaches the event task. */
  lemma TriggerArrives(a: App, record: Bytes)
    requires Quiet(a, record)
    ensures var b := Step(Step(Step(a, FireRead(true)), Receive(Sensor, 0)), Perform(Sensor, true));
            && b.control == a.control && b.local == a.local && b.log.notes == []
            && b.event == Task(true, [PostOf(TriggerOf(Reading(record))).msg], [])
  {
    hide Zeros, Reading, EventOf, Encode, KindOf;
    var fired := Step(a, FireRead(true));
    assert fired.sensor == Task(true, [PostOf(TickCreate()).msg], []) && fired.record == record;
    assert fired.control == a.control && fired.local == a.local && fired.log == a.log && fired.event == a.event;
    var measured := Step(fired, Receive(Sensor, 0));
    assert measured.sensor == Task(true, [], [PostOf(TriggerOf(Reading(record))), ArmRead]);
    assert measured.control == a.control && measured.local == a.local && measured.log.notes == [];
    assert measured.event == a.event;
    hide PostOf, TriggerOf;
    EventKinds(Reading(record), EventBody(0, 0, 0, 0), 0, 0);
  }

  /** The event task passes the reading on, and the control task hears it. */
  lemma EventArrives(b: App, reading: Word)
    requires b.control == Task(true, [], []) && b.local == Local(false, Zeros(TX_SIZE), 0) && b.log.notes == []
    requires b.event == Task(true, [PostOf(TriggerOf(reading)).msg], [])
    ensures var c := Step(Step(Step(b, Receive(Event, 0)), Perform(Event, true)), Receive(Control, 0));
            && c.control == Task(true, [], [SendPost()]) && c.log.notes == [Heard(reading)]
            && |c.local.tx| == TX_SIZE && CString(c.local.tx) == FlowText(reading)
  {
    hide Zeros, EventOf, Encode, FlowText, Snprintf, CString, KindOf;
    var m := PostOf(TriggerOf(reading)).msg;
    EventKinds(reading, EventBody(0, 0, 0, 0), 0, 0);
    var op := PostOf(SensorEventOf(EventOf(m), 0, 0));
    EventKinds(0, EventOf(m), 0, 0);
    assert m.code == SMC_EVENT_TRIGGER && EventOf(m).eventType == SENSOR_EVENT_WATER_FLOW && EventOf(m).data == reading;
    var taken := Step(b, Receive(Event, 0));
    assert taken.event == Task(true, [], [op]) && taken.control == b.control && taken.local == b.local;
    assert taken.log == b.log && op.to == Control && op.msg.code == SMC_SENSOR_EVENT && IsFlow(op.msg);
    assert EventOf(op.msg).data == reading;
    hide PostOf, TriggerOf, SensorEventOf, IsFlow, ProperOp;
    var posted := Step(taken, Perform(Event, true));
    assert posted.control == Task(true, [op.msg], []) && posted.log == b.log;
    assert posted.local.tx == b.local.tx && !posted.local.flag;
    FlowTextFits(reading);
    CStringOfSnprintf(b.local.tx, FlowText(reading));
  }

  /** The control task posts its uplink to itself, and sends it. */
  lemma UplinkGoes(c: App, reading: Word)
    requires c.control == Task(true, [], [SendPost()]) && c.log.notes == [Heard(reading)]
    requires |c.local.tx| == TX_SIZE && CString(c.local.tx) == FlowText(reading)
    ensures var d := Step(Step(c, Perform(Control, true)), Receive(Control, 0));
            d.log.notes == [Heard(reading), Dispatched(FlowText(reading))]
  {
    hide Zeros, EventOf, FlowText, CString, KindOf;
    var posted := Step(c, Perform(Control, true));
    assert posted.control == Task(true, [SendPost().msg], []) && posted.log == c.log && posted.local == c.local;
  }

  /** Every count gets through: from power-up with any stored count there is a run that puts it on the air. */
  lemma EveryCountGetsThrough(count: Word) returns (choices: seq<Choice>)
    requires count < 0x8000_0000
    ensures var notes := Run(PowerUp(false, Digits(count)), choices).log.notes;
            && notes != [] && notes[|notes| - 1].Dispatched?
            && var payload := notes[|notes| - 1].payload;
               && |payload| > 6 && payload[..6] == [0x66, 0x6C, 0x6F, 0x77, 0x3A, 0x20] && Atoi(payload[6..]) == count
  {
    hide Run, Step, Digits, Reading, FlowText, Quiet, Atoi, CString, Zeros;
    var record, start := Digits(count), PowerUp(false, Digits(count));
    var quiet := QuietStart(record);
    var a := Run(start, quiet);
    ReadingOfDigits(count);
    TriggerArrives(a, record);
    var b := Step(Step(Step(a, FireRead(true)), Receive(Sensor, 0)), Perform(Sensor, true));
    assert b.control == Task(true, [], []) && b.local == Local(false, Zeros(TX_SIZE), 0) by { QuietMeans(a, record); }
    EventArrives(b, count);
    var c := Step(Step(Step(b, Receive(Event, 0)), Perform(Event, true)), Receive(Control, 0));
    UplinkGoes(c, count);
    FlowTextTellsReading(count);
    RunThree(a, FireRead(true), Receive(Sensor, 0), Perform(Sensor, true));
    RunThree(b, Receive(Event, 0), Perform(Event, true), Receive(Control, 0));
    RunTwo(c, Perform(Control, true), Receive(Control, 0));
    var there, back := [FireRead(true), Receive(Sensor, 0), Perform(Sensor, true)],
                       [Receive(Event, 0), Perform(Event, true), Receive(Control, 0)];
    var out := [Perform(Control, true), Receive(Control, 0)];
    RunMore(start, quiet, there);
    RunMore(start, quiet + there, back);
    RunMore(start, quiet + there + back, out);
    choices := quiet + there + back + out;
  }

  lemma QuietMeans(a: App, record: Bytes)
    requires Quiet(a, record)
    ensures a.control == Task(true, [], []) && a.local == Local(false, Zeros(TX_SIZE), 0)
  {
  }

  /** At most every other reading heard is followed by an uplink. */
  lemma UplinksPerReading(lorawanOk: bool, record: Bytes, choices: seq<Choice>)
    ensures var log := Run(PowerUp(lorawanOk, record), choices).log;
            Dispatches(log.notes) <= (|HeardIn(log.notes)| + 1) / 2 <= (|log.measured| + 1) / 2
  {
    RunUplinks(lorawanOk, record, choices);
    ChainOfEvents(lorawanOk, record, choices);
    hide Run, PowerUp, Kinds, Due, Dispatches, HeardIn, ReadingsIn, ReadingsDue, Truthful;
  }
}
