/** The handler of app/src/event_task.c, which turns the trigger of the sensor task into an event for the
    control task. */
module EventTask {
  import opened Messages
  import opened Calls
  import opened Outcomes
  import opened Framework
  import opened AppMessages

  class EventTask {
    const framework: MessageFramework
    var eventId: Word

    constructor (framework: MessageFramework)
      ensures this.framework == framework && eventId == 0
    {
      this.framework, eventId := framework, 0;
    }

    /** event_msg_handler. The time stamp of the local event is never set: any value. */
    method EventMsgHandler(p: Ptr, timestamp: Word, grants: Grants)
      requires framework.Valid() && p in framework.heap && |framework.heap[p].body| >= EVENT_BODY_SIZE
      modifies framework, this
      ensures var e := Decode(old(framework.heap)[p].body);
              var body := Encode(EventBody(e.eventType, e.data, old(eventId), timestamp));
              framework.Now() == Sent(old(framework.Now()), Create(Msg(13, 1, 2, 0, body), Direct(1)), grants)
      ensures eventId == if grants(0).Some? && grants(0).value !in old(framework.heap)
                         then (old(eventId) + 1) % 0x1_0000_0000 else old(eventId)
    {
      hide Sent, Decode;
      var e := Decode(framework.heap[p].body);
      SendEventMsgLorawan(e.eventType, e.data, timestamp, grants);
    }

    method SendEventMsgLorawan(eventType: Word, data: Word, timestamp: Word, grants: Grants)
      requires framework.Valid()
      modifies framework, this
      ensures var body := Encode(EventBody(eventType, data, old(eventId), timestamp));
              framework.Now() == Sent(old(framework.Now()), Create(Msg(13, 1, 2, 0, body), Direct(1)), grants)
      ensures eventId == if grants(0).Some? && grants(0).value !in old(framework.heap)
                         then (old(eventId) + 1) % 0x1_0000_0000 else old(eventId)
    {
      hide Finish, Sent, Encode;
      ghost var c := EventCreate(SMC_SENSOR_EVENT, MSG_ID_CONTROL_TASK, EventBody(eventType, data, eventId, timestamp));
      var p := framework.TryToTake(EVENT_BODY_SIZE, grants(0));
      if p.Some? {
        CreateGranted(old(framework.Now()), c, p.value, grants);
        var m := framework.heap[p.value];
        m := m.(code := SMC_SENSOR_EVENT, tx := MSG_ID_SENSOR_TASK, rx := MSG_ID_CONTROL_TASK);
        m := m.(body := Encode(EventBody(eventType, data, eventId, timestamp)));
        eventId := ToUint32(eventId + 1);
        framework.heap := framework.heap[p.value := m];
        assert framework.heap == old(framework.heap)[p.value := c.msg];
        var result := framework.SysmsgSend(p.value, grants);
      } else {
        CreateRefused(old(framework.Now()), c, grants);
      }
    }
  }
}
