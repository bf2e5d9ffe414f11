/** The messages of the application: ids and codes (include/framework/msg_ids.h, include/framework/sys_core.h,
    lines 60 to 77) and the event message (include/framework/sys_msg_types.h). */
module AppMessages {
  import opened Messages
  import opened Calls
  import opened Outcomes

  const MSG_ID_CONTROL_TASK: Byte := 1
  const MSG_ID_SENSOR_TASK: Byte := 2
  const MSG_ID_EVENT_TASK: Byte := 3

  const SMC_JOIN_LORAWAN: Byte := 9
  const SMC_SEND_DATA_LORAWAN: Byte := 10
  const SMC_READ_POWER: Byte := 11
  const SMC_SENSOR_MEASURE: Byte := 12
  const SMC_SENSOR_EVENT: Byte := 13
  const SMC_EVENT_TRIGGER: Byte := 14

  type Word = n: nat | n < 0x1_0000_0000

  const SENSOR_EVENT_WATER_FLOW: Word := 10

  /** What an event_msg_t holds behind its header */
  datatype EventBody = EventBody(eventType: Word, data: Word, id: Word, timestamp: Word)

  function ToUint32(i: int): Word {
    i % 0x1_0000_0000
  }

  function ToInt32(w: Word): int {
    if w < 0x8000_0000 then w else w - 0x1_0000_0000
  }

  function WordBytes(w: Word): (r: seq<Byte>)
    ensures |r| == 4
  {
    [w % 0x100, w / 0x100 % 0x100, w / 0x1_0000 % 0x100, w / 0x100_0000]
  }

  function WordAt(body: seq<Byte>, i: nat): Word
    requires i + 4 <= |body|
  {
    var b0: int, b1: int, b2: int, b3: int := body[i], body[i + 1], body[i + 2], body[i + 3];
    b0 + 0x100 * b1 + 0x1_0000 * b2 + 0x100_0000 * b3
  }

  const EVENT_BODY_SIZE := 16

  /** The body in memory, with enums of four bytes on a little-endian processor */
  function Encode(e: EventBody): (r: seq<Byte>)
    ensures |r| == EVENT_BODY_SIZE
  {
    WordBytes(e.eventType) + WordBytes(e.data) + WordBytes(e.id) + WordBytes(e.timestamp)
  }

  function Decode(body: seq<Byte>): EventBody
    requires |body| >= EVENT_BODY_SIZE
  {
    EventBody(WordAt(body, 0), WordAt(body, 4), WordAt(body, 8), WordAt(body, 12))
  }

  /** The layout: four words, each with its lowest byte first */
  lemma EncodeLayout(e: EventBody, i: nat)
    requires i < 16
    ensures var w := if i < 4 then e.eventType else if i < 8 then e.data else if i < 12 then e.id else e.timestamp;
            Encode(e)[i] == match i % 4 {
              case 0 => w % 256
              case 1 => w / 256 % 256
              case 2 => w / 65536 % 256
              case _ => w / 16777216
            }
  {
    var words := [WordBytes(e.eventType), WordBytes(e.data), WordBytes(e.id), WordBytes(e.timestamp)];
    assert words[i / 4][i % 4] == Encode(e)[i];
  }

  lemma WordParts(w: Word)
    ensures w % 0x100 + 0x100 * (w / 0x100 % 0x100) + 0x1_0000 * (w / 0x1_0000 % 0x100) + 0x100_0000 * (w / 0x100_0000)
         == w
  {
    var a, b, c := w / 0x100, w / 0x1_0000, w / 0x100_0000;
    assert a / 0x100 == b && b / 0x100 == c;
    assert w == 0x100 * a + w % 0x100 && a == 0x100 * b + a % 0x100 && b == 0x100 * c + b % 0x100;
  }

  lemma WordOfBytes(w: Word)
    ensures WordAt(WordBytes(w), 0) == w
  {
    WordParts(w);
  }

  lemma WordRoundTrip(before: seq<Byte>, w: Word, after: seq<Byte>)
    ensures WordAt(before + WordBytes(w) + after, |before|) == w
  {
    WordOfBytes(w);
    var bytes := WordBytes(w);
    hide WordBytes;
    var body, i := before + bytes + after, |before|;
    assert body[i] == bytes[0] && body[i + 1] == bytes[1] && body[i + 2] == bytes[2] && body[i + 3] == bytes[3];
  }

  /** The receiver reads the fields that the sender wrote. */
  lemma DecodeOfEncode(e: EventBody)
    ensures Decode(Encode(e)) == e
  {
    hide WordBytes, WordAt;
    var t, d, i, s := WordBytes(e.eventType), WordBytes(e.data), WordBytes(e.id), WordBytes(e.timestamp);
    WordRoundTrip([], e.eventType, d + i + s);
    WordRoundTrip(t, e.data, i + s);
    WordRoundTrip(t + d, e.id, s);
    WordRoundTrip(t + d + i, e.timestamp, []);
    assert [] + t + (d + i + s) == Encode(e);
    assert t + d + (i + s) == Encode(e);
    assert t + d + i + s + [] == Encode(e);
  }

  /** The system after a new message was sent, or could not be */
  function Sent(s: Sys, c: Create, grants: Grants): Sys {
    Finish(s, Creating(c), grants).0
  }

  // what the tasks and their timers send

  function AskCreate(): Create {
    SendCreate(MSG_ID_CONTROL_TASK, MSG_ID_SENSOR_TASK, SMC_SENSOR_MEASURE)
  }

  function JoinCreate(): Create {
    SendCreate(MSG_ID_CONTROL_TASK, MSG_ID_CONTROL_TASK, SMC_JOIN_LORAWAN)
  }

  function UplinkCreate(): Create {
    SendCreate(MSG_ID_CONTROL_TASK, MSG_ID_CONTROL_TASK, SMC_SEND_DATA_LORAWAN)
  }

  function TickCreate(): Create {
    SendCreate(MSG_ID_SENSOR_TASK, MSG_ID_SENSOR_TASK, SMC_SENSOR_MEASURE)
  }

  function PowerCreate(): Create {
    SendCreate(MSG_ID_SENSOR_TASK, MSG_ID_SENSOR_TASK, SMC_READ_POWER)
  }

  function EventCreate(code: Byte, rx: Byte, e: EventBody): Create {
    Create(Msg(code, rx, MSG_ID_SENSOR_TASK, MSG_OPTION_NONE, Encode(e)), Direct(rx))
  }

  /** Filling in and sending a buffer that was granted is the rest of a create-and-send. */
  lemma CreateGranted(s: Sys, c: Create, p: Ptr, grants: Grants)
    requires Granted(s, grants(0)) == Some(p)
    ensures Sent(s, c, grants) == Finish(s.(heap := s.heap[p := c.msg]), Routing(p, c.route, Wrapped), grants).0
  {
    hide Finish, Routing;
    CreateSteps(s, c, p, grants);
  }

  lemma CreateRefused(s: Sys, c: Create, grants: Grants)
    requires Granted(s, grants(0)) == None
    ensures Sent(s, c, grants) == s
  {
    hide Finish;
    FinishStep(s, Creating(c), grants);
    FinishDone(s, Done(Error, {}, 0), grants);
  }
}
