/** The DevNonce counter of app/src/control_task.c (lines 205 to 246 and 343 to 382): every join request
    uses the counter in RAM, which is then incremented and kept in the settings store, and read back
    after a reboot. LoRaWAN L2 1.0.4 (TS001-1.0.4), section 6.2, wants a nonce not to be used again. */
module DevNonce {
  import opened ConfigHash
  import opened Settings
  import opened Decimal

  type Nonce = n: nat | n < 0x1_0000

  /** "dev_nonce" and "water_flow" */
  const KEY: Bytes := [0x64, 0x65, 0x76, 0x5F, 0x6E, 0x6F, 0x6E, 0x63, 0x65]
  const WATER_FLOW: Bytes := [0x77, 0x61, 0x74, 0x65, 0x72, 0x5F, 0x66, 0x6C, 0x6F, 0x77]

  const ETIMEDOUT := 116

  function ToUint16(i: int): Nonce {
    i % 0x1_0000
  }

  /** The nonce that lies i steps after first */
  function NonceAt(first: int, i: int): Nonce {
    ToUint16(first + i)
  }

  lemma NonceAtIs(first: int, i: int)
    ensures NonceAt(first, i) == (first + i) % 0x1_0000
  {
  }

  /** get_dev_nonce, from the record that the store holds */
  function Load(record: Bytes): Nonce {
    if record == [] then 0 else ToUint16(Atoi(CString(CopyInto(record, Zeros(10)))))
  }

  /** inc_dev_nonce writes nonce + 1 */
  function SaveCall(nonce: Nonce, errno: int): Call {
    Set(KEY, Snprintf(Zeros(10), Digits(ToUint16(nonce + 1))), errno)
  }

  /** A successful save is read back as the next nonce, also when it wraps to the shorter "0". */
  lemma LoadOfSave(flash: Flash, t: Target, nonce: Nonce, errno: int)
    requires errno >= 0
    ensures Load(At(After(flash, t.KeyId(KEY), SaveCall(nonce, errno)), t.KeyId(KEY))) == ToUint16(nonce + 1)
  {
    hide Target.KeyId, CopyInto, Atoi, CString, Snprintf, Zeros;
    var n := ToUint16(nonce + 1);
    AtoiOfDigits(n);
    assert Power10(5) == 100000;
    DigitsLength(n, 5, 100000);
    CStringOfSnprintf(Zeros(10), Digits(n));
    CStringOfRecord(Digits(n), 10);
  }

  /** Without a record the counter starts at 0. A record that holds a number is read as that number. */
  lemma LoadsRecord(n: nat)
    requires n < 0x1_0000
    ensures Load([]) == 0 && Load(Digits(n)) == n
  {
    hide CopyInto, Atoi, CString, Zeros;
    AtoiOfDigits(n);
    assert Power10(5) == 100000;
    hide Digits, Power10;
    DigitsLength(n, 5, 100000);
    CStringOfRecord(Digits(n), 10);
  }

  /** What a successful save leaves in the record: the decimal text of the next nonce, without a NUL */
  lemma SavedText(flash: Flash, t: Target, nonce: Nonce, errno: int)
    requires errno >= 0
    ensures var id := t.KeyId(KEY);
            At(After(flash, id, SaveCall(nonce, errno)), id) == Digits((nonce + 1) % 0x1_0000)
  {
    var n := (nonce + 1) % 0x1_0000;
    AtAfterPut(flash, t.KeyId(KEY), t.KeyId(KEY), Digits(n));
    hide Target.KeyId, CString, Snprintf, Zeros, At, Put;
    AtoiOfDigits(n);
    assert Power10(5) == 100000;
    hide Digits, Power10;
    DigitsLength(n, 5, 100000);
    CStringOfSnprintf(Zeros(10), Digits(n));
  }

  // ----- the device over power cycles -----

  /** Down: rebooting. Ready: the nonce for the next attempt is in RAM. Sent: an attempt went out with
      this nonce, and its successor is not yet stored. */
  datatype Phase = Down | Ready(nonce: Nonce) | Sent(nonce: Nonce)

  /** log lists the nonces of all join attempts of all boots. */
  datatype Device = Device(target: Target, flash: Flash, phase: Phase, log: seq<Nonce>) {
    function Record(): Bytes {
      At(flash, target.KeyId(KEY))
    }
  }

  datatype Event =
    | Boot
    | Attempt
    | Save(errno: int)
    | Reboot
    | OtherCall(call: Call)  // any other use of the store

  /** An event that cannot happen in this phase changes nothing. */
  function Step(d: Device, e: Event): Device {
    match e
    case Boot => if d.phase.Down? then d.(phase := Ready(Load(d.Record()))) else d
    case Attempt => if d.phase.Ready? then d.(phase := Sent(d.phase.nonce), log := d.log + [d.phase.nonce]) else d
    case Save(errno) =>
      if d.phase.Sent?
      then d.(phase := Ready(ToUint16(d.phase.nonce + 1)),
              flash := After(d.flash, d.target.KeyId(KEY), SaveCall(d.phase.nonce, errno)))
      else d
    case Reboot => d.(phase := Down)
    case OtherCall(call) =>
      if d.target.KeyId(call.key) != d.target.KeyId(KEY)
      then d.(flash := After(d.flash, d.target.KeyId(call.key), call))
      else d
  }

  function Run(d: Device, events: seq<Event>): Device
    decreases |events|
  {
    if events == [] then d else Step(Run(d, events[..|events| - 1]), events[|events| - 1])
  }

  /** The attempts since the store was last up to date, counted on by one event */
  function UnsavedAfter(d: Device, e: Event, unsaved: nat): nat {
    match e
    case Attempt => if d.phase.Ready? then unsaved + 1 else unsaved
    case Save(errno) => if d.phase.Sent? && errno >= 0 then 0 else unsaved
    case Reboot => 0
    case _ => unsaved
  }

  function Unsaved(d: Device, events: seq<Event>): nat
    decreases |events|
  {
    if events == [] then 0
    else
      var n := |events| - 1;
      UnsavedAfter(Run(d, events[..n]), events[n], Unsaved(d, events[..n]))
  }

  /** The attempts that reboots made the device forget */
  function Lost(d: Device, events: seq<Event>): nat
    decreases |events|
  {
    if events == [] then 0
    else
      var n := |events| - 1;
      Lost(d, events[..n]) + if events[n].Reboot? then Unsaved(d, events[..n]) else 0
  }

  /** The reboots between an attempt and the save after it */
  function WindowReboots(d: Device, events: seq<Event>): nat
    decreases |events|
  {
    if events == [] then 0
    else
      var n := |events| - 1;
      WindowReboots(d, events[..n])
      + if events[n].Reboot? && Run(d, events[..n]).phase.Sent? then 1 else 0
  }

  /** The attempts whose nonce an earlier attempt had used */
  function Repeats(log: seq<Nonce>): nat {
    if log == [] then 0
    else Repeats(log[..|log| - 1]) + if log[|log| - 1] in log[..|log| - 1] then 1 else 0
  }

  /** RAM and flash when the next attempt is due to use the nonce next steps after first */
  ghost predicate CountsOn(d: Device, first: Nonce, next: int, unsaved: nat) {
    && Load(d.Record()) == NonceAt(first, next - unsaved)
    && (d.phase.Ready? ==> d.phase.nonce == NonceAt(first, next))
    && (d.phase.Sent? ==> unsaved > 0 && d.phase.nonce == NonceAt(first, next - 1))
    && (d.phase.Down? ==> unsaved == 0)
  }

  lemma NextNonce(first: Nonce, i: int)
    ensures ToUint16(NonceAt(first, i - 1) + 1) == NonceAt(first, i)
    ensures NonceAt(first, 0) == first
  {
  }

  lemma OtherCallKeepsRecord(d: Device, call: Call)
    ensures Step(d, OtherCall(call)).Record() == d.Record()
  {
    hide Target.KeyId, Call.Written;
  }

  lemma SameFlash(d: Device, e: Device)
    requires d.flash == e.flash && d.target == e.target
    ensures d.Record() == e.Record()
  {
  }

  lemma SaveRecord(d: Device, errno: int)
    ensures d.phase.Sent? && errno >= 0 ==> Load(Step(d, Save(errno)).Record()) == ToUint16(d.phase.nonce + 1)
    ensures !(d.phase.Sent? && errno >= 0) ==> Step(d, Save(errno)).Record() == d.Record()
  {
    hide Load, Target.KeyId, CString;
    if d.phase.Sent? && errno >= 0 {
      LoadOfSave(d.flash, d.target, d.phase.nonce, errno);
    }
  }

  /** The first nonce of the first boot */
  function First(d: Device): Nonce {
    Load(d.Record())
  }

  lemma StepCountsOn(d: Device, e: Event, first: Nonce, lost: nat, unsaved: nat)
    requires CountsOn(d, first, |d.log| - lost, unsaved) && lost + unsaved <= |d.log|
    ensures var lost' := lost + if e.Reboot? then unsaved else 0;
            && Step(d, e).target == d.target
            && lost' + UnsavedAfter(d, e, unsaved) <= |Step(d, e).log|
            && CountsOn(Step(d, e), first, |Step(d, e).log| - lost', UnsavedAfter(d, e, unsaved))
  {
    hide Load, Device.Record, After, SaveCall, ToUint16, NonceAt;
    NextNonce(first, |d.log| - lost);
    match e
    case Save(errno) => SaveRecord(d, errno);
    case OtherCall(call) => OtherCallKeepsRecord(d, call);
    case _ => SameFlash(d, Step(d, e));
  }

  /** After every run, with reboots and failed saves anywhere, the next attempt uses nonce
      (first + attempts - lost) mod 65536. */
  lemma {:induction false} NonceFormula(d: Device, events: seq<Event>)
    requires d.phase.Down? && d.log == []
    ensures Run(d, events).target == d.target
    ensures Lost(d, events) + Unsaved(d, events) <= |Run(d, events).log|
    ensures CountsOn(Run(d, events), First(d), |Run(d, events).log| - Lost(d, events), Unsaved(d, events))
    decreases |events|
  {
    hide Load, Device.Record, Step, UnsavedAfter, NonceAt, ToUint16;
    if events == [] {
      NextNonce(First(d), 0);
    } else {
      var n := |events| - 1;
      NonceFormula(d, events[..n]);
      StepCountsOn(Run(d, events[..n]), events[n], First(d), Lost(d, events[..n]), Unsaved(d, events[..n]));
    }
  }

  // ----- no nonce twice -----

  ghost predicate AllSavesWork(events: seq<Event>) {
    forall i :: 0 <= i < |events| && events[i].Save? ==> events[i].errno >= 0
  }

  /** When no write fails, only a reboot between an attempt and its save loses anything: one attempt. */
  lemma {:induction false} LostIsWindowReboots(d: Device, events: seq<Event>)
    requires d.phase.Down? && AllSavesWork(events)
    ensures Lost(d, events) == WindowReboots(d, events)
    ensures Unsaved(d, events) == if Run(d, events).phase.Sent? then 1 else 0
    decreases |events|
  {
    if events != [] {
      LostIsWindowReboots(d, events[..|events| - 1]);
    }
  }

  /** Without losses the attempts of all boots together count up by one. */
  lemma {:induction false} NoncesCountUp(d: Device, events: seq<Event>)
    requires d.phase.Down? && d.log == [] && Lost(d, events) == 0
    ensures forall k :: 0 <= k < |Run(d, events).log| ==> Run(d, events).log[k] == NonceAt(First(d), k)
    decreases |events|
  {
    hide First, Load, Device.Record, NonceAt, After, SaveCall;
    if events != [] {
      var init := events[..|events| - 1];
      NoncesCountUp(d, init);
      NonceFormula(d, init);
    }
  }

  /** Without losses, a device that has no record uses 0, 1, 2, ..., over all its boots, and one whose record
      holds the number n goes on from n. */
  lemma NoncesFromRecord(d: Device, events: seq<Event>, n: nat, k: nat)
    requires d.phase.Down? && d.log == [] && Lost(d, events) == 0
    requires n < 0x1_0000 && (d.Record() == Digits(n) || (n == 0 && d.target.KeyId(KEY) !in d.flash))
    requires k < |Run(d, events).log|
    ensures Run(d, events).log[k] == (n + k) % 0x1_0000
  {
    LoadsRecord(n);
    NoncesCountUp(d, events);
    hide Run, Lost, Load, Digits, Target.KeyId;
  }

  lemma NoncesApart(first: Nonce, u: int, v: int)
    requires u < v < u + 0x1_0000
    ensures NonceAt(first, u) != NonceAt(first, v)
  {
  }

  /** With working writes and no reboot between an attempt and its save, no nonce appears twice among
      any 65536 consecutive attempts. */
  lemma NoNonceTwice(d: Device, events: seq<Event>, j: nat, k: nat)
    requires d.phase.Down? && d.log == [] && AllSavesWork(events) && WindowReboots(d, events) == 0
    requires j < k < |Run(d, events).log| && k - j < 0x1_0000
    ensures Run(d, events).log[j] != Run(d, events).log[k]
  {
    hide First, Run, NonceAt;
    LostIsWindowReboots(d, events);
    NoncesCountUp(d, events);
    NoncesApart(First(d), j, k);
  }

  function Distinct(log: seq<Nonce>): int {
    |log| - Repeats(log)
  }

  /** log uses exactly the nonces first, first + 1, ..., as many as it has attempts that are no repeats. */
  ghost predicate Covers(log: seq<Nonce>, first: Nonce) {
    && (forall u :: 0 <= u < Distinct(log) ==> NonceAt(first, u) in log)
    && (forall x :: x in log ==> exists u :: 0 <= u < Distinct(log) && x == NonceAt(first, u))
  }

  lemma CoversAppend(log: seq<Nonce>, first: Nonce, next: nat)
    requires Covers(log, first) && next <= Distinct(log) && |log| < 0x1_0000
    ensures Covers(log + [NonceAt(first, next)], first)
    ensures Distinct(log + [NonceAt(first, next)]) == if next < Distinct(log) then Distinct(log) else next + 1
  {
    hide NonceAt;
    var x := NonceAt(first, next);
    var log' := log + [x];
    assert log'[..|log|] == log;
    if next == Distinct(log) && x in log {
      var u :| 0 <= u < Distinct(log) && x == NonceAt(first, u);
      NoncesApart(first, u, next);
    }
    assert forall y :: y in log' <==> y in log || y == x;
  }

  lemma {:induction false} RunCovers(d: Device, events: seq<Event>)
    requires d.phase.Down? && d.log == [] && |Run(d, events).log| <= 0x1_0000
    ensures Covers(Run(d, events).log, First(d))
    ensures |Run(d, events).log| - Lost(d, events) <= Distinct(Run(d, events).log)
    ensures AllSavesWork(events) ==>
              Distinct(Run(d, events).log)
              <= |Run(d, events).log| - Lost(d, events) + if Run(d, events).phase.Sent? then 0 else 1
    decreases |events|
  {
    hide First, Covers, Distinct, CountsOn, Step;
    if events == [] {
      NothingCovered(First(d));
    } else {
      var init := events[..|events| - 1];
      StepLog(Run(d, init), events[|events| - 1]);
      RunCovers(d, init);
      NonceFormula(d, init);
      if AllSavesWork(events) {
        LostIsWindowReboots(d, init);
      }
      StepCovers(Run(d, init), events[|events| - 1], First(d), Lost(d, init), Unsaved(d, init));
    }
  }

  lemma StepLog(d: Device, e: Event)
    ensures Step(d, e).log == if e.Attempt? && d.phase.Ready? then d.log + [d.phase.nonce] else d.log
    ensures Step(d, e).phase.Sent? <==> (e.Attempt? && d.phase.Ready?) || (d.phase.Sent? && !e.Save? && !e.Reboot?)
  {
  }

  lemma StepCovers(d: Device, e: Event, first: Nonce, lost: nat, unsaved: nat)
    requires Covers(d.log, first) && CountsOn(d, first, |d.log| - lost, unsaved)
    requires lost + unsaved <= |d.log| && |d.log| - lost <= Distinct(d.log)
    requires |Step(d, e).log| <= 0x1_0000
    ensures Covers(Step(d, e).log, first)
    ensures Distinct(Step(d, e).log)
         == if !(e.Attempt? && d.phase.Ready?) || |d.log| - lost < Distinct(d.log) then Distinct(d.log)
            else Distinct(d.log) + 1
  {
    hide Covers, Distinct, Load;
    if e.Attempt? && d.phase.Ready? {
      CoversAppend(d.log, first, |d.log| - lost);
    }
  }

  lemma NothingCovered(first: Nonce)
    ensures Covers([], first) && Distinct([]) == 0
  {
  }

  /** In any run of at most 65536 attempts, with reboots and failed writes anywhere, no more nonces are
      repeated than attempts were lost; ... */
  lemma RepeatsAtMostLost(d: Device, events: seq<Event>)
    requires d.phase.Down? && d.log == [] && |Run(d, events).log| <= 0x1_0000
    ensures Repeats(Run(d, events).log) <= Lost(d, events)
  {
    hide Run, Lost, Covers, Repeats;
    RunCovers(d, events);
  }

  /** ... with working writes that is one per reboot between an attempt and its save, less at most the
      last one, whose nonce may not have been used again yet. */
  lemma RepeatsAreWindowReboots(d: Device, events: seq<Event>)
    requires d.phase.Down? && d.log == [] && |Run(d, events).log| <= 0x1_0000
    requires AllSavesWork(events)
    ensures Repeats(Run(d, events).log) <= WindowReboots(d, events) <= Repeats(Run(d, events).log) + 1
  {
    hide Run, Lost, Covers, Repeats, WindowReboots;
    RunCovers(d, events);
    LostIsWindowReboots(d, events);
  }

  // ----- the other user of the store -----

  lemma HashStep1(key: Bytes, i: nat, h: bv16, charIsSigned: bool, next: bv16)
    requires i < |key| && key[i] & 0x80 == 0
    requires next == Mix(Multiply(h ^ (key[i] as bv16)))
    ensures Hash(key[i..], h, charIsSigned) == Hash(key[i + 1..], next, charIsSigned)
  {
    hide Mix, Multiply;
    assert key[i..][1..] == key[i + 1..];
  }

  lemma HashEnd(rest: Bytes, h: bv16, charIsSigned: bool)
    requires rest == []
    ensures Hash(rest, h, charIsSigned) == h
  {
  }

  lemma NonceKeyId(t: Target)
    ensures t.KeyId(KEY) == 0xE987
  {
    hide Hash, Round;
    HashStep1(KEY, 0, SEED, t.charIsSigned, 0x6396);
    HashStep1(KEY, 1, 0x6396, t.charIsSigned, 0xFB97);
    HashStep1(KEY, 2, 0xFB97, t.charIsSigned, 0x9C8A);
    HashStep1(KEY, 3, 0x9C8A, t.charIsSigned, 0xC164);
    HashStep1(KEY, 4, 0xC164, t.charIsSigned, 0x2764);
    HashStep1(KEY, 5, 0x2764, t.charIsSigned, 0xC96A);
    HashStep1(KEY, 6, 0xC96A, t.charIsSigned, 0x8954);
    HashStep1(KEY, 7, 0x8954, t.charIsSigned, 0x93C2);
    HashStep1(KEY, 8, 0x93C2, t.charIsSigned, 0xE987);
    HashEnd(KEY[9..], 0xE987, t.charIsSigned);
  }

  lemma WaterFlowKeyId(t: Target)
    ensures t.KeyId(WATER_FLOW) == 0x0004
  {
    hide Hash, Round;
    HashStep1(WATER_FLOW, 0, SEED, t.charIsSigned, 0xB8C0);
    HashStep1(WATER_FLOW, 1, 0xB8C0, t.charIsSigned, 0xF79D);
    HashStep1(WATER_FLOW, 2, 0xF79D, t.charIsSigned, 0x3849);
    HashStep1(WATER_FLOW, 3, 0x3849, t.charIsSigned, 0x7F13);
    HashStep1(WATER_FLOW, 4, 0x7F13, t.charIsSigned, 0x79C3);
    HashStep1(WATER_FLOW, 5, 0x79C3, t.charIsSigned, 0xBD24);
    HashStep1(WATER_FLOW, 6, 0xBD24, t.charIsSigned, 0xF913);
    HashStep1(WATER_FLOW, 7, 0xF913, t.charIsSigned, 0xD404);
    HashStep1(WATER_FLOW, 8, 0xD404, t.charIsSigned, 0x74B3);
    HashStep1(WATER_FLOW, 9, 0x74B3, t.charIsSigned, 0x0004);
    HashEnd(WATER_FLOW[10..], 0x0004, t.charIsSigned);
  }

  /** The water meter interrupt writes under "water_flow", which does not share the id of "dev_nonce"
      whether char is signed or not: its writes are events that leave the nonce alone. */
  lemma WaterFlowIsAnotherKey(t: Target)
    ensures CollisionFree(t, {KEY, WATER_FLOW})
  {
    hide Target.KeyId;
    NonceKeyId(t);
    WaterFlowKeyId(t);
  }
}
