/**
 * The rowing/ski ergometer adapter (src/concept2skierg.cpp).
 *
 * The ergometer reports on three vendor characteristics (ce060031, ce060032
 * and ce060033); each notification is decoded into the canonical metrics,
 * after which the crank counters are derived from the cadence. A 200 ms tick
 * applies a pending resistance request through the Fitness Machine control
 * point and consumes the one-shot start and stop requests. Subscription is
 * deferred until every service of the peripheral has settled.
 *
 * Writes are modelled as frames appended to an output log; the wait for
 * acknowledgement around each write is not modelled.
 */
module Concept2SkiErg {
  import opened CTypes
  import opened Wrappers
  import opened Ble
  import opened Seqs
  import opened Devices

  const GeneralStatusUuid: string := "ce060031-43e5-11e4-916c-0800200c9a66"
  const AdditionalStatusUuid: string := "ce060032-43e5-11e4-916c-0800200c9a66"
  const AdditionalStatus2Uuid: string := "ce060033-43e5-11e4-916c-0800200c9a66"

  /** The shortest frame each characteristic's branch accepts. */
  const GeneralStatusMinLength: nat := 19
  const AdditionalStatusMinLength: nat := 17
  const AdditionalStatus2MinLength: nat := 20

  /** Heart-rate octet that means "no reading". */
  const HeartRateAbsent: byte := 0xFF

  /** Fitness Machine Control Point (UUID 0x2AD9). */
  const ControlPointUuid: string := "00002ad9-0000-1000-8000-00805f9b34fb"

  /**
   * Op code of "Set Indoor Bike Simulation Parameters" (Fitness Machine
   * Service 1.0, section 4.16.2.18).
   */
  const SetIndoorBikeSimulationParams: byte := 0x11

  /** The sentinel of an empty request slot. */
  const NoRequest: int8 := -1

  const MaxResistance: int8 := 100

  /** The last-crank-event time is a 16-bit counter of 1/1024 s. */
  const CrankTimeWrap: nat := 0x1_0000

  // ---------------------------------------------------------------------
  // Field reads, as written
  // ---------------------------------------------------------------------

  /**
   * The 24-bit reads: the low octet is masked through `uint8_t`, but the
   * middle octet goes through `(uint16_t)` and the high octet through
   * `(uint32_t)` straight from a signed `char`, so their sign extends.
   */
  function Read24(lo: byte, mid: byte, hi: byte): bv32
  {
    (CharToU32(hi) << 16) | ((CharToU16(mid) as bv32) << 8) | (lo as bv32)
  }

  /**
   * Octet by octet, what the 24-bit read produces: octet 2 becomes 0xFF when
   * octet 1 has its top bit set, and the top octet is 0xFF when octet 2 has.
   */
  lemma Read24Octets(lo: byte, mid: byte, hi: byte)
    ensures Read24(lo, mid, hi)
         == Compose32(lo, mid, if mid < 0x80 then hi else 0xFF, if hi < 0x80 then 0x00 else 0xFF)
  {
    if mid < 0x80 && hi < 0x80 {
      Read24Plain(lo, mid, hi);
    } else if hi < 0x80 {
      Read24MidExtended(lo, mid, hi);
    } else if mid < 0x80 {
      Read24HighExtended(lo, mid, hi);
    } else {
      Read24BothExtended(lo, mid, hi);
    }
  }

  lemma Read24Plain(lo: byte, mid: byte, hi: byte)
    requires mid < 0x80 && hi < 0x80
    ensures Read24(lo, mid, hi) == Compose32(lo, mid, hi, 0x00)
  {
  }

  lemma Read24MidExtended(lo: byte, mid: byte, hi: byte)
    requires mid >= 0x80 && hi < 0x80
    ensures Read24(lo, mid, hi) == Compose32(lo, mid, 0xFF, 0x00)
  {
  }

  lemma Read24HighExtended(lo: byte, mid: byte, hi: byte)
    requires mid < 0x80 && hi >= 0x80
    ensures Read24(lo, mid, hi) == Compose32(lo, mid, hi, 0xFF)
  {
  }

  lemma Read24BothExtended(lo: byte, mid: byte, hi: byte)
    requires mid >= 0x80 && hi >= 0x80
    ensures Read24(lo, mid, hi) == Compose32(lo, mid, 0xFF, 0xFF)
  {
  }

  /** The 24-bit read is the little-endian value exactly when octets 2 and 3 are below 0x80. */
  lemma Read24Exact(lo: byte, mid: byte, hi: byte)
    ensures Read24(lo, mid, hi) as int == LE24(lo, mid, hi) <==> mid < 0x80 && hi < 0x80
  {
    Read24Octets(lo, mid, hi);
    Compose32Value(lo, mid, if mid < 0x80 then hi else 0xFF, if hi < 0x80 then 0x00 else 0xFF);
  }

  /**
   * The 16-bit reads: the high octet sign-extends through `(uint16_t)`, but
   * the result is stored in a `uint16_t`, which drops the extension.
   */
  function Read16(lo: byte, hi: byte): bv32
  {
    (((CharToU16(hi) as bv32) << 8) | (lo as bv32)) & 0xFFFF
  }

  /** The 16-bit reads are exact little-endian values for every frame. */
  lemma Read16Exact(lo: byte, hi: byte)
    ensures Read16(lo, hi) as int == LE16(lo, hi)
  {
    assert Read16(lo, hi) == (lo as bv32) | ((hi as bv32) << 8);
    Compose16Value(lo, hi);
  }

  // ---------------------------------------------------------------------
  // Notifications
  // ---------------------------------------------------------------------

  /** The canonical metrics the ergometer updates. */
  datatype ErgMetrics = ErgMetrics(
    distance: real,
    speed: real,
    cadence: nat,
    strokes: real,
    heart: nat,
    kcal: nat,
    crankRevs: nat,
    lastCrankEventTime: nat)

  /** A notification, with the milliseconds since the previous one (a wall-clock reading). */
  datatype Notification = Notification(uuid: string, value: Bytes, elapsedMs: nat)

  /** Whether a notification reaches its characteristic's decoding branch. */
  predicate Accepted(uuid: string, value: Bytes)
  {
    || (uuid == GeneralStatusUuid && |value| >= GeneralStatusMinLength)
    || (uuid == AdditionalStatusUuid && |value| >= AdditionalStatusMinLength)
    || (uuid == AdditionalStatus2Uuid && |value| >= AdditionalStatus2MinLength)
  }

  /** A speed in units of 0.001 m/s, in km/h. */
  function SpeedKmh(raw: nat): real
  {
    raw as real * 0.0036
  }

  /** Strokes rowed at `rate` strokes per minute over `ms` milliseconds. */
  function StrokesIn(rate: nat, ms: nat): real
  {
    rate as real * ms as real / 600000.0
  }

  /** The general-status frame (ce060031) updates the distance, in units of 0.1 m. */
  function GeneralStatus(m: ErgMetrics, value: Bytes): ErgMetrics
    requires |value| >= GeneralStatusMinLength
  {
    m.(distance := (Read24(value[3], value[4], value[5]) as int) as real / 10000.0)
  }

  /**
   * The additional-status frame (ce060032) updates speed, stroke rate, the
   * stroke count integrated over the elapsed time, and the heart rate.
   */
  function AdditionalStatus(m: ErgMetrics, value: Bytes, elapsedMs: nat): ErgMetrics
    requires |value| >= AdditionalStatusMinLength
  {
    m.(speed := SpeedKmh(Read16(value[3], value[4]) as int),
       cadence := value[5] as int,
       strokes := m.strokes + StrokesIn(value[5] as int, elapsedMs),
       heart := if value[6] != HeartRateAbsent then value[6] as int else m.heart)
  }

  /** The additional-status-2 frame (ce060033) updates the calories. */
  function AdditionalStatus2(m: ErgMetrics, value: Bytes): ErgMetrics
    requires |value| >= AdditionalStatus2MinLength
  {
    m.(kcal := Read16(value[6], value[7]) as int)
  }

  /** The readings one notification updates, before the crank counters are derived. */
  function Decode(m: ErgMetrics, uuid: string, value: Bytes, elapsedMs: nat): (r: ErgMetrics)
    ensures r.crankRevs == m.crankRevs && r.lastCrankEventTime == m.lastCrankEventTime
    ensures !Accepted(uuid, value) ==> r == m
  {
    if uuid == GeneralStatusUuid && |value| >= GeneralStatusMinLength then
      GeneralStatus(m, value)
    else if uuid == AdditionalStatusUuid && |value| >= AdditionalStatusMinLength then
      AdditionalStatus(m, value, elapsedMs)
    else if uuid == AdditionalStatus2Uuid && |value| >= AdditionalStatus2MinLength then
      AdditionalStatus2(m, value)
    else
      m
  }

  /** A general-status frame sets the distance to its octets 3..5 over 10000, and nothing else. */
  lemma GeneralStatusDistance(m: ErgMetrics, value: Bytes, elapsedMs: nat)
    requires |value| >= GeneralStatusMinLength
    requires value[4] < 0x80 && value[5] < 0x80
    ensures Decode(m, GeneralStatusUuid, value, elapsedMs)
         == m.(distance := LE24(value[3], value[4], value[5]) as real / 10000.0)
  {
    Read24Exact(value[3], value[4], value[5]);
  }

  /**
   * An additional-status frame sets the speed from octets 3..4 (0.001 m/s,
   * times 3.6 for km/h), the cadence from octet 5, and the heart rate from
   * octet 6 unless that octet is 0xFF.
   */
  lemma AdditionalStatusFields(m: ErgMetrics, value: Bytes, elapsedMs: nat)
    requires |value| >= AdditionalStatusMinLength
    ensures Decode(m, AdditionalStatusUuid, value, elapsedMs)
         == m.(speed := LE16(value[3], value[4]) as real * 0.0036,
               cadence := value[5] as int,
               strokes := m.strokes + value[5] as real * elapsedMs as real / 600000.0,
               heart := if value[6] == HeartRateAbsent then m.heart else value[6] as int)
  {
    assert AdditionalStatusUuid != GeneralStatusUuid;
    var d := Decode(m, AdditionalStatusUuid, value, elapsedMs);
    assert d == AdditionalStatus(m, value, elapsedMs);
    Read16Exact(value[3], value[4]);
    assert d.speed == LE16(value[3], value[4]) as real * 0.0036;
  }

  /** An additional-status-2 frame sets the calories from octets 6..7, and nothing else. */
  lemma AdditionalStatus2Calories(m: ErgMetrics, value: Bytes, elapsedMs: nat)
    requires |value| >= AdditionalStatus2MinLength
    ensures Decode(m, AdditionalStatus2Uuid, value, elapsedMs) == m.(kcal := LE16(value[6], value[7]))
  {
    Read16Exact(value[6], value[7]);
  }

  /**
   * Ticks of 1/1024 s per crank revolution at `cadence` revolutions per
   * minute, truncated: `(uint16_t)(1024 / (cadence / 60))`.
   */
  function CrankTimeIncrement(cadence: nat): (ticks: nat)
    requires cadence > 0
    ensures ticks * cadence <= 61440 < (ticks + 1) * cadence
    ensures ticks < CrankTimeWrap
  {
    61440 / cadence
  }

  /** The crank counters derived after every notification. */
  function CrankStep(m: ErgMetrics): ErgMetrics
  {
    if m.cadence > 0 then
      m.(crankRevs := m.crankRevs + 1,
         lastCrankEventTime := (m.lastCrankEventTime + CrankTimeIncrement(m.cadence)) % CrankTimeWrap)
    else
      m
  }

  /** The whole effect of one notification on the metrics. */
  function OnNotification(m: ErgMetrics, n: Notification): ErgMetrics
  {
    CrankStep(Decode(m, n.uuid, n.value, n.elapsedMs))
  }

  /** The metrics after a run of notifications, in arrival order. */
  function Replay(m: ErgMetrics, ns: seq<Notification>): ErgMetrics
    decreases |ns|
  {
    if ns == [] then m else Replay(OnNotification(m, ns[0]), ns[1..])
  }

  /** A notification that sets a non-zero stroke rate. */
  predicate StartsRowing(n: Notification)
  {
    n.uuid == AdditionalStatusUuid && |n.value| >= AdditionalStatusMinLength && n.value[5] != 0
  }

  /** A notification that sets the stroke rate to zero. */
  predicate StopsRowing(n: Notification)
  {
    n.uuid == AdditionalStatusUuid && |n.value| >= AdditionalStatusMinLength && n.value[5] == 0
  }

  /**
   * Over any run of notifications the revolution count never falls, rises by
   * at most one per notification, and the event time stays a 16-bit value.
   */
  lemma {:induction false} CrankRevsMonotonic(m: ErgMetrics, ns: seq<Notification>)
    requires m.lastCrankEventTime < CrankTimeWrap
    ensures m.crankRevs <= Replay(m, ns).crankRevs <= m.crankRevs + |ns|
    ensures Replay(m, ns).lastCrankEventTime < CrankTimeWrap
    decreases |ns|
  {
    if ns != [] {
      CrankRevsMonotonic(OnNotification(m, ns[0]), ns[1..]);
    }
  }

  /**
   * While the cadence is zero and no notification sets a non-zero stroke
   * rate, both crank counters stay frozen, whatever else arrives.
   */
  lemma {:induction false} CrankFrozenWhileIdle(m: ErgMetrics, ns: seq<Notification>)
    requires m.cadence == 0
    requires forall i :: 0 <= i < |ns| ==> !StartsRowing(ns[i])
    ensures Replay(m, ns).crankRevs == m.crankRevs
    ensures Replay(m, ns).lastCrankEventTime == m.lastCrankEventTime
    ensures Replay(m, ns).cadence == 0
    decreases |ns|
  {
    if ns != [] {
      var m' := OnNotification(m, ns[0]);
      assert !StartsRowing(ns[0]);
      assert m'.cadence == 0 && m'.crankRevs == m.crankRevs && m'.lastCrankEventTime == m.lastCrankEventTime;
      CrankFrozenWhileIdle(m', ns[1..]);
    }
  }

  /**
   * While the cadence is positive and no notification sets it to zero, every
   * notification, of any length or characteristic, adds one revolution.
   */
  lemma {:induction false} CrankCountsEveryNotification(m: ErgMetrics, ns: seq<Notification>)
    requires m.cadence > 0
    requires forall i :: 0 <= i < |ns| ==> !StopsRowing(ns[i])
    ensures Replay(m, ns).crankRevs == m.crankRevs + |ns|
    ensures Replay(m, ns).cadence > 0
    decreases |ns|
  {
    if ns != [] {
      var m' := OnNotification(m, ns[0]);
      assert !StopsRowing(ns[0]);
      assert m'.cadence > 0 && m'.crankRevs == m.crankRevs + 1;
      CrankCountsEveryNotification(m', ns[1..]);
    }
  }

  /** A stroke rate of 0 makes the reported power 0, whatever power is stored. */
  lemma StoppedStrokeReportsNoPower(m: ErgMetrics, n: Notification, watt: nat)
    requires StopsRowing(n)
    ensures OnNotification(m, n).cadence == 0
    ensures ReportedPower(OnNotification(m, n).cadence, watt) == 0
  {
    AdditionalStatusFields(m, n.value, n.elapsedMs);
  }

  /** A non-zero stroke rate makes the stored power the reported one. */
  lemma RowingReportsPower(m: ErgMetrics, n: Notification, watt: nat)
    requires StartsRowing(n)
    ensures OnNotification(m, n).cadence > 0
    ensures ReportedPower(OnNotification(m, n).cadence, watt) == watt
  {
    AdditionalStatusFields(m, n.value, n.elapsedMs);
  }

  /**
   * Once the rowing stops, the reported power stays 0 until a frame sets a
   * non-zero stroke rate again.
   */
  lemma IdleReportsNoPower(m: ErgMetrics, ns: seq<Notification>, watt: nat)
    requires ns != [] && StopsRowing(ns[0])
    requires forall i :: 1 <= i < |ns| ==> !StartsRowing(ns[i])
    ensures ReportedPower(Replay(m, ns).cadence, watt) == 0
  {
    var m1 := OnNotification(m, ns[0]);
    StoppedStrokeReportsNoPower(m, ns[0], watt);
    CrankFrozenWhileIdle(m1, ns[1..]);
  }

  // ---------------------------------------------------------------------
  // Control point frame and the tick
  // ---------------------------------------------------------------------

  /**
   * The 7-octet "Set Indoor Bike Simulation Parameters" frame for resistance
   * `r`: wind speed, rolling and wind resistance coefficients zero, and the
   * grade field (octets 3..4) holding `(uint16_t)r * 100`.
   */
  function SimulationFrame(r: int8): Bytes
  {
    var grade := (r % 0x1_0000) * 100;
    [SetIndoorBikeSimulationParams, 0x00, 0x00, ByteOf(grade % 0x100), ByteOf(grade / 0x100), 0x00, 0x00]
  }

  /**
   * Read back as the specification's signed 16-bit grade, the frame carries
   * exactly `r * 100` for every `int8_t` resistance; all other parameters are zero.
   */
  lemma SimulationFrameGrade(r: int8)
    ensures |SimulationFrame(r)| == 7
    ensures SimulationFrame(r)[0] == SetIndoorBikeSimulationParams
    ensures SimulationFrame(r)[1] == 0 && SimulationFrame(r)[2] == 0
    ensures SimulationFrame(r)[5] == 0 && SimulationFrame(r)[6] == 0
    ensures SignedLE16(SimulationFrame(r)[3], SimulationFrame(r)[4]) == r * 100
  {
    var grade := (r % 0x1_0000) * 100;
    SplitLE16(grade);
    GradeBits(r);
  }

  /** `(uint16_t)r * 100`, reduced to 16 bits, is `r * 100` in two's complement. */
  lemma GradeBits(r: int8)
    ensures ((r % 0x1_0000) * 100) % 0x1_0000 == if r < 0 then 0x1_0000 + r * 100 else r * 100
  {
    if r < 0 {
      var grade := (r % 0x1_0000) * 100;
      assert r % 0x1_0000 == 0x1_0000 + r;
      assert grade == 0x1_0000 * 100 + r * 100;
      assert 0 <= 0x1_0000 + r * 100 < 0x1_0000;
    }
  }

  /** The clamp the tick applies to a pending resistance. */
  function ClampResistance(r: int8): (c: int8)
    ensures 0 <= r ==> 1 <= c <= MaxResistance
    ensures 1 <= r <= MaxResistance ==> c == r
    ensures r < 0 ==> c == r
  {
    if r > MaxResistance then MaxResistance
    else if r == 0 then 1
    else r
  }

  /** The part of the adapter's state that one tick reads and writes. */
  datatype TickState = TickState(
    controller: ControllerState,
    initRequest: bool,
    requestResistance: int8,
    requestStart: int8,
    requestStop: int8,
    resistance: int,
    writes: seq<Bytes>,
    disconnectedSignals: nat,
    bikeStartedSignals: nat)

  /** The resistance handling of a ready tick. */
  function ApplyResistance(s: TickState): TickState
  {
    if s.requestResistance != NoRequest then
      var c := ClampResistance(s.requestResistance);
      s.(requestResistance := NoRequest,
         writes := if c != s.resistance then s.writes + [SimulationFrame(c)] else s.writes)
    else
      s
  }

  /** The start and stop handling of a ready tick. */
  function ApplyStartStop(s: TickState): TickState
  {
    var s' := if s.requestStart != NoRequest then
                s.(requestStart := NoRequest, bikeStartedSignals := s.bikeStartedSignals + 1)
              else s;
    if s'.requestStop != NoRequest then s'.(requestStop := NoRequest) else s'
  }

  /** One 200 ms tick. */
  function Tick(s: TickState): TickState
  {
    if s.controller == UnconnectedState then
      s.(disconnectedSignals := s.disconnectedSignals + 1)
    else if s.initRequest then
      s.(initRequest := false)
    else if s.controller == DiscoveredState then
      ApplyStartStop(ApplyResistance(s))
    else
      s
  }

  /**
   * Whether a tick writes a resistance frame: a ready tick with a pending
   * request whose clamped value differs from the current resistance.
   */
  predicate WritesResistance(s: TickState)
  {
    && s.controller == DiscoveredState && !s.initRequest
    && s.requestResistance != NoRequest && ClampResistance(s.requestResistance) != s.resistance
  }

  /** A tick writes to the control point exactly when `WritesResistance` holds, and then one frame. */
  lemma WritesResistanceExact(s: TickState)
    ensures WritesResistance(s) <==> Tick(s).writes != s.writes
    ensures WritesResistance(s) ==> |Tick(s).writes| == |s.writes| + 1
    ensures !WritesResistance(s) ==> Tick(s).writes == s.writes
  {
    if s.controller == DiscoveredState && !s.initRequest {
      TickReadyConsumesRequests(s);
    }
  }

  /** A tick that finds the controller unconnected signals a disconnection and changes nothing else. */
  lemma TickWhenUnconnected(s: TickState)
    requires s.controller == UnconnectedState
    ensures Tick(s) == s.(disconnectedSignals := s.disconnectedSignals + 1)
  {
  }

  /** A tick that finds the init request set only clears it. */
  lemma TickConsumesInitRequest(s: TickState)
    requires s.controller != UnconnectedState && s.initRequest
    ensures Tick(s) == s.(initRequest := false)
  {
  }

  /**
   * A ready tick empties all three request slots. It writes at most one
   * frame, and only for a pending request whose clamped value differs from
   * the current resistance; it signals a start exactly when one was pending.
   */
  lemma TickReadyConsumesRequests(s: TickState)
    requires s.controller == DiscoveredState && !s.initRequest
    ensures Tick(s).requestResistance == NoRequest
    ensures Tick(s).requestStart == NoRequest && Tick(s).requestStop == NoRequest
    ensures Tick(s).writes == s.writes + (
              if s.requestResistance != NoRequest && ClampResistance(s.requestResistance) != s.resistance
              then [SimulationFrame(ClampResistance(s.requestResistance))] else [])
    ensures Tick(s).bikeStartedSignals == s.bikeStartedSignals + (if s.requestStart != NoRequest then 1 else 0)
    ensures Tick(s).disconnectedSignals == s.disconnectedSignals
  {
  }

  /**
   * Requests are one-shot: a second ready tick with no new request writes
   * nothing and signals nothing.
   */
  lemma TickConsumesOnce(s: TickState)
    requires s.controller == DiscoveredState && !s.initRequest
    ensures Tick(Tick(s)).writes == Tick(s).writes
    ensures Tick(Tick(s)).bikeStartedSignals == Tick(s).bikeStartedSignals
    ensures Tick(Tick(s)) == Tick(s)
  {
    TickReadyConsumesRequests(s);
  }

  /**
   * A non-negative request whose clamped value differs from the current
   * resistance writes exactly one frame, with a grade of 1 to 100 resistance
   * steps (100 to 10000 in the frame's 0.01 units).
   */
  lemma TickWritesClampedGrade(s: TickState)
    requires s.controller == DiscoveredState && !s.initRequest
    requires 0 <= s.requestResistance && ClampResistance(s.requestResistance) != s.resistance
    ensures |Tick(s).writes| == |s.writes| + 1
    ensures var f := Tick(s).writes[|s.writes|];
            |f| == 7 && 100 <= SignedLE16(f[3], f[4]) <= 100 * MaxResistance
  {
    TickReadyConsumesRequests(s);
    SimulationFrameGrade(ClampResistance(s.requestResistance));
  }

  // ---------------------------------------------------------------------
  // Subscription
  // ---------------------------------------------------------------------

  datatype Characteristic = Characteristic(uuid: string, properties: Properties, cccdValid: bool)

  datatype Service = Service(state: ServiceState, characteristics: seq<Characteristic>)

  /** A characteristic, by the index of its service and its index in that service. */
  datatype CharRef = CharRef(service: nat, characteristic: nat)

  datatype DescriptorWrite = DescriptorWrite(target: CharRef, value: Bytes)

  /** A service that has finished discovery, successfully or not. */
  predicate Settled(s: Service)
  {
    s.state == ServiceDiscovered || s.state == InvalidService
  }

  predicate AllSettled(ss: seq<Service>)
  {
    forall i :: 0 <= i < |ss| ==> Settled(ss[i])
  }

  /** The configuration value a characteristic is subscribed with, if any. */
  function SubscriptionValue(p: Properties): (v: Option<Bytes>)
    ensures v == Some(EnableNotification) <==> p.notify
    ensures v == Some(EnableIndication) <==> !p.notify && p.indicate
    ensures v == None <==> !p.notify && !p.indicate
  {
    if p.notify then Some(EnableNotification)
    else if p.indicate then Some(EnableIndication)
    else None
  }

  /** The descriptor writes for the first characteristics `cs` of service `i`. */
  function CharacteristicWrites(i: nat, cs: seq<Characteristic>): seq<DescriptorWrite>
  {
    if cs == [] then []
    else
      var j := |cs| - 1;
      CharacteristicWrites(i, cs[..j]) + CharacteristicWrite(i, j, cs[j])
  }

  /** The write for characteristic `j` of service `i`: none without a subscription value or a valid descriptor. */
  function CharacteristicWrite(i: nat, j: nat, c: Characteristic): seq<DescriptorWrite>
  {
    match SubscriptionValue(c.properties)
    case Some(v) => if c.cccdValid then [DescriptorWrite(CharRef(i, j), v)] else []
    case None => []
  }

  /** The writes and the control point for one more characteristic. */
  lemma CharacteristicPrefix(i: nat, cs: seq<Characteristic>, j: nat, prev: Option<CharRef>)
    requires j < |cs|
    ensures CharacteristicWrites(i, cs[..j + 1]) == CharacteristicWrites(i, cs[..j]) + CharacteristicWrite(i, j, cs[j])
    ensures ControlPointIn(i, cs[..j + 1], prev)
            == if IsControlPoint(cs[j]) then Some(CharRef(i, j)) else ControlPointIn(i, cs[..j], prev)
  {
    assert cs[..j + 1][..j] == cs[..j];
  }

  function ServiceWrites(i: nat, s: Service): seq<DescriptorWrite>
  {
    if s.state == ServiceDiscovered then CharacteristicWrites(i, s.characteristics) else []
  }

  /** The descriptor writes for all services, in discovery order. */
  function SubscriptionPlan(ss: seq<Service>): seq<DescriptorWrite>
  {
    if ss == [] then [] else SubscriptionPlan(ss[..|ss| - 1]) + ServiceWrites(|ss| - 1, ss[|ss| - 1])
  }

  /** The plan and the control point for one more service. */
  lemma PlanPrefix(ss: seq<Service>, i: nat, prev: Option<CharRef>)
    requires i < |ss|
    ensures SubscriptionPlan(ss[..i + 1]) == SubscriptionPlan(ss[..i]) + ServiceWrites(i, ss[i])
    ensures ControlPointAfter(ss[..i + 1], prev)
            == if ss[i].state == ServiceDiscovered
               then ControlPointIn(i, ss[i].characteristics, ControlPointAfter(ss[..i], prev))
               else ControlPointAfter(ss[..i], prev)
  {
    assert ss[..i + 1][..i] == ss[..i];
  }

  /**
   * The write a characteristic deserves: it lies in a discovered service,
   * its configuration descriptor is valid, and the value matches its
   * Notify/Indicate property.
   */
  ghost predicate Subscribed(ss: seq<Service>, w: DescriptorWrite)
  {
    var i, j := w.target.service, w.target.characteristic;
    && i < |ss|
    && ss[i].state == ServiceDiscovered
    && j < |ss[i].characteristics|
    && ss[i].characteristics[j].cccdValid
    && SubscriptionValue(ss[i].characteristics[j].properties) == Some(w.value)
  }

  /**
   * Every write of the subscription pass is a two-octet Client
   * Characteristic Configuration value that sets bit 0 exactly when its
   * characteristic notifies and bit 1 exactly when it indicates without
   * notifying.
   */
  lemma SubscriptionBits(ss: seq<Service>, w: DescriptorWrite)
    requires w in SubscriptionPlan(ss)
    ensures |w.value| == 2
    ensures var i, j := w.target.service, w.target.characteristic;
            && i < |ss| && j < |ss[i].characteristics|
            && var p := ss[i].characteristics[j].properties;
               && (CccdBits(w.value) % 2 == 1 <==> p.notify)
               && (CccdBits(w.value) / 2 % 2 == 1 <==> !p.notify && p.indicate)
  {
    SubscriptionPlanExact(ss, w);
    var i, j := w.target.service, w.target.characteristic;
    SubscriptionValueBits(ss[i].characteristics[j].properties);
  }

  /** The configuration bits of the value a characteristic is subscribed with. */
  lemma SubscriptionValueBits(p: Properties)
    requires SubscriptionValue(p).Some?
    ensures var v := SubscriptionValue(p).value;
            && |v| == 2
            && (CccdBits(v) % 2 == 1 <==> p.notify)
            && (CccdBits(v) / 2 % 2 == 1 <==> !p.notify && p.indicate)
  {
    CccdValues();
  }

  lemma {:induction false} CharacteristicWritesExact(i: nat, cs: seq<Characteristic>, w: DescriptorWrite)
    ensures w in CharacteristicWrites(i, cs) <==>
              && w.target.service == i
              && w.target.characteristic < |cs|
              && cs[w.target.characteristic].cccdValid
              && SubscriptionValue(cs[w.target.characteristic].properties) == Some(w.value)
    decreases |cs|
  {
    if cs != [] {
      var j := |cs| - 1;
      CharacteristicWritesExact(i, cs[..j], w);
    }
  }

  /** The plan writes exactly the characteristics that deserve a write, each with its value. */
  lemma {:induction false} SubscriptionPlanExact(ss: seq<Service>, w: DescriptorWrite)
    ensures w in SubscriptionPlan(ss) <==> Subscribed(ss, w)
    decreases |ss|
  {
    if ss != [] {
      var n := |ss| - 1;
      SubscriptionPlanExact(ss[..n], w);
      CharacteristicWritesExact(n, ss[n].characteristics, w);
    }
  }

  /** A characteristic the adapter would use as its control point. */
  predicate IsControlPoint(c: Characteristic)
  {
    c.properties.write && c.uuid == ControlPointUuid
  }

  /** The control point after scanning the first characteristics `cs` of service `i`: the last match wins. */
  function ControlPointIn(i: nat, cs: seq<Characteristic>, prev: Option<CharRef>): Option<CharRef>
  {
    if cs == [] then prev
    else if IsControlPoint(cs[|cs| - 1]) then Some(CharRef(i, |cs| - 1))
    else ControlPointIn(i, cs[..|cs| - 1], prev)
  }

  /** The control point after scanning every discovered service. */
  function ControlPointAfter(ss: seq<Service>, prev: Option<CharRef>): Option<CharRef>
  {
    if ss == [] then prev
    else
      var n := |ss| - 1;
      var p := ControlPointAfter(ss[..n], prev);
      if ss[n].state == ServiceDiscovered then ControlPointIn(n, ss[n].characteristics, p) else p
  }

  /**
   * The stored control point is the previous one or a characteristic of a
   * discovered service that has the Write property and UUID 0x2AD9.
   */
  lemma {:induction false} ControlPointSound(ss: seq<Service>, prev: Option<CharRef>)
    ensures var r := ControlPointAfter(ss, prev);
            r == prev || (r.Some? && r.value.service < |ss| && ss[r.value.service].state == ServiceDiscovered &&
                          r.value.characteristic < |ss[r.value.service].characteristics| &&
                          IsControlPoint(ss[r.value.service].characteristics[r.value.characteristic]))
    decreases |ss|
  {
    if ss != [] {
      var n := |ss| - 1;
      ControlPointSound(ss[..n], prev);
      var p := ControlPointAfter(ss[..n], prev);
      if ss[n].state == ServiceDiscovered {
        ControlPointInSound(n, ss[n].characteristics, p);
      }
    }
  }

  lemma {:induction false} ControlPointInSound(i: nat, cs: seq<Characteristic>, prev: Option<CharRef>)
    ensures var r := ControlPointIn(i, cs, prev);
            r == prev || (r.Some? && r.value.service == i && r.value.characteristic < |cs| &&
                          IsControlPoint(cs[r.value.characteristic]))
    decreases |cs|
  {
    if cs != [] && !IsControlPoint(cs[|cs| - 1]) {
      ControlPointInSound(i, cs[..|cs| - 1], prev);
    }
  }

  // ---------------------------------------------------------------------
  // The adapter object
  // ---------------------------------------------------------------------

  class SkiErg {
    // connection; `hasController` is false until a device is discovered
    var hasController: bool
    var controllerState: ControllerState
    var initRequest: bool
    var initDone: bool
    var firstStateChanged: bool
    var virtualTreadmill: bool
    var virtualTreadmillCreations: nat
    var controlPoint: Option<CharRef>
    var connectAttempts: nat

    // request slots, -1 when empty
    var requestResistance: int8
    var requestStart: int8
    var requestStop: int8

    // metrics
    var distance: real
    var speed: real
    var cadence: nat
    var strokes: real
    var heart: nat
    var kcal: nat
    var crankRevs: nat
    var lastCrankEventTime: nat
    var resistance: int
    var watt: nat
    var lastPacket: Bytes

    // outputs
    var controlPointWrites: seq<Bytes>
    var descriptorWrites: seq<DescriptorWrite>
    var disconnectedSignals: nat
    var bikeStartedSignals: nat
    var connectedSignals: nat

    ghost predicate Valid()
      reads this
    {
      && lastCrankEventTime < CrankTimeWrap
      && virtualTreadmillCreations == (if virtualTreadmill then 1 else 0)
    }

    function Metrics(): ErgMetrics
      reads this
    {
      ErgMetrics(distance, speed, cadence, strokes, heart, kcal, crankRevs, lastCrankEventTime)
    }

    function TickView(): TickState
      reads this
    {
      TickState(controllerState, initRequest, requestResistance, requestStart, requestStop,
                resistance, controlPointWrites, disconnectedSignals, bikeStartedSignals)
    }

    /** A new adapter: no controller until a device is discovered, nothing pending. */
    constructor ()
      ensures Valid()
      ensures !hasController && connectAttempts == 0
      ensures controllerState == UnconnectedState && !initRequest && !initDone
      ensures !firstStateChanged && !virtualTreadmill && controlPoint == None
      ensures requestResistance == NoRequest && requestStart == NoRequest && requestStop == NoRequest
      ensures Metrics() == ErgMetrics(0.0, 0.0, 0, 0.0, 0, 0, 0, 0) && resistance == 0 && watt == 0
      ensures controlPointWrites == [] && descriptorWrites == []
    {
      hasController, controllerState := false, UnconnectedState;
      initRequest, initDone := false, false;
      firstStateChanged, virtualTreadmill, virtualTreadmillCreations := false, false, 0;
      controlPoint := None;
      connectAttempts := 0;
      requestResistance, requestStart, requestStop := NoRequest, NoRequest, NoRequest;
      distance, speed, cadence, strokes, heart, kcal := 0.0, 0.0, 0, 0.0, 0, 0;
      crankRevs, lastCrankEventTime := 0, 0;
      resistance, watt := 0, 0;
      lastPacket := [];
      controlPointWrites, descriptorWrites := [], [];
      disconnectedSignals, bikeStartedSignals, connectedSignals := 0, 0, 0;
    }

    /** `deviceDiscovered`: creates the controller and starts connecting to the device. */
    method DeviceDiscovered()
      modifies this`hasController, this`controllerState, this`connectAttempts
      ensures hasController && controllerState == ConnectingState
      ensures connectAttempts == old(connectAttempts) + 1
    {
      hasController := true;
      controllerState := ConnectingState;
      connectAttempts := connectAttempts + 1;
    }

    /**
     * Writes the simulation-parameters frame for `r` to the control point,
     * which must have been found: the write goes through its service.
     */
    method ForceResistance(r: int8)
      requires controlPoint.Some?
      modifies this`controlPointWrites
      ensures controlPointWrites == old(controlPointWrites) + [SimulationFrame(r)]
    {
      var write := new byte[7];
      write[0], write[1], write[2], write[3] := SetIndoorBikeSimulationParams, 0x00, 0x00, 0x00;
      write[4], write[5], write[6] := 0x00, 0x00, 0x00;
      var grade := (r % 0x1_0000) * 100;
      write[3] := ByteOf(grade % 0x100);
      write[4] := ByteOf(grade / 0x100);
      assert write[..] == SimulationFrame(r);
      controlPointWrites := controlPointWrites + [write[..]];
    }

    /**
     * The 200 ms tick. It reads the controller's state, so a device must have
     * been discovered, and a tick that writes a resistance needs the control point.
     */
    method Update()
      requires Valid() && hasController
      requires controlPoint.Some? || !WritesResistance(TickView())
      modifies this`initRequest, this`requestResistance, this`requestStart, this`requestStop,
               this`controlPointWrites, this`disconnectedSignals, this`bikeStartedSignals
      ensures Valid()
      ensures TickView() == Tick(old(TickView()))
    {
      if controllerState == UnconnectedState {
        disconnectedSignals := disconnectedSignals + 1;
        return;
      }
      if initRequest {
        initRequest := false;
      } else if controllerState == DiscoveredState {
        ApplyResistanceRequest();
        ApplyStartStopRequests();
      }
    }

    /** The pending-resistance part of a ready tick. */
    method ApplyResistanceRequest()
      requires controlPoint.Some? || requestResistance == NoRequest || ClampResistance(requestResistance) == resistance
      modifies this`requestResistance, this`controlPointWrites
      ensures TickView() == ApplyResistance(old(TickView()))
    {
      if requestResistance != NoRequest {
        if requestResistance > MaxResistance {
          requestResistance := MaxResistance;
        } else if requestResistance == 0 {
          requestResistance := 1;
        }
        if requestResistance != resistance {
          ForceResistance(requestResistance);
        }
        requestResistance := NoRequest;
      }
    }

    /** The start and stop part of a ready tick. */
    method ApplyStartStopRequests()
      modifies this`requestStart, this`requestStop, this`bikeStartedSignals
      ensures TickView() == ApplyStartStop(old(TickView()))
    {
      if requestStart != NoRequest {
        requestStart := NoRequest;
        bikeStartedSignals := bikeStartedSignals + 1;
      }
      if requestStop != NoRequest {
        requestStop := NoRequest;
      }
    }

    /** A notification from one of the ergometer's characteristics. */
    method CharacteristicChanged(uuid: string, value: Bytes, elapsedMs: nat)
      requires Valid()
      modifies this`distance, this`speed, this`cadence, this`strokes, this`heart, this`kcal,
               this`crankRevs, this`lastCrankEventTime, this`lastPacket
      ensures Valid()
      ensures Metrics() == OnNotification(old(Metrics()), Notification(uuid, value, elapsedMs))
      ensures lastPacket == value
    {
      lastPacket := value;
      DecodeFrame(uuid, value, elapsedMs);
      UpdateCrank();
    }

    /** Dispatches a notification on its characteristic and length. */
    method DecodeFrame(uuid: string, value: Bytes, elapsedMs: nat)
      modifies this`distance, this`speed, this`cadence, this`strokes, this`heart, this`kcal
      ensures Metrics() == Decode(old(Metrics()), uuid, value, elapsedMs)
    {
      if uuid == GeneralStatusUuid && |value| >= GeneralStatusMinLength {
        OnGeneralStatus(value);
      } else if uuid == AdditionalStatusUuid && |value| >= AdditionalStatusMinLength {
        OnAdditionalStatus(value, elapsedMs);
      } else if uuid == AdditionalStatus2Uuid && |value| >= AdditionalStatus2MinLength {
        OnAdditionalStatus2(value);
      }
    }

    /** A rower with a non-zero stroke rate turns the virtual crank once more. */
    method UpdateCrank()
      requires Valid()
      modifies this`crankRevs, this`lastCrankEventTime
      ensures Valid()
      ensures Metrics() == CrankStep(old(Metrics()))
    {
      if cadence > 0 {
        crankRevs := crankRevs + 1;
        lastCrankEventTime := (lastCrankEventTime + CrankTimeIncrement(cadence)) % CrankTimeWrap;
      }
    }

    method OnGeneralStatus(value: Bytes)
      requires |value| >= GeneralStatusMinLength
      modifies this`distance
      ensures Metrics() == GeneralStatus(old(Metrics()), value)
    {
      var distanceDm := Read24(value[3], value[4], value[5]);
      distance := (distanceDm as int) as real / 10000.0;
    }

    method OnAdditionalStatus(value: Bytes, elapsedMs: nat)
      requires |value| >= AdditionalStatusMinLength
      modifies this`speed, this`cadence, this`strokes, this`heart
      ensures Metrics() == AdditionalStatus(old(Metrics()), value, elapsedMs)
    {
      var speedMs := Read16(value[3], value[4]);
      var strokeRate := value[5];
      var heartRate := value[6];
      ghost var next := AdditionalStatus(Metrics(), value, elapsedMs);
      speed := SpeedKmh(speedMs as int);
      cadence := strokeRate as int;
      strokes := strokes + StrokesIn(strokeRate as int, elapsedMs);
      if heartRate != HeartRateAbsent {
        heart := heartRate as int;
      }
      assert Metrics() == next;
    }

    method OnAdditionalStatus2(value: Bytes)
      requires |value| >= AdditionalStatus2MinLength
      modifies this`kcal
      ensures Metrics() == AdditionalStatus2(old(Metrics()), value)
    {
      var totalCalories := Read16(value[6], value[7]);
      kcal := totalCalories as int;
    }

    /**
     * A service changed state. Nothing happens until every service has
     * settled; then each discovered service's characteristics are subscribed,
     * the control point is located, and the virtual device is created once.
     */
    method StateChanged(services: seq<Service>, virtualDeviceEnabled: bool)
      requires Valid()
      modifies this`descriptorWrites, this`controlPoint, this`firstStateChanged,
               this`virtualTreadmill, this`virtualTreadmillCreations
      ensures Valid()
      ensures !AllSettled(services) ==>
                && descriptorWrites == old(descriptorWrites) && controlPoint == old(controlPoint)
                && firstStateChanged == old(firstStateChanged) && virtualTreadmill == old(virtualTreadmill)
      ensures AllSettled(services) ==>
                && descriptorWrites == old(descriptorWrites) + SubscriptionPlan(services)
                && controlPoint == ControlPointAfter(services, old(controlPoint))
                && firstStateChanged
                && virtualTreadmill == (old(virtualTreadmill) || (!old(firstStateChanged) && virtualDeviceEnabled))
    {
      var i := 0;
      while i < |services|
        invariant 0 <= i <= |services|
        invariant forall k :: 0 <= k < i ==> Settled(services[k])
      {
        if !Settled(services[i]) {
          return;
        }
        i := i + 1;
      }

      SubscribeAll(services);

      if !firstStateChanged && !virtualTreadmill {
        if virtualDeviceEnabled {
          virtualTreadmill := true;
          virtualTreadmillCreations := virtualTreadmillCreations + 1;
        }
      }
      firstStateChanged := true;
    }

    /** The second pass over the services: each discovered one is subscribed, in order. */
    method SubscribeAll(services: seq<Service>)
      modifies this`descriptorWrites, this`controlPoint
      ensures descriptorWrites == old(descriptorWrites) + SubscriptionPlan(services)
      ensures controlPoint == ControlPointAfter(services, old(controlPoint))
    {
      ghost var writes0, point0 := descriptorWrites, controlPoint;
      var i := 0;
      while i < |services|
        invariant 0 <= i <= |services|
        invariant descriptorWrites == writes0 + SubscriptionPlan(services[..i])
        invariant controlPoint == ControlPointAfter(services[..i], point0)
      {
        PlanPrefix(services, i, point0);
        SubscribeNext(services, i);
        AppendAssociative(writes0, SubscriptionPlan(services[..i]), ServiceWrites(i, services[i]));
        i := i + 1;
      }
      assert services[..i] == services;
    }

    /** Service `i` of the second pass: subscribed when it was discovered, skipped otherwise. */
    method SubscribeNext(services: seq<Service>, i: nat)
      requires i < |services|
      modifies this`descriptorWrites, this`controlPoint
      ensures descriptorWrites == old(descriptorWrites) + ServiceWrites(i, services[i])
      ensures controlPoint == if services[i].state == ServiceDiscovered
                              then ControlPointIn(i, services[i].characteristics, old(controlPoint))
                              else old(controlPoint)
    {
      var s := services[i];
      if s.state == ServiceDiscovered {
        SubscribeService(i, s);
      }
    }

    /**
     * Subscribes every characteristic of one discovered service that offers
     * notifications or indications, and remembers its control point.
     */
    method SubscribeService(i: nat, s: Service)
      modifies this`descriptorWrites, this`controlPoint
      ensures descriptorWrites == old(descriptorWrites) + CharacteristicWrites(i, s.characteristics)
      ensures controlPoint == ControlPointIn(i, s.characteristics, old(controlPoint))
    {
      var j := 0;
      while j < |s.characteristics|
        invariant 0 <= j <= |s.characteristics|
        invariant descriptorWrites == old(descriptorWrites) + CharacteristicWrites(i, s.characteristics[..j])
        invariant controlPoint == ControlPointIn(i, s.characteristics[..j], old(controlPoint))
      {
        CharacteristicPrefix(i, s.characteristics, j, old(controlPoint));
        SubscribeCharacteristic(i, j, s.characteristics[j]);
        AppendAssociative(old(descriptorWrites), CharacteristicWrites(i, s.characteristics[..j]),
                          CharacteristicWrite(i, j, s.characteristics[j]));
        j := j + 1;
      }
      assert s.characteristics[..j] == s.characteristics;
    }

    /** One characteristic: its descriptor write, if any, and whether it is the control point. */
    method SubscribeCharacteristic(i: nat, j: nat, c: Characteristic)
      modifies this`descriptorWrites, this`controlPoint
      ensures descriptorWrites == old(descriptorWrites) + CharacteristicWrite(i, j, c)
      ensures controlPoint == if IsControlPoint(c) then Some(CharRef(i, j)) else old(controlPoint)
    {
      if c.properties.notify {
        if c.cccdValid {
          descriptorWrites := descriptorWrites + [DescriptorWrite(CharRef(i, j), EnableNotification)];
        }
      } else if c.properties.indicate {
        if c.cccdValid {
          descriptorWrites := descriptorWrites + [DescriptorWrite(CharRef(i, j), EnableIndication)];
        }
      }
      if c.properties.write && c.uuid == ControlPointUuid {
        controlPoint := Some(CharRef(i, j));
      }
    }

    /** A subscription was acknowledged: the next tick consumes the init request. */
    method DescriptorWritten()
      modifies this`initRequest, this`connectedSignals
      ensures initRequest && connectedSignals == old(connectedSignals) + 1
    {
      initRequest := true;
      connectedSignals := connectedSignals + 1;
    }

    /** The controller changed state; an unconnected controller is reconnected at once. */
    method ControllerStateChanged(state: ControllerState)
      modifies this`controllerState, this`initDone, this`connectAttempts
      ensures state == UnconnectedState && hasController ==>
                controllerState == ConnectingState && !initDone && connectAttempts == old(connectAttempts) + 1
      ensures !(state == UnconnectedState && hasController) ==>
                controllerState == state && initDone == old(initDone) && connectAttempts == old(connectAttempts)
    {
      controllerState := state;
      if state == UnconnectedState && hasController {
        initDone := false;
        connectAttempts := connectAttempts + 1;
        controllerState := ConnectingState;
      }
    }

    /** `watts()`: the reported power for the current stroke rate and the stored power. */
    function Watts(): (w: nat)
      reads this
      ensures w == ReportedPower(Metrics().cadence, watt)
    {
      if cadence == 0 then 0 else watt
    }
  }
}
