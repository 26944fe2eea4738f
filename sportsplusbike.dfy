/**
 * The proprietary exercise-bike adapter (src/sportsplusbike.cpp).
 *
 * The bike sends 12-octet frames on one notification characteristic. Octet 1
 * says whether the frame carries the speed (0x20) or the power (0x30); every
 * 12-octet frame also carries the calories and the cadence. All 16-bit fields
 * are big-endian. A 200 ms tick answers each poll with a "no-op" frame that
 * carries the requested resistance and a checksum, after a one-shot init
 * handshake.
 */
module SportsPlusBike {
  import opened CTypes
  import opened Strings
  import opened Wrappers
  import opened Ble
  import opened Devices

  const FrameLength: nat := 12
  const SpeedFrame: byte := 0x20
  const PowerFrame: byte := 0x30

  /** The settings the adapter reads: speed_power_based, power_sensor_name and cadence_sensor_name. */
  datatype BikeConfig = BikeConfig(
    speedPowerBased: bool,
    powerSensorName: string,
    cadenceSensorName: string)

  /** A sensor setting that leaves the bike's own reading in charge. */
  predicate SensorDisabled(name: string)
  {
    StartsWith(name, "Disabled")
  }

  // ---------------------------------------------------------------------
  // Field reads
  // ---------------------------------------------------------------------

  /**
   * The big-endian reads `(c_hi << 8) | (uint8_t)c_lo` stored in a
   * `uint16_t`: the high `char` is promoted with its sign, but the store
   * drops everything above bit 15.
   */
  function ReadBE16(hi: byte, lo: byte): bv32
  {
    ((CharToU32(hi) << 8) | (lo as bv32)) & 0xFFFF
  }

  /** The big-endian reads are exact for every frame. */
  lemma ReadBE16Exact(hi: byte, lo: byte)
    ensures ReadBE16(hi, lo) as int == BE16(hi, lo)
  {
    assert ReadBE16(hi, lo) == (lo as bv32) | ((hi as bv32) << 8);
    Compose16Value(lo, hi);
  }

  /** Speed in km/h: octets 2..3 in units of 0.01 km/h. */
  function SpeedOf(frame: Bytes): real
    requires |frame| == FrameLength
  {
    (ReadBE16(frame[2], frame[3]) as int) as real / 100.0
  }

  /** Power in watts: octets 2..3. */
  function WattOf(frame: Bytes): nat
    requires |frame| == FrameLength
  {
    ReadBE16(frame[2], frame[3]) as int
  }

  /** Calories: octets 6..7. */
  function KcalOf(frame: Bytes): nat
    requires |frame| == FrameLength
  {
    ReadBE16(frame[6], frame[7]) as int
  }

  /** The decoders read octets 2..3 and 6..7 as big-endian values. */
  lemma DecodersBigEndian(frame: Bytes)
    requires |frame| == FrameLength
    ensures SpeedOf(frame) == BE16(frame[2], frame[3]) as real / 100.0
    ensures WattOf(frame) == BE16(frame[2], frame[3])
    ensures KcalOf(frame) == BE16(frame[6], frame[7])
  {
    ReadBE16Exact(frame[2], frame[3]);
    ReadBE16Exact(frame[6], frame[7]);
  }

  /**
   * Elapsed seconds: minutes at octet 3 and seconds at octet 4, each widened
   * to `uint16_t` from a signed `char`, then `min * 60.f + sec` stored in a
   * `uint16_t`. A sum of 65536 or more does not fit, and the C conversion is
   * then undefined: `None`.
   */
  function ElapsedOf(frame: Bytes): (e: Option<nat>)
    requires |frame| == FrameLength
    ensures e.Some? ==> e.value < 0x1_0000
  {
    Elapsed(frame[3] as int, frame[4] as int)
  }

  /** `ElapsedOf` on the values of the minute and second octets. */
  function Elapsed(min: nat, sec: nat): (e: Option<nat>)
    ensures e.Some? ==> e.value < 0x1_0000
  {
    var total := Widen16(min) * 60 + Widen16(sec);
    if total < 0x1_0000 then Some(total) else None
  }

  /**
   * The elapsed time is minutes times 60 plus seconds exactly when both
   * octets are below 0x80; a minute octet of 0x80 or more makes the
   * conversion undefined.
   */
  lemma ElapsedExact(min: nat, sec: nat)
    requires min < 0x100 && sec < 0x100
    ensures Elapsed(min, sec) == Some(min * 60 + sec) <==> min < 0x80 && sec < 0x80
    ensures min >= 0x80 ==> Elapsed(min, sec) == None
  {
  }

  // ---------------------------------------------------------------------
  // Notifications
  // ---------------------------------------------------------------------

  /** What a notification updates. */
  datatype BikeMetrics = BikeMetrics(
    speed: real,
    distance: real,
    watt: nat,
    kcal: nat,
    cadence: nat,
    resistance: int,
    fanSpeed: nat,
    firstCharChanged: bool,
    lastPacket: Bytes,
    packetsReceived: nat)

  /** One notification, with its context: the milliseconds since the last speed frame and the speed that power implies. */
  datatype Reading = Reading(frame: Bytes, msSinceSpeedFrame: nat, speedFromPower: real)

  /**
   * The distance a speed frame adds: `speed` km/h held for `ms` milliseconds,
   * in km. With `ms == 0` the C expression divides by infinity and adds 0.
   */
  function DistanceStep(speed: real, ms: nat): real
  {
    if ms == 0 then 0.0 else (speed / 3600.0) / (1000.0 / ms as real)
  }

  /** A speed frame's effect. */
  function OnSpeedFrame(m: BikeMetrics, r: Reading, cfg: BikeConfig): BikeMetrics
    requires |r.frame| == FrameLength
  {
    var speed := SpeedOf(r.frame);
    m.(distance := if !m.firstCharChanged then m.distance + DistanceStep(speed, r.msSinceSpeedFrame) else m.distance,
       speed := if !cfg.speedPowerBased then speed else r.speedFromPower)
  }

  /** A power frame's effect. */
  function OnPowerFrame(m: BikeMetrics, r: Reading, cfg: BikeConfig): BikeMetrics
    requires |r.frame| == FrameLength
  {
    if SensorDisabled(cfg.powerSensorName) then m.(watt := WattOf(r.frame)) else m
  }

  /** The fields every 12-octet frame sets. */
  function OnAnyFrame(m: BikeMetrics, r: Reading, cfg: BikeConfig, requestResistance: int8): BikeMetrics
    requires |r.frame| == FrameLength
  {
    m.(fanSpeed := 0,
       resistance := requestResistance,
       kcal := KcalOf(r.frame),
       cadence := if SensorDisabled(cfg.cadenceSensorName) then r.frame[8] as int else m.cadence,
       firstCharChanged := false)
  }

  /** The whole effect of one notification. */
  function OnNotification(m: BikeMetrics, r: Reading, cfg: BikeConfig, requestResistance: int8): BikeMetrics
  {
    var m1 := m.(packetsReceived := m.packetsReceived + 1, lastPacket := r.frame);
    if |r.frame| != FrameLength then m1
    else OnAnyFrame(OnFrameKind(m1, r, cfg), r, cfg, requestResistance)
  }

  /** The effect of octet 1: a speed frame, a power frame, or neither. */
  function OnFrameKind(m: BikeMetrics, r: Reading, cfg: BikeConfig): BikeMetrics
    requires |r.frame| == FrameLength
  {
    if r.frame[1] == SpeedFrame then OnSpeedFrame(m, r, cfg)
    else if r.frame[1] == PowerFrame then OnPowerFrame(m, r, cfg)
    else m
  }

  /** Every frame is counted as received; a frame of any other length than 12 changes no metric. */
  lemma ShortFrameIgnored(m: BikeMetrics, r: Reading, cfg: BikeConfig, req: int8)
    requires |r.frame| != FrameLength
    ensures OnNotification(m, r, cfg, req)
         == m.(packetsReceived := m.packetsReceived + 1, lastPacket := r.frame)
  {
  }

  /**
   * A 12-octet frame sets the calories from octets 6..7, the resistance to
   * the pending request, the fan speed to 0, the cadence to octet 8 when no
   * cadence sensor is configured, and clears the first-frame flag.
   */
  lemma CommonFields(m: BikeMetrics, r: Reading, cfg: BikeConfig, req: int8)
    requires |r.frame| == FrameLength
    ensures var m' := OnNotification(m, r, cfg, req);
            && m'.kcal == BE16(r.frame[6], r.frame[7])
            && m'.resistance == req
            && m'.fanSpeed == 0
            && m'.cadence == (if SensorDisabled(cfg.cadenceSensorName) then r.frame[8] as int else m.cadence)
            && !m'.firstCharChanged
            && m'.packetsReceived == m.packetsReceived + 1
  {
    DecodersBigEndian(r.frame);
  }

  /**
   * A speed frame sets the speed to octets 2..3 over 100, or to the speed
   * derived from power when so configured; it leaves the power alone.
   */
  lemma SpeedFrameFields(m: BikeMetrics, r: Reading, cfg: BikeConfig, req: int8)
    requires |r.frame| == FrameLength && r.frame[1] == SpeedFrame
    ensures var m' := OnNotification(m, r, cfg, req);
            && m'.speed == (if cfg.speedPowerBased then r.speedFromPower else BE16(r.frame[2], r.frame[3]) as real / 100.0)
            && m'.watt == m.watt
  {
    DecodersBigEndian(r.frame);
  }

  /**
   * A power frame stores octets 2..3 as the power only when no power sensor
   * is configured; it leaves speed and distance alone.
   */
  lemma PowerFrameFields(m: BikeMetrics, r: Reading, cfg: BikeConfig, req: int8)
    requires |r.frame| == FrameLength && r.frame[1] == PowerFrame
    ensures var m' := OnNotification(m, r, cfg, req);
            && m'.watt == (if SensorDisabled(cfg.powerSensorName) then BE16(r.frame[2], r.frame[3]) else m.watt)
            && m'.speed == m.speed && m'.distance == m.distance
  {
    DecodersBigEndian(r.frame);
  }

  /**
   * The distance moves only on a 12-octet speed frame that is not the first
   * 12-octet frame, and it never falls.
   */
  lemma DistanceOnlyOnSpeedFrames(m: BikeMetrics, r: Reading, cfg: BikeConfig, req: int8)
    ensures var m' := OnNotification(m, r, cfg, req);
            m'.distance != m.distance ==> |r.frame| == FrameLength && r.frame[1] == SpeedFrame && !m.firstCharChanged
    ensures OnNotification(m, r, cfg, req).distance >= m.distance
  {
    if |r.frame| == FrameLength && r.frame[1] == SpeedFrame && !m.firstCharChanged {
      DistanceStepNonNegative(SpeedOf(r.frame), r.msSinceSpeedFrame);
    }
  }

  /**
   * With the cadence sensor disabled, a 12-octet frame whose cadence octet
   * is 0 makes the reported power 0, whatever power is stored.
   */
  lemma IdleFrameReportsNoPower(m: BikeMetrics, r: Reading, cfg: BikeConfig, req: int8)
    requires |r.frame| == FrameLength && r.frame[8] == 0 && SensorDisabled(cfg.cadenceSensorName)
    ensures var m' := OnNotification(m, r, cfg, req);
            m'.cadence == 0 && ReportedPower(m'.cadence, m'.watt) == 0
  {
  }

  /**
   * With neither sensor configured, a power frame with a non-zero cadence
   * octet reports the frame's own power, octets 2..3.
   */
  lemma PedallingPowerFrameReportsPower(m: BikeMetrics, r: Reading, cfg: BikeConfig, req: int8)
    requires |r.frame| == FrameLength && r.frame[1] == PowerFrame && r.frame[8] != 0
    requires SensorDisabled(cfg.cadenceSensorName) && SensorDisabled(cfg.powerSensorName)
    ensures var m' := OnNotification(m, r, cfg, req);
            ReportedPower(m'.cadence, m'.watt) == BE16(r.frame[2], r.frame[3])
  {
    DecodersBigEndian(r.frame);
    OctetValue(r.frame[8]);
  }

  lemma DistanceStepNonNegative(speed: real, ms: nat)
    requires speed >= 0.0
    ensures DistanceStep(speed, ms) >= 0.0
  {
    if ms != 0 {
      var a := speed / 3600.0;
      var b := 1000.0 / ms as real;
      assert a >= 0.0 && b > 0.0;
      assert a / b >= 0.0;
    }
  }

  /** The metrics after a run of notifications, in arrival order, with the request fixed. */
  function Replay(m: BikeMetrics, rs: seq<Reading>, cfg: BikeConfig, req: int8): BikeMetrics
    decreases |rs|
  {
    if rs == [] then m else Replay(OnNotification(m, rs[0], cfg, req), rs[1..], cfg, req)
  }

  /**
   * Until the first 12-octet frame the distance does not move, and that
   * first frame does not move it either, whatever it carries.
   */
  lemma {:induction false} NoDistanceUntilSecondFrame(m: BikeMetrics, rs: seq<Reading>, cfg: BikeConfig, req: int8)
    requires m.firstCharChanged
    requires forall i :: 0 <= i < |rs| - 1 ==> |rs[i].frame| != FrameLength
    ensures Replay(m, rs, cfg, req).distance == m.distance
    decreases |rs|
  {
    if rs != [] {
      var m' := OnNotification(m, rs[0], cfg, req);
      if |rs[0].frame| != FrameLength {
        assert m'.firstCharChanged && m'.distance == m.distance;
        NoDistanceUntilSecondFrame(m', rs[1..], cfg, req);
      } else {
        assert |rs| == 1;
      }
    }
  }

  // ---------------------------------------------------------------------
  // Frames written by the tick
  // ---------------------------------------------------------------------

  /** The handshake frame written by the init step. */
  const InitFrame: Bytes := [0x40, 0x00, 0x16, 0x0a, 0x60]

  /** The highest resistance the no-op frame carries. */
  const MaxResistance: int8 := 24

  /** The sum of the first four octets, modulo 256. */
  function Checksum(f: Bytes): nat
    requires |f| == 5
  {
    (f[0] as int + f[1] as int + f[2] as int + f[3] as int) % 256
  }

  /** The "no-op" frame that carries resistance `r`. */
  function NoOpFrame(r: int8): Bytes
    requires 0 <= r <= MaxResistance
  {
    [0x20, 0x01, ByteOf(r), 0x00, ByteOf(0x21 + r)]
  }

  /** The last octet of the no-op frame is its checksum, and octet 2 is the resistance. */
  lemma NoOpFrameChecksum(r: int8)
    requires 0 <= r <= MaxResistance
    ensures NoOpFrame(r)[4] as int == Checksum(NoOpFrame(r))
    ensures NoOpFrame(r)[2] as int == r
  {
    var f := NoOpFrame(r);
    ByteOfSmall(r);
    ByteOfSmall(0x21 + r);
    ChecksumOf(f, 0x21 + r);
  }

  lemma ChecksumOf(f: Bytes, sum: int)
    requires |f| == 5 && 0 <= sum < 256
    requires f[0] as int + f[1] as int + f[2] as int + f[3] as int == sum
    ensures Checksum(f) == sum
  {
    ModSmall(sum);
  }

  /** The init frame carries the same checksum. */
  lemma InitFrameChecksum()
    ensures InitFrame[4] as int == Checksum(InitFrame)
  {
    ChecksumOf(InitFrame, 0x60);
  }

  /** The clamp the ready tick applies to the pending resistance. */
  function ClampResistance(r: int8): (c: int8)
    ensures 0 <= c <= MaxResistance
    ensures 0 <= r <= MaxResistance ==> c == r
    ensures r < 0 ==> c == 0
    ensures r > MaxResistance ==> c == MaxResistance
  {
    if r < 0 then 0 else if r > MaxResistance then MaxResistance else r
  }

  /** What the tick reads and writes. */
  datatype TickState = TickState(
    hasController: bool,
    controller: ControllerState,
    initRequest: bool,
    initDone: bool,
    channelReady: bool,
    requestResistance: int8,
    writes: seq<Bytes>,
    disconnectedSignals: nat)

  /** One 200 ms tick. */
  function Tick(s: TickState): TickState
  {
    if !s.hasController then s
    else if s.controller == UnconnectedState then s.(disconnectedSignals := s.disconnectedSignals + 1)
    else if s.initRequest then s.(initRequest := false, writes := s.writes + [InitFrame], initDone := true)
    else if s.controller == DiscoveredState && s.channelReady && s.initDone then
      var r := ClampResistance(s.requestResistance);
      s.(requestResistance := r, writes := s.writes + [NoOpFrame(r)])
    else s
  }

  /** Before a device is discovered the tick does nothing; unconnected, it only signals. */
  lemma TickIdle(s: TickState)
    ensures !s.hasController ==> Tick(s) == s
    ensures s.hasController && s.controller == UnconnectedState ==>
              Tick(s) == s.(disconnectedSignals := s.disconnectedSignals + 1)
  {
  }

  /**
   * The init request is one-shot: it writes the handshake frame once, marks
   * the init done, and the following tick on a ready channel polls instead.
   */
  lemma TickInitHandshake(s: TickState)
    requires s.hasController && s.controller != UnconnectedState && s.initRequest
    ensures Tick(s).writes == s.writes + [InitFrame]
    ensures Tick(s).initDone && !Tick(s).initRequest
    ensures s.controller == DiscoveredState && s.channelReady ==>
              Tick(Tick(s)).writes == Tick(s).writes + [NoOpFrame(ClampResistance(s.requestResistance))]
  {
  }

  /**
   * A tick writes a frame exactly when it handles the init request or the
   * channel is ready and initialised; every written frame is the init frame
   * or a no-op frame with a valid checksum and a resistance in 0..24.
   */
  lemma TickWrites(s: TickState)
    ensures |Tick(s).writes| == |s.writes| + (
              if s.hasController && s.controller != UnconnectedState &&
                 (s.initRequest || (s.controller == DiscoveredState && s.channelReady && s.initDone))
              then 1 else 0)
    ensures Tick(s).writes[..|s.writes|] == s.writes
    ensures |Tick(s).writes| > |s.writes| ==>
              var f := Tick(s).writes[|s.writes|];
              |f| == 5 && f[4] as int == Checksum(f) && (f == InitFrame || 0 <= f[2] as int <= MaxResistance)
    ensures 0 <= s.requestResistance <= MaxResistance ==> Tick(s).requestResistance == s.requestResistance
  {
    InitFrameChecksum();
    NoOpFrameChecksum(ClampResistance(s.requestResistance));
  }

  // ---------------------------------------------------------------------
  // The adapter object
  // ---------------------------------------------------------------------

  class SportsBike {
    var hasController: bool
    var controllerState: ControllerState
    var initRequest: bool
    var initDone: bool
    var channelReady: bool
    var firstVirtualBike: bool
    var virtualBike: bool
    var virtualBikeCreations: nat
    var connectAttempts: nat
    var requestResistance: int8

    var speed: real
    var distance: real
    var watt: nat
    var kcal: nat
    var cadence: nat
    var resistance: int
    var fanSpeed: nat
    var firstCharChanged: bool
    var lastPacket: Bytes
    var packetsReceived: nat

    var writes: seq<Bytes>
    var descriptorWrites: seq<Bytes>
    var disconnectedSignals: nat
    var connectedSignals: nat

    ghost predicate Valid()
      reads this
    {
      virtualBikeCreations == (if virtualBike then 1 else 0)
    }

    function Metrics(): BikeMetrics
      reads this
    {
      BikeMetrics(speed, distance, watt, kcal, cadence, resistance, fanSpeed, firstCharChanged,
                  lastPacket, packetsReceived)
    }

    function TickView(): TickState
      reads this
    {
      TickState(hasController, controllerState, initRequest, initDone, channelReady, requestResistance,
                writes, disconnectedSignals)
    }

    /** A freshly constructed adapter, before any device is found. */
    constructor ()
      ensures Valid()
      ensures !hasController && !initDone && !initRequest && !channelReady
      ensures firstCharChanged && !virtualBike && !firstVirtualBike
      ensures requestResistance == -1 && writes == [] && descriptorWrites == []
    {
      hasController, controllerState := false, UnconnectedState;
      initRequest, initDone, channelReady := false, false, false;
      firstVirtualBike, virtualBike, virtualBikeCreations := false, false, 0;
      connectAttempts := 0;
      requestResistance := -1;
      speed, distance, watt, kcal, cadence := 0.0, 0.0, 0, 0, 0;
      resistance, fanSpeed := 0, 0;
      firstCharChanged := true;
      lastPacket, packetsReceived := [], 0;
      writes, descriptorWrites := [], [];
      disconnectedSignals, connectedSignals := 0, 0;
    }

    /** A device was found: the resistance request starts at 1 and the controller connects. */
    method DeviceDiscovered()
      modifies this`hasController, this`requestResistance, this`controllerState, this`connectAttempts
      ensures hasController && requestResistance == 1 && controllerState == ConnectingState
      ensures connectAttempts == old(connectAttempts) + 1
    {
      requestResistance := 1;
      hasController := true;
      controllerState := ConnectingState;
      connectAttempts := connectAttempts + 1;
    }

    /** Writes the handshake frame and marks the init done. */
    method BtInit()
      modifies this`writes, this`initDone
      ensures writes == old(writes) + [InitFrame] && initDone
    {
      var initData := new byte[] [0x40, 0x00, 0x16, 0x0a, 0x60];
      assert initData[..] == InitFrame;
      writes := writes + [initData[..]];
      initDone := true;
    }

    /** The 200 ms tick. */
    method Update()
      modifies this`initRequest, this`initDone, this`requestResistance, this`writes, this`disconnectedSignals
      ensures TickView() == Tick(old(TickView()))
    {
      if !hasController {
        return;
      }
      if controllerState == UnconnectedState {
        disconnectedSignals := disconnectedSignals + 1;
        return;
      }
      if initRequest {
        initRequest := false;
        BtInit();
      } else if controllerState == DiscoveredState && channelReady && initDone {
        WriteNoOp();
      }
    }

    /** The ready tick: clamp the pending resistance and write the no-op frame carrying it. */
    method WriteNoOp()
      modifies this`requestResistance, this`writes
      ensures requestResistance == ClampResistance(old(requestResistance))
      ensures writes == old(writes) + [NoOpFrame(requestResistance)]
    {
      if requestResistance < 0 {
        requestResistance := 0;
      }
      if requestResistance > MaxResistance {
        requestResistance := MaxResistance;
      }
      var noOpData := NoOpData(requestResistance);
      writes := writes + [noOpData];
    }

    /** The no-op frame, patched with resistance `r` and its checksum. */
    method NoOpData(r: int8) returns (frame: Bytes)
      requires 0 <= r <= MaxResistance
      ensures frame == NoOpFrame(r)
    {
      var noOpData := new byte[] [0x20, 0x01, 0x09, 0x00, 0x2a];
      noOpData[2] := ByteOf(r);
      noOpData[4] := ByteOf(0x21 + r);
      frame := noOpData[..];
    }

    /** A notification from the bike. */
    method CharacteristicChanged(r: Reading, cfg: BikeConfig)
      modifies this`speed, this`distance, this`watt, this`kcal, this`cadence, this`resistance,
               this`fanSpeed, this`firstCharChanged, this`lastPacket, this`packetsReceived
      ensures Metrics() == OnNotification(old(Metrics()), r, cfg, requestResistance)
    {
      packetsReceived := packetsReceived + 1;
      lastPacket := r.frame;
      if |r.frame| != FrameLength {
        return;
      }
      ApplyFrameKind(r, cfg);
      ApplyCommonFields(r, cfg);
    }

    /** The part of a 12-octet frame that depends on its kind. */
    method ApplyFrameKind(r: Reading, cfg: BikeConfig)
      requires |r.frame| == FrameLength
      modifies this`speed, this`distance, this`watt
      ensures Metrics() == OnFrameKind(old(Metrics()), r, cfg)
    {
      if r.frame[1] == SpeedFrame {
        UpdateSpeed(r, cfg);
      } else if r.frame[1] == PowerFrame {
        if SensorDisabled(cfg.powerSensorName) {
          watt := WattOf(r.frame);
        }
      }
    }

    /** The fields every 12-octet frame sets. */
    method ApplyCommonFields(r: Reading, cfg: BikeConfig)
      requires |r.frame| == FrameLength
      modifies this`fanSpeed, this`resistance, this`kcal, this`cadence, this`firstCharChanged
      ensures Metrics() == OnAnyFrame(old(Metrics()), r, cfg, requestResistance)
    {
      ghost var next := OnAnyFrame(Metrics(), r, cfg, requestResistance);
      fanSpeed := 0;
      resistance := requestResistance;
      kcal := KcalOf(r.frame);
      if SensorDisabled(cfg.cadenceSensorName) {
        cadence := r.frame[8] as int;
      }
      firstCharChanged := false;
      assert Metrics() == next;
    }

    method UpdateSpeed(r: Reading, cfg: BikeConfig)
      requires |r.frame| == FrameLength
      modifies this`speed, this`distance
      ensures Metrics() == OnSpeedFrame(old(Metrics()), r, cfg)
    {
      var frameSpeed := SpeedOf(r.frame);
      if !firstCharChanged {
        distance := distance + DistanceStep(frameSpeed, r.msSinceSpeedFrame);
      }
      if !cfg.speedPowerBased {
        speed := frameSpeed;
      } else {
        speed := r.speedFromPower;
      }
    }

    /**
     * The bike's service was discovered: the notify characteristic (which is
     * also written to) is located, the virtual bike is created once, and
     * notifications are enabled.
     */
    method StateChanged(state: ServiceState, notifyCharacteristicFound: bool, virtualDeviceEnabled: bool)
      requires Valid()
      modifies this`channelReady, this`firstVirtualBike, this`virtualBike, this`virtualBikeCreations,
               this`descriptorWrites
      ensures Valid()
      ensures state != ServiceDiscovered ==>
                channelReady == old(channelReady) && descriptorWrites == old(descriptorWrites) &&
                virtualBike == old(virtualBike) && firstVirtualBike == old(firstVirtualBike)
      ensures state == ServiceDiscovered ==>
                && channelReady == notifyCharacteristicFound
                && descriptorWrites == old(descriptorWrites) + [EnableNotification]
                && firstVirtualBike
                && virtualBike == (old(virtualBike) || (!old(firstVirtualBike) && virtualDeviceEnabled))
    {
      if state == ServiceDiscovered {
        channelReady := notifyCharacteristicFound;
        if !firstVirtualBike && !virtualBike {
          if virtualDeviceEnabled {
            virtualBike := true;
            virtualBikeCreations := virtualBikeCreations + 1;
          }
        }
        firstVirtualBike := true;
        descriptorWrites := descriptorWrites + [EnableNotification];
      }
    }

    /** Notifications were enabled: the next tick runs the handshake. */
    method DescriptorWritten()
      modifies this`initRequest, this`connectedSignals
      ensures initRequest && connectedSignals == old(connectedSignals) + 1
    {
      initRequest := true;
      connectedSignals := connectedSignals + 1;
    }

    /** The controller changed state; an unconnected controller is reconnected and must redo the handshake. */
    method ControllerStateChanged(state: ControllerState)
      modifies this`controllerState, this`initDone, this`connectAttempts
      ensures state == UnconnectedState && hasController ==>
                controllerState == ConnectingState && !initDone && connectAttempts == old(connectAttempts) + 1
      ensures !(state == UnconnectedState && hasController) ==>
                controllerState == state && initDone == old(initDone) && connectAttempts == old(connectAttempts)
    {
      controllerState := state;
      if state == UnconnectedState && hasController {
        initDone := false;
        connectAttempts := connectAttempts + 1;
        controllerState := ConnectingState;
      }
    }

    /** `watts()`: the reported power for the current cadence and the stored power. */
    function Watts(): (w: nat)
      reads this
      ensures w == ReportedPower(Metrics().cadence, Metrics().watt)
    {
      if cadence == 0 then 0 else watt
    }
  }
}
