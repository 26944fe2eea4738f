/**
 * The serial (RFCOMM) treadmill adapter (src/toorxtreadmill.cpp).
 *
 * The treadmill answers polls with 17-octet status frames; a 13-octet frame
 * asks for a re-initialisation. A one-second tick polls the treadmill once
 * the serial link is initialised, and walks a five-step start sequence after
 * a start request. Socket writes are modelled as frames appended to an
 * output log; the socket's reads arrive as a sequence of `readAll` results.
 */
module ToorxTreadmill {
  import opened CTypes
  import opened Strings
  import opened Wrappers
  import opened Seqs

  const StatusFrameLength: nat := 17
  const ReinitFrameLength: nat := 13

  /** The device name prefix the adapter accepts. */
  const DeviceNamePrefix: string := "TRX ROUTE KEY"

  // ---------------------------------------------------------------------
  // Frames written to the treadmill
  // ---------------------------------------------------------------------

  const Init1: Bytes := [0x55, 0x0c, 0x01, 0xff, 0x55, 0xbb, 0x01, 0xff, 0x55, 0x24, 0x01, 0xff]
  const Init2: Bytes := [
    0x55, 0x25, 0x01, 0xff, 0x55, 0x26, 0x01, 0xff, 0x55, 0x27, 0x01, 0xff, 0x55, 0x02, 0x01, 0xff,
    0x55, 0x03, 0x01, 0xff, 0x55, 0x04, 0x01, 0xff, 0x55, 0x06, 0x01, 0xff, 0x55, 0x1f, 0x01, 0xff,
    0x55, 0xa0, 0x01, 0xff, 0x55, 0xb0, 0x01, 0xff, 0x55, 0xb2, 0x01, 0xff, 0x55, 0xb3, 0x01, 0xff,
    0x55, 0xb4, 0x01, 0xff, 0x55, 0xb5, 0x01, 0xff, 0x55, 0xb6, 0x01, 0xff, 0x55, 0xb7, 0x01, 0xff,
    0x55, 0xb8, 0x01, 0xff, 0x55, 0xb9, 0x01, 0xff, 0x55, 0xba, 0x01, 0xff, 0x55, 0x0b, 0x01, 0xff,
    0x55, 0x18, 0x01, 0xff, 0x55, 0x19, 0x01, 0xff, 0x55, 0x1a, 0x01, 0xff, 0x55, 0x1b, 0x01, 0xff]
  const Init3: Bytes := [0x55, 0x17, 0x01, 0x01, 0x55, 0xb5, 0x01, 0xff]
  const Poll: Bytes := [0x55, 0x17, 0x01, 0x01]
  const Start: Bytes := [0x55, 0x0a, 0x01, 0x02]

  /** The frame each phase of the start sequence writes. */
  function PhaseFrame(phase: int): (f: Bytes)
    requires 0 <= phase <= 4
    ensures |f| >= 4 && f[0] == 0x55
  {
    match phase
    case 0 => [0x55, 0x01, 0x06, 0x1d, 0x00, 0x3c, 0x00, 0xaa, 0x00]
    case 1 => [0x55, 0x15, 0x01, 0x00]
    case 2 => [0x55, 0x0f, 0x02, 0x01, 0x00]
    case 3 => [0x55, 0x11, 0x01, 0x01]
    case _ => [0x55, 0x08, 0x01, 0x01]
  }

  // ---------------------------------------------------------------------
  // Field reads
  // ---------------------------------------------------------------------

  /**
   * The big-endian reads `(c_hi << 8) | c_lo` stored in a `uint16_t`: both
   * `char`s are promoted with their sign, and nothing masks the low one.
   */
  function ReadBE16(hi: byte, lo: byte): bv32
  {
    ((CharToU32(hi) << 8) | CharToU32(lo)) & 0xFFFF
  }

  /** A low octet of 0x80 or more fills the high octet of the result with ones. */
  lemma ReadBE16Octets(hi: byte, lo: byte)
    ensures ReadBE16(hi, lo) == (lo as bv32) | (((if lo < 0x80 then hi else 0xFF) as bv32) << 8)
  {
  }

  /** The read is the big-endian value exactly when the low octet is below 0x80 or the high one is 0xFF. */
  lemma ReadBE16Exact(hi: byte, lo: byte)
    ensures ReadBE16(hi, lo) as int == BE16(hi, lo) <==> lo < 0x80 || hi == 0xFF
  {
    ReadBE16Octets(hi, lo);
    Compose16Value(lo, if lo < 0x80 then hi else 0xFF);
  }

  /** A low octet below 0x80 reads as the big-endian value. */
  lemma ReadBE16Low(hi: byte, lo: byte)
    requires lo < 0x80
    ensures ReadBE16(hi, lo) as int == BE16(hi, lo)
  {
    ReadBE16Exact(hi, lo);
  }

  /** What a status frame carries. */
  datatype TreadmillMetrics = TreadmillMetrics(
    elapsed: nat,
    distance: nat,
    kcal: nat,
    speed: real,
    inclination: nat,
    heart: nat)

  /** Speed in km/h: whole km/h at octet 13 (unsigned) plus hundredths at octet 14 (a signed `char`). */
  function SpeedOf(frame: Bytes): real
    requires |frame| == StatusFrameLength
  {
    (frame[13] as int * 100 + CharValue(frame[14])) as real / 100.0
  }

  /** 0x0A, 0x32 reads as 10.50 km/h. */
  lemma SpeedExample()
    ensures SpeedOf([0, 0, 0, 0, 0, 0, 0, 0, 0, 0, 0, 0, 0, 0x0A, 0x32, 0, 0]) == 10.5
  {
  }

  /** The metrics a 17-octet status frame sets, none of them kept from before. */
  function DecodeStatus(frame: Bytes): TreadmillMetrics
    requires |frame| == StatusFrameLength
  {
    TreadmillMetrics(
      ReadBE16(frame[7], frame[8]) as int,
      ReadBE16(frame[9], frame[10]) as int,
      ReadBE16(frame[11], frame[12]) as int,
      SpeedOf(frame),
      frame[15] as int,
      frame[16] as int)
  }

  /**
   * Elapsed time, distance and calories are big-endian at octets 7..8, 9..10
   * and 11..12 when their low octets are below 0x80; inclination and heart
   * rate are octets 15 and 16; the speed is whole units at octet 13 plus
   * hundredths at octet 14 when that octet is below 0x80.
   */
  lemma DecodeStatusFields(frame: Bytes)
    requires |frame| == StatusFrameLength
    requires frame[8] < 0x80 && frame[10] < 0x80 && frame[12] < 0x80 && frame[14] < 0x80
    ensures DecodeStatus(frame)
         == TreadmillMetrics(BE16(frame[7], frame[8]), BE16(frame[9], frame[10]), BE16(frame[11], frame[12]),
                             (frame[13] as int * 100 + frame[14] as int) as real / 100.0,
                             frame[15] as int, frame[16] as int)
  {
    ReadBE16Low(frame[7], frame[8]);
    ReadBE16Low(frame[9], frame[10]);
    ReadBE16Low(frame[11], frame[12]);
    SpeedExact(frame);
  }

  /** Hundredths below 0x80 add their unsigned value. */
  lemma SpeedExact(frame: Bytes)
    requires |frame| == StatusFrameLength && frame[14] < 0x80
    ensures SpeedOf(frame) == (frame[13] as int * 100 + frame[14] as int) as real / 100.0
  {
    assert CharValue(frame[14]) == frame[14] as int;
  }

  // ---------------------------------------------------------------------
  // Reading the socket
  // ---------------------------------------------------------------------

  /** The part of the state a `readAll` result can change. */
  datatype LinkState = LinkState(metrics: TreadmillMetrics, writes: seq<Bytes>)

  /** One `readAll` result, dispatched on its length. */
  function Ingest(s: LinkState, line: Bytes): LinkState
  {
    if |line| == StatusFrameLength then s.(metrics := DecodeStatus(line))
    else if |line| == ReinitFrameLength then s.(writes := s.writes + [Init3])
    else s
  }

  /** A run of `readAll` results, in order. */
  function IngestAll(s: LinkState, lines: seq<Bytes>): LinkState
  {
    if lines == [] then s else Ingest(IngestAll(s, lines[..|lines| - 1]), lines[|lines| - 1])
  }

  /** The last 17-octet read of a run, if any. */
  function LastStatus(lines: seq<Bytes>): (f: Option<Bytes>)
    ensures f.Some? ==> f.value in lines && |f.value| == StatusFrameLength
    ensures f.None? ==> forall i :: 0 <= i < |lines| ==> |lines[i]| != StatusFrameLength
  {
    if lines == [] then None
    else if |lines[|lines| - 1]| == StatusFrameLength then Some(lines[|lines| - 1])
    else LastStatus(lines[..|lines| - 1])
  }

  /** The number of 13-octet reads in a run. */
  function ReinitCount(lines: seq<Bytes>): nat
  {
    if lines == [] then 0
    else ReinitCount(lines[..|lines| - 1]) + (if |lines[|lines| - 1]| == ReinitFrameLength then 1 else 0)
  }

  /**
   * After a run of reads the metrics are those of the last status frame, or
   * unchanged when there was none; the only frames written are one `init3`
   * per 13-octet read.
   */
  lemma {:induction false} IngestAllEffect(s: LinkState, lines: seq<Bytes>)
    ensures IngestAll(s, lines).metrics
         == match LastStatus(lines) case Some(f) => DecodeStatus(f) case None => s.metrics
    ensures |IngestAll(s, lines).writes| == |s.writes| + ReinitCount(lines)
    ensures IngestAll(s, lines).writes[..|s.writes|] == s.writes
    ensures forall i :: |s.writes| <= i < |IngestAll(s, lines).writes| ==> IngestAll(s, lines).writes[i] == Init3
  {
    if lines != [] {
      IngestAllEffect(s, lines[..|lines| - 1]);
    }
  }

  // ---------------------------------------------------------------------
  // The tick
  // ---------------------------------------------------------------------

  const NoRequest: int8 := -1

  /** What the tick reads and writes. `startPhase` is -1 when no start sequence runs. */
  datatype TickState = TickState(
    initDone: bool,
    virtualTreadmill: bool,
    requestStart: int8,
    startPhase: int,
    writes: seq<Bytes>,
    tapeStartedSignals: nat)

  predicate ValidPhase(s: TickState)
  {
    -1 <= s.startPhase <= 4
  }

  /** One tick, with the virtual-device setting. */
  function Tick(s: TickState, virtualDeviceEnabled: bool): (r: TickState)
    requires ValidPhase(s)
    ensures ValidPhase(r) && r.initDone == s.initDone
  {
    if !s.initDone then s
    else
      var s1 := s.(virtualTreadmill := s.virtualTreadmill || virtualDeviceEnabled, writes := s.writes + [Poll]);
      if s1.requestStart != NoRequest then
        s1.(writes := s1.writes + [Start], startPhase := 0, requestStart := NoRequest,
            tapeStartedSignals := s1.tapeStartedSignals + 1)
      else if s1.startPhase != -1 then
        s1.(writes := s1.writes + [PhaseFrame(s1.startPhase)],
            startPhase := if s1.startPhase == 4 then -1 else s1.startPhase + 1)
      else s1
  }

  /** Before the serial link is initialised the tick does nothing at all. */
  lemma TickWaitsForInit(s: TickState, enabled: bool)
    requires ValidPhase(s) && !s.initDone
    ensures Tick(s, enabled) == s
  {
  }

  /**
   * An initialised tick keeps the phase valid, writes the poll frame first,
   * and a pending start request takes precedence over a running sequence,
   * restarting it at phase 0.
   */
  lemma TickPollsAndStarts(s: TickState, enabled: bool)
    requires ValidPhase(s) && s.initDone
    ensures ValidPhase(Tick(s, enabled))
    ensures |Tick(s, enabled).writes| > |s.writes| && Tick(s, enabled).writes[|s.writes|] == Poll
    ensures s.requestStart != NoRequest ==>
              && Tick(s, enabled).writes == s.writes + [Poll, Start]
              && Tick(s, enabled).startPhase == 0
              && Tick(s, enabled).requestStart == NoRequest
              && Tick(s, enabled).tapeStartedSignals == s.tapeStartedSignals + 1
    ensures s.requestStart == NoRequest && s.startPhase == -1 ==>
              Tick(s, enabled).writes == s.writes + [Poll] && Tick(s, enabled).startPhase == -1
  {
  }

  /** `n` ticks with no new start request. */
  function Ticks(s: TickState, enabled: bool, n: nat): (r: TickState)
    requires ValidPhase(s)
    ensures ValidPhase(r)
    ensures r.requestStart == (if n == 0 then s.requestStart else if s.initDone then NoRequest else s.requestStart)
    decreases n
  {
    if n == 0 then s else Ticks(Tick(s, enabled), enabled, n - 1)
  }

  /**
   * A start request, once initialised, yields six ticks writing the start
   * frame and then the five phase frames in order, each after its poll;
   * afterwards no sequence runs.
   */
  lemma StartSequence(s: TickState, enabled: bool)
    requires ValidPhase(s) && s.initDone && s.requestStart != NoRequest
    ensures Ticks(s, enabled, 6).writes
         == s.writes + [Poll, Start] + [Poll, PhaseFrame(0)] + [Poll, PhaseFrame(1)] + [Poll, PhaseFrame(2)]
                     + [Poll, PhaseFrame(3)] + [Poll, PhaseFrame(4)]
    ensures Ticks(s, enabled, 6).startPhase == -1
    ensures Ticks(s, enabled, 6).tapeStartedSignals == s.tapeStartedSignals + 1
  {
    var t1 := Tick(s, enabled);
    var t2 := Tick(t1, enabled);
    var t3 := Tick(t2, enabled);
    var t4 := Tick(t3, enabled);
    var t5 := Tick(t4, enabled);
    var t6 := Tick(t5, enabled);
    PhaseTick(t1, enabled);
    PhaseTick(t2, enabled);
    PhaseTick(t3, enabled);
    PhaseTick(t4, enabled);
    PhaseTick(t5, enabled);
    assert Ticks(s, enabled, 6) == t6 by {
      assert Ticks(t5, enabled, 1) == t6;
      assert Ticks(t4, enabled, 2) == Ticks(t5, enabled, 1);
      assert Ticks(t3, enabled, 3) == Ticks(t4, enabled, 2);
      assert Ticks(t2, enabled, 4) == Ticks(t3, enabled, 3);
      assert Ticks(t1, enabled, 5) == Ticks(t2, enabled, 4);
    }
  }

  /** A tick in phase `k` of the start sequence polls, writes that phase's frame, and moves on. */
  lemma PhaseTick(t: TickState, enabled: bool)
    requires ValidPhase(t) && t.initDone && t.requestStart == NoRequest && t.startPhase != -1
    ensures Tick(t, enabled).writes == t.writes + [Poll, PhaseFrame(t.startPhase)]
    ensures Tick(t, enabled).startPhase == if t.startPhase == 4 then -1 else t.startPhase + 1
    ensures Tick(t, enabled).tapeStartedSignals == t.tapeStartedSignals
    ensures Tick(t, enabled).requestStart == NoRequest
  {
    AppendAssociative(t.writes, [Poll], [PhaseFrame(t.startPhase)]);
  }

  // ---------------------------------------------------------------------
  // Service discovery
  // ---------------------------------------------------------------------

  /** A Bluetooth classic service record: the device it belongs to and its name. */
  datatype ServiceInfo = ServiceInfo(address: string, name: string)

  /** A serial-port service of the chosen treadmill. */
  predicate IsSerialPort(svc: ServiceInfo, address: string)
  {
    svc.address == address && (StartsWith(svc.name, "SerialPort") || StartsWith(svc.name, "Serial Port"))
  }

  /** The service a socket is opened to after one discovery report. */
  function OnService(socket: Option<ServiceInfo>, svc: ServiceInfo, address: string): Option<ServiceInfo>
  {
    if socket.Some? then socket
    else if IsSerialPort(svc, address) then Some(svc)
    else None
  }

  /** The socket after a run of discovery reports. */
  function OnServices(socket: Option<ServiceInfo>, svcs: seq<ServiceInfo>, address: string): Option<ServiceInfo>
    decreases |svcs|
  {
    if svcs == [] then socket else OnServices(OnService(socket, svcs[0], address), svcs[1..], address)
  }

  /** The first serial-port service of the treadmill in a run of reports. */
  function FirstSerialPort(svcs: seq<ServiceInfo>, address: string): (r: Option<ServiceInfo>)
    ensures r.Some? ==> r.value in svcs && IsSerialPort(r.value, address)
    ensures r.None? ==> forall i :: 0 <= i < |svcs| ==> !IsSerialPort(svcs[i], address)
    decreases |svcs|
  {
    if svcs == [] then None
    else if IsSerialPort(svcs[0], address) then Some(svcs[0])
    else FirstSerialPort(svcs[1..], address)
  }

  /**
   * The treadmill exposes several serial ports: the socket is opened to the
   * first one reported, and an open socket is never replaced.
   */
  lemma {:induction false} OnlyFirstSerialPort(socket: Option<ServiceInfo>, svcs: seq<ServiceInfo>, address: string)
    ensures socket.Some? ==> OnServices(socket, svcs, address) == socket
    ensures socket.None? ==> OnServices(socket, svcs, address) == FirstSerialPort(svcs, address)
    decreases |svcs|
  {
    if svcs != [] {
      OnlyFirstSerialPort(OnService(socket, svcs[0], address), svcs[1..], address);
    }
  }

  // ---------------------------------------------------------------------
  // The adapter object
  // ---------------------------------------------------------------------

  class Treadmill {
    var deviceAddress: Option<string>
    var socket: Option<ServiceInfo>
    var initDone: bool
    var virtualTreadmill: bool
    var virtualTreadmillCreations: nat
    var requestStart: int8
    /** The function-local `static` of the tick: -1, or the next phase of the start sequence. */
    var startPhase: int

    var elapsed: nat
    var distance: nat
    var kcal: nat
    var speed: real
    var inclination: nat
    var heart: nat

    var writes: seq<Bytes>
    var tapeStartedSignals: nat
    var connectedSignals: nat

    ghost predicate Valid()
      reads this
    {
      && -1 <= startPhase <= 4
      && virtualTreadmillCreations == (if virtualTreadmill then 1 else 0)
    }

    function Metrics(): TreadmillMetrics
      reads this
    {
      TreadmillMetrics(elapsed, distance, kcal, speed, inclination, heart)
    }

    function Link(): LinkState
      reads this
    {
      LinkState(Metrics(), writes)
    }

    function TickView(): TickState
      reads this
    {
      TickState(initDone, virtualTreadmill, requestStart, startPhase, writes, tapeStartedSignals)
    }

    constructor ()
      ensures Valid()
      ensures deviceAddress == None && socket == None && !initDone && !virtualTreadmill
      ensures requestStart == NoRequest && startPhase == -1 && writes == []
    {
      deviceAddress, socket := None, None;
      initDone, virtualTreadmill, virtualTreadmillCreations := false, false, 0;
      requestStart, startPhase := NoRequest, -1;
      elapsed, distance, kcal, speed, inclination, heart := 0, 0, 0, 0.0, 0, 0;
      writes := [];
      tapeStartedSignals, connectedSignals := 0, 0;
    }

    /** A scanned device: only a "TRX ROUTE KEY" is taken, and its services are then discovered. */
    method DeviceDiscovered(name: string, address: string)
      modifies this`deviceAddress
      ensures deviceAddress == if StartsWith(name, DeviceNamePrefix) then Some(address) else old(deviceAddress)
    {
      if StartsWith(name, DeviceNamePrefix) {
        deviceAddress := Some(address);
      }
    }

    /** A discovered service: the first serial port of the treadmill gets the socket. */
    method ServiceDiscovered(svc: ServiceInfo)
      requires deviceAddress.Some?
      modifies this`socket
      ensures socket == OnService(old(socket), svc, deviceAddress.value)
    {
      if socket.Some? {
        return;
      }
      if svc.address == deviceAddress.value {
        if StartsWith(svc.name, "SerialPort") || StartsWith(svc.name, "Serial Port") {
          socket := Some(svc);
        }
      }
    }

    /** The serial link is up: both init blocks are written and polling may begin. */
    method RfCommConnected()
      modifies this`writes, this`initDone, this`connectedSignals
      ensures writes == old(writes) + [Init1, Init2] && initDone
      ensures connectedSignals == old(connectedSignals) + 1
    {
      writes := writes + [Init1];
      writes := writes + [Init2];
      initDone := true;
      connectedSignals := connectedSignals + 1;
    }

    /** The socket has data: each `readAll` result is dispatched on its length. */
    method ReadSocket(lines: seq<Bytes>)
      modifies this`elapsed, this`distance, this`kcal, this`speed, this`inclination, this`heart, this`writes
      ensures socket.None? ==> Link() == old(Link())
      ensures socket.Some? ==> Link() == IngestAll(old(Link()), lines)
    {
      if socket.None? {
        return;
      }
      ghost var link0 := Link();
      var i := 0;
      while i < |lines|
        invariant 0 <= i <= |lines|
        invariant Link() == IngestAll(link0, lines[..i])
      {
        assert lines[..i + 1][..i] == lines[..i];
        IngestLine(lines[i]);
        i := i + 1;
      }
      assert lines[..i] == lines;
    }

    /** One `readAll` result: a status frame sets the metrics, a re-initialisation frame asks for `init3`. */
    method IngestLine(line: Bytes)
      modifies this`elapsed, this`distance, this`kcal, this`speed, this`inclination, this`heart, this`writes
      ensures Link() == Ingest(old(Link()), line)
    {
      if |line| == StatusFrameLength {
        var m := DecodeStatus(line);
        elapsed, distance, kcal := m.elapsed, m.distance, m.kcal;
        speed, inclination, heart := m.speed, m.inclination, m.heart;
      } else if |line| == ReinitFrameLength {
        writes := writes + [Init3];
      }
    }

    /** The one-second tick. */
    method Update(virtualDeviceEnabled: bool)
      requires Valid()
      modifies this`virtualTreadmill, this`virtualTreadmillCreations, this`writes, this`requestStart,
               this`startPhase, this`tapeStartedSignals
      ensures Valid()
      ensures TickView() == Tick(old(TickView()), virtualDeviceEnabled)
    {
      if !initDone {
        return;
      }
      if !virtualTreadmill {
        if virtualDeviceEnabled {
          virtualTreadmill := true;
          virtualTreadmillCreations := virtualTreadmillCreations + 1;
        }
      }
      writes := writes + [Poll];
      if requestStart != NoRequest {
        writes := writes + [Start];
        startPhase := 0;
        requestStart := NoRequest;
        tapeStartedSignals := tapeStartedSignals + 1;
      } else if startPhase != -1 {
        writes := writes + [PhaseFrame(startPhase)];
        if startPhase == 4 {
          startPhase := -1;
        } else {
          startPhase := startPhase + 1;
        }
      }
    }
  }
}
