/** The effect of each Sabertooth driver operation on the shared serial port, stated
    on values: a port is an open flag and the log of every byte written to it. Each
    operation maps the old port to the new one and to what it returned or raised.
    The methods of SabertoothDriver are proved to do exactly this. */
module SerialLink {
  import opened SabertoothProtocol

  datatype Port = Port(isOpen: bool, written: seq<Byte>)

  /** A call that returns nothing either completes or raises. */
  datatype Status = Done | Raised(error: Error)

  /** The serial port's own write: it refuses to write while closed. */
  function Write(p: Port, data: seq<Byte>): (r: (Port, Status))
    ensures r.0.isOpen == p.isOpen
    ensures r.1 == Done <==> p.isOpen
    ensures r.1 == Done ==> r.0.written == p.written + data
    ensures r.1.Raised? ==> r.0 == p && r.1.error == PortNotOpen
  {
    if p.isOpen then (p.(written := p.written + data), Done) else (p, Raised(PortNotOpen))
  }

  /** `sendCommand(command, message)` of the driver at `address`. */
  function SendCommand(address: int, command: int, message: int, p: Port): (r: (Port, Status))
    ensures r.0.isOpen == p.isOpen
    ensures r.1 == Done <==> p.isOpen && IsByte(address) && IsByte(command) && IsByte(message)
    ensures r.1 == Done ==> |r.0.written| == |p.written| + 4 && p.written <= r.0.written
    ensures r.1.Raised? ==> r.0 == p
  {
    match EncodeFrame(address, command, message)
    case Err(e) => (p, Raised(e))
    case Ok(frame) => Write(p, frame)
  }

  /** `drive(motorNum, speed)`. */
  function Drive(address: int, motorNum: int, speed: int, p: Port): (r: (Port, Status))
    ensures r.0.isOpen == p.isOpen
    ensures r.1 == Done <==> p.isOpen && IsByte(address) && motorNum in {-1, 0, 1, 2} && Abs(speed) <= 100
    ensures r.1 == Done ==> |r.0.written| == |p.written| + 4 && p.written <= r.0.written
    ensures r.1.Raised? ==> r.0 == p
  {
    match DriveCommand(motorNum, speed)
    case Err(e) => (p, Raised(e))
    case Ok(cmd) => SendCommand(address, cmd.opcode, cmd.magnitude, p)
  }

  /** `driveBoth(speed1, speed2)`: motor 1, then motor 2; an exception from the
      first call skips the second. */
  function DriveBoth(address: int, speed1: int, speed2: int, p: Port): (r: (Port, Status))
    ensures r.0.isOpen == p.isOpen && p.written <= r.0.written
    ensures r.1 == Done <==> p.isOpen && IsByte(address) && Abs(speed1) <= 100 && Abs(speed2) <= 100
    ensures r.1 == Done ==> |r.0.written| == |p.written| + 8
    ensures r.1.Raised? ==> |r.0.written| == |p.written| + (if p.isOpen && IsByte(address) && Abs(speed1) <= 100 then 4 else 0)
  {
    var (p1, s1) := Drive(address, 1, speed1, p);
    if s1.Raised? then (p1, s1) else Drive(address, 2, speed2, p1)
  }

  /** `driveBothSame(speed)`. */
  function DriveBothSame(address: int, speed: int, p: Port): (r: (Port, Status))
    ensures r.0.isOpen == p.isOpen
    ensures r.1 == Done <==> p.isOpen && IsByte(address) && Abs(speed) <= 100
    ensures r.1 == Done ==> |r.0.written| == |p.written| + 8 && p.written <= r.0.written
    ensures r.1.Raised? ==> r.0 == p
  {
    DriveBoth(address, speed, speed, p)
  }

  /** `stop()`: both motors to zero; returns 0 unless an exception propagates. */
  function Stop(address: int, p: Port): (r: (Port, Result<int>))
    ensures r.0.isOpen == p.isOpen
    ensures r.1.Ok? <==> p.isOpen && IsByte(address)
    ensures r.1.Ok? ==> r.1.value == 0 && |r.0.written| == |p.written| + 8 && p.written <= r.0.written
    ensures r.1.Err? ==> r.0 == p
  {
    var (p1, s) := DriveBoth(address, 0, 0, p);
    (p1, if s.Raised? then Err(s.error) else Ok(0))
  }

  /** `setBaudrate(baudrate)`: the rate is looked up before anything is written;
      the configuration frame is followed by one wake byte. */
  function SetBaudrate(address: int, baudrate: int, p: Port): (r: (Port, Status))
    ensures r.0.isOpen == p.isOpen
    ensures r.1 == Done <==> p.isOpen && IsByte(address) && baudrate in {2400, 9600, 19200, 38400, 115200}
    ensures r.1 == Done ==> |r.0.written| == |p.written| + 5 && p.written <= r.0.written && r.0.written[|p.written| + 4] == WAKE
    ensures r.1.Raised? ==> r.0 == p
  {
    match BaudCode(baudrate)
    case Err(e) => (p, Raised(e))
    case Ok(code) =>
      var (p1, s) := SendCommand(address, SET_BAUD_RATE, code, p);
      if s.Raised? then (p1, s) else Write(p1, [WAKE])
  }

  /** `open()`: a closed port is opened and sent two wake bytes; an open port is
      left alone. */
  function Open(p: Port): (r: Port)
    ensures r.isOpen && p.written <= r.written
    ensures |r.written| == |p.written| + (if p.isOpen then 0 else 2)
    ensures forall k :: |p.written| <= k < |r.written| ==> r.written[k] == WAKE
  {
    if p.isOpen then p else Write(Write(p.(isOpen := true), [WAKE]).0, [WAKE]).0
  }

  /** `close()`: closing a closed port does nothing. */
  function Close(p: Port): (r: Port)
    ensures !r.isOpen && r.written == p.written
    ensures Open(r).written == p.written + [WAKE, WAKE]
  {
    p.(isOpen := false)
  }

  /** `text(cmds)`: the ASCII command followed by CR LF. */
  function Text(cmds: seq<Byte>, p: Port): (r: (Port, Status))
    ensures r.0.isOpen == p.isOpen
    ensures r.1 == Done <==> p.isOpen
    ensures r.1 == Done ==> p.written <= r.0.written && |r.0.written| == |p.written| + |cmds| + 2 &&
                            r.0.written[|r.0.written| - 2..] == [13, 10]
    ensures r.1.Raised? ==> r.0 == p
  {
    Write(p, cmds + [13, 10])
  }

  // ---------------------------------------------------------------------------
  // sendCommand

  /** On an open port with byte-sized fields, `sendCommand` appends exactly the
      frame `[address, command, message, (address + command + message) & 127]`. */
  lemma SendCommandAppendsFrame(address: int, command: int, message: int, p: Port)
    requires p.isOpen && IsByte(address) && IsByte(command) && IsByte(message)
    ensures var (p', s) := SendCommand(address, command, message, p);
            s == Done && p'.isOpen &&
            p'.written == p.written + [address, command, message, (address + command + message) % 128] &&
            0 <= p'.written[|p'.written| - 1] <= 127
  {
  }

  /** Otherwise nothing is written: a field outside a byte is reported first,
      a closed port second. */
  lemma SendCommandFailure(address: int, command: int, message: int, p: Port)
    requires !p.isOpen || !(IsByte(address) && IsByte(command) && IsByte(message))
    ensures var (p', s) := SendCommand(address, command, message, p);
            p' == p &&
            s == Raised(if IsByte(address) && IsByte(command) && IsByte(message) then PortNotOpen else ByteOutOfRange)
  {
  }

  /** What the log gains records what was written: the new bytes decode to the
      packet that was sent. */
  lemma SendCommandDecodes(address: int, command: int, message: int, p: Port)
    requires SendCommand(address, command, message, p).1 == Done
    ensures var p' := SendCommand(address, command, message, p).0;
            |p'.written| == |p.written| + 4 &&
            p'.written[..|p.written|] == p.written &&
            DecodeFrame(p'.written[|p.written|..]) == Some(Packet(address, command, message))
  {
    var frame := EncodeFrame(address, command, message).value;
    var p' := SendCommand(address, command, message, p).0;
    assert p'.written == p.written + frame;
    assert p'.written[|p.written|..] == frame;
  }

  // ---------------------------------------------------------------------------
  // drive, driveBoth, driveBothSame, stop

  /** The frame an accepted `drive` call sends. */
  function DriveFrame(address: int, motorNum: int, speed: int): seq<int>
    requires DriveCommand(motorNum, speed).Ok?
  {
    var cmd := DriveCommand(motorNum, speed).value;
    [address, cmd.opcode, cmd.magnitude, Checksum(address, cmd.opcode, cmd.magnitude)]
  }

  /** An accepted `drive` on an open port appends its frame, whose message byte
      is `127 * |speed| div 100`. */
  lemma DriveAppendsFrame(address: int, motorNum: int, speed: int, p: Port)
    requires p.isOpen && IsByte(address) && DriveCommand(motorNum, speed).Ok?
    ensures var (p', s) := Drive(address, motorNum, speed, p);
            s == Done && p'.isOpen &&
            p'.written == p.written + DriveFrame(address, motorNum, speed) &&
            DriveFrame(address, motorNum, speed)[2] == 127 * Abs(speed) / 100
  {
    var cmd := DriveCommand(motorNum, speed).value;
    SendCommandAppendsFrame(address, cmd.opcode, cmd.magnitude, p);
  }

  /** A motor number outside {-1, 0, 1, 2} or a speed beyond 100 in either
      direction raises before anything is written. */
  lemma DriveRejects(address: int, motorNum: int, speed: int, p: Port)
    requires motorNum !in {-1, 0, 1, 2} || Abs(speed) > 100
    ensures var (p', s) := Drive(address, motorNum, speed, p);
            p' == p &&
            s == Raised(if motorNum !in {-1, 0, 1, 2} then InvalidMotorNumber(motorNum)
                        else InvalidSpeed(Abs(speed)))
  {
  }

  /** With both speeds accepted, `driveBoth` appends motor 1's frame and then
      motor 2's frame. */
  lemma DriveBothAppendsInOrder(address: int, speed1: int, speed2: int, p: Port)
    requires p.isOpen && IsByte(address)
    requires Abs(speed1) <= 100 && Abs(speed2) <= 100
    ensures var (p', s) := DriveBoth(address, speed1, speed2, p);
            s == Done && p'.isOpen &&
            p'.written == p.written + DriveFrame(address, 1, speed1) + DriveFrame(address, 2, speed2)
  {
    DriveAppendsFrame(address, 1, speed1, p);
    var p1 := Drive(address, 1, speed1, p).0;
    DriveAppendsFrame(address, 2, speed2, p1);
  }

  /** An invalid second speed raises after motor 1's frame has been written, and
      that frame stays in the log. */
  lemma DriveBothKeepsFirstFrame(address: int, speed1: int, speed2: int, p: Port)
    requires p.isOpen && IsByte(address)
    requires Abs(speed1) <= 100 && Abs(speed2) > 100
    ensures var (p', s) := DriveBoth(address, speed1, speed2, p);
            s == Raised(InvalidSpeed(Abs(speed2))) &&
            p'.written == p.written + DriveFrame(address, 1, speed1)
  {
    DriveAppendsFrame(address, 1, speed1, p);
    DriveRejects(address, 2, speed2, Drive(address, 1, speed1, p).0);
  }

  /** An invalid first speed raises before anything is written. */
  lemma DriveBothRejectsFirst(address: int, speed1: int, speed2: int, p: Port)
    requires Abs(speed1) > 100
    ensures DriveBoth(address, speed1, speed2, p) == (p, Raised(InvalidSpeed(Abs(speed1))))
  {
    DriveRejects(address, 1, speed1, p);
  }

  /** `driveBothSame(s)` drives both motors at the same signed speed s. */
  lemma DriveBothSameFrames(address: int, speed: int, p: Port)
    requires p.isOpen && IsByte(address) && Abs(speed) <= 100
    ensures var (p', s) := DriveBothSame(address, speed, p);
            s == Done &&
            p'.written == p.written + DriveFrame(address, 1, speed) + DriveFrame(address, 2, speed) &&
            DecodeDrive(DriveCommand(1, speed).value) == Some((1, speed)) &&
            DecodeDrive(DriveCommand(2, speed).value) == Some((2, speed))
  {
    DriveBothAppendsInOrder(address, speed, speed, p);
    DriveRoundTrip(1, speed);
    DriveRoundTrip(2, speed);
  }

  /** `stop` appends exactly the two zero-speed frames and returns 0. */
  lemma StopFrames(address: int, p: Port)
    requires p.isOpen && IsByte(address)
    ensures var (p', r) := Stop(address, p);
            r == Ok(0) && p'.isOpen &&
            p'.written == p.written + [address, FORWARD_1, 0, address % 128,
                                       address, FORWARD_2, 0, (address + 4) % 128]
  {
    DriveBothAppendsInOrder(address, 0, 0, p);
  }

  /** On a closed port, or for an address that is not a byte, `stop` raises and
      writes nothing. */
  lemma StopFailure(address: int, p: Port)
    requires !p.isOpen || !IsByte(address)
    ensures Stop(address, p) == (p, Err(if IsByte(address) then PortNotOpen else ByteOutOfRange))
  {
  }

  // ---------------------------------------------------------------------------
  // setBaudrate

  /** An accepted rate appends the frame for command 15 with its code, then one
      wake byte 0xAA. */
  lemma SetBaudrateAccepted(address: int, baudrate: int, p: Port)
    requires p.isOpen && IsByte(address)
    requires baudrate in {2400, 9600, 19200, 38400, 115200}
    ensures var code := BaudCode(baudrate).value;
            var (p', s) := SetBaudrate(address, baudrate, p);
            s == Done && p'.isOpen && 1 <= code <= 5 &&
            p'.written == p.written + [address, 15, code, (address + 15 + code) % 128, 0xAA]
  {
    var code := BaudCode(baudrate).value;
    SendCommandAppendsFrame(address, SET_BAUD_RATE, code, p);
  }

  /** Any other rate raises before any byte is written. */
  lemma SetBaudrateRejected(address: int, baudrate: int, p: Port)
    requires baudrate !in {2400, 9600, 19200, 38400, 115200}
    ensures SetBaudrate(address, baudrate, p) == (p, Raised(InvalidBaudrate(baudrate)))
  {
  }

  // ---------------------------------------------------------------------------
  // open, close, text

  /** Opening leaves the port open; it appends two wake bytes to a closed port and
      nothing to an open one, so opening twice is opening once. */
  lemma OpenIdempotent(p: Port)
    ensures Open(p).isOpen
    ensures Open(p).written == p.written + (if p.isOpen then [] else [0xAA, 0xAA])
    ensures Open(Open(p)) == Open(p)
  {
  }

  /** Closing keeps the log, and every later write raises until the port is
      opened again, which sends the wake bytes once more. */
  lemma CloseStopsWrites(p: Port, data: seq<Byte>)
    ensures Close(p).written == p.written && !Close(p).isOpen
    ensures Write(Close(p), data) == (Close(p), Raised(PortNotOpen))
    ensures Open(Close(p)).written == p.written + [0xAA, 0xAA]
  {
  }

  /** `text` appends the command bytes followed by CR LF. */
  lemma TextAppends(cmds: seq<Byte>, p: Port)
    requires p.isOpen
    ensures var (p', s) := Text(cmds, p);
            s == Done && p'.written == p.written + cmds + [13, 10]
  {
  }
}
