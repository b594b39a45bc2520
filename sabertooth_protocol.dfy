/** The Sabertooth packetized-serial protocol (Dimension Engineering): the four-byte
    frame `[address, command, message, checksum]`, the motor opcode table, the speed
    scaling and the baud-rate code table. Everything here is pure; the serial port
    and the driver object are in SerialLink and SabertoothDriver. */
module SabertoothProtocol {

  /** A value that `bytes(bytearray(...))` accepts. */
  type Byte = x: int | 0 <= x < 256

  // Command bytes of the packetized serial mode.
  const FORWARD_1: int := 0x00
  const REVERSE_1: int := 0x01
  const FORWARD_2: int := 0x04
  const REVERSE_2: int := 0x05
  const FORWARD_MIXED: int := 0x08
  const REVERSE_MIXED: int := 0x09
  const RIGHT_MIXED: int := 0x0A
  const LEFT_MIXED: int := 0x0B
  const RAMP: int := 0x10
  /** The command that changes the driver's baud rate. */
  const SET_BAUD_RATE: int := 15
  /** The byte the driver uses to detect the baud rate. */
  const WAKE: Byte := 0xAA

  /** The exceptions the driver raises. */
  datatype Error =
    | InvalidMotorNumber(motorNum: int)
    | InvalidSpeed(speed: int)
    | InvalidBaudrate(baudrate: int)
    | ByteOutOfRange      // bytearray refuses a value outside [0, 255]
    | PortNotOpen         // the serial port refuses to write while closed

  datatype Result<+T> = Ok(value: T) | Err(error: Error)

  datatype Option<+T> = None | Some(value: T)

  predicate IsByte(x: int) { 0 <= x < 256 }

  function Abs(x: int): int { if x < 0 then -x else x }

  /** The checksum `(address + command + message) & 127`. Python masks the two's
      complement of an unbounded integer, which is the non-negative remainder
      modulo 128 for every integer, negative ones included. */
  function Checksum(address: int, command: int, message: int): (s: int)
    ensures 0 <= s < 128
    ensures (address + command + message - s) % 128 == 0
  {
    (address + command + message) % 128
  }

  /** The three fields a frame carries before its checksum. */
  datatype Packet = Packet(address: int, command: int, message: int)

  /** The bytes `sendCommand` hands to the port, or the error raised when one of
      the fields is not a byte (the checksum always is). */
  function EncodeFrame(address: int, command: int, message: int): (r: Result<seq<Byte>>)
    ensures r.Ok? <==> IsByte(address) && IsByte(command) && IsByte(message)
    ensures r.Err? ==> r.error == ByteOutOfRange
    ensures r.Ok? ==> |r.value| == 4 && r.value[3] < 128
    ensures r.Ok? ==> DecodeFrame(r.value) == Some(Packet(address, command, message))
  {
    var checksum := Checksum(address, command, message);
    if IsByte(address) && IsByte(command) && IsByte(message) then
      Ok([address, command, message, checksum])
    else
      Err(ByteOutOfRange)
  }

  /** What the driver does on receipt of four bytes: accept them when the
      checksum matches, otherwise ignore them. */
  function DecodeFrame(frame: seq<Byte>): Option<Packet>
  {
    if |frame| == 4 && frame[3] == Checksum(frame[0], frame[1], frame[2]) then
      Some(Packet(frame[0], frame[1], frame[2]))
    else
      None
  }

  /** Every frame the driver accepts is the encoding of what it decodes to. */
  lemma DecodeThenEncode(frame: seq<Byte>)
    requires DecodeFrame(frame).Some?
    ensures var p := DecodeFrame(frame).value;
            EncodeFrame(p.address, p.command, p.message) == Ok(frame)
  {
    var p := DecodeFrame(frame).value;
    assert [p.address, p.command, p.message, Checksum(p.address, p.command, p.message)] == frame;
  }

  /** Python list indexing `s[i]`: a negative index counts from the end, any other
      index out of range raises IndexError (None here). */
  function PyIndex<T>(s: seq<T>, i: int): (r: Option<T>)
    ensures r.Some? <==> -|s| <= i < |s|
    ensures r.Some? ==> r.value == s[i % |s|]
  {
    if 0 <= i < |s| then Some(s[i])
    else if -|s| <= i < 0 then Some(s[|s| + i])
    else None
  }

  /** The list `[FORWARD_1, FORWARD_2]` that `drive` indexes with `motorNum - 1`. */
  const MotorCommands: seq<int> := [FORWARD_1, FORWARD_2]

  /** The motor a `motorNum` accepted by `drive` ends up driving: Python's
      negative indexing sends -1 to motor 1 and 0 to motor 2. */
  function EffectiveMotor(motorNum: int): int
  {
    if motorNum == -1 then 1 else if motorNum == 0 then 2 else motorNum
  }

  /** The forward opcode `cmds[motorNum - 1]`, or the error `drive` raises. */
  function MotorOpcode(motorNum: int): (r: Result<int>)
    ensures r.Ok? <==> motorNum in {-1, 0, 1, 2}
    ensures r.Err? ==> r.error == InvalidMotorNumber(motorNum)
    ensures r.Ok? && EffectiveMotor(motorNum) == 1 ==> r.value == FORWARD_1
    ensures r.Ok? && EffectiveMotor(motorNum) == 2 ==> r.value == FORWARD_2
  {
    match PyIndex(MotorCommands, motorNum - 1)
    case None => Err(InvalidMotorNumber(motorNum))
    case Some(c) => Ok(c)
  }

  /** The message byte `int(127 * speed / 100)` for a speed already made
      non-negative: 127 * speed / 100 rounded down. */
  function Magnitude(speed: int): (m: int)
    requires 0 <= speed <= 100
    ensures 0 <= m <= 127
    ensures 100 * m <= 127 * speed < 100 * (m + 1)
    ensures speed == 0 ==> m == 0
    ensures speed == 100 ==> m == 127
  {
    127 * speed / 100
  }

  /** Scaling by 127/100 loses no information: a larger speed always gives a
      larger magnitude. */
  lemma MagnitudeStrictlyIncreasing(s1: int, s2: int)
    requires 0 <= s1 < s2 <= 100
    ensures Magnitude(s1) < Magnitude(s2)
  {
  }

  /** The opcode and message byte of one `drive` call. */
  datatype MotorCommand = MotorCommand(opcode: int, magnitude: int)

  /** What `drive(motorNum, speed)` sends, or what it raises. The motor number is
      checked first; the speed is checked after it has been negated, so a speed
      below -100 is reported by its absolute value. */
  function DriveCommand(motorNum: int, speed: int): (r: Result<MotorCommand>)
    ensures r.Ok? <==> motorNum in {-1, 0, 1, 2} && -100 <= speed <= 100
    ensures motorNum !in {-1, 0, 1, 2} ==> r == Err(InvalidMotorNumber(motorNum))
    ensures motorNum in {-1, 0, 1, 2} && Abs(speed) > 100 ==> r == Err(InvalidSpeed(Abs(speed)))
    ensures r.Ok? && EffectiveMotor(motorNum) == 1 ==>
              r.value.opcode == (if speed < 0 then REVERSE_1 else FORWARD_1)
    ensures r.Ok? && EffectiveMotor(motorNum) == 2 ==>
              r.value.opcode == (if speed < 0 then REVERSE_2 else FORWARD_2)
    ensures r.Ok? ==> 0 <= r.value.magnitude <= 127
    ensures r.Ok? && speed == 0 ==> r.value.magnitude == 0
    ensures r.Ok? && Abs(speed) == 100 ==> r.value.magnitude == 127
  {
    match MotorOpcode(motorNum)
    case Err(e) => Err(e)
    case Ok(base) =>
      var (opcode, speed') := if speed < 0 then (base + 1, -speed) else (base, speed);
      if speed' > 100 then Err(InvalidSpeed(speed'))
      else Ok(MotorCommand(opcode, Magnitude(speed')))
  }

  /** The speed a magnitude byte stands for: the least percentage that scales to it. */
  function SpeedOf(magnitude: int): int
  {
    (100 * magnitude + 126) / 127
  }

  /** Reads a drive command back as (motor, signed speed); None for anything that
      is not a per-motor drive command. */
  function DecodeDrive(cmd: MotorCommand): Option<(int, int)>
  {
    if cmd.opcode in {FORWARD_1, REVERSE_1, FORWARD_2, REVERSE_2} && 0 <= cmd.magnitude <= 127 then
      var motor := if cmd.opcode < FORWARD_2 then 1 else 2;
      var speed := SpeedOf(cmd.magnitude);
      Some((motor, if cmd.opcode % 2 == 1 then -speed else speed))
    else
      None
  }

  lemma SpeedOfMagnitude(speed: int)
    requires 0 <= speed <= 100
    ensures SpeedOf(Magnitude(speed)) == speed
  {
    var m := Magnitude(speed);
    assert 127 * speed <= 100 * m + 126 < 127 * (speed + 1);
  }

  /** Every accepted drive command determines its motor and its signed speed. */
  lemma DriveRoundTrip(motorNum: int, speed: int)
    requires DriveCommand(motorNum, speed).Ok?
    ensures DecodeDrive(DriveCommand(motorNum, speed).value) == Some((EffectiveMotor(motorNum), speed))
  {
    SpeedOfMagnitude(Abs(speed));
  }

  /** The baud-rate table of `setBaudrate`. */
  const BaudCodes: map<int, int> := map[2400 := 1, 9600 := 2, 19200 := 3, 38400 := 4, 115200 := 5]

  /** The rate a baud-rate code selects on the driver. */
  function BaudRateOf(code: int): int
  {
    match code
    case 1 => 2400
    case 2 => 9600
    case 3 => 19200
    case 4 => 38400
    case 5 => 115200
    case _ => 0
  }

  /** The code `setBaudrate` sends for a rate, or the error it raises. */
  function BaudCode(baudrate: int): (r: Result<int>)
    ensures r.Ok? <==> baudrate in {2400, 9600, 19200, 38400, 115200}
    ensures r.Err? ==> r.error == InvalidBaudrate(baudrate)
    ensures r.Ok? ==> 1 <= r.value <= 5 && BaudRateOf(r.value) == baudrate
  {
    if baudrate in BaudCodes then Ok(BaudCodes[baudrate]) else Err(InvalidBaudrate(baudrate))
  }

  /** Every code 1..5 is the code of exactly the rate it selects. */
  lemma BaudCodeOfRate(code: int)
    requires 1 <= code <= 5
    ensures BaudCode(BaudRateOf(code)) == Ok(code)
  {
  }
}
