/** The driver object and the serial port it writes to. In the driver every
    `Sabertooth` object uses one class-level serial port; here each driver holds a
    reference to a `SerialPort`, and drivers built with the same port share it.
    A driver's methods change only its port. Each method
    is proved to have the effect the matching SerialLink function describes. */
module SabertoothDriver {
  import opened SabertoothProtocol
  import SerialLink

  /** The serial port: whether it is open, and every byte written to it so far. */
  class SerialPort {
    var isOpen: bool
    var written: seq<Byte>

    function State(): SerialLink.Port
      reads this
    {
      SerialLink.Port(isOpen, written)
    }

    /** `createSerial`: a new port object starts closed. */
    constructor ()
      ensures State() == SerialLink.Port(false, [])
    {
      isOpen := false;
      written := [];
    }

    /** The port's write, which raises while the port is closed. */
    method Write(data: seq<Byte>) returns (s: SerialLink.Status)
      modifies this
      ensures (State(), s) == SerialLink.Write(old(State()), data)
    {
      if isOpen {
        written := written + data;
        s := SerialLink.Done;
      } else {
        s := SerialLink.Raised(PortNotOpen);
      }
    }

    /** The port's own open, which refuses a port that is already open; the
        driver calls it only on a closed port. */
    method OpenDevice()
      requires !isOpen
      modifies this
      ensures isOpen && written == old(written)
    {
      isOpen := true;
    }

    method CloseDevice()
      modifies this
      ensures State() == SerialLink.Close(old(State()))
    {
      isOpen := false;
    }
  }

  /** The address check of the constructor, `128 > address > 135`: a chained
      comparison that no address satisfies. */
  predicate AddressRejected(address: int)
  {
    128 > address && address > 135
  }

  /** The constructor never raises, whatever the address. */
  lemma AddressNeverRejected(address: int)
    ensures !AddressRejected(address)
  {
  }

  class Sabertooth {
    const address: int
    const port: SerialPort

    /** `Sabertooth(address)` attached to the shared port, with address 128 by
        default. The address guard cannot fire, so every address is kept as given. */
    constructor (port: SerialPort, address: int := 128)
      ensures this.address == address && this.port == port
    {
      this.address := address;
      this.port := port;
      AddressNeverRejected(address);
    }

    method SendCommand(command: int, message: int) returns (s: SerialLink.Status)
      modifies port
      ensures (port.State(), s) == SerialLink.SendCommand(address, command, message, old(port.State()))
    {
      var checksum := (address + command + message) % 128;
      if !(IsByte(address) && IsByte(command) && IsByte(message)) {
        return SerialLink.Raised(ByteOutOfRange);
      }
      var msg: seq<Byte> := [address, command, message, checksum];
      s := port.Write(msg);
    }

    method Drive(motorNum: int, speed: int) returns (s: SerialLink.Status)
      modifies port
      ensures (port.State(), s) == SerialLink.Drive(address, motorNum, speed, old(port.State()))
    {
      var found := PyIndex(MotorCommands, motorNum - 1);
      if found.None? {
        return SerialLink.Raised(InvalidMotorNumber(motorNum));
      }
      var cmd := found.value;
      var speed' := speed;
      if speed' < 0 {
        speed' := -speed';
        cmd := cmd + 1;
      }
      if speed' > 100 {
        return SerialLink.Raised(InvalidSpeed(speed'));
      }
      s := SendCommand(cmd, 127 * speed' / 100);
    }

    method DriveBoth(speed1: int, speed2: int) returns (s: SerialLink.Status)
      modifies port
      ensures (port.State(), s) == SerialLink.DriveBoth(address, speed1, speed2, old(port.State()))
    {
      s := Drive(1, speed1);
      if s.Raised? {
        return;
      }
      s := Drive(2, speed2);
    }

    method DriveBothSame(speed: int) returns (s: SerialLink.Status)
      modifies port
      ensures (port.State(), s) == SerialLink.DriveBothSame(address, speed, old(port.State()))
    {
      s := DriveBoth(speed, speed);
    }

    method Stop() returns (r: Result<int>)
      modifies port
      ensures (port.State(), r) == SerialLink.Stop(address, old(port.State()))
    {
      var sentBytes := 0;
      var s := DriveBoth(0, 0);
      if s.Raised? {
        return Err(s.error);
      }
      r := Ok(sentBytes);
    }

    method SetBaudrate(baudrate: int) returns (s: SerialLink.Status)
      modifies port
      ensures (port.State(), s) == SerialLink.SetBaudrate(address, baudrate, old(port.State()))
    {
      if baudrate !in BaudCodes {
        return SerialLink.Raised(InvalidBaudrate(baudrate));
      }
      var baud := BaudCodes[baudrate];
      s := SendCommand(SET_BAUD_RATE, baud);
      if s.Raised? {
        return;
      }
      s := port.Write([WAKE]);
    }

    method Open()
      modifies port
      ensures port.State() == SerialLink.Open(old(port.State()))
    {
      if !port.isOpen {
        port.OpenDevice();
        var _ := port.Write([WAKE]);
        var _ := port.Write([WAKE]);
      }
    }

    method Close()
      modifies port
      ensures port.State() == SerialLink.Close(old(port.State()))
    {
      port.CloseDevice();
    }

    method Text(cmds: seq<Byte>) returns (s: SerialLink.Status)
      modifies port
      ensures (port.State(), s) == SerialLink.Text(cmds, old(port.State()))
    {
      s := port.Write(cmds + [13, 10]);
    }
  }

  /** Two drivers on one bus share the port, so their frames interleave in the
      order the calls are made. */
  method StopTwoDrivers(front: Sabertooth, rear: Sabertooth) returns (r1: Result<int>, r2: Result<int>)
    requires front.port == rear.port && front.port.isOpen
    requires IsByte(front.address) && IsByte(rear.address)
    modifies front.port
    ensures r1 == Ok(0) && r2 == Ok(0)
    ensures front.port.written == old(front.port.written)
              + [front.address, 0, 0, front.address % 128, front.address, 4, 0, (front.address + 4) % 128]
              + [rear.address, 0, 0, rear.address % 128, rear.address, 4, 0, (rear.address + 4) % 128]
  {
    SerialLink.StopFrames(front.address, front.port.State());
    r1 := front.Stop();
    SerialLink.StopFrames(rear.address, rear.port.State());
    r2 := rear.Stop();
  }
}
