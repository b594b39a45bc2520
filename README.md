# Couch firmware: Sabertooth serial driver and LED strip, in Dafny

This project models two parts of the couch firmware for the Raspberry Pi.

- **The Sabertooth motor-driver link.** This is Dimension Engineering's packetized serial mode. Each command goes out as the four-byte frame `[address, command, message, checksum]`, where the checksum is `(address + command + message) & 127`. The driver picks the opcode from the motor number and the sign of the speed. It scales `|speed|` to a message byte in 0..127 and checks baud rates against a fixed table of codes 1..5. It writes two wake bytes `0xAA` when it opens the port.
- **The LED strip.** This covers the colour wheel and the fills of the strip's 108-pixel buffer: rainbow, burnt orange and clear.

Files:

- `sabertooth_protocol.dfy` (module `SabertoothProtocol`): the pure part of the protocol. It holds the checksum, the frame encoder and its decoder, the opcode table reached through Python list indexing, the speed scaling with its inverse, and the baud-rate table.
- `serial_link.dfy` (module `SerialLink`): the effect of each driver operation on the serial port. The port is a value: an open flag plus the log of every byte written. Each operation maps the old port to the new port and to the value it returned or the exception it raised. The lemmas state the byte sequences each operation appends.
- `sabertooth_driver.dfy` (module `SabertoothDriver`): the port as a class with an `isOpen` field and a `written` byte log. Also the `Sabertooth` driver class, whose methods follow the source branch by branch. Each method is proved to have exactly the effect of the matching `SerialLink` function. Drivers built with the same `SerialPort` share it, standing for the class-level `serialObject` (see `StopTwoDrivers`).
- `led.dfy` (module `Led`): `Wheel` as a function, and the `LedStrip` class over an `array<Color>` of length 108. `RainbowCycle` and `Longhorn` loop over the pixels from the last to the first, as the source does. `Fill` is a single aggregate assignment to every pixel, standing for the strip library's own `fill`.

Exceptions are modelled as values: `Status` (`Done` or `Raised(error)`) and `Result`. Speeds and wheel positions are integers.

## Quirks of the code that the model keeps

- Sabertooth.py:47 checks the address with the chained comparison `128 > address > 135`, which no integer satisfies. Every address is therefore accepted (`AddressNeverRejected`). An address outside 0..255 is caught only when `bytearray` refuses the frame at Sabertooth.py:139, which happens on every send (`ByteOutOfRange`).
- Sabertooth.py:158 indexes `cmds[motorNum - 1]` with Python indexing. So `drive` accepts `motorNum` -1 (motor 1) and 0 (motor 2) as well as 1 and 2, and raises only for other values.
- Sabertooth.py:166 checks the speed after the negation at :162-164. A speed below -100 is therefore reported by its absolute value.
- Sabertooth.py:169 rounds the message byte down: it is `127 * |speed| / 100` truncated.
- Sabertooth.py:105-107 sends the configuration frame and one `0xAA`, then sleeps. The port stays open at its old rate.
- Sabertooth.py:79-84 closes the port without sending anything. Only the finalizer at :58-64 stops the motors before closing, and the finalizer is left out.

## Model

| member | source | states |
|---|---|---|
| SabertoothProtocol.Checksum | pi/Drivers/Sabertooth.py:135-136 | the checksum lies in [0,127] and is congruent to address+command+message modulo 128 |
| SabertoothProtocol.EncodeFrame | pi/Drivers/Sabertooth.py:136-139 | a frame is produced exactly when address, command and message are bytes, otherwise ByteOutOfRange; it has 4 bytes, a checksum below 128, and decodes back to the same three fields |
| SabertoothProtocol.DecodeThenEncode | pi/Drivers/Sabertooth.py:135-139 | every frame whose checksum matches is the encoding of the fields it decodes to |
| SabertoothProtocol.MotorOpcode | pi/Drivers/Sabertooth.py:155-160 | the lookup succeeds exactly for motorNum in {-1,0,1,2}; it gives FORWARD_1 for 1 and -1 and FORWARD_2 for 2 and 0, and otherwise raises InvalidMotorNumber(motorNum) |
| SabertoothProtocol.Magnitude | pi/Drivers/Sabertooth.py:169 | for speed in [0,100] the message byte lies in [0,127] and is the floor of 127*speed/100; speed 0 gives 0 and speed 100 gives 127 |
| SabertoothProtocol.MagnitudeStrictlyIncreasing | pi/Drivers/Sabertooth.py:169 | a larger speed always yields a larger message byte |
| SabertoothProtocol.DriveCommand | pi/Drivers/Sabertooth.py:152-169 | drive is accepted exactly for motorNum in {-1,0,1,2} and abs(speed) <= 100; the motor error takes priority, then InvalidSpeed(abs(speed)); the opcode is FORWARD_n for speed >= 0 and REVERSE_n for speed < 0; the magnitude lies in [0,127], is 0 for speed 0 and 127 for abs(speed) = 100 |
| SabertoothProtocol.SpeedOfMagnitude | pi/Drivers/Sabertooth.py:169 | the speed scaling is invertible on [0,100] |
| SabertoothProtocol.DriveRoundTrip | pi/Drivers/Sabertooth.py:152-169 | every accepted drive command decodes back to its effective motor and its signed speed |
| SabertoothProtocol.BaudCode | pi/Drivers/Sabertooth.py:86-101 | exactly the rates 2400, 9600, 19200, 38400 and 115200 are accepted, with codes 1..5 that select that same rate; any other rate raises InvalidBaudrate |
| SabertoothProtocol.BaudCodeOfRate | pi/Drivers/Sabertooth.py:90-96 | every code 1..5 is the code of the rate it selects |
| SabertoothProtocol.PyIndex | pi/Drivers/Sabertooth.py:158 | Python list indexing succeeds exactly for -len <= i < len, and gives the element at i modulo len, so negative indices count from the end |
| SerialLink.Write | pi/Drivers/Sabertooth.py:140 | the port's write (also used at lines 106, 116-117 and 182) appends the data after the old log on an open port; on a closed port it raises PortNotOpen and leaves the port unchanged; the open flag never changes |
| SabertoothDriver.SerialPort.Write | pi/Drivers/Sabertooth.py:140 | the port object's write has exactly the effect of SerialLink.Write on the port's state |
| SabertoothDriver.SerialPort.constructor | pi/Drivers/Sabertooth.py:52-56 | a new port is closed with an empty log |
| SabertoothDriver.SerialPort.OpenDevice | pi/Drivers/Sabertooth.py:115 | the port's own open, allowed only on a closed port, sets the open flag and keeps the log |
| SabertoothDriver.SerialPort.CloseDevice | pi/Drivers/Sabertooth.py:84 | the port's own close clears the open flag and keeps the log |
| SerialLink.SendCommand | pi/Drivers/Sabertooth.py:120-140 | the send succeeds exactly on an open port with byte-sized fields; it then appends 4 bytes after the old log, otherwise the port is unchanged; the open flag never changes |
| SerialLink.Drive | pi/Drivers/Sabertooth.py:152-169 | drive succeeds exactly on an open port with a byte address, motorNum in {-1,0,1,2} and abs(speed) <= 100; it then appends 4 bytes, otherwise the port is unchanged |
| SerialLink.DriveBoth | pi/Drivers/Sabertooth.py:171-174 | the old log is always kept as a prefix; success, exactly when both drives are accepted on an open port, appends 8 bytes; a failure appends 4 bytes when motor 1 was accepted and none otherwise |
| SerialLink.DriveBothSame | pi/Drivers/Sabertooth.py:176-177 | succeeds exactly when abs(speed) <= 100 on an open port with a byte address, appending 8 bytes; a failure leaves the port unchanged |
| SerialLink.Stop | pi/Drivers/Sabertooth.py:144-150 | stop returns 0 exactly on an open port with a byte address, after appending 8 bytes; otherwise it raises and the port is unchanged |
| SerialLink.SetBaudrate | pi/Drivers/Sabertooth.py:86-107 | succeeds exactly for the five listed rates on an open port with a byte address, appending 5 bytes ending in 0xAA; otherwise the port is unchanged |
| SerialLink.Open | pi/Drivers/Sabertooth.py:109-118 | after open the port is open, the old log is a prefix, and exactly the 0 (already open) or 2 (was closed) new bytes are all 0xAA |
| SerialLink.Close | pi/Drivers/Sabertooth.py:79-84 | close leaves the port closed with the log unchanged, so a later open sends the two wake bytes again |
| SerialLink.Text | pi/Drivers/Sabertooth.py:179-182 | text succeeds exactly on an open port, keeping the old log as a prefix and appending len(cmds)+2 bytes that end in CR LF; otherwise the port is unchanged |
| SerialLink.SendCommandAppendsFrame | pi/Drivers/Sabertooth.py:136-140 | on an open port with byte-sized fields, sendCommand appends exactly [address, command, message, (address+command+message)&127], in that order, and the checksum lies in [0,127] |
| SerialLink.SendCommandFailure | pi/Drivers/Sabertooth.py:139-140 | otherwise nothing is written; a non-byte field raises first, then a closed port raises |
| SerialLink.SendCommandDecodes | pi/Drivers/Sabertooth.py:136-140 | a successful send keeps the old log as a prefix and adds four bytes that decode to the packet sent |
| SerialLink.DriveAppendsFrame | pi/Drivers/Sabertooth.py:162-169 | an accepted drive on an open port appends its frame, with message byte 127*abs(speed) div 100 |
| SerialLink.DriveRejects | pi/Drivers/Sabertooth.py:157-167 | a motorNum outside {-1,0,1,2} or abs(speed) > 100 raises the matching error and leaves the port unchanged |
| SerialLink.DriveBothAppendsInOrder | pi/Drivers/Sabertooth.py:171-174 | with both speeds accepted, driveBoth appends motor 1's frame and then motor 2's frame |
| SerialLink.DriveBothKeepsFirstFrame | pi/Drivers/Sabertooth.py:171-174 | an invalid second speed raises after motor 1's frame, which stays in the log |
| SerialLink.DriveBothRejectsFirst | pi/Drivers/Sabertooth.py:171-173 | an invalid first speed raises with nothing written |
| SerialLink.DriveBothSameFrames | pi/Drivers/Sabertooth.py:176-177 | driveBothSame appends the two motors' frames for one speed, and each frame decodes to that speed |
| SerialLink.StopFrames | pi/Drivers/Sabertooth.py:144-150 | stop appends exactly [a,0,0,a&127] and [a,4,0,(a+4)&127] and returns 0 |
| SerialLink.StopFailure | pi/Drivers/Sabertooth.py:144-150 | on a closed port, or with an address that is not a byte, stop raises and writes nothing |
| SerialLink.SetBaudrateAccepted | pi/Drivers/Sabertooth.py:98-106 | an accepted rate appends the frame for command 15 with its code in 1..5, followed by one 0xAA |
| SerialLink.SetBaudrateRejected | pi/Drivers/Sabertooth.py:98-101 | any other rate raises InvalidBaudrate before any byte is written |
| SerialLink.OpenIdempotent | pi/Drivers/Sabertooth.py:109-118 | open leaves the port open; it appends two 0xAA to a closed port and nothing to an open one, so opening twice equals opening once |
| SerialLink.CloseStopsWrites | pi/Drivers/Sabertooth.py:79-84 | close keeps the log; every write then raises, and a later open sends the wake bytes again |
| SerialLink.TextAppends | pi/Drivers/Sabertooth.py:179-182 | text appends the command bytes followed by CR LF |
| SabertoothDriver.AddressNeverRejected | pi/Drivers/Sabertooth.py:47-48 | the constructor's address guard is false for every address |
| SabertoothDriver.Sabertooth.constructor | pi/Drivers/Sabertooth.py:39-48 | construction never raises and keeps the address as given, 128 by default |
| SabertoothDriver.Sabertooth.SendCommand | pi/Drivers/Sabertooth.py:120-140 | the port's new state and the outcome are those of SerialLink.SendCommand |
| SabertoothDriver.Sabertooth.Drive | pi/Drivers/Sabertooth.py:152-169 | the port's new state and the outcome are those of SerialLink.Drive |
| SabertoothDriver.Sabertooth.DriveBoth | pi/Drivers/Sabertooth.py:171-174 | the port's new state and the outcome are those of SerialLink.DriveBoth |
| SabertoothDriver.Sabertooth.DriveBothSame | pi/Drivers/Sabertooth.py:176-177 | the port's new state and the outcome are those of SerialLink.DriveBothSame |
| SabertoothDriver.Sabertooth.Stop | pi/Drivers/Sabertooth.py:144-150 | the port's new state and the result are those of SerialLink.Stop |
| SabertoothDriver.Sabertooth.SetBaudrate | pi/Drivers/Sabertooth.py:86-107 | the port's new state and the outcome are those of SerialLink.SetBaudrate |
| SabertoothDriver.Sabertooth.Open | pi/Drivers/Sabertooth.py:109-118 | the port's new state is SerialLink.Open of the old one |
| SabertoothDriver.Sabertooth.Close | pi/Drivers/Sabertooth.py:79-84 | the port's new state is SerialLink.Close of the old one |
| SabertoothDriver.Sabertooth.Text | pi/Drivers/Sabertooth.py:179-182 | the port's new state and the outcome are those of SerialLink.Text |
| SabertoothDriver.StopTwoDrivers | pi/Drivers/Sabertooth.py:37 | two drivers sharing the class-level port write their stop frames to one log, in call order |
| Led.Wheel | pi/Couches/Led.py:47-65 | positions outside [0,255] give (0,0,0); inside, every component lies in [0,255], at least one is 0, and r+g+b = 255 |
| Led.WheelCorners | pi/Couches/Led.py:52-65 | wheel(0) = (0,255,0), wheel(85) = (255,0,0), wheel(170) = (0,0,255), wheel(255) = wheel(0) |
| Led.WheelInjective | pi/Couches/Led.py:52-65 | distinct positions in [0,255) give distinct colours |
| Led.WheelIsTriple | pi/Couches/Led.py:66 | the strip's order is GRB (Led.py:25), so wheel returns exactly three channels, the (r, g, b) of the colour wheel, with no white channel |
| Led.RainbowPosition | pi/Couches/Led.py:70-71 | every position lies in [0,256); for a pixel of the strip it is the floor of i*256/108 |
| Led.RainbowPositionBounds | pi/Couches/Led.py:70-71 | for a pixel of the strip the & 255 mask changes nothing and the position lies in [0,255) |
| Led.RainbowPositionIncreasing | pi/Couches/Led.py:70 | later pixels get strictly later wheel positions |
| Led.RainbowColorsDistinct | pi/Couches/Led.py:68-71 | after rainbow_cycle no two pixels have the same colour |
| Led.LedStrip.constructor | pi/Couches/Led.py:31-33 | a new strip has 108 pixels, all (0,0,0) |
| Led.LedStrip.Fill | pi/Couches/Led.py:40-41 | every pixel takes the given colour |
| Led.LedStrip.Clear | pi/Couches/Led.py:35-36 | every pixel is (0,0,0) |
| Led.LedStrip.RainbowCycle | pi/Couches/Led.py:68-72 | every pixel i in [0,108) holds wheel((i*256 div 108) & 255) |
| Led.LedStrip.Longhorn | pi/Couches/Led.py:75-78 | every one of the 108 pixels is (191,30,0) |

## Left out

- Real serial I/O, the `time.sleep` delays and the read timeout: the model records only which bytes are written and in what order.
- `createSerial`'s port name, baud rate and timeout: a new `SerialPort` starts closed with an empty log, and none of the modelled operations reads its configuration.
- `textGet`: its read of the driver's reply is device input.
- `info`: it only prints.
- `__del__` (stop, then close): finalizer timing is up to the Python runtime. Its two steps are modelled as `Stop` and `Close`.
- Rebinding the class-level port with a second `createSerial`, which moves every existing driver to the new port: each driver here keeps the `SerialPort` it was built with.
- A `serialObject` still `None` because `createSerial` was never called: every driver here is built with a port.
- The port's own open failing, for instance a missing device: that is device behaviour.
- Non-integer arguments (float speeds and wheel positions, non-int fields passed to `sendCommand`): only integers are modelled. For integer speeds in [0,100], `int(127 * speed / 100)` under true division equals the integer floor `127 * speed / 100`.
- The mixed-mode and ramp opcodes (`FORWARD_MIXED` … `RAMP`): they are declared as constants, but no operation in the driver sends them, so they can only be passed to `SendCommand` directly.
- `ledInit` and `ledOut`: direct GPIO calls.
- The NeoPixel object, `show()` and `brightness`: `brightness` is a float on the hardware wrapper, so `Clear` models only the fill with (0,0,0).
- The gamepad controller and the start-up script: device reads, threads, sleeps and printing. The drivetrain, ramp and safety code those files import is not part of this model.
