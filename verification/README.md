# mmlcd: a verified model

mmlcd shows text on a 2-line character display that hangs off a USB device and reads three
push buttons back. This project models both directions as one stack and proves what the
stack promises.

**Towards the display.** A call of the client library becomes a request on a socket; the
host daemon decodes it and re-encodes it for USB; the device relays the bytes to a second
daemon, which decodes them again and turns the request into I2C bytes that clock nibbles
into an HD44780 display controller.

**Towards the host.** A poll thread on the device samples the buttons, reports changes as
events, and the host's kernel module keeps a copy of the states that clients read through
proc entries.

| files | subject |
|---|---|
| `Hd44780.dfy` | the controller behind the port expander as a state machine, from the Hitachi HD44780U datasheet (Table 6 "Instructions" and the DDRAM address maps); the reference for everything below |
| `LcdDriver.dfy` | the driver: bytes of every call, and the methods that emit them |
| `LcdLatching.dfy`, `LcdSetup.dfy`, `LcdScreen.dfy`, `LcdTransfers.dfy` | bytes to latches to instructions to screen |
| `LcdReading.dfy` | the bus read off the wires, in the numbers of the instruction table |
| `LcdLoss.dfy` | what an I2C byte that is not acknowledged does |
| `LcdGeometry.dfy`, `LcdDiscipline.dfy`, `LcdOutOfRange.dfy` | cells, lines and positions; bus discipline; prints out of range |
| `CStrings.dfy`, `Wire.dfy`, `Relay.dfy`, `Hal.dfy`, `Client.dfy` | strings, wire format, re-encoding, the two hardware layers, the client library |
| `Stream.dfy`, `Cmds.dfy`, `CmdsHandler.dfy` | reassembly loop, framing, request handler |
| `Reference.dfy` | both ends of a request in numbers: the bytes written by a call, the bytes executed by the device |
| `Daemon.dfy`, `Serving.dfy`, `DaemonLoop.dfy`, `MultiClient.dfy` | the event loop: transition system, who is served and what ends it, the loop itself, many clients |
| `EndToEnd.dfy`, `Composed.dfy`, `Gadget.dfy` | one client through the whole pipeline, any number of clients of both daemons, and the USB relay |
| `Buttons.dfy`, `Replication.dfy`, `Lifecycle.dfy`, `Lockstep.dfy`, `ProcPath.dfy` | change detection, replication, callback lifecycle, queries, read-back |
| `ButtonPath.dfy` | the whole way of a button, from the pin to a client of the host |

## How to read it

Where the source works step by step, the model has methods that do the same (the driver, the
reassembly loop, the handler, the event loop, the poll thread, the kernel's completion
handler), each proved against a function; the theorems are lemmas about those functions.
Round trips and refinements fix a format only up to a change made on both sides, so every
format and code is stated once more in plain numbers (`LcdReading`, `Reference`, `Wire.Layout`,
`Replication.EventLayout`, `ButtonPath.PinReadingValid`, `ProcPath.FirstNames`), and every
function that lists a run's parts has a law that all parts are there.

What the hardware or the kernel leaves open is a parameter over which every theorem
quantifies. `Noise` decides, at every latch, what is on the undriven lines in 8-bit mode,
whether the lines are sampled before or after the edge, and which of two half-bytes supplies
RS and RW. `Schedule` decides, at every `read`, how much is delivered, whether it fails,
whether the timeout has passed and what arrives. `Buttons` answers a button read or fails it.

One assumption runs through the framing, daemon and pipeline theorems, stated as `Prompt`: no
read fails, and the timeout does not pass between the pieces of a request that is there. It
goes with requests that become readable whole, as the single `write` per request gives. A read
may deliver any part of what is there, and bytes may arrive at any time, also while a handler
runs: the transition systems carry the requests that do. `Cmds.SplitRequestIff` says exactly
what happens when a request does not become readable whole. `Quiet`, nothing arrives during a
call, is asked for only where a run is constructed (the loop can serve everybody, the pipeline
can come to rest, a query of the button path), where a queue is drained to its end, and where
a call is said to see a prefix of a request.

A client that hangs up has closed its socket, before or after a handler call and not within
one; writing to it raises SIGPIPE, which the daemon leaves at its default, so the process ends.
The transition system has that (`alive`), and so has the loop.

## What the proofs found

Each of these is a property one might expect and the code does not have; the model keeps the
code as it is and the named lemma says exactly when the property holds.

- Print, clear and setup turn the backlight on, whatever it was (`LcdDiscipline.BacklightKeptIff`).
- A print position past the end of its line can wrap into another instruction: 129 on line 1
  clears the display, 176 puts the chip in 8-bit mode, 192 sends the text to CGRAM
  (`LcdOutOfRange.PrintKeepsSyncIff`, `LcdOutOfRange.PrintKeepsReadyIff`).
- A request whose parameters are not there yet is executed with zeros (`Cmds.SplitRequestIff`).
- A client that hangs up with several requests buffered loses all but the oldest (`Daemon.CloseLosesIff`;
  `Serving.HangupLosesSecond` is such a run).
- A print, clear or setup reports success even if none of its bytes arrives, and a lost byte can
  leave the interface half a byte out of step (`LcdLoss.LostByteIff`) until the next setup
  (`LcdSetup.SetupFromAnyState`).
- A client that asks for a button and leaves without waiting for the answer ends the daemon
  (`Daemon.DispatchKillsIff`; `Serving.QueryThenHangUpKills` is such a run).
- A failed button read leaves its client waiting for good (`Lockstep.QueryBlocksIff`).
- A button event that cannot be written is never repeated (`Replication.FailedWriteDiverges`),
  nor is one that changed while no callback was registered (`Buttons.EventsCompleteIff`).
- An unlinked interrupt request is not submitted again, so the host's copy never changes after
  it (`Replication.UnlinkedIff`; `Replication.UnlinkedMissesPress` is such a run).
- A failed thread creation leaves the library believing it runs (`Lifecycle.LifecycleConsistentIff`).
- Buttons of devices other than minor 0 cannot be read back (`ProcPath.ReadBackIff`).

## Model

| member | source | states |
|---|---|---|
| `LcdDriver.I2cBus.WriteByte` | common/daemon/src/hal/rpi/lcd.c:24-28 | a byte is written once after what is there and arrives if it is acknowledged, which the result tells; a bad handle is refused and writes nothing |
| `LcdDriver.Strobe` | common/daemon/src/hal/rpi/lcd.c:80-93 | two bytes: bit 2, enable, set and then cleared, the data lines kept and bit 3, the backlight, on in both |
| `LcdDriver.WriteFourBits` | common/daemon/src/hal/rpi/lcd.c:95-105 | one set-up byte and one EN pulse for a four-bit value |
| `LcdDriver.FourBitsInNumbers` | common/daemon/src/hal/rpi/lcd.c:80-105 | those three bytes in numbers: bit 3 on in all, bit 2 in the second only |
| `LcdDriver.WriteByMode` | common/daemon/src/hal/rpi/lcd.c:112-122 | high half, then low half, each with the register-select mode |
| `LcdDriver.Write` | common/daemon/src/hal/rpi/lcd.c:108-110 | an instruction byte is written with mode 0 |
| `LcdDriver.Setup` | common/daemon/src/hal/rpi/lcd.c:56-77 | the eight setup bytes go out in order; a negative handle is returned and writes nothing |
| `LcdDriver.AddLineOffset` | common/daemon/src/hal/rpi/lcd.c:134-155 | the position sent is line offset plus position modulo 256; lines other than 2, 3 and 4 add nothing |
| `LcdDriver.WriteText` | common/daemon/src/hal/rpi/lcd.c:159-162 | exactly the characters before the terminator are written, in order, to the data register |
| `LcdDriver.DisplayStringPos` | common/daemon/src/hal/rpi/lcd.c:128-165 | the address command followed by the text of the C string |
| `LcdDriver.ClearScreen` | common/daemon/src/hal/rpi/lcd.c:168-178 | clear display, then return home |
| `LcdDriver.SwitchBacklight` | common/daemon/src/hal/rpi/lcd.c:181-183 | one byte, 0x08 for on and 0x00 for off; the handle is checked only by the bus, and the result is that of the one write |
| `LcdLatching.FourBitsClocks` | common/daemon/src/hal/rpi/lcd.c:80-105 | a four-bit write makes the chip latch exactly once, the intended value, whether it samples before or after the edge |
| `LcdLatching.AlignedByte` | common/daemon/src/hal/rpi/lcd.c:112-122 | on an aligned 4-bit interface two latches transfer one byte, whatever the noise |
| `LcdLatching.WriteModeCompletes` | common/daemon/src/hal/rpi/lcd.c:112-122 | a byte write leaves EN low and the chip as after that one byte |
| `LcdDriver.AckedIff` | common/daemon/src/hal/rpi/lcd.c:24-28 | everything written arrives exactly when every byte is acknowledged |
| `LcdLoss.LostByte` | common/daemon/src/hal/rpi/lcd.c:80-122 | the controller after a transfer of which any one of the six bytes is lost, for every sampling moment |
| `LcdLoss.LostByteIff` | common/daemon/src/hal/rpi/lcd.c:80-122 | after a character of which one byte is lost the interface is still aligned exactly when that is the first byte of a nibble or the fall after the first nibble; otherwise it is half a byte out of step |
| `LcdSetup.AnyFirstByte` | common/daemon/src/hal/rpi/lcd.c:63 | after the first magic byte every chip is 8 bits wide, aligned, or holding a half with value 3 |
| `LcdSetup.LaterByte` | common/daemon/src/hal/rpi/lcd.c:64-65 | after the second and third it is 8 bits wide or aligned |
| `LcdSetup.FourthByte` | common/daemon/src/hal/rpi/lcd.c:66 | after the fourth it is aligned, whatever was on the undriven lines |
| `LcdSetup.SetupSynchronises` | common/daemon/src/hal/rpi/lcd.c:56-77 | from every controller state the setup nibbles end 4-bit aligned, two lines, display on, cursor off, DDRAM blank, address 0, increment, no shift |
| `LcdSetup.SetupFromAnyState` | common/daemon/src/hal/rpi/lcd.c:56-77 | the same for the bus bytes, from every level of EN and every other line, with the backlight on afterwards |
| `LcdScreen.TextRuns` | common/daemon/src/hal/rpi/lcd.c:159-162 | a text on a ready machine leaves it ready and writes the ring of cells from the cursor on |
| `LcdScreen.CallRuns` | common/daemon/src/hal/rpi/lcd.c:128-183 | one print, clear or backlight call acts on the screen as its abstract meaning says, keeps CGRAM and leaves EN low, no pending half, increment, no shift |
| `LcdScreen.BacklightRuns` | common/daemon/src/hal/rpi/lcd.c:181-183 | a backlight call latches nothing and changes only the backlight |
| `LcdScreen.CallsRun` | common/daemon/src/hal/rpi/lcd.c:128-183 | the same for any sequence of calls whose positions name cells |
| `LcdScreen.ViewDeterminesChip` | common/daemon/src/hal/rpi/lcd.c:56-183 | between calls the screen and CGRAM fix every field of the controller |
| `LcdScreen.SetupThenCalls` | common/daemon/src/hal/rpi/lcd.c:56-183 | from any power-up state, setup and any such calls show exactly what the calls say |
| `LcdTransfers.CallsExecute` | common/daemon/src/hal/rpi/lcd.c:80-183 | the bus traffic of any run of valid calls leaves the chip as executing the instruction and data bytes of the calls, in order, does |
| `LcdTransfers.PrintTransfers` | common/daemon/src/hal/rpi/lcd.c:134-162 | a print within its line is one Set-DDRAM-Address for that line and column and its characters |
| `LcdReading.SetupReads` | common/daemon/src/hal/rpi/lcd.c:56-77 | what the wires carry at the falls of enable, in numbers: setup is 3, 3, 3, 2, 0x28, 0x0C, 0x01, 0x06 as instructions, backlight on and read/write low throughout |
| `LcdReading.PrintReads` | common/daemon/src/hal/rpi/lcd.c:128-165 | a print is one instruction, 0x80 + position, + 0x40 on line 2, + 20 on line 3, + 0x54 on line 4, modulo 256, and then its characters in order as data; backlight on and read/write low throughout |
| `LcdReading.ClearReads` | common/daemon/src/hal/rpi/lcd.c:168-178 | a clear is the instructions 0x01 and 0x02, in this order |
| `LcdReading.BacklightReads` | common/daemon/src/hal/rpi/lcd.c:181-183 | a backlight call is the byte 0x08 or 0x00 and carries no transfer |
| `LcdReading.RunReads` | common/daemon/src/hal/rpi/lcd.c:80-183 | over any run of calls the wires carry what each carries, in order |
| `LcdGeometry.PrintEffect` | common/daemon/src/hal/rpi/lcd.c:157-162 | cell by cell on the ring of 80: the last character that falls on a cell wins, for texts of any length; every other cell is unchanged |
| `LcdGeometry.WrittenCells` | common/daemon/src/hal/rpi/lcd.c:159-162 | character k of a text stands at start + k modulo 80 unless one 80 later overwrites it |
| `LcdGeometry.OtherLineUntouched` | common/daemon/src/hal/rpi/lcd.c:134-162 | text on line 1 or 2 that ends by column 40 leaves the other line alone |
| `LcdDriver.PositionIsSum` | common/daemon/src/hal/rpi/lcd.c:134-157 | the position arithmetic, an eight-bit addition in each branch, is addition modulo 256 |
| `LcdGeometry.SelectedInRange` | common/daemon/src/hal/rpi/lcd.c:134-157 | positions below 40 on lines 1 and 2 and below 20 on lines 3 and 4 never wrap and give Set-DDRAM-Address |
| `LcdGeometry.LinesContinue` | common/daemon/src/hal/rpi/lcd.c:136-155 | line 2 starts at 0x40, line 3 goes on 20 after line 1, line 4 20 after line 2 |
| `LcdGeometry.AddressableIff` | common/daemon/src/hal/rpi/lcd.c:134-157 | exactly which (line, position) pairs select a cell |
| `LcdGeometry.SetsAddressIff` | common/daemon/src/hal/rpi/lcd.c:157 | the command byte of a print is an address command exactly when the sum modulo 256 is below 128 |
| `LcdGeometry.GeometryInjective` | common/daemon/src/hal/rpi/lcd.c:134-157 | lines 1 to 4 of 20 columns never share a cell |
| `LcdGeometry.GeometryOnto` | common/daemon/src/hal/rpi/lcd.c:134-157 | and reach all 80 of them |
| `LcdDiscipline.CallDisciplined` | common/daemon/src/hal/rpi/lcd.c:80-183 | RW is never raised, lines are steady around every EN pulse, a print of n characters is 6(n+1) bytes, the call ends lit unless it is backlight off |
| `LcdDiscipline.RunDisciplined` | common/daemon/src/hal/rpi/lcd.c:80-183 | the same over any run of calls, in range or not; the backlight is off afterwards exactly when the last call was backlight off |
| `LcdDiscipline.SetupDisciplined` | common/daemon/src/hal/rpi/lcd.c:56-77 | setup obeys the bus discipline, is six bytes per command and ends lit |
| `LcdDiscipline.BacklightKeptIff` | common/daemon/src/hal/rpi/lcd.c:86-101 | in whatever state the display is, a print, in range or not, and a clear keep the backlight as it was exactly when it was on |
| `LcdDiscipline.BacklightAfter` | common/daemon/src/hal/rpi/lcd.c:56-183 | after any run of calls the backlight is off exactly when the last one switched it off; setup turns it on |
| `LcdOutOfRange.PrintKeepsSyncIff` | common/daemon/src/hal/rpi/lcd.c:134-165 | exactly which prints, in range or not and with any text, leave interface, display and entry mode as configured |
| `LcdOutOfRange.PrintKeepsReadyIff` | common/daemon/src/hal/rpi/lcd.c:134-165 | exactly which prints, with any text, leave the display ready for the next call: also out of CGRAM and with the address counter on a cell |
| `LcdOutOfRange.WrappedPrintClears` | common/daemon/src/hal/rpi/lcd.c:134-157 | position 129 on line 1 is not addressable: the print clears the display |
| `LcdOutOfRange.WrappedPrintUnsyncs` | common/daemon/src/hal/rpi/lcd.c:134-157 | position 176 on line 1 puts the chip into its 8-bit interface, whatever the text |
| `LcdOutOfRange.WrappedPrintSelectsCgram` | common/daemon/src/hal/rpi/lcd.c:134-157 | position 192 on line 1 keeps the configuration, but the text goes to CGRAM and the display is no longer ready |
| `CStrings.StrncpyInto` | common/lib/src/libmmlcd.c:69-70 | strncpy in place: text, then zeros, the rest of the buffer untouched |
| `CStrings.StrncpyText` | common/daemon/src/hal/x86/hal.c:48 | copying one byte less than the field and keeping its terminator shows the first characters that fit |
| `Wire.Le32RoundTrip` | common/lib/inc/libmmlcd_ipc.h:22-25 | the 32-bit command field survives its four bytes |
| `Wire.Le32Digits` | common/lib/inc/libmmlcd_ipc.h:22-25 | a 32-bit field is its four bytes, the lowest first |
| `Wire.Layout` | common/lib/inc/libmmlcd_ipc.h:13-93 | where everything stands in a request, in numbers: address, padding, command 0 to 3, string, line, position, enable, index |
| `Wire.HeadRoundTrip` | common/lib/inc/libmmlcd_ipc.h:22-25 | address and command are recovered from a head with any padding |
| `Wire.FromParams` | common/lib/inc/libmmlcd_ipc.h:29-93 | decoding parameters keeps command, address and every parameter byte |
| `Wire.ParamsRoundTrip` | common/lib/inc/libmmlcd_ipc.h:29-93 | every parameter struct is recovered from its bytes |
| `Wire.EncodeAllConcat` | common/lib/inc/libmmlcd_ipc.h:22-95 | the bytes of a sequence of requests are those of its parts |
| `Relay.FitString` | common/lib/src/libmmlcd.c:64-70 | the string field shows the first 16 characters, is terminated and zero after its text |
| `Relay.RelayTransparentIff` | common/daemon/src/hal/x86/hal.c:36-113 | re-encoding leaves a request unchanged exactly when its string is terminated and zero-filled and enable is 0 or 1 |
| `Relay.RelayIdempotent` | common/daemon/src/hal/x86/hal.c:36-113 | whatever was decoded, terminated or not, one re-encoding is canonical and a second changes nothing |
| `Relay.RelayMeaning` | common/daemon/src/hal/x86/hal.c:36-113 | re-encoding cuts the text to 16 characters, always terminates it, normalises enable and changes nothing else |
| `Stream.ReceiveConserves` | common/daemon/src/ipc_helpers.c:31-57 | for every chunking, arrival and timeout: delivered bytes followed by what is left are what was queued and what arrived, and no more than expected is taken |
| `Stream.StopsExactly` | common/daemon/src/ipc_helpers.c:38-56 | every read but the last has delivered something in time, and after the last everything wanted is there, or that read failed, was late, or left the socket empty |
| `Stream.PromptReceive` | common/daemon/src/ipc_helpers.c:38-54 | when the bytes are there, and no read fails and the timeout does not pass between the pieces, exactly they are put together from whatever pieces the reads deliver |
| `Stream.Socket.Read` | common/daemon/src/ipc_helpers.c:39 | one read fills the buffer from the given offset and removes those bytes from the socket |
| `Stream.SocketTimeoutRead` | common/daemon/src/ipc_helpers.c:31-57 | the loop fills the first k bytes with the stream's next k, leaves the rest of the buffer and of the stream alone, and terminates |
| `Cmds.HandleConserves` | common/daemon/src/cmds.c:30-124 | a handler call consumes a prefix of the stream of at most 27 bytes and leaves the rest |
| `Cmds.HandleFrame` | common/daemon/src/cmds.c:30-124 | a whole request at the head of the queue is decoded as encoded and exactly its bytes are consumed, whatever arrives meanwhile |
| `Cmds.CommandIff` | common/daemon/src/cmds.c:46-67 | a long enough message is executed exactly when its command number is below 4; for any other its head alone is taken and the call fails |
| `Cmds.Framing` | common/daemon/src/cmds.c:30-124 | n whole requests are decoded by n calls, in order, leaving the stream on the boundary |
| `Cmds.HandleShortens` | common/daemon/src/cmds.c:30-42 | whatever the schedule and whatever arrives, a call on a non-empty queue consumes something exactly when its first read does not fail |
| `Cmds.DrainDecodes` | common/daemon/src/cmds.c:30-70 | draining a queue of whole requests to which nothing is added terminates and executes exactly them, whatever the pieces of the reads |
| `Cmds.SplitRequestIff` | common/daemon/src/cmds.c:33-42 | a call that sees only the first k bytes of a request executes it exactly when that is all of it, or only the zero parameters are missing |
| `Cmds.SplitAfterHead` | common/daemon/src/ipc_helpers.c:17-29 | an empty parameter read executes the request with zeroed parameters, a partial one fails it |
| `CmdsHandler.ReadReqParams` | common/daemon/src/ipc_helpers.c:17-29 | parameters are those read, or zero if nothing was read; anything between is an error |
| `CmdsHandler.HandleRequest` | common/daemon/src/cmds.c:30-70 | the handler does what its decoded outcome says and returns its code |
| `CmdsHandler.ActedIff` | common/daemon/src/cmds.c:30-124 | what that is: on the device the bytes of the request on the bus, on the host its packet, on either the reply to a client that is there; nothing at all for anything but a request |
| `CmdsHandler.ReturnsIff` | common/daemon/src/cmds.c:30-124 | which code: 0, -1, the handle or the result of the backlight write, case by case |
| `CmdsHandler.Dispatch` | common/daemon/src/cmds.c:46-67 | dispatch by command, with its result code; an unknown command returns -1 without any effect |
| `CmdsHandler.HandlePrint` | common/daemon/src/cmds.c:74-83 | a print reaches the HAL with the decoded string, line and position and returns its result, or -1 without effect |
| `CmdsHandler.HandleBacklight` | common/daemon/src/cmds.c:88-97 | a backlight request reaches the HAL with the decoded byte and returns its result, or -1 without effect |
| `CmdsHandler.HandleGetBtnState` | common/daemon/src/cmds.c:99-124 | a successful read writes one four-byte reply and returns 0; a failed one writes none, and a client that has gone gets none and raises SIGPIPE; both return a negative code |
| `Hal.BuildPrint` | common/daemon/src/hal/x86/hal.c:43-50 | a print request built in a zeroed buffer is the encoding of the fitted string, line and position |
| `Hal.BuildSimple` | common/daemon/src/hal/x86/hal.c:70-100 | the other requests are encoded with whatever padding the compiler leaves |
| `Hal.Hal.LcdDisplayStringPos` | common/daemon/src/hal/x86/hal.c:36-62 | the x86 side sends one re-encoded packet to an attached device whose file takes it and returns 0, or nothing and -1; the Raspberry Pi side prints the C string at the field, read on past it if unterminated, or returns its negative handle |
| `Hal.Hal.LcdClear` | common/daemon/src/hal/x86/hal.c:64-86 | the same for clear |
| `Hal.Hal.LcdBacklight` | common/daemon/src/hal/x86/hal.c:88-113 | the same for backlight, any non-zero byte meaning on |
| `Hal.Hal.BtnGetState` | common/daemon/src/hal/x86/hal.c:115-137 | an index past the last button is refused; otherwise the answer is passed on or the failure reported |
| `Reference.PrintBytes` | common/lib/src/libmmlcd.c:63-76 | what a print call writes, byte by byte |
| `Reference.ClearBytes` | common/lib/src/libmmlcd.c:84-90 | what a clear call writes, byte by byte |
| `Reference.BacklightBytes` | common/lib/src/libmmlcd.c:98-108 | what a backlight call writes, byte by byte: 1 for on, 0 for off |
| `Reference.QueryBytes` | common/lib/src/libmmlcd.c:120-128 | what a button query writes, byte by byte |
| `Reference.PrintOnWires` | common/daemon/src/hal/rpi/hal.c:54-57 | a print request is on the device a print of its C string on its line at its position |
| `Reference.ClearOnWires` | common/daemon/src/hal/rpi/hal.c:49-52 | a clear request is the instructions 0x01 and 0x02 |
| `Reference.BacklightOnWires` | common/daemon/src/hal/rpi/hal.c:59-62 | a backlight request is the byte 0x00 for enable 0 and 0x08 for any other |
| `Reference.QueryOnWires` | common/daemon/src/hal/rpi/hal.c:64-74 | a query leaves the display alone |
| `Reference.ReplyOnSocket` | common/daemon/src/cmds.c:110-121 | the reply is the state in four bytes for an index below 3 whose button can be read, and nothing otherwise |
| `Reference.PacketsIff` | common/daemon/src/hal/x86/hal.c:36-113 | exactly the display requests for an attached device are passed on, each in one packet given byte by byte |
| `Client.Connection.SetAddr` | common/lib/src/libmmlcd.c:59-61 | the address put into later requests |
| `Client.Connection.DisplayStringPos` | common/lib/src/libmmlcd.c:63-81 | a print call writes its encoded request in one piece or fails and writes nothing |
| `Client.Connection.ClearDisplay` | common/lib/src/libmmlcd.c:84-95 | the same for clear |
| `Client.Connection.SetBacklight` | common/lib/src/libmmlcd.c:98-113 | the same for backlight |
| `Client.Connection.AskBtnState` | common/lib/src/libmmlcd.c:120-131 | the same for a button query |
| `Client.Connection.ReadBtnState` | common/lib/src/libmmlcd.c:133-138 | the reply read takes up to the size of a pointer from what the daemon wrote, possibly nothing; a failed one takes nothing and returns -1 |
| `Daemon.HandleConserved` | common/daemon/src/daemon_ipc.c:176-179 | one handler call executes the oldest buffered request of a connection, if it has one, and keeps what arrives meanwhile; otherwise it changes nothing |
| `Daemon.ClientStepKeepsInv` | common/lib/src/libmmlcd.c:37-113 | connecting, writing a request and hanging up keep the invariant at any moment |
| `Daemon.PollKeepsInv` | common/daemon/src/daemon_ipc.c:101-106 | a batch of level-triggered events keeps the invariant and has at most ten |
| `Daemon.PollsTen` | common/daemon/src/daemon_ipc.c:101-106 | ten events can be reported at once |
| `Daemon.AcceptKeepsInv` | common/daemon/src/daemon_ipc.c:141-168 | accepting the oldest waiting connection keeps the invariant |
| `Daemon.DispatchKeepsInv` | common/daemon/src/daemon_ipc.c:108-120 | processing the next event of a batch keeps the invariant, also when the client writes while its request is handled |
| `Daemon.EveryRunConserves` | common/daemon/src/daemon_ipc.c:99-121 | in every interleaving, writes during handler calls included, per connection: requests sent = executed followed by still buffered, in order; a closed connection that sent at most one had it executed once |
| `Daemon.CloseLosesIff` | common/daemon/src/daemon_ipc.c:113-118 | a hangup event loses requests exactly when more than one was still buffered |
| `Daemon.DispatchKillsIff` | common/daemon/src/cmds.c:117-121 | handling an event ends the daemon exactly when it is about a client that has gone and whose oldest request is a query that gets an answer |
| `Serving.HangupLosesSecond` | common/daemon/src/daemon_ipc.c:113-118 | a run in which a client writes two requests, hangs up, and has only the first executed |
| `Serving.QueryThenHangUpKills` | common/daemon/src/cmds.c:117-121 | a run in which a client asks for a button, leaves, and the answer ends the daemon |
| `Serving.EndedForGood` | common/daemon/src/daemon_ipc.c:99-121 | after that nothing is executed any more, whatever clients do |
| `Serving.EveryConnectionServed` | common/daemon/src/daemon_ipc.c:99-121 | from every reachable state the loop alone can accept, serve and, after hangup, close any connection, executing all it was sent unless it hung up with more than one request written; provided no answer is due to a client that has gone, for the two oldest requests of this connection or the oldest of one in the batch at hand |
| `Serving.AcceptedInOrder` | common/daemon/src/daemon_ipc.c:141-168 | in every run connections are accepted in the order in which they were made |
| `DaemonLoop.EventLoop.ConAdd` | common/daemon/src/daemon_ipc.c:141-168 | accept registers the oldest waiting connection and nothing else |
| `DaemonLoop.EventLoop.HandleOn` | common/daemon/src/daemon_ipc.c:176-179 | the handler takes its bytes from the connection and puts its request on the display bus |
| `DaemonLoop.EventLoop.ConIn` | common/daemon/src/daemon_ipc.c:176-179 | one request of one connection is handled, through the handler and the driver, as the transition system says |
| `DaemonLoop.EventLoop.ConClose` | common/daemon/src/daemon_ipc.c:170-174 | the connection is closed with whatever it still holds |
| `DaemonLoop.EventLoop.DispatchEvent` | common/daemon/src/daemon_ipc.c:109-119 | listen accepts; input is handled before hangup closes |
| `DaemonLoop.EventLoop.DispatchBatch` | common/daemon/src/daemon_ipc.c:108-120 | the inner loop is the transition system's dispatch steps, each with its own reads and arrivals, interleaved with any client steps, up to one that ends the daemon |
| `DaemonLoop.EventLoop.Run` | common/daemon/src/daemon_ipc.c:99-121 | the whole loop ends in the state the transition system reaches by the same steps, down to the bytes on the display bus |
| `DaemonLoop.PlanConcat` | common/daemon/src/daemon_ipc.c:99-121 | those steps are all rounds, one after the other |
| `DaemonLoop.VisitsConcat` | common/daemon/src/daemon_ipc.c:108-120 | and in each all visits, one after the other |
| `DaemonLoop.PlanOfOneRound` | common/daemon/src/daemon_ipc.c:99-121 | a round is its client steps, its wait and its visits; a visit its client steps and its dispatch |
| `MultiClient.CallsOneMore` | common/daemon/src/daemon_ipc.c:100-120 | every entry of the log counts once and in its place |
| `MultiClient.AtomicPrinting` | common/daemon/src/daemon_ipc.c:100-120 | for any number of clients and any requests the bus carries whole requests in the order of a log that merges the connections, each in its own order, and holds nothing else |
| `MultiClient.AtomicScreen` | common/daemon/src/daemon_ipc.c:100-120 | so if all executed prints are displayable the display is a fold of them |
| `Composed.ReencodedMeans` | common/daemon/src/hal/x86/hal.c:36-113 | the device acts on a re-encoded request as its sender meant it, the text cut to 16 characters, whatever lies in memory |
| `Composed.EveryRunComposes` | common/daemon/src/daemon_ipc.c:99-121 | both daemons, the relay and any number of clients on either side, every interleaving: the bus carries whole requests in the order of the device log; the relay's among them are a beginning of what the host log makes this device see, all of it when nothing is under way; and the host log merges its clients' requests, each in its own order |
| `Composed.LogOneMore` | common/daemon/src/daemon_ipc.c:99-121 | every entry of the host log counts once and in its place |
| `Composed.HostClientsShow` | common/daemon/src/hal/x86/hal.c:36-113 | if no local client prints, the bus carries what a beginning of the host log means, all of it when nothing is under way |
| `Composed.HostClientsScreen` | common/daemon/src/hal/rpi/lcd.c:128-165 | and from any power-up state the display shows just that, if the prints name cells |
| `EndToEnd.ClientRequestMeaning` | common/lib/src/libmmlcd.c:63-113 | what the library encodes is canonical, passes the relay unchanged and means the direct device call with the text cut to 16 characters |
| `EndToEnd.RelayedUnchanged` | common/daemon/src/hal/x86/hal.c:36-113 | encode, decode on the host and re-encode give the same request for any padding |
| `EndToEnd.HostKeepsInv` | common/daemon/src/cmds.c:30-97 | the host daemon turns the request at the head of its queue into one USB packet with the same request, whatever calls arrive meanwhile |
| `EndToEnd.RelayKeepsInv` | gadget/daemon/src/ffs-mmlcd.c:218-220 | a relayed packet joins the device queue whole |
| `EndToEnd.DeviceKeepsInv` | common/daemon/src/cmds.c:30-97 | the device daemon puts exactly the direct call on the bus, whatever packets arrive meanwhile |
| `EndToEnd.EveryRunRelays` | common/lib/src/libmmlcd.c:63-113 | in every interleaving of all stages, arrivals during handler calls included, the bus carries the direct calls of a prefix of the client's calls; of all of them when nothing is under way |
| `EndToEnd.CanSettle` | gadget/daemon/src/ffs-mmlcd.c:152-179 | from every reachable state the pipeline can come to rest without the client |
| `EndToEnd.EndToEndScreen` | common/daemon/src/hal/rpi/lcd.c:128-165 | from any power-up state of the display, at rest the screen is what the client's calls say, texts cut to 16 characters |
| `Gadget.ForwardingKeepsFrames` | gadget/daemon/src/ffs-mmlcd.c:152-179 | interrupted reads do not disturb framing: as long as writes take all they are given, forwarded bytes are the requests as sent |
| `Gadget.AbortEnds` | gadget/daemon/src/ffs-mmlcd.c:171-175 | nothing is passed on after the first fatal error |
| `Gadget.OneMoreTransfer` | gadget/daemon/src/ffs-mmlcd.c:160-170 | a transfer is passed on as far as its write takes it, a retry passes on nothing |
| `Gadget.CommandThread.HandleCmdEp` | gadget/daemon/src/ffs-mmlcd.c:218-220 | as many bytes of the buffer as were read are written once; a short or failed write drops the rest |
| `Gadget.CommandThread.Run` | gadget/daemon/src/ffs-mmlcd.c:152-179 | the read loop passes on what is taken of every transfer before the first fatal error, in order, and nothing stale from its buffer |
| `Gadget.InterruptEndpoint.BtnEventCallback` | gadget/daemon/src/ffs-mmlcd.c:231-246 | an event is written once, with what the endpoint takes of it; nothing is tried again after a short or failed write |
| `Buttons.EventsAreChanges` | common/lib/src/libmmlcd.c:168-188 | per button every change of its valid samples, starting from released, is reported or missed for want of a callback, and the events are the changes in order if none is missed |
| `Buttons.EventsCompleteIff` | common/lib/src/libmmlcd.c:175-180 | the events tell a button's whole story exactly when no change of it found the callback missing |
| `Buttons.HeardOrNot` | common/lib/src/libmmlcd.c:177-180 | without a callback there are no events, with one all along none is missed |
| `Buttons.ChangesAlternate` | common/lib/src/libmmlcd.c:175-176 | such a history strictly alternates from pressed and ends in its last sample |
| `Buttons.DetectorCorrect` | common/lib/src/libmmlcd.c:168-188 | the stored state is the last valid sample; with no change missed, events alternate from pressed and are odd in number exactly when it is pressed |
| `Buttons.PollThread.PollRound` | common/lib/src/libmmlcd.c:172-183 | one round updates the stored states in place, callback or not, and reports the changes to the callback if there is one |
| `Buttons.PollThread.Loop` | common/lib/src/libmmlcd.c:171-185 | the thread is the detector over its rounds up to the first time it finds its flag cleared |
| `Buttons.RoundsAt` | common/lib/src/libmmlcd.c:171-185 | the readings of the rounds are all buttons of all rounds, in order |
| `Buttons.ThreadSees` | common/lib/src/libmmlcd.c:168-188 | what the thread makes of its rounds, in numbers: the stored state is the last state sampled, 0 if none, and heard events alternate 1, 0, 1 |
| `Replication.EventRoundTrip` | common/lib/inc/libmmlcd_ipc.h:77-80 | state and index survive the event packet |
| `Replication.EventLayout` | common/lib/inc/libmmlcd_ipc.h:77-80 | the event packet is the state in bytes 0 to 3 and the index, 0 to 2, in bytes 4 to 7 |
| `Replication.StoreBytes` | host/src/mmlcd_proc.c:98-100 | what a packet does to the copy of a button, in bytes |
| `Replication.LosslessStepReplicates` | host/src/mmlcd_proc.c:98-100 | a written event or a successful completion keeps host copy plus events in flight equal to the poller's state |
| `Replication.EveryRunReplicates` | host/src/mmlcd_proc.c:75-106 | so in every lossless run, and the two agree when nothing is in flight |
| `Replication.PrevIsLastSample` | common/lib/src/libmmlcd.c:174-176 | in every run, whatever is lost, the device's stored state is the last valid sample it took |
| `Replication.HostSeesLastSample` | host/src/mmlcd_proc.c:75-106 | in a lossless run with nothing in flight the host copy of a button is the last valid sample the device took |
| `Replication.FailedWriteDiverges` | common/lib/src/libmmlcd.c:175-180 | a failed endpoint write, or a change that finds no callback, always leaves that button, and no other, out of step, because the stored state is updated first |
| `Replication.LostEventIff` | host/src/mmlcd_proc.c:93-105 | after an event lost to a failed completion a button is in step exactly when the event was not about it, a later one about it is in flight or it changed nothing; if the URB could not be submitted again, when the host has its state already |
| `Replication.UnlinkedIff` | host/src/mmlcd_proc.c:87-91 | after an unlinked completion, whatever follows, the host copy stays as it is and a button agrees exactly when its last valid sample is what the host had |
| `Replication.UnlinkedMissesPress` | host/src/mmlcd_proc.c:87-91 | the run in which the first press after it never reaches the host |
| `Replication.ChangeResynchronises` | common/lib/src/libmmlcd.c:175-180 | whatever was lost, the next change of a button that is written brings it back in step, exactly if the URB is still queued or the host happens to have that state |
| `Replication.HostContext.ProcInit` | host/src/mmlcd_proc.c:41-59 | every button starts released; the first entry that cannot be created ends it with -ENOMEM and leaves the later buttons alone |
| `Replication.HostContext.IntInIrq` | host/src/mmlcd_proc.c:75-106 | a successful completion stores exactly its event, a failed one nothing; all but an unlinked request are submitted again, as far as that works; just as the link's completion step says |
| `Lifecycle.RegisterConsistentIff` | common/lib/src/libmmlcd.c:141-164 | one poll thread exactly while a callback is registered, no thread joined twice: a call keeps this exactly when it does not fail to create a thread |
| `Lifecycle.LifecycleConsistentIff` | common/lib/src/libmmlcd.c:141-164 | over any sequence of calls from the start the library is consistent after each of them exactly when none fails to create a thread |
| `Lifecycle.ReplaceKeepsThread` | common/lib/src/libmmlcd.c:145-151 | replacing a callback by another keeps the same thread |
| `Lifecycle.LastCallbackCounts` | common/lib/src/libmmlcd.c:142-143 | after any history the callback is the one of the last call, whether or not its thread came to be |
| `Lifecycle.FailedCreationMisleads` | common/lib/src/libmmlcd.c:145-161 | after a failed creation, whatever thread id it leaves, the library runs no thread but believes it does, and unregistering joins one that is gone or never was |
| `Lifecycle.Library.RegisterBtnEventCallback` | common/lib/src/libmmlcd.c:141-164 | the call does what the lifecycle function says and returns -1 exactly when creation fails |
| `Lockstep.RunMatches` | common/daemon/src/cmds.c:99-124 | over any run the k-th answer written is about the device and button of the k-th query, as the buttons were when it was served |
| `Lockstep.EveryRunInStep` | common/lib/src/libmmlcd.c:115-139 | in every run the n-th state a client reads is the daemon's answer to its n-th query, about the address and index it named; at most one four-byte reply is under way, none is left when the client is free |
| `Lockstep.StuckIffFailed` | common/lib/src/libmmlcd.c:133-136 | a client can do nothing more exactly when the daemon has failed to read a button for it |
| `Lockstep.QueryBlocksIff` | common/daemon/src/cmds.c:110-113 | serving a query blocks its client for good exactly when the button it names cannot be read then, an index past the last one included |
| `Lockstep.InvalidIndexBlocks` | common/daemon/src/hal/x86/hal.c:116-118 | a query for an index past the last button is a run that ends so |
| `ButtonPath.PinReadingValid` | common/daemon/src/hal/rpi/hal.c:64-74 | a query of the poll thread over its connection reads 0 when the pin is high and 1 when it is low, always a valid sample |
| `ButtonPath.EntryAnswer` | common/daemon/src/hal/x86/hal.c:115-137 | the host daemon answers a query with its copy of a valid button of address 0, and no other query |
| `ButtonPath.QueryAnswersLastSample` | common/daemon/src/hal/x86/hal.c:115-160 | in a lossless run with nothing in flight that answer is the last valid sample the device took |
| `ButtonPath.QueryRunReads` | common/lib/src/libmmlcd.c:115-139 | whatever was asked before on a connection, a caller whose query is answered reads that answer next and is free again |
| `ButtonPath.PinToClient` | common/lib/src/libmmlcd.c:115-188 | then a client of the host reads 0 if the pin was high when the poll thread last looked at it and 1 if it was low |
| `ProcPath.DecimalRoundTrip` | host/src/mmlcd_proc.c:168-174 | a decimal number stands for what was formatted |
| `ProcPath.RawNameInjective` | host/src/mmlcd_proc.c:164-175 | formatting keeps all (minor, index) pairs apart |
| `ProcPath.NameReads` | host/src/mmlcd_proc.c:164-175 | a name reads as the minor number and the number of the button counted from 1 |
| `ProcPath.HalNameIsRawName` | common/daemon/src/hal/x86/hal.c:155-160 | the host daemon formats the same name |
| `ProcPath.FirstNames` | host/src/mmlcd_proc.c:164-175 | the first device has mmlcd0_btn1_state, mmlcd0_btn2_state and mmlcd0_btn3_state |
| `ProcPath.OneDigit` | host/src/mmlcd_proc.c:168-174 | digits are ASCII |
| `ProcPath.ProcNameInjective` | host/src/mmlcd_proc.c:164-175 | so entries whose names fit the buffer have distinct names |
| `ProcPath.GetBtnIdxByFile` | host/src/mmlcd_proc.c:177-193 | the search returns the first index whose name matches, or the count |
| `ProcPath.FindOwn` | host/src/mmlcd_proc.c:177-193 | it recovers the index of an entry of its own device |
| `ProcPath.FindOther` | host/src/mmlcd_proc.c:177-193 | and none for another device's entry |
| `ProcPath.PrintThenScanIff` | host/src/mmlcd_proc.c:151-158 | printing a state into the buffer and scanning it gives it back exactly when it has at most nine digits |
| `ProcPath.ReadBackIff` | common/daemon/src/hal/x86/hal.c:115-160 | a valid button of address 0 reads as the state stored for it; any other address, attached or not, reads as nothing |

## Left out

- Kernel resource plumbing in `host/src/mmlcd.c` and `host/src/mmlcd_dev.c`: probing, URB and buffer allocation. A device write is an identity byte relay and the interrupt endpoint a FIFO.
- Delays, clock values and HD44780 busy times: an instruction is complete when its byte is; the read timeout is a free choice at every read.
- Opening and closing of the I2C device, pigpio and GPIO set-up (`lcd_init`, `lcd_deinit`, `hal_init`): the handle is a parameter.
- Sockets, permissions, signals other than SIGPIPE, syslog and systemd: connections are byte queues; failures of `accept`, `epoll_wait` and `epoll_ctl` leave the state as it is and are not modelled as steps.
- Reuse of descriptor numbers: a connection keeps its identity for ever, since a batch of events names a descriptor at most once.
- Null arguments of `liblcd_get_btn_state` and `hal_btn_get_state`: both are refused before anything happens.
- The CLI parser, the example programs, shell scripts, unit files and descriptors: they would only add easy members.
- Control-endpoint event logging: it has no state.
- Several threads sharing one client socket: the eight-byte reply read supports no clean claim there.
- DDRAM addresses without a cell: the datasheet leaves them open, so a write there stores nothing and the theorems about cells ask for an addressable position.
- A print on the device whose string field has no terminator is shown as far as the first zero byte behind it, which memory is taken to hold somewhere (`Hal.Beyond`); what else C makes of reading there is not modelled.
- What the host makes of a button event written short: in `Replication` an event is written whole or not at all.
- Short writes of requests, replies and packets: such a write takes everything or fails. The relay's writes and the event's are the exception.
- Daemon.DispatchKillsIff: a client that closes its socket while its own request is being handled is taken to close it before or after that call.
- Lockstep.EveryRunInStep: a read of the reply that fails, after which the library returns -1 and the reply stays in the socket for the next query, is not a step; `Client.Connection.ReadBtnState` has that branch.
- Replication.HostContext.IntInIrq: an event whose index names no button is recorded as such and not given the effect of a store past the array; the device sends only its own three indices.
- Replication.LosslessStepReplicates: an event is delivered by one successful completion; USB retries below it are not visible.
- DaemonLoop.EventLoop.Run: is the loop on the device; on the host the same handler acts through the other HAL, which `EndToEnd` covers on values.
