# sixaxis in Dafny

A model of `sixaxis.go`, a small Linux tool that reads a PlayStation 3
(Sixaxis) controller. It reads raw evdev `input_event` records, folds each one
into a snapshot of the controller, and prints the snapshot as one line of text.

The model has four parts:

- **The record** (`input_event.dfy`). This is the 16-byte little-endian
  `input_event` record: a `timeVal` of two `int32`s, then `Type` and `Code` as
  `uint16`, then `Value` as `int32`. It comes with an encoder and a decoder
  that are inverse to each other. The decoder reports a short read as an
  error.
- **The snapshot and `Update`** (`sixaxis.dfy`). The snapshot is the `SA`
  struct without its reader: seventeen button flags and two analog sticks.
  `Update` is the event dispatch. An independent dispatch table, `Target`,
  says which field an event writes, if any. `Update` is proved to write
  exactly that field and nothing else.
- **The read loop** (`ingest.dfy`). This is the `for` loop of `main` as a fold
  over the decoded stream. It is proved equal to "the last write to each field
  wins".
- **The printed line** (`display.dfy`, `read_back.dfy`, `printout.dfy`). This
  is `SA.String` and `AnalogStick.String`: `%+04d` formatting, the fixed
  button order, and `strings.Join` with `", "`. A parser (`ReadBack`) is
  proved to recover the snapshot from the printed line, so the line loses
  nothing. `scenarios.dfy` works a few concrete lines out in full.

Facts about the code that the model keeps:

- The controller state is seventeen boolean button flags and two sticks whose
  axes hold the raw `int32` event value. There are no analog-button or
  orientation fields.
- The printed line always shows both sticks, even when they are centred.
- Motion codes 4, 5 and 6 (`GyroX`, `GyroY`, `AccelY`) are declared but never
  handled. Such events change nothing.
- A button event with a value other than exactly 1, including 2 (auto-repeat),
  releases the button.

## Model

| member | source | states |
|---|---|---|
| InputEvent.UnsignedBytes | sixaxis.go:291 | reading back `k` little-endian bytes written from a number below 256^k gives the number |
| InputEvent.BytesUnsigned | sixaxis.go:291 | writing back the value read from any byte string gives the same bytes |
| InputEvent.DecodeEncodeI32 | sixaxis.go:53-64 | a signed 32-bit field survives two's-complement encoding and decoding |
| InputEvent.Encode | sixaxis.go:59-64 | a record occupies exactly 16 bytes |
| InputEvent.Decode | sixaxis.go:59-64 | decoding fails exactly when fewer than 16 bytes remain, reports how many there were, and otherwise consumes exactly 16 bytes |
| InputEvent.DecodeEncode | sixaxis.go:53-64 | decoding an encoded record gives the record back and leaves the rest of the stream untouched |
| InputEvent.EncodeDecode | sixaxis.go:53-64 | every block of at least 16 bytes decodes, and re-encoding the record rebuilds the block |
| Sixaxis.Extensionality | sixaxis.go:77-102 | a snapshot is determined by its seventeen button flags and its four axis values |
| Sixaxis.SetButton | sixaxis.go:188-237 | assigning a button flag changes that flag only and leaves both sticks as they were |
| Sixaxis.SetAxis | sixaxis.go:247-257 | assigning an axis changes that axis only and leaves every button as it was |
| Sixaxis.ButtonCode | sixaxis.go:16-33 | every button's event code lies in 288..304 |
| Sixaxis.AxisCode | sixaxis.go:35-39 | every stick axis's event code lies in 0..3 |
| Sixaxis.Target | sixaxis.go:11-48 | an event targets button `b` exactly when its type is 1 and its code is `b`'s code, and targets axis `a` exactly when its type is 3 and its code is `a`'s code |
| Sixaxis.New | sixaxis.go:104-110 | a new controller has no button held and both sticks at (0, 0) |
| Sixaxis.UpdateButton | sixaxis.go:184-242 | the button switch sets exactly the flag whose code matches to the given value, changes no other flag and no axis, and ignores unknown codes |
| Sixaxis.UpdateAxis | sixaxis.go:245-261 | the axis switch stores the raw value in exactly the axis whose code matches and ignores every other code |
| Sixaxis.Update | sixaxis.go:179-267 | after an event, a targeted button is held exactly when the value is 1, a targeted axis holds the raw value, and every untargeted field is unchanged |
| Sixaxis.UnrecognisedCodes | sixaxis.go:179-267 | an event targets nothing exactly when it is neither type 1 with a code in 288..304 nor type 3 with a code in 0..3 |
| Sixaxis.UnrecognisedIsNoOp | sixaxis.go:179-267 | an event that targets no field leaves the snapshot unchanged |
| Sixaxis.SyncIsNoOp | sixaxis.go:180-182 | a type-0 event leaves the snapshot unchanged |
| Sixaxis.UnknownTypeIsNoOp | sixaxis.go:263-265 | an event of any type other than 0, 1 and 3 leaves the snapshot unchanged |
| Sixaxis.UnknownCodeIsNoOp | sixaxis.go:239-260 | a button event with a code outside 288..304, or an absolute event with a code above 3, leaves the snapshot unchanged |
| Sixaxis.MotionCodesIgnored | sixaxis.go:41-46 | absolute events with the gyro and accelerometer codes 4, 5 and 6 leave the snapshot unchanged |
| Sixaxis.ButtonEvent | sixaxis.go:184-237 | a type-1 event with button `b`'s code is exactly "set `b` to value == 1" |
| Sixaxis.NonOneReleases | sixaxis.go:269-271 | `ButtonToBool` (`buttonToBool`) as used by `Update`: a button event whose value is not 1 (0, 2 or anything else) leaves that button released |
| Sixaxis.AxisEvent | sixaxis.go:245-257 | a type-3 event with axis `a`'s code is exactly "store the raw value in `a`" |
| Sixaxis.Idempotent | sixaxis.go:179-267 | applying the same event twice gives the same snapshot as applying it once |
| Sixaxis.LastWriteWins | sixaxis.go:179-267 | of two events that target the same field, the second one alone decides the result |
| Sixaxis.IndependentFields | sixaxis.go:179-267 | two events that target different fields (or none) can be applied in either order |
| Ingest.Run | sixaxis.go:290-293 | the loop over a stream leaves every button and axis that no event of the stream targets at its starting value |
| Ingest.LastWrite | sixaxis.go:290-293 | none exactly when no event of the stream writes the field; otherwise an event of the stream that writes it, with no later write |
| Ingest.RunButton | sixaxis.go:290-293 | `Run` (the read loop): after the loop, a button is held exactly when the last event writing it had value 1, and keeps its starting state if nothing wrote it |
| Ingest.RunAxis | sixaxis.go:290-293 | `Run` (the read loop): after the loop, an axis holds the value of the last event writing it, and keeps its starting value if nothing wrote it |
| Ingest.UnwrittenStaysIdle | sixaxis.go:286-293 | starting from a new controller, a button nothing writes stays released and an axis nothing writes stays 0 |
| Ingest.RunSyncOnly | sixaxis.go:180-182 | a stream of type-0 events leaves the snapshot unchanged |
| Ingest.DecodeAll | sixaxis.go:290-291 | a byte stream yields one record per complete 16 bytes |
| Ingest.EncodeAll | sixaxis.go:290-291 | a stream of records occupies 16 bytes per record |
| Ingest.DecodeAllEncodeAll | sixaxis.go:290-291 | decoding a stream of encoded records gives them back; a trailing partial record is dropped |
| Ingest.Ingest | sixaxis.go:289-293 | the read loop consumes whole records until fewer than 16 bytes remain, the bytes consumed are exactly the decoded records, and the result is the decoded records applied in order |
| Display.Digits | sixaxis.go:74 | the decimal digits of a number have no leading zero, and there is exactly one digit exactly when the number is below 10 |
| Display.ValueDigits | sixaxis.go:74 | the decimal digits printed for a number read back as that number |
| Display.FormatSigned | sixaxis.go:74 | `%+04d` writes a sign (`-` exactly for negatives), then digits whose value is the magnitude, zero-padded to at least four characters, with no padding beyond that |
| Display.Held | sixaxis.go:114-169 | the listed buttons are exactly the held ones of the given order, in that order |
| Display.DpadHeld | sixaxis.go:114-127 | the d-pad list holds exactly the held d-pad buttons, in the order up, down, left, right |
| Display.OtherHeld | sixaxis.go:129-169 | the button list holds exactly the held non-d-pad buttons, in the order select, L3, R3, start, L2, R2, L1, R1, triangle, circle, cross, square, PS |
| Display.IncreasingUnique | sixaxis.go:114-169 | two lists in display order with the same members are the same list |
| Display.NameInjective | sixaxis.go:114-169 | no two buttons are printed under the same name |
| Display.Names | sixaxis.go:114-169 | a button's name appears among the printed names exactly when the button is listed, since no two buttons share a name |
| ReadBack.ParseFormatSigned | sixaxis.go:74 | the text `%+04d` prints for any integer reads back as that integer |
| ReadBack.ParseStickString | sixaxis.go:73-75 | `StickString` (`AnalogStick.String`): the text printed for a stick reads back as the stick, so both axes are recoverable |
| ReadBack.SplitJoin | sixaxis.go:175-176 | splitting a `", "`-joined list of names gives the names back |
| ReadBack.ParseJoined | sixaxis.go:171-176 | a bracketed `", "`-joined list reads back as the list and leaves the text after it |
| ReadBack.HeldFromLists | sixaxis.go:114-169 | the two printed lists together name exactly the held buttons |
| ReadBack.LineRoundTrip | sixaxis.go:112-177 | the line filled in from a snapshot's sticks and lists reads back as the snapshot |
| Printout.Render | sixaxis.go:112-177 | the line printed for a snapshot reads back as that snapshot: every flag and both sticks are recoverable |
| Printout.RenderInjective | sixaxis.go:112-177 | two different snapshots never print the same line |
| Scenarios.FormatZero | sixaxis.go:74 | 0 prints as `+000` |
| Scenarios.FormatMinusFive | sixaxis.go:74 | -5 prints as `-005` |
| Scenarios.FormatWide | sixaxis.go:74 | -1234 prints as `-1234`, wider than four characters |
| Scenarios.RenderNew | sixaxis.go:104-177 | a new controller prints as `&Sixaxis{L[+000, +000] R[+000, +000] dpad[] buttons[]}` |
| Scenarios.SelectThenLeftX | sixaxis.go:179-257 | pressing select and then pushing the left stick to x = -5 leaves select held and the left stick at (-5, 0) |
| Scenarios.RenderSelectAndLeftX | sixaxis.go:112-267 | that snapshot prints the left stick as `-005, +000` and lists `select` |
| Scenarios.RenderSeveral | sixaxis.go:112-177 | holding PS, up, cross, right and select prints the d-pad list `up, right` and the button list `select, cross, PS` |

## Left out

- `main`'s device handling is left out: opening `/dev/input/event0`, the exit on
  failure, and printing after every event. The byte stream is a parameter of
  `Ingest.Ingest`.
- Ingest.Ingest: it stops at the first short read. The Go loop ignores the
  error from `binary.Read` and applies the previous record again forever.
  `Sixaxis.Idempotent` shows that this re-application leaves the snapshot as
  it was.
- `printEvent` and the `fmt.Println` diagnostics for unknown types and codes
  are left out. They are output only and do not touch the snapshot.
- The `r io.Reader` field of `SA` and pointer aliasing of the `*AnalogStick`
  fields are left out. The sticks are values in the model.
- The timestamp is decoded and encoded but never read by `Update`, as in the
  code.
- The 24-byte `input_event` layout of 64-bit kernels is left out. The code
  declares `timeVal` with two `int32` fields, so its records are 16 bytes.
- The seventeen `bool` fields of `SA` are represented as the set of held
  buttons. `Sixaxis.Pressed` reads one field, and `Sixaxis.Extensionality`
  shows that nothing is lost.
- `example/monitor/monitor.go` is not part of this model; it is a separate example program.
