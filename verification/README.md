# kekse instrument drivers: a Dafny model of their logic

kekse is a set of Python modules that drive laboratory instruments for
light-sheet microscopy. Each module pairs an instrument with a small PyQt
GUI. This project models the parts of four drivers that compute something,
and proves what they promise:

- **Hamamatsu DCAM camera** (`devices/hamamatsu_camera.py`):
  - the ring-buffer tracker `newFrames`, which lists the slots filled since the last check and records the backlog;
  - the acquisition start/stop resets and the acquisition mode;
  - the buffer reallocation rule of the memory-recycling camera `HamamatsuCameraMR` and its `getFrames`;
  - property bookkeeping: name normalisation, read/write and type decoding of attribute words, the range clamp and text lookup of `setPropertyValue`, and text options sorted by value;
  - `CamController`'s mapping from configured trigger options to device properties, and its config update.
- **Optotune tunable lens** (`etl_controller_Optotune.py`):
  - the CRC-16/ARC table and the table-driven CRC;
  - command framing and reply verification in `_send_cmd`;
  - the mode tables;
  - the payloads and argument checks of `temp_limits`, `gain` and `set_current`.
- **Thorlabs MCM3000 stage** (`motion_controller_Thorlabs_MCM3000.py`):
  - the APT binary messages (set encoder counter, absolute move, position request, stop);
  - the position-reply parser and the encoder bookkeeping.
- **Light-sheet generator** (`lightsheet_generator.py`):
  - the galvo sawtooth and laser gate that `task_config` builds in place;
  - arm selection and the laser-voltage assertion of `setup_ls`;
  - the key guard of `update_config`.

## How the model is organised

| file | module | contents |
|---|---|---|
| `common.dfy` | `Common` | bytes, `Option`/`Result`, config values, Python slicing, `int()` on a float, bytes literals |
| `int_bytes.dfy` | `IntBytes` | `int.to_bytes` / `int.from_bytes` in both byte orders, signed and unsigned |
| `optotune_crc.dfy` | `OptotuneCrc` | CRC-16/ARC: the bit-by-bit reference, the table builder and the table-driven loop |
| `etl_controller.dfy` | `EtlController` | `ETLController` class, framing, reply check, modes, payloads |
| `thorlabs_mcm3000.dfy` | `ThorlabsMcm3000` | `MotionController` class and its messages |
| `lightsheet_generator.dfy` | `LightsheetGenerator` | waveform arrays, `setup_ls`, `LightsheetGenerator` class |
| `camera_properties.dfy` | `CameraProperties` | the pure property helpers of the camera driver |
| `hamamatsu_camera.dfy` | `HamamatsuCamera` | `HamamatsuCamera` and `HamamatsuCameraMR` classes, frame lists |
| `cam_controller.dfy` | `CamController` | `CamController` class, trigger property mapping |

Where the Python objects change fields, the model has a class with those
fields. Methods say in `modifies` what they may change and in `ensures`
what the new state is. Loops stay loops, with invariants:

- `_init_crc_table` and `calc_crc`;
- `newFrames`;
- the buffer allocation and frame copying of `HamamatsuCameraMR`;
- the slice assignments on the numpy arrays in `task_config`.

Each loop is proved against a separate function, and the properties are
proved about that function.

`newFrames` builds its list from two ranges of slots and never takes a
remainder. `HamamatsuCamera.FramesInRing` proves that, inside the ring, the
list is the same as walking the ring modulo its size from the slot after the
stored index.

Everything the drivers get from hardware or vendor libraries becomes a
parameter:

- the serial reply bytes;
- `nNewestFrameIndex` and `nFrameCount`;
- attribute words, ranges and raw values;
- the frame size;
- `int(10 * internal_frame_rate)`;
- `samples_per_ch` and `laser_delay_samples`;
- the DAC value and the move distance in counts.

A port or device is modelled by what the driver writes to it: a list of the
frames or settings sent.

Python semantics written out explicitly:

- Slices with negative and out-of-range bounds: `Common.Slice`.
- Negative list indices: `HamamatsuCamera.PyIndex`.
- `int()` truncating toward zero: `Common.TruncToInt`.
- `x & bit` on a possibly negative C int, written as floor division, which agrees with Python's two's-complement `&`: `CameraProperties.HasFlag`.
- `c_ushort`: `OptotuneCrc.Ushort`.
- `struct.pack("<l")` raising on values outside 32 bits: `ThorlabsMcm3000.PackLong`.
- `int.to_bytes` raising `OverflowError`: `EtlController.Be16`.

## Model

| member | source | states |
|---|---|---|
| OptotuneCrc.InitCrcTable | etl_controller_Optotune.py:145-160 | the table has 256 entries and entry i is eight reflected shift/XOR-polynomial rounds starting from i |
| OptotuneCrc.RoundsBound | etl_controller_Optotune.py:152-159 | with a 16-bit polynomial every table entry stays below 2^16 |
| OptotuneCrc.UpdateByTableIsBitwise | etl_controller_Optotune.py:140-142 | one table-driven step `(crc >> 8) ^ table[(crc ^ d) & 0xff]` equals the bit-by-bit CRC-16/ARC update with that byte |
| OptotuneCrc.Crc16ArcBound | etl_controller_Optotune.py:139-142 | the running CRC never leaves 16 bits |
| OptotuneCrc.CrcBytes | etl_controller_Optotune.py:143 | `to_bytes(2, 'little')`: two bytes, low byte first, whose little-endian value is the CRC |
| OptotuneCrc.CalcCrc | etl_controller_Optotune.py:135-143 | the loop over the data with a table from `_init_crc_table` returns the two bytes of the bit-by-bit CRC-16/ARC of the data |
| OptotuneCrc.EmptyCrc | etl_controller_Optotune.py:139-143 | the empty input gives 00 00 |
| OptotuneCrc.Ushort | etl_controller_Optotune.py:153-158 | `c_ushort(x).value` is below 2^16 and leaves 16-bit values unchanged |
| EtlController.Crc | etl_controller_Optotune.py:135-143 | `calc_crc` is two bytes whose little-endian value is the CRC-16/ARC of the data |
| EtlController.ModeCommand | etl_controller_Optotune.py:560-573 | a command exists exactly for the six settable mode names |
| EtlController.ModeName | etl_controller_Optotune.py:550-558 | the `modes` table names exactly the codes 1 to 7 |
| EtlController.ModeCode | etl_controller_Optotune.py:550-556 | every settable mode has a code that the table maps back to it |
| EtlController.ETLController.constructor | etl_controller_Optotune.py:25-37 | the CRC table is the one `_init_crc_table` builds, no port is open, the current is 0 |
| EtlController.ETLController.Open | etl_controller_Optotune.py:57-70 | after a successful `connect` the port is open |
| EtlController.ETLController.Close | etl_controller_Optotune.py:77-94 | after `close` no port is open |
| EtlController.ETLController.CalcCrc | etl_controller_Optotune.py:135-143 | with the driver's table, `calc_crc` returns `Crc(data)` |
| EtlController.ETLController.SendCmd | etl_controller_Optotune.py:98-133 | raises when not connected; otherwise writes the command, with its CRC when asked; then returns nothing, raises a CRC mismatch or an empty-content IndexError, or returns the checked content |
| EtlController.ETLController.SetMode | etl_controller_Optotune.py:559-575 | one of the six names sends its command and records the name; any other name raises ValueError and sends and records nothing |
| EtlController.ETLController.GetMode | etl_controller_Optotune.py:549-558 | sends `MMA`, records and returns the name of code `r[3]`; a short reply raises IndexError and an unknown code KeyError, leaving the mode unchanged |
| EtlController.ETLController.SetTempLimits | etl_controller_Optotune.py:408-415 | lower > upper or an overflowing payload raises before anything is written; otherwise the `TempLimitsCommand` frame is written with its CRC when connected, and the signed values at `r[5:7]` and `r[3:5]` are returned |
| EtlController.ETLController.SetGain | etl_controller_Optotune.py:278-288 | values outside [0, 5], or a payload that does not fit two bytes, raise before anything is written; otherwise the `GainCommand` frame is written with its CRC when connected, and the status byte and the unsigned values at `r[3:5]` and `r[5:7]` are returned |
| EtlController.ETLController.SetCurrent | etl_controller_Optotune.py:309-321 | a DAC value that fits 16 signed bits is sent with a CRC, without waiting, and the current is recorded; an overflow raises and changes nothing |
| EtlController.CheckReply | etl_controller_Optotune.py:121-130 | accepted content is never empty; with a CRC it is all but the last four bytes of a reply longer than four, whose bytes -4..-2 are its CRC; without a CRC the whole reply is the content, and the empty reply raises IndexError (see also `CheckReplyAccepts`) |
| EtlController.FrameLayout | etl_controller_Optotune.py:115-119 | a frame is the command, followed by its CRC low byte first when a CRC is included |
| EtlController.CheckReplyAccepts | etl_controller_Optotune.py:121-127 | a reply is accepted, and returns its content, exactly when it has more than four bytes and bytes -4..-2 are the CRC of all but the last four; the content is those bytes |
| EtlController.ShortReplyMismatch | etl_controller_Optotune.py:123-127 | a reply shorter than four bytes is always a CRC mismatch |
| EtlController.ReplyRoundTrip | etl_controller_Optotune.py:121-133 | content, its CRC and any two-byte terminator pass the check and give back the content |
| EtlController.EmptyReplyContent | etl_controller_Optotune.py:124-130 | a well-formed reply with no content fails on `resp_content[0]` |
| EtlController.PlainReply | etl_controller_Optotune.py:128-130 | without a CRC the whole reply is the content, and only the empty reply fails |
| EtlController.FrameEcho | etl_controller_Optotune.py:115-127 | a frame the driver writes, echoed back with `\r\n`, passes the driver's own reply check |
| EtlController.ModeCommandInjective | etl_controller_Optotune.py:560-571 | no two mode names share a command |
| EtlController.ModeCommandShape | etl_controller_Optotune.py:560-571 | every set command is `Mw`, a letter and `A` |
| EtlController.SettableReadable | etl_controller_Optotune.py:550-571 | every settable mode reads back as itself; `position` is the only readable mode that cannot be set |
| EtlController.SetModeRejects | etl_controller_Optotune.py:572-573 | an unknown name raises ValueError whatever the port does; a known name with a good reply succeeds |
| EtlController.GetModeRoundTrip | etl_controller_Optotune.py:550-558 | a well-formed reply carrying code 1..7 at index 3 reads as that code's name |
| EtlController.Be16RoundTrip | etl_controller_Optotune.py:209-212 | the signed big-endian 16-bit encoding succeeds exactly on [-32768, 32767] and decodes back to the value |
| EtlController.TempLimitsPayload | etl_controller_Optotune.py:409-413 | lower > upper raises ValueError; otherwise the command is `PwTA`, upper*16, lower*16, each decoding back, and it fails only on overflow |
| EtlController.GainPayload | etl_controller_Optotune.py:279-283 | a gain outside [0, 5] raises ValueError; inside it, `int(value*100)` (an input, computed on doubles) raises OverflowError unless it fits two unsigned bytes, and otherwise the command is `Ow` followed by it big-endian |
| IntBytes.FromBytesToBytes | etl_controller_Optotune.py:210-212 | a value that fits n bytes encodes and decodes back to itself |
| IntBytes.ToBytesFromBytes | etl_controller_Optotune.py:210-212 | decoding n bytes and encoding into n bytes gives the same bytes |
| IntBytes.DecodeEncodeLE | motion_controller_Thorlabs_MCM3000.py:98 | little-endian encoding is undone by little-endian decoding |
| ThorlabsMcm3000.MotionController.constructor | motion_controller_Thorlabs_MCM3000.py:44-49 | the encoder offset and position start at int(25400 / 0.21166666) = 120000, with no port |
| ThorlabsMcm3000.MotionController.Write | motion_controller_Thorlabs_MCM3000.py:118-123 | a write reaches the port only when it exists; the exception is swallowed otherwise |
| ThorlabsMcm3000.MotionController.SetIniPosition | motion_controller_Thorlabs_MCM3000.py:114-123 | sends the set-encoder-counter message with the encoder offset, or raises when the offset does not fit 32 bits |
| ThorlabsMcm3000.MotionController.Connect | motion_controller_Thorlabs_MCM3000.py:64-76 | the port opens and the encoder counter is initialised |
| ThorlabsMcm3000.MotionController.GetCurrentPosition | motion_controller_Thorlabs_MCM3000.py:78-107 | sends the position request; the encoder position changes only on a reply with the right header, to the unsigned value of its last four bytes |
| ThorlabsMcm3000.MotionController.MoveRel | motion_controller_Thorlabs_MCM3000.py:129-142 | re-reads the position, then sends the move to position plus delta, or raises when the target does not fit 32 bits |
| ThorlabsMcm3000.MotionController.Stop | motion_controller_Thorlabs_MCM3000.py:159-166 | sends the stop message when the port exists |
| ThorlabsMcm3000.ParsePosition | motion_controller_Thorlabs_MCM3000.py:97-98 | a reply is read exactly when it is at least six bytes long and starts with the header `0B 04 06 00 00 00`; the position is then the unsigned little-endian value of its last four bytes, below 2^32 (see also `ReplyRoundTrip`, `ReplyRejected`) |
| ThorlabsMcm3000.PackLongRoundTrip | motion_controller_Thorlabs_MCM3000.py:134 | `struct.pack("<l")` succeeds exactly on signed 32-bit values, gives four bytes and is undone by the signed decode |
| ThorlabsMcm3000.SignedUnsignedAsymmetry | motion_controller_Thorlabs_MCM3000.py:84-98 | unsigned decoding of a packed count is the count when it is non-negative and count + 2^32 otherwise |
| ThorlabsMcm3000.MessageIds | motion_controller_Thorlabs_MCM3000.py:86-160 | the fixed frames carry the ids 0x0409, 0x0453, 0x040A, 0x040B and 0x0465 little-endian, and the request and stop frames are 6 bytes |
| ThorlabsMcm3000.DataMessageLayout | motion_controller_Thorlabs_MCM3000.py:117-135 | both data messages are 12 bytes: their prefix, a length field equal to the bytes after the header, and the count decoding back |
| ThorlabsMcm3000.OffsetFits | motion_controller_Thorlabs_MCM3000.py:114-117 | the initial offset always fits the set-encoder message |
| ThorlabsMcm3000.ReplyRoundTrip | motion_controller_Thorlabs_MCM3000.py:97-98 | a reply with the right header and any channel gives back the count in its last four bytes |
| ThorlabsMcm3000.ReplyRejected | motion_controller_Thorlabs_MCM3000.py:97-99 | a reply whose first six bytes are not the header is ignored |
| ThorlabsMcm3000.CountEcho | motion_controller_Thorlabs_MCM3000.py:114-117 | a count set and reported back unchanged reads as itself exactly when it is non-negative |
| LightsheetGenerator.BuildWaveform | lightsheet_generator.py:180-190 | fewer than two samples raises ValueError; otherwise the rows are the galvo and laser waveforms side by side |
| LightsheetGenerator.SetInterior | lightsheet_generator.py:183 | `a[1:-1] = values` overwrites exactly the interior |
| LightsheetGenerator.AddScalar | lightsheet_generator.py:184 | every sample is raised by the offset |
| LightsheetGenerator.FillToLast | lightsheet_generator.py:188 | `a[lo:-1] = x` sets exactly the samples from lo up to, but not including, the last |
| LightsheetGenerator.ColumnStack | lightsheet_generator.py:190 | row k pairs sample k of both columns |
| LightsheetGenerator.NumSetting | lightsheet_generator.py:138-144 | a missing key raises KeyError, a non-number TypeError; otherwise the number |
| LightsheetGenerator.LightsheetGenerator.constructor | lightsheet_generator.py:37-42 | starts with the module config, no task, not initialised, status OFF |
| LightsheetGenerator.LightsheetGenerator.CreateDaqmxTask | lightsheet_generator.py:77-86 | the task exists afterwards |
| LightsheetGenerator.LightsheetGenerator.SetupLs | lightsheet_generator.py:136-156 | raises on the laser assertion, a bad setting or too few samples; does nothing without a task; otherwise writes the selected arm's waveform and sets status ON and initialised |
| LightsheetGenerator.LightsheetGenerator.UpdateConfig | lightsheet_generator.py:199-205 | only an existing key is written and the key set never changes; then `setup_ls` runs on the new config: its result, and its buffer, status and initialised flag, are those `SetupOutcome` gives |
| LightsheetGenerator.LinspaceShape | lightsheet_generator.py:181 | linspace ends at stop and is evenly spaced |
| LightsheetGenerator.LinspaceMonotone | lightsheet_generator.py:181 | with start <= stop linspace never decreases |
| LightsheetGenerator.GalvoEndpoints | lightsheet_generator.py:180-184 | the first and last galvo samples sit at the offset |
| LightsheetGenerator.GalvoSweepEnds | lightsheet_generator.py:181-184 | sample 1 is offset - amp/2, and with four or more samples sample n-2 is offset + amp/2 |
| LightsheetGenerator.GalvoSweepSteps | lightsheet_generator.py:181-183 | consecutive interior samples differ by amp / (n - 3) |
| LightsheetGenerator.GalvoSweepMonotone | lightsheet_generator.py:181-184 | with amp >= 0 the interior never decreases |
| LightsheetGenerator.LaserGate | lightsheet_generator.py:186-188 | the laser is 0 before the delay and on the last sample, and at the laser voltage in between |
| LightsheetGenerator.LaserOnlyDuringSweep | lightsheet_generator.py:180-188 | with a delay of one sample or more the laser is on only while the galvo is inside its sweep range |
| LightsheetGenerator.DefaultSettings | lightsheet_generator.py:20-29 | the default config passes the laser check and selects the left arm's settings |
| LightsheetGenerator.LaserTooHigh | lightsheet_generator.py:138 | the laser check passes exactly when power <= maximum; otherwise setup raises AssertionError, with or without a task |
| LightsheetGenerator.NoTaskNoWrite | lightsheet_generator.py:139-156 | without a task a passing laser check writes nothing |
| LightsheetGenerator.ArmSelection | lightsheet_generator.py:141-148 | `left` selects the L offset and amplitude and any other value the R ones; the rows written are that arm's waveform with the laser voltage |
| CameraProperties.LowerAscii | devices/hamamatsu_camera.py:232 | ASCII upper-case letters go to lower case, every other character is kept |
| CameraProperties.ConvertPropertyName | devices/hamamatsu_camera.py:227-232 | same length; each space becomes `_`, each other character is lowered |
| CameraProperties.ConvertedIsNormal | devices/hamamatsu_camera.py:227-232 | a normalised name has no spaces and no upper-case letters |
| CameraProperties.ConvertIdempotent | devices/hamamatsu_camera.py:227-232 | normalising twice is normalising once |
| CameraProperties.GetPropertyRW | devices/hamamatsu_camera.py:498-510 | two flags, [readable, writable]; `RWFromFields` shows they are the two attribute bits for every attribute word |
| CameraProperties.RWFromFields | devices/hamamatsu_camera.py:498-510 | every attribute word, split into higher bits, the writable and readable bits and 16 low bits, reads as [readable, writable], whatever the other bits |
| CameraProperties.GetPropertyValue | devices/hamamatsu_camera.py:556-592 | an unknown name gives no value; otherwise the type is the one `attr & 0xF` selects |
| CameraProperties.PropertyType | devices/hamamatsu_camera.py:577-589 | MODE, LONG and REAL are exactly the bit patterns 0001, 0010 and 0011 of the four low attribute bits, negative words included; anything else is NONE (see also `TypeDispatch`) |
| CameraProperties.TypeDispatch | devices/hamamatsu_camera.py:577-590 | only the low four bits decide: 1 is MODE and 2 LONG, both truncated to int; 3 is REAL, kept as is; anything else is NONE with value False |
| CameraProperties.ClampToRange | devices/hamamatsu_camera.py:696-703 | for a non-empty range the result lies in it, and in-range values pass through |
| CameraProperties.ClampNearest | devices/hamamatsu_camera.py:696-703 | the clamped value is the point of the range nearest to the request |
| CameraProperties.ClampMonotone | devices/hamamatsu_camera.py:696-703 | the clamp never reverses the order of two requests |
| CameraProperties.SetPropertyRequest | devices/hamamatsu_camera.py:676-707 | fails exactly for an unknown property or an unknown text option; otherwise sends the property's id and a value inside the range |
| CameraProperties.SetPropertyPassThrough | devices/hamamatsu_camera.py:682-707 | a known property with an in-range number, or a known option's number, reaches the device unchanged |
| CameraProperties.InsertByValue | devices/hamamatsu_camera.py:807 | inserting keeps the entries sorted by value and adds exactly one entry |
| CameraProperties.SortByValue | devices/hamamatsu_camera.py:807 | the result is sorted by value and a permutation of the entries |
| CameraProperties.SortedTextOptions | devices/hamamatsu_camera.py:802-807 | one name per option; `SortedTextOptionsSpec` shows the names are a permutation of the keys in non-decreasing order of value |
| CameraProperties.SortedTextOptionsSpec | devices/hamamatsu_camera.py:802-807 | the sorted names are a permutation of the option keys, in non-decreasing order of their values |
| HamamatsuCamera.HamamatsuCamera.constructor | devices/hamamatsu_camera.py:278-297 | counters, frame geometry and buffer count start at 0, mode run_till_abort |
| HamamatsuCamera.HamamatsuCamera.CaptureSetup | devices/hamamatsu_camera.py:327-342 | buffer index -1, frame number 0, and the frame geometry reported by the device |
| HamamatsuCamera.HamamatsuCamera.NewFrames | devices/hamamatsu_camera.py:603-673 | the new slots are `NewFrameList(old index, cur, ring size)`; overrun exactly when the backlog exceeds the ring; max backlog, frame number and index updated |
| HamamatsuCamera.HamamatsuCamera.AppendRange | devices/hamamatsu_camera.py:660-668 | each append loop adds exactly `range(a, b)` shifted by its offset |
| HamamatsuCamera.HamamatsuCamera.SetACQMode | devices/hamamatsu_camera.py:730-744 | succeeds exactly when the current mode is a known one, then stores the new mode and frame count; otherwise raises and changes nothing |
| HamamatsuCamera.HamamatsuCamera.AllocateBuffers | devices/hamamatsu_camera.py:764-776 | ten seconds of frames for run_till_abort, the frame count for fixed_length, an unbound-variable error for any other mode |
| HamamatsuCamera.HamamatsuCamera.StartAcquisition | devices/hamamatsu_camera.py:747-762 | capture setup, then allocation; fails exactly for an unknown mode, with UnboundLocalError and the buffer count unchanged |
| HamamatsuCamera.HamamatsuCamera.StopAcquisition | devices/hamamatsu_camera.py:778-792 | max backlog and buffer count drop to 0 |
| HamamatsuCamera.NewHCamData | devices/hamamatsu_camera.py:247-253 | a buffer of `size` bytes holds `int(size/2)` 16-bit samples |
| HamamatsuCamera.PyIndex | devices/hamamatsu_camera.py:856 | an index in [0, len) gives that element, one in [-len, 0) the element counted from the end; one outside [-len, len) raises IndexError |
| HamamatsuCamera.HamamatsuCameraMR.constructor | devices/hamamatsu_camera.py:835-840 | no buffers, no pointer array, old frame size -1, over a fresh base camera whose counters, buffer count, frame count and frame geometry are 0 in run_till_abort |
| HamamatsuCamera.HamamatsuCameraMR.AllocateFrames | devices/hamamatsu_camera.py:884-890 | exactly n buffers, each of the frame size |
| HamamatsuCamera.HamamatsuCameraMR.StartAcquisition | devices/hamamatsu_camera.py:860-892 | reallocates only when the frame size changed or the mode is fixed_length: the frame count for fixed_length, else min(2^31 div frame bytes, 2000), that many buffers of the frame size; otherwise buffers untouched; zero frame bytes raise ZeroDivisionError and a negative count ValueError, both leaving the buffers, the pointer array and the old frame size as they were; there is no precondition, so a failed start can be retried, and the buffers match the bookkeeping again after every successful reallocation |
| HamamatsuCamera.HamamatsuCameraMR.GetFrames | devices/hamamatsu_camera.py:844-858 | the buffers of the new slots and the frame geometry; IndexError for a slot without a buffer, which cannot happen while both indices are inside the ring |
| HamamatsuCamera.HamamatsuCameraMR.CopyFrames | devices/hamamatsu_camera.py:854-856 | the copy loop returns `Gather` of the slots |
| HamamatsuCamera.HamamatsuCameraMR.StopAcquisition | devices/hamamatsu_camera.py:921-937 | only the max backlog is reset; the buffers are kept |
| HamamatsuCamera.NoWrapFrames | devices/hamamatsu_camera.py:666-668 | without a wrap the new slots are index+1 .. cur in order, none when the index did not move |
| HamamatsuCamera.FramesInRing | devices/hamamatsu_camera.py:660-668 | with both indices in the ring, slot k is (index + 1 + k) mod n, lies in [0, n), no slot repeats, and the last is cur |
| HamamatsuCamera.FirstCheckAfterSetup | devices/hamamatsu_camera.py:333-334 | after capture setup the first check lists slots 0 .. cur |
| HamamatsuCamera.ConsecutiveChecks | devices/hamamatsu_camera.py:666-669 | two checks without a wrap list together what one check over both would list |
| HamamatsuCamera.Gather | devices/hamamatsu_camera.py:854-856 | one frame per listed slot when every slot is a valid Python index; `GatherInRing` shows this always holds inside the ring and gives the frames |
| HamamatsuCamera.GatherInRing | devices/hamamatsu_camera.py:854-856 | with both indices in the ring every listed slot has a buffer and the frames are those buffers |
| CamController.PropertyFromDict | devices/hamamatsu_camera.py:1082-1107 | KeyError exactly for an unconfigured name; a setting exactly when the configured option is in the table, under the device's name and with the option's number |
| CamController.CamController.constructor | devices/hamamatsu_camera.py:955-959 | starts with the module config and nothing sent |
| CamController.CamController.SetPropertyFromDict | devices/hamamatsu_camera.py:1082-1107 | sends the setting `PropertyFromDict` finds, and nothing otherwise |
| CamController.CamController.UpdateConfig | devices/hamamatsu_camera.py:1169-1174 | only an existing key is written; the key set never changes |
| CamController.DevicePropertyName | devices/hamamatsu_camera.py:1085-1103 | exactly the eight trigger properties get a different device name, every other name is passed through; `DeviceNamesDistinct` shows no two trigger properties share a device name |
| CamController.DefaultTriggerSettings | devices/hamamatsu_camera.py:1021-1056 | with the default config, trigger-in mode NORMAL and trigger-out kind EXPOSURE reach `trigger_mode` = 1 and `output_trigger_kind[0]` = 2 |
| CamController.UnknownOptionSendsNothing | devices/hamamatsu_camera.py:1085-1107 | an option set to something outside the table sends nothing |
| CamController.DeviceNamesDistinct | devices/hamamatsu_camera.py:1087-1104 | the nine trigger properties map to distinct device names |

## Left out

- Serial ports, DAQmx tasks and the DCAM library are not modelled. Their results are method parameters and their writes are lists. Port opening, flushing, handshakes and the blocking frame wait are not modelled.
- The GUI layer is not modelled: `kekse`, `widget`, signals and every `_setup_gui`/`_update_gui`. Logging is not modelled either.
- Floating-point unit conversions are not modelled: µm to counts, mA to DAC, the gain's `int(value*100)`, focal power and temperature scaling, `samples_per_ch` from the sample rate, and the frame rate. Their integer results are inputs, computed by Python on doubles (the gain 0.29 gives 28, not 29).
- `CameraProperties.LowerAscii`: covers ASCII letters only. Python's `str.lower` also lowers non-ASCII letters; DCAM property names are ASCII.
- `CameraProperties.SortedTextOptionsSpec`: does not state that ties keep dictionary order. `SortByValue` is stable, like Python's `sorted`, but no lemma says so.
- `CameraProperties.SetPropertyRequest`: covers the decision and the value sent. `dcamprop_setgetvalue` and the value it returns belong to the vendor library.
- `getPropertyRange` is not modelled separately. It converts to float or int according to the type; its bounds are the `lo`/`hi` inputs of `SetPropertyRequest`.
- `HamamatsuCamera.HamamatsuCamera.SetACQMode`, `HamamatsuCamera.HamamatsuCamera.AllocateBuffers`, `HamamatsuCamera.HamamatsuCamera.StartAcquisition` and `HamamatsuCamera.HamamatsuCameraMR.StartAcquisition`: the source compares the mode with `is`, an identity test; the model uses string equality. A mode string equal to `"fixed_length"` or `"run_till_abort"` but not interned (built at run time, say) fails those tests in Python: `setACQMode` raises DCAMException and `allocateBuffers` UnboundLocalError, where the model succeeds.
- `HamamatsuCamera.HamamatsuCamera.SetACQMode`: `number_frames=None` is not modelled; the frame count is an integer. The same holds for `HamamatsuCamera.HamamatsuCameraMR.StartAcquisition`.
- `HamamatsuCamera.HamamatsuCameraMR.StartAcquisition`: frame bytes are taken as non-negative. `int(2^31 / frame_bytes)` is modelled as integer division, which agrees with the float division for every positive frame size below 2^53.
- The buffer attach and `dcamcap_start` calls are not modelled. The base camera's `getFrames` is not modelled: it copies frames out through `dcambuf_lockframe`.
- `HamamatsuCamera.HamamatsuCameraMR.constructor`: the `setPropertyValue("output_trigger_kind[0]", 2)` call is not modelled; it only reaches the device.
- `HamamatsuCamera.HamamatsuCamera.NewFrames`: the overrun warning is printed in the source. The model returns it as a flag.
- Sharing frame buffers between threads (the warning on `HamamatsuCameraMR`) is a concurrency matter and is not modelled.
- `EtlController.ETLController.SendCmd`: the `resp_content[0] == b'E'` branch is not modelled. In Python 3 it compares an int with bytes, so it never fires.
- `EtlController.ETLController.Open`: the handshake and the initial `set_current` of `connect` are not modelled.
- `EtlController.ETLController.Close`: the soft-close current ramp with `sleep` is not modelled.
- `EtlController.ETLController.SetTempLimits`: returns the raw signed values. The `/200 - 5` float scaling is not modelled.
- `EtlController.ETLController.SetGain`: returns the raw unsigned values. The `/200 - 5` float scaling is not modelled.
- The getter forms of `gain`, `temp_limits` and the current limits are not modelled, nor are the remaining lens commands. These include firmware queries, signal generator settings, focal power, EEPROM access and temperature readings. Each is a fixed command followed by a float conversion of the reply.
- `OptotuneCrc.EmptyCrc`: the standard check value 0xBB3D for "123456789" is not stated as a lemma. The CRC is instead proved equal to the bit-by-bit CRC-16/ARC definition for every input.
- `ThorlabsMcm3000.MotionController.GetCurrentPosition`: only the `'count'` unit is modelled. `position_um` is a float conversion.
- The Thorlabs `move_abs`, `is_axis_busy` and the stage model switch are not modelled. `move_abs` and `is_axis_busy` are a float conversion and a placeholder. The model switch only sets constants, and the ZFM2020 branch is the constructor.
- `LightsheetGenerator.NumSetting`: every non-numeric setting is treated as a TypeError. Python would still compare or add some of them: two strings or two booleans, and a boolean with a number (`True <= 1.0`, `True + 0.5`).
- `LightsheetGenerator.LightsheetGenerator.constructor`: starts with a copy of the module config. Python binds the module dict itself, so an `update_config` on one generator changes the config every later generator starts with; the model does not capture that aliasing.
- `CamController.CamController.constructor`: starts with a copy of the module config. Python binds the module dict itself, so an `update_config` on one controller changes the config every later controller starts with; the model does not capture that aliasing.
- The Arduino switcher of the light-sheet generator is not modelled, nor is the `setup_arduino` call in `update_config`: serial command strings only.
- `setup_triggers` as a whole is not modelled. Its option tables and the single-property step `_set_property_from_dict` are modelled.
