# EPOS IoT gateway and TSTP core, modelled in Dafny

This project models the logic parts of an EPOS-based wireless sensor network, which span several components:

- The Python gateway daemon turns Modbus-ASCII frames read from a mote into time-series data points. It also turns HTTP actuator requests into Modbus write frames.
- The TSTP protocol of the embedded OS packs microframes, packet headers and SI units into bit fields.
- The TSTP MAC keeps a schedule of buffers waiting to be sent.
- The CC2538 radio driver converts timer units, maps channels, clears interrupt flags and runs a ring of receive buffers.
- The `eposcfg` tool answers queries about the build configuration.
- An IA32 mediator decodes the core temperature from two model-specific registers.

Each module models one source file or one component, except `Wrappers` and `PyText`. Those two hold the shared result types and the Python built-ins that the gateway's files rely on.

| module | what it models |
|---|---|
| `Wrappers` | Option and Result types |
| `PyText` | the Python string and integer semantics the gateway relies on: slicing, `int(s, 16)`, `'{:02x}'`, `hex`, `upper`, `split`, `str`, `int.from_bytes` |
| `Modbus` | the Modbus-ASCII codec |
| `GatewayHttp` | HTTP requests turned into Modbus write frames |
| `GatewaySerial` | serial lines turned into data points |
| `Tstp` | the TSTP bit-packed structures |
| `TstpMac` | the MAC transmit schedule |
| `Cc2538` | the CC2538 timer, radio flags and NIC |
| `EposCfg` | the configuration tool |
| `Thermal` | the thermal decode |

Pure code is modelled as functions with lemmas about them. Code that updates state becomes classes:

- `Tstp.Microframe` and `Tstp.Header` for the packed fields (the microframe follows the code as written; its `StoredId()` is what the corrected getter returns);
- `TstpMac.Mac` for the schedule;
- `Cc2538.Rf` and `Cc2538.Nic` for the registers, the ring and the statistics;
- `EposCfg.Tool` for the filled tables.

Each loop is a method proved against a specification function.

Integer widths are explicit where they matter:

- the 16-bit microframe word, the 8-bit header byte and the 32-bit unit word are bit-vectors;
- the 64-bit `Time_Stamp` arithmetic of the timer wraps modulo 2^64;
- the thermal decode works on 64-bit register words and truncates to 32 bits.

## Model

| member | source | states |
|---|---|---|
| PyText.Slice | code/tools/eposiotgw/gateway_daemon/modbus/__init__.py:57-69 | Python slicing with negative and out-of-range bounds clamped; never longer than the sequence |
| PyText.SliceInside | code/tools/eposiotgw/gateway_daemon/modbus/__init__.py:57-63 | inside the bounds, a Python slice is the plain subsequence |
| PyText.LowerHex | code/tools/eposiotgw/gateway_daemon/serial.py:38 | the hex digits `hex` prints read back as the number, and there is a single digit exactly below 16 |
| PyText.Format02x | code/tools/eposiotgw/gateway_daemon/modbus/__init__.py:101-106 | `'{:02x}'` gives at least two characters, and exactly two for a byte |
| PyText.UpperFormat02x | code/tools/eposiotgw/gateway_daemon/modbus/__init__.py:106-109 | an upper-cased `'{:02x}'` of a byte is its two upper-case hex digits |
| PyText.PyHexSplit | code/tools/eposiotgw/gateway_daemon/serial.py:38 | `hex(n).split('x')` is the sign with "0", then the digits of the magnitude |
| PyText.HexValueUpper | code/tools/eposiotgw/gateway_daemon/serial.py:38 | upper-casing hex digits keeps their value |
| PyText.ParseHex2 | code/tools/eposiotgw/gateway_daemon/modbus/__init__.py:57-71 | `int(s, 16)` reads two hex digits of a byte back as the byte |
| PyText.ParseHexIntsAt | code/tools/eposiotgw/gateway_daemon/modbus/__init__.py:71 | the list comprehension over `int(byte, 16)` succeeds exactly when every chunk parses, element by element |
| PyText.ParseHexInt | code/tools/eposiotgw/gateway_daemon/modbus/__init__.py:57-71 | `int(s, 16)`: optional white space, sign, `0x` prefix and single underscores, or ValueError; its contract is stated by ParseHex2, ParseHexIntAsciiSpace and ParseHexIntRejectsSeparators |
| PyText.ParseHexIntAsciiSpace | code/tools/eposiotgw/gateway_daemon/modbus/__init__.py:57-71 | ASCII white space around a literal is ignored: `int(' \t5\n', 16)` is 5 |
| PyText.ParseHexIntRejectsSeparators | code/tools/eposiotgw/gateway_daemon/modbus/__init__.py:57-71 | `int()` does not strip U+001C..U+001F: `int('\x1c5', 16)` and `int('5\x1f', 16)` raise ValueError |
| PyText.SplitJoin | code/tools/eposiotgw/gateway_daemon/http.py:74-75 | joining the parts of `split` with the separator gives the string back |
| PyText.SplitParts | code/tools/eposiotgw/gateway_daemon/http.py:74-75 | no part of `split` contains the separator |
| PyText.SplitCount | code/tools/eposiotgw/gateway_daemon/http.py:74 | `split` yields one more part than there are separators |
| PyText.Split | code/tools/eposiotgw/gateway_daemon/http.py:74 | `str.split` on a one-character separator, never empty; its contract is stated by SplitJoin, SplitParts, SplitCount and SplitOfJoin |
| PyText.Join | code/tools/eposiotgw/gateway_daemon/http.py:75 | `sep.join(parts)`; split inverts it on separator-free parts (SplitOfJoin) and it inverts split (SplitJoin) |
| PyText.SplitOfJoin | code/tools/eposiotgw/gateway_daemon/http.py:74-75 | splitting a join of separator-free parts gives the parts back |
| PyText.DecimalRoundTrip | code/tools/eposiotgw/gateway_daemon/serial.py:38-39 | `str` of a natural number reads back as that number |
| PyText.BigEndianPair | code/tools/eposiotgw/gateway_daemon/serial.py:32 | `int.from_bytes(..., 'big')` of two bytes is 256·hi + lo |
| Modbus.Chunks | code/tools/eposiotgw/gateway_daemon/modbus/__init__.py:15-26 | `chunks` raises ValueError exactly for n = 0, as `range` does, and yields nothing for a negative n |
| Modbus.PiecesCover | code/tools/eposiotgw/gateway_daemon/modbus/__init__.py:15-39 | the chunks concatenate back to the sequence; each has 1..n elements and all but the last have exactly n |
| Modbus.ChunksRejoin | code/tools/eposiotgw/gateway_daemon/modbus/__init__.py:29-39 | for n > 0, `string_chunks` succeeds and its chunks rejoin to the string |
| Modbus.StringChunks | code/tools/eposiotgw/gateway_daemon/modbus/__init__.py:29-39 | `string_chunks(string, n)`, the chunks of Chunks rejoined; its contract is stated by Chunks, PiecesCover and ChunksRejoin |
| Modbus.Lrc | code/tools/eposiotgw/gateway_daemon/modbus/__init__.py:103-104 | the LRC byte added to the byte sum is 0 modulo 256 |
| Modbus.LrcUnique | code/tools/eposiotgw/gateway_daemon/modbus/__init__.py:103-104 | any byte that zeroes the sum modulo 256 is the LRC |
| Modbus.LrcBitwise | code/tools/eposiotgw/gateway_daemon/modbus/__init__.py:104 | `((x ^ 0xFF) + 1) & 0xFF` on a byte is the LRC, the two's complement of MODBUS over Serial Line V1.02 section 6.2.1 |
| Modbus.XorFF | code/tools/eposiotgw/gateway_daemon/modbus/__init__.py:104 | Python's `x ^ 0xFF` on an int of any sign flips the low byte (255 minus it) and keeps the bits above |
| Modbus.XorFFLowByte | code/tools/eposiotgw/gateway_daemon/modbus/__init__.py:104 | the low byte of XorFF is the eight-bit complement of x's low byte |
| Modbus.LrcPython | code/tools/eposiotgw/gateway_daemon/modbus/__init__.py:103-104 | `((lrc ^ 0xFF) + 1) & 0xff` on the sum as an unbounded, possibly negative int is the LRC of the sum |
| Modbus.LrcOf | code/tools/eposiotgw/gateway_daemon/modbus/__init__.py:103-104 | the LRC of 256q + k is 0 for k = 0 and 256 − k otherwise |
| Modbus.LrcLowByte | code/tools/eposiotgw/gateway_daemon/modbus/__init__.py:103-104 | the LRC depends on the sum modulo 256 only |
| Modbus.Build | code/tools/eposiotgw/gateway_daemon/modbus/__init__.py:101-109 | the frame has 2n + 9 characters for a one-byte address and command, and at least that many otherwise |
| Modbus.BuildLayout | code/tools/eposiotgw/gateway_daemon/modbus/__init__.py:101-109 | a built frame is ':' + address + command + payload + LRC in upper-case hex, followed by CR LF |
| Modbus.Encode | code/tools/eposiotgw/gateway_daemon/modbus/__init__.py:101-109 | the payload written as two lower-case hex digits per byte, twice as long as the payload; UpperEncode states that upper-casing it gives HexBytes |
| Modbus.HexBytes | code/tools/eposiotgw/gateway_daemon/modbus/__init__.py:101-109 | the upper-case hex pairs of the payload, twice as long; ParseHexBytes states that its two-character chunks parse back to the bytes |
| Modbus.UpperEncode | code/tools/eposiotgw/gateway_daemon/modbus/__init__.py:101-109 | the upper-cased payload encoding is two upper-case hex digits per byte |
| Modbus.FieldsOfLayout | code/tools/eposiotgw/gateway_daemon/modbus/__init__.py:101-109 | a frame of that layout has length 2n + 7, starts with ':', is upper-case hex after it, and each field reads back with `int(..., 16)` |
| Modbus.TestFrameLrc | code/tools/eposiotgw/gateway_daemon/modbus/tests.py:8-36 | the LRC of the test frame for address 0xA0, command 3 and payload "abcdefghijk" is 0xFB |
| Modbus.TestPayloadHex | code/tools/eposiotgw/gateway_daemon/modbus/tests.py:8-36 | the payload "abcdefghijk" is written as the pairs 6162636465666768696A6B |
| Modbus.TestFrameBuild | code/tools/eposiotgw/gateway_daemon/modbus/tests.py:8-36 | `build(0xA0, 0x03, b'abcdefghijk')` is exactly `':A0036162636465666768696A6BFB'` followed by CR LF |
| Modbus.PackBytes | code/tools/eposiotgw/gateway_daemon/modbus/__init__.py:72 | `struct.pack('B')` over the list succeeds exactly when every value is a byte, and keeps the values |
| Modbus.ParseRejectsEmpty | code/tools/eposiotgw/gateway_daemon/modbus/__init__.py:51-52 | parsing the empty string raises ValueError |
| Modbus.ParseRejectsNoColon | code/tools/eposiotgw/gateway_daemon/modbus/__init__.py:54-55 | a message not starting with ':' raises ValueError |
| Modbus.ParseRejectsHello | code/tools/eposiotgw/gateway_daemon/modbus/tests.py:13-16 | parsing "hello" raises ValueError |
| Modbus.ParseAccepted | code/tools/eposiotgw/gateway_daemon/modbus/__init__.py:51-85 | an accepted message starts with ':', and address + command + size field + payload sum + LRC field is 0 modulo 256 |
| Modbus.ParseFields | code/tools/eposiotgw/gateway_daemon/modbus/__init__.py:57-85 | once the fields parse, the message is accepted exactly when the LRC matches, and it returns address, command, payload and the slices from 15, 55 and 65 |
| Modbus.ParseHexBytes | code/tools/eposiotgw/gateway_daemon/modbus/__init__.py:71 | the 2-character chunks of a hex encoding parse back to the bytes |
| Modbus.ParseBody | code/tools/eposiotgw/gateway_daemon/modbus/__init__.py:71-85 | parsing a built frame without CR LF returns its address and command, and the payload without its first byte, which is read as the size field (see also lines 57-63, 106-109) |
| Modbus.ParseBuild | code/tools/eposiotgw/gateway_daemon/modbus/__init__.py:71-85 | the same, stated for the output of `build` with its last two characters cut (see also lines 57-63, 101-109) |
| Modbus.ParseRejectsWrongLrc | code/tools/eposiotgw/gateway_daemon/modbus/__init__.py:74-83 | a frame whose LRC field is not the LRC of its bytes raises ValueError |
| Modbus.Parse | code/tools/eposiotgw/gateway_daemon/modbus/__init__.py:51-85 | `parse(message)`; its contract is stated by ParseRejectsEmpty, ParseRejectsNoColon, ParseRejectsSeparator, ParseAccepted, ParseFields, ParseBody, ParseBuild and ParseRejectsWrongLrc |
| Modbus.ParseRejectsSeparator | code/tools/eposiotgw/gateway_daemon/modbus/__init__.py:57 | a field that holds U+001C in place of a digit raises ValueError, as `int('\x1c1', 16)` does |
| GatewayHttp.PackH | code/tools/eposiotgw/gateway_daemon/http.py:36-50 | `'!H'` packs exactly the values 0..65535, as two big-endian bytes that read back as the value, and raises struct.error otherwise |
| GatewayHttp.PackHHReadBack | code/tools/eposiotgw/gateway_daemon/http.py:36-50 | `'!HH'` gives four bytes whose halves read back as the two values, exactly when both are in 0..65535 |
| GatewayHttp.WriteSingleCoil | code/tools/eposiotgw/gateway_daemon/http.py:25-36 | a coil write uses function code 5 |
| GatewayHttp.WriteSingleCoilFields | code/tools/eposiotgw/gateway_daemon/http.py:35-36 | the JSON error propagates; otherwise the result is code 5 with the big-endian pair (number, value), or struct.error when either is out of range |
| GatewayHttp.WriteHoldingRegister | code/tools/eposiotgw/gateway_daemon/http.py:39-50 | a register write uses function code 6 |
| GatewayHttp.WriteHoldingRegisterFields | code/tools/eposiotgw/gateway_daemon/http.py:49-50 | the conversion error propagates; otherwise the result is code 6 with the big-endian pair (number, truncated value), or struct.error when either is out of range |
| GatewayHttp.ModbusData | code/tools/eposiotgw/gateway_daemon/http.py:53-89 | an unknown data type raises KeyError; a built body carries code 6 exactly for 'numeric' and 5 exactly for 'binary', and its two shorts read back as the register and the value that type's reader makes of the data (`int(float(data))` or the JSON integer); any other failure is struct.error or the reader's own error |
| GatewayHttp.Decompose | code/tools/eposiotgw/gateway_daemon/http.py:59-78 | a name that does not split into exactly four '_' parts raises ValueError, and every failure is a ValueError |
| GatewayHttp.DecomposeName | code/tools/eposiotgw/gateway_daemon/http.py:74-78 | a name W_A_D_N is decomposed exactly when every address and N parse as hex, into those addresses in order, D unchanged and N |
| GatewayHttp.JoinAvoids | code/tools/eposiotgw/gateway_daemon/http.py:75 | joining parts that avoid a character with another separator avoids it too |
| GatewayHttp.Request | code/tools/eposiotgw/gateway_daemon/http.py:101-106 | a request yields a write function code, 5 or 6 |
| GatewayHttp.FramesForAt | code/tools/eposiotgw/gateway_daemon/http.py:108-110 | one frame per address, the i-th being `build(addresses[i], function, data)` |
| GatewayHttp.TransmissionsCount | code/tools/eposiotgw/gateway_daemon/http.py:101-112 | when every parameter is well formed, no error is raised, and one frame is written per (parameter, address) pair |
| GatewayHttp.TransmissionsFrom | code/tools/eposiotgw/gateway_daemon/http.py:101-112 | the frames of one parameter come in address order before those of the later parameters, and an error stops the loop |
| GatewayHttp.FramesFor | code/tools/eposiotgw/gateway_daemon/http.py:108-110 | `build(address, function, data)` for each address in order; FramesForAt states its i-th element |
| GatewayHttp.Transmissions | code/tools/eposiotgw/gateway_daemon/http.py:101-112 | the frames network() writes and the error that ends it; TransmissionsCount and TransmissionsFrom state its contract, and Network is proved to compute it |
| GatewayHttp.Network | code/tools/eposiotgw/gateway_daemon/http.py:94-114 | the nested loops write exactly the frames of the transmission sequence and stop at the first error |
| GatewayHttp.WriteFrames | code/tools/eposiotgw/gateway_daemon/http.py:108-112 | the inner loop appends the frames for the addresses in order |
| GatewaySerial.CommandName | code/tools/eposiotgw/gateway_daemon/serial.py:12-26 | command 3 is 'numeric', 1 is 'binary', and any other raises KeyError |
| GatewaySerial.CleanData | code/tools/eposiotgw/gateway_daemon/serial.py:16-20 | the loop computes the line without its trailing CR and LF characters |
| GatewaySerial.TrimLineEnd | code/tools/eposiotgw/gateway_daemon/serial.py:16-20 | `clean_data`: the line without its trailing CR and LF; TrimLineEndRemovesLineEnds, TrimLineEndIdempotent and TrimLineEndCrLf state its contract, and CleanData is proved to compute it |
| GatewaySerial.TrimLineEndRemovesLineEnds | code/tools/eposiotgw/gateway_daemon/serial.py:16-20 | the cleaned line is a prefix not ending in CR or LF, and only CR and LF were removed |
| GatewaySerial.TrimLineEndIdempotent | code/tools/eposiotgw/gateway_daemon/serial.py:16-20 | cleaning twice is cleaning once |
| GatewaySerial.TrimLineEndCrLf | code/tools/eposiotgw/gateway_daemon/serial.py:16-20 | a line without a line end is kept, and a CR LF appended to it is removed again |
| GatewaySerial.RegisterName | code/tools/eposiotgw/gateway_daemon/serial.py:38 | the register name is the upper-case hex of the magnitude of the address, without "0x" |
| GatewaySerial.RegisterNameValue | code/tools/eposiotgw/gateway_daemon/serial.py:38 | for a non-negative address the register name is hex digits that read back as the address |
| GatewaySerial.FreeDataAsWrittenFails | code/tools/eposiotgw/gateway_daemon/serial.py:23-35 | `free_data` as written always raises: the parse error, or AttributeError at `int.frombytes` |
| GatewaySerial.FreeDataAsWrittenRejectsValidFrame | code/tools/eposiotgw/gateway_daemon/serial.py:35 | even a frame that parse accepts ends in AttributeError |
| GatewaySerial.FreeDataAsWritten | code/tools/eposiotgw/gateway_daemon/serial.py:23-39 | `free_data` as written, with `int.frombytes` on line 35; FreeDataAsWrittenFails and FreeDataAsWrittenRejectsValidFrame state that it always raises |
| GatewaySerial.FreeData | code/tools/eposiotgw/gateway_daemon/serial.py:23-39 | with `int.from_bytes` on line 35 (the corrected code, see Findings): the parse error propagates, and an unknown command ends in a NameError since `command` is unbound |
| GatewaySerial.FreeDataFields | code/tools/eposiotgw/gateway_daemon/serial.py:25-39 | of the corrected `free_data`, for a parsed read frame: the register reads back as the address, the command is the value kind, offset and value read back as the big-endian values of bytes [0:2] and [2:], timestamp and SI come from [5:] and [15:], and the rest passes through |
| GatewaySerial.Mount | code/tools/eposiotgw/gateway_daemon/serial.py:43-65 | the body of `mount_request` after `free_data`: its error propagates, IndexError exactly when the coordinates have under 4 or the scale under 2 characters, and the name is register + command + offset |
| GatewaySerial.MountRequest | code/tools/eposiotgw/gateway_daemon/serial.py:41-65 | over the corrected `free_data`: errors of `free_data` propagate, and the request fails with IndexError exactly when the coordinates have under 4 or the scale under 2 characters |
| GatewaySerial.MountRequestAsWritten | code/tools/eposiotgw/gateway_daemon/serial.py:35-65 | as written, `mount_request` never returns a point: it raises the parse error, or AttributeError from line 35 |
| GatewaySerial.MountRequestFields | code/tools/eposiotgw/gateway_daemon/serial.py:43-58 | of the corrected request: the metric name is register + command + offset and starts with the register name; the value is big-endian of bytes [2:]; the tags are the coordinate and scale characters |
| GatewaySerial.MakeRequest | code/tools/eposiotgw/gateway_daemon/serial.py:67-76 | for the `mount_request` it is given: the posted point is that of the cleaned line, and every error is swallowed |
| GatewaySerial.MakeRequestAsWritten | code/tools/eposiotgw/gateway_daemon/serial.py:35-76 | as written, `make_request` posts nothing, whatever the line |
| GatewaySerial.MakeRequestCorrected | code/tools/eposiotgw/gateway_daemon/serial.py:67-76 | with the corrected `free_data`, the posted point is that of the cleaned line |
| Tstp.ScaleCode | code/include/tstp.h:48-53 | each scale is a 2-bit code |
| Tstp.ScaleFor | code/include/tstp.h:20-54 | SCALE is the smallest scale whose node bound (10, 100, 10000, unbounded) covers NODES |
| Tstp.ScaleForMonotone | code/include/tstp.h:54 | more nodes never select a smaller scale |
| Tstp.CountOf | code/include/tstp.h:101 | the count is an 11-bit field |
| Tstp.Pack | code/include/tstp.h:99-122 | the packed word holds count & 0x7ff, the all_listen flag and the nibble, each reading back through its getter |
| Tstp.MicroframeWordAsWritten | code/include/tstp.h:98-99 | the constructor's word as written: count and all_listen read back, but the nibble is the id's low nibble |
| Tstp.MicroframeWord | code/include/tstp.h:98-113 | the corrected constructor word stores the id's high nibble, as the setter does |
| Tstp.DecCountWord | code/include/tstp.h:102-107 | a positive count drops by one with all_listen kept; a zero count wraps to 0x7ff and sets all_listen; the nibble is kept |
| Tstp.SetIdWord | code/include/tstp.h:110-113 | the id setter stores the id's bits 8..11 in the low nibble and keeps the upper 12 bits, so count and all_listen are kept |
| Tstp.SetAllListenWord | code/include/tstp.h:116-121 | the flag becomes b and every other bit is kept |
| Tstp.IdOfAsWritten | code/include/tstp.h:109 | the getter as written: bits 8..11 are always set, the low byte is `_idl`, and the top nibble is the count's low nibble |
| Tstp.IdOf | code/include/tstp.h:109-113 | the corrected getter: a 12-bit id of the stored nibble and `_idl` |
| Tstp.IdAsWrittenAfterSetId | code/include/tstp.h:109-113 | after setting id 0x123 on a zero count, the getter as written returns 0xF23 |
| Tstp.SetIdRoundTrip | code/include/tstp.h:110-113 | the corrected getter returns the low 12 bits of the id last set |
| Tstp.ConstructorAsWrittenId | code/include/tstp.h:99-113 | for Microframe(false, 0x123, 0) as written, the word's nibble is 3 where id(0x123) stores 1; the masked getter would read 0x323, and the getter as written returns 0xF23 |
| Tstp.DecCountAsWrittenChangesId | code/include/tstp.h:102-109 | as written, dec_count on Microframe(false, 0x123, 5) changes id() from 0x5F23 to 0x4F23 |
| Tstp.ConstructorIdRoundTrip | code/include/tstp.h:99-109 | with the corrected constructor, the id reads back as its low 12 bits |
| Tstp.Microframe.constructor | code/include/tstp.h:98-124 | as written: count() is count & 0x7ff, all_listen() and hint() are the arguments; id() has the low byte of id, bits 8..11 set and count & 0xf on top; the stored nibble is the id's low nibble |
| Tstp.Microframe.DecCount | code/include/tstp.h:102-109 | returns the old count; the count drops by one, or wraps at 0 setting all_listen; the stored id and the low 12 bits of id() are kept, and the top nibble of id() follows the new count |
| Tstp.Microframe.SetId | code/include/tstp.h:109-114 | the stored id becomes the id's low 12 bits and count and all_listen are unchanged; id() as written returns bits 8..11 set, the id's low byte and the count's low nibble on top |
| Tstp.Microframe.SetAllListen | code/include/tstp.h:116-122 | all_listen() becomes b and the count is unchanged |
| Tstp.Microframe.SetHint | code/include/tstp.h:124-125 | only the hint changes |
| Tstp.Microframe.Count | code/include/tstp.h:101 | `count()`, the 11 bits above the nibble; the constructor, DecCount, SetId and SetAllListen state its value |
| Tstp.Microframe.Id | code/include/tstp.h:109 | `id()` as written (IdOfAsWritten); ConstructorAsWrittenId, IdAsWrittenAfterSetId and DecCountAsWrittenChangesId state its values |
| Tstp.Microframe.StoredId | code/include/tstp.h:109-113 | the 12-bit id the nibble and `_idl` hold, what the masked getter returns; SetIdRoundTrip and ConstructorIdRoundTrip state its values |
| Tstp.Microframe.AllListen | code/include/tstp.h:122 | `all_listen()`, bit 15; SetAllListen and DecCount state its value |
| Tstp.Microframe.Hint | code/include/tstp.h:124 | `hint()`; SetHint states that only it changes |
| Tstp.ConfigByte | code/include/tstp.h:153-154 | the header byte holds version in bits 0-2, type in 3-4, tr in 5 and scale in 6-7, each reading back masked |
| Tstp.SetVersionByte | code/include/tstp.h:156-157 | the version changes, and bits 3-7 and the other fields are kept |
| Tstp.SetTypeByte | code/include/tstp.h:159-160 | the type changes, and the other fields are kept |
| Tstp.SetTimeRequestByte | code/include/tstp.h:162-163 | the tr bit changes, and the other fields are kept |
| Tstp.SetScaleByte | code/include/tstp.h:165-166 | the scale changes, and bits 0-5 are kept |
| Tstp.Header.constructor | code/include/tstp.h:153-154 | each getter returns its masked constructor argument |
| Tstp.Header.SetVersion | code/include/tstp.h:157 | the version reads back; the other fields and members are unchanged |
| Tstp.Header.SetType | code/include/tstp.h:160 | the type reads back; the other fields and members are unchanged |
| Tstp.Header.SetTimeRequest | code/include/tstp.h:163 | tr reads back; the other fields and members are unchanged |
| Tstp.Header.SetScale | code/include/tstp.h:166 | the scale reads back; the other fields and members are unchanged |
| Tstp.Header.SetLastHopTime | code/include/tstp.h:177-178 | only the last-hop time changes |
| Tstp.Header.Version | code/include/tstp.h:156 | `version()`, bits 0..2 of the config byte; ConfigByte and SetVersion state its value |
| Tstp.Header.Type | code/include/tstp.h:159 | `type()`, bits 3..4; ConfigByte and SetType state its value |
| Tstp.Header.TimeRequest | code/include/tstp.h:162 | `time_request()`, bit 5; ConfigByte and SetTimeRequest state its value |
| Tstp.Header.Scale | code/include/tstp.h:165 | `scale()`, bits 6..7; ConfigByte and SetScale state its value |
| Tstp.Code | code/include/tstp.h:269-280 | each base-unit field of a unit word is 3 bits |
| Tstp.Exponent | code/include/tstp.h:334-342 | a field minus 4, so an exponent lies in −4..3 |
| Tstp.ExponentOfAssemble | code/include/tstp.h:334-342 | in a word laid out like the Quantity constants, each getter returns its field minus 4 (see also lines 238-242) |
| Tstp.CodeOfAssemble | code/include/tstp.h:238-280 | each base-unit mask selects its own field of that layout |
| Tstp.SiOfAssemble | code/include/tstp.h:246-249 | the layout has the SI bit set |
| Tstp.NumOfAssemble | code/include/tstp.h:252-258 | the NUM mask selects the number kind of the layout |
| Tstp.ModOfAssemble | code/include/tstp.h:261-267 | the corrected MOD mask selects the modifier of the layout |
| Tstp.NumRoundTrip | code/include/tstp.h:252-258 | writing a number kind into the NUM bits reads it back |
| Tstp.ModRoundTrip | code/include/tstp.h:261-267 | with the mask 3 << 27, writing a modifier into the MOD bits reads it back |
| Tstp.ModOfAsWritten | code/include/tstp.h:261-267 | the modifier switch with `MOD = D64` as written; ModAsWrittenNeverQuotient and ModAsWrittenMisreads state what it decodes |
| Tstp.ModOf | code/include/tstp.h:261-267 | the modifier switch with the mask of bits 27..28; ModOfAssemble and ModRoundTrip state what it decodes |
| Tstp.ModAsWrittenNeverQuotient | code/include/tstp.h:266 | with MOD = D64 as written, a unit never decodes as DIV, LOG or LOG_DIV |
| Tstp.ModAsWrittenMisreads | code/include/tstp.h:263-266 | Length with DIV reads as DIR as written, and Length with I64 matches no modifier |
| Tstp.OneUnit | code/include/tstp.h:285-294 | the field list of a quantity with a single base unit has that unit's code and 4 elsewhere |
| Tstp.BaseQuantities | code/include/tstp.h:285-294 | Length through Volume are the layout of their single base-unit exponent |
| Tstp.DerivedQuantities | code/include/tstp.h:295-297 | Speed is m·s⁻¹ and Acceleration is m·s⁻² in that layout |
| Tstp.QuantityExponents | code/include/tstp.h:334-342 | Length has m() = 1 and all others 0; Speed has m() = 1 and s() = −1; Acceleration has m() = 1 and s() = −2 (see also lines 285, 295, 297) |
| Tstp.QuantityHeads | code/include/tstp.h:285-297 | every Quantity constant is SI, I32 and DIR |
| TstpMac.Unexpired | code/include/machine/common/tstp_mac.h:195-200 | pruning never lengthens the schedule |
| TstpMac.UnexpiredMembers | code/include/machine/common/tstp_mac.h:195-200 | a buffer remains exactly when it was scheduled and its expiry is after now, since drop_expired is true |
| TstpMac.UnexpiredAppend | code/include/machine/common/tstp_mac.h:195-204 | the kept buffers stay in their relative order |
| TstpMac.UnexpiredNoneExpired | code/include/machine/common/tstp_mac.h:195-204 | a schedule with nothing expired is kept as it is |
| TstpMac.WithoutId | code/include/machine/common/tstp_mac.h:104-112 | removal never lengthens the schedule |
| TstpMac.WithoutIdMembers | code/include/machine/common/tstp_mac.h:104-112 | a buffer survives exactly when its id differs from the microframe's |
| TstpMac.WithoutIdAppend | code/include/machine/common/tstp_mac.h:104-112 | the surviving buffers stay in their order |
| TstpMac.PendingUnique | code/include/machine/common/tstp_mac.h:201-202 | at most one index is the pending one: least expiry, and last among ties |
| TstpMac.IsPending | code/include/machine/common/tstp_mac.h:195-202 | the buffer update_tx_schedule picks: least expiry, the last among ties; PendingUnique states that it is unique and UpdateTxSchedule that it is chosen |
| TstpMac.Marshal | code/include/machine/common/tstp_mac.h:161-166 | the id is the random value's low 12 bits; the buffer is a new, untrusted, non-microframe one |
| TstpMac.Mac.constructor | code/include/machine/common/tstp_mac.h:68-73 | after the epilogue the schedule is empty, nothing is pending and both receive states are off |
| TstpMac.Mac.UpdateTxSchedule | code/include/machine/common/tstp_mac.h:179-204 | the schedule is pruned of expired buffers and both receive states are cleared; pending is none exactly when the schedule is empty, and otherwise the last buffer of least expiry |
| TstpMac.Mac.PreNotify | code/include/machine/common/tstp_mac.h:76-130 | in RX-MF, a frame is accepted exactly when it has microframe size, and then the buffers whose id equals the microframe's `id()` as written are removed; in RX-data, a frame is accepted exactly when it has any other size |
| TstpMac.RemovalAsWritten | code/include/machine/common/tstp_mac.h:88-112 | with `id()` as written, a buffer with an id below 0xF00 is never removed, nor one with a 12-bit id when the count's low nibble is not 0 |
| TstpMac.Mac.RemoveScheduled | code/include/machine/common/tstp_mac.h:104-112 | the loop removes exactly the buffers with the id |
| TstpMac.Mac.Send | code/include/machine/common/tstp_mac.h:170-173 | the buffer is appended to the schedule and its size returned |
| TstpMac.Mac.Valid | code/include/machine/common/tstp_mac.h:188-202 | the pending buffer, when there is one, is in the schedule; the constructor and UpdateTxSchedule establish it and Send keeps it |
| Cc2538.Us2Count | code/include/machine/cortex/cc2538.h:331 | the 64-bit result is us·32 whenever us·CLOCK fits in 64 bits (see also line 403) |
| Cc2538.Count2Us | code/include/machine/cortex/cc2538.h:331 | ⌊ts/32⌋ whenever ts·1000000 fits in 64 bits (see also line 404) |
| Cc2538.CountRoundTrip | code/include/machine/cortex/cc2538.h:403-404 | `count2us(us2count(us))` is us while us·CLOCK fits in 64 bits |
| Cc2538.Count2UsWraps | code/include/machine/cortex/cc2538.h:404 | a time stamp past 2^64/10^6 wraps: 18446744073710 ticks convert to 0 µs, not 576460752303 |
| Cc2538.FreqCtrl | code/include/machine/cortex/cc2538.h:598-601 | FREQCTRL is 11 + 5(c − 11): in 11..86, 1 modulo 5, and it determines the channel |
| Cc2538.FreqCtrlStep | code/include/machine/cortex/cc2538.h:600 | consecutive channels are 5 FREQCTRL steps apart |
| Cc2538.Clear | code/include/machine/cortex/cc2538.h:585-593 | clearing leaves the flag bits 0 and every other bit as it was |
| Cc2538.ClearIdle | code/include/machine/cortex/cc2538.h:583-585 | clearing an already clear flag changes nothing, which is why the source can skip it |
| Cc2538.Rf.TxDone | code/include/machine/cortex/cc2538.h:582-587 | returns whether INT_TXDONE was set and clears only that bit |
| Cc2538.Rf.constructor | code/include/machine/cortex/cc2538.h:476-521 | the interrupt and error flag registers start cleared, as the constructor's last three writes leave them; FREQCTRL starts at its reset value 11 |
| Cc2538.Rf.RxDone | code/include/machine/cortex/cc2538.h:590-595 | returns whether INT_RXPKTDONE was set and clears only that bit |
| Cc2538.Rf.SetChannel | code/include/machine/cortex/cc2538.h:598-601 | FREQCTRL becomes the channel's value |
| Cc2538.LastMatchSpec | code/include/machine/cortex/cc2538.h:742-748 | the lookup is null when no entry matches, and otherwise the device of the last matching entry |
| Cc2538.GetByInterrupt | code/include/machine/cortex/cc2538.h:742-748 | the loop computes that lookup |
| Cc2538.LastMatch | code/include/machine/cortex/cc2538.h:742-748 | the device of the last table entry with the interrupt, or null; LastMatchSpec states its contract and GetByInterrupt is proved to compute it |
| Cc2538.Next | code/src/machine/cortex/cc2538.cc:48 | `++i %= RX_BUFS` steps to the next slot and wraps at the end (see also line 135) |
| Cc2538.At | code/src/machine/cortex/cc2538.cc:48 | the k-th slot visited from a start stays in the ring (see also line 135) |
| Cc2538.AtClosed | code/src/machine/cortex/cc2538.cc:135 | within one lap, the k-th slot visited is start + k, wrapped modulo the ring size |
| Cc2538.FirstUnlockedSpec | code/src/machine/cortex/cc2538.cc:135-140 | the scan finds the first unlocked slot in visiting order, or none exactly when every slot is locked |
| Cc2538.FirstUnlocked | code/src/machine/cortex/cc2538.cc:135-140 | the number of steps from the cursor to the first unlocked slot within one lap; FirstUnlockedSpec states its contract and ScanForBuffer uses it |
| Cc2538.FirstReadySpec | code/src/machine/cortex/cc2538.cc:48-57 | the consume scan finds the first unlocked slot with a frame in visiting order, or none when there is none |
| Cc2538.FirstReadyExists | code/src/machine/cortex/cc2538.cc:48-57 | when some slot holds a frame, the consume scan finds one within a lap |
| Cc2538.FirstReady | code/src/machine/cortex/cc2538.cc:48-57 | the number of steps from the consume cursor to the first ready slot within one lap; FirstReadySpec and FirstReadyExists state its contract |
| Cc2538.Filled | code/src/machine/cortex/cc2538.cc:145-155 | the slot is left for `receive()` exactly when the MAC kept the frame, post_notify did not free it (code/include/machine/common/tstp_mac.h:151-152), no observer was notified and the copy was not empty; a slot left locked holds the frame for the notified observer; a size is kept only for a frame the MAC kept and did not free |
| Cc2538.Nic.constructor | code/src/machine/cortex/cc2538_init.cc:11-39 | the ring starts empty and unlocked, both cursors at 0; `channel(13)` sets channel 13 and FREQCTRL 21, and `reset()` the default statistics; the radio's flag registers are untouched |
| Cc2538.Nic.Valid | code/src/machine/cortex/cc2538.cc:48-141 | the ring is not empty and both cursors, kept modulo RX_BUFS, are inside it; the constructor establishes it, and ScanForBuffer, HandleInt, ConsumeScan and Receive keep it |
| Cc2538.Nic.SetChannel | code/include/machine/cortex/cc2538.h:719-724 | the channel and FREQCTRL change only for 10 < c < 27; otherwise nothing changes |
| Cc2538.Nic.Reset | code/src/machine/cortex/cc2538.cc:106-112 | the statistics return to their defaults |
| Cc2538.Nic.Send | code/src/machine/cortex/cc2538.cc:79-93 | the packet and byte counters grow only when the MAC returned a nonzero size |
| Cc2538.Nic.Lock | code/src/machine/cortex/cc2538.cc:51 | `lock()` is test-and-set on the slot's flag (see also line 136) |
| Cc2538.Nic.Free | code/src/machine/cortex/cc2538.cc:95-104 | rx_packets grows by one and rx_bytes by the slot's size; the slot becomes empty and unlocked |
| Cc2538.Nic.ScanForBuffer | code/src/machine/cortex/cc2538.cc:133-141 | the scan locks the first unlocked slot from the produce cursor, or none; the cursor becomes (idx + 1) % RX_BUFS; nothing else changes |
| Cc2538.Nic.HandleInt | code/src/machine/cortex/cc2538.cc:114-160 | the interrupt flags are cleared but for the polled bits; with no frame or a filtered one, the ring is untouched; otherwise the scan's slot gets the frame, per Filled, or the frame is dropped when every slot is locked; the receive statistics grow by one packet and the frame's size exactly when post_notify freed the buffer |
| Cc2538.Nic.TakeIfReady | code/src/machine/cortex/cc2538.cc:50-55 | a slot is taken exactly when it is unlocked and holds a frame; an empty slot is left unlocked |
| Cc2538.Nic.ConsumeScan | code/src/machine/cortex/cc2538.cc:48-57 | the loop takes the first ready slot from the consume cursor and leaves the cursor one past it, inside the ring |
| Cc2538.Nic.Receive | code/src/machine/cortex/cc2538.cc:43-66 | the first ready slot from the cursor is taken and its frame size, which is positive, returned; the slot is freed and the statistics count it |
| EposCfg.Table | code/tools/eposcfg/eposcfg.cc:21-42 | a table has ARRAY_MAX rows: its names, then empty rows |
| EposCfg.FindSpec | code/tools/eposcfg/eposcfg.cc:181-189 | the search returns the first row equal to the name, or −1 exactly when none is |
| EposCfg.FindCfg | code/tools/eposcfg/eposcfg.cc:183-189 | the loop computes that search |
| EposCfg.FindAt | code/tools/eposcfg/eposcfg.cc:183-189 | a name whose first occurrence is row k is found at k |
| EposCfg.Find | code/tools/eposcfg/eposcfg.cc:181-189 | the first row that holds a name, or −1; FindSpec states its contract and FindCfg is proved to compute it |
| EposCfg.IntRows | code/tools/eposcfg/eposcfg.cc:25-28 | "-CPUS" is int row 0 and "-NODES" row 1 (see also line 169) |
| EposCfg.StrRows | code/tools/eposcfg/eposcfg.cc:36-42 | the five string configurations are rows 0..4 of their table (see also lines 196-317) |
| EposCfg.NotIntName | code/tools/eposcfg/eposcfg.cc:169 | no other non-empty name is an int configuration |
| EposCfg.StrRowReached | code/tools/eposcfg/eposcfg.cc:171 | a name that reaches the string table and is not a listing is found below row 3 at most |
| EposCfg.LeadingTable | code/tools/eposcfg/eposcfg.cc:139-142 | the usage loop prints the names of a table up to its first empty row |
| EposCfg.Leading | code/tools/eposcfg/eposcfg.cc:139-142 | the rows before the first empty one; LeadingTable and PutNames state it |
| EposCfg.FlagUnknown | code/tools/eposcfg/eposcfg.cc:312-313 | a row naming no known entry is disabled; one naming a known entry has its trait (see also lines 382-383) |
| EposCfg.Flag | code/tools/eposcfg/eposcfg.cc:312-313 | a row's flag: its trait for a known name, false otherwise; FlagUnknown and EmptyRowsDisabled state it |
| EposCfg.EmptyRowsDisabled | code/tools/eposcfg/eposcfg.cc:312-313 | the empty rows are disabled whatever the traits (see also lines 382-383) |
| EposCfg.NoEmptyNames | code/tools/eposcfg/eposcfg.cc:48-80 | no component or mediator has the empty name (see also lines 85-117) |
| EposCfg.SelectedAppend | code/tools/eposcfg/eposcfg.cc:155-157 | listing by flags over a concatenation concatenates the listings |
| EposCfg.SelectedNone | code/tools/eposcfg/eposcfg.cc:155-157 | nothing is listed where no flag is set |
| EposCfg.SelectedKnown | code/tools/eposcfg/eposcfg.cc:155-157 | listing known names by their own flags lists the enabled ones |
| EposCfg.Selected | code/tools/eposcfg/eposcfg.cc:155-157 | the rows whose flag is set, in table order; SelectedAppend, SelectedNone and SelectedKnown state its contract and PutEnabled is proved to compute it |
| EposCfg.ListingIsEnabled | code/tools/eposcfg/eposcfg.cc:154-166 | after populate_strings, a listing prints exactly the enabled entries in table order (see also lines 312-313, 382-383) |
| EposCfg.EnabledLinesMembers | code/tools/eposcfg/eposcfg.cc:154-166 | a line is listed exactly when it names an entry that is enabled |
| EposCfg.EnabledLines | code/tools/eposcfg/eposcfg.cc:154-166 | the enabled names in order; EnabledLinesMembers and ListingIsEnabled state its contract |
| EposCfg.QueryUsage | code/tools/eposcfg/eposcfg.cc:136-145 | without exactly one argument the exit status is 1, after the seven configuration names |
| EposCfg.QueryTooLong | code/tools/eposcfg/eposcfg.cc:147-150 | an argument longer than STR_SIZE_MAX exits with 1 and prints nothing |
| EposCfg.QueryLookup | code/tools/eposcfg/eposcfg.cc:168-178 | an int name prints one number, a string name one text, both with status 0; an unknown name exits with 1 |
| EposCfg.QueryValues | code/tools/eposcfg/eposcfg.cc:196-245 | each single-value configuration prints its trait (see also lines 30-33, 168-172) |
| EposCfg.QueryEmptyName | code/tools/eposcfg/eposcfg.cc:169-189 | an empty argument matches the first unused int row and prints 0 with status 0 |
| EposCfg.Query | code/tools/eposcfg/eposcfg.cc:134-179 | main's exit status and output; QueryUsage, QueryTooLong, QueryLookup, QueryValues and QueryEmptyName state its contract, and Run is proved to compute it |
| EposCfg.Answer | code/tools/eposcfg/eposcfg.cc:154-178 | a listing for -COMPONENTS and -MEDIATORS, otherwise the lookup; Dispatch and ListingIsEnabled state it |
| EposCfg.Lookup | code/tools/eposcfg/eposcfg.cc:168-178 | the int table first, then the string table, else status 1; QueryLookup and QueryValues state it |
| EposCfg.Tool.constructor | code/tools/eposcfg/eposcfg.cc:45 | the value and flag tables start zeroed (see also lines 82, 119) |
| EposCfg.Tool.PopulateStrings | code/tools/eposcfg/eposcfg.cc:192-386 | rows 0..2 get the architecture, machine and model names (or the unsupported message); the other rows are kept; every flag is its row's trait when the row is known, false otherwise |
| EposCfg.Tool.PopulateFlags | code/tools/eposcfg/eposcfg.cc:249-314 | the flag loop sets each row's flag to its trait, or false for an unknown row (see also lines 319-384) |
| EposCfg.Tool.PutEnabled | code/tools/eposcfg/eposcfg.cc:155-164 | the loop prints the rows whose flag is set, in order |
| EposCfg.Tool.PutNames | code/tools/eposcfg/eposcfg.cc:139-142 | the loop prints the rows up to the first empty one |
| EposCfg.Tool.Run | code/tools/eposcfg/eposcfg.cc:134-179 | `main` gives the status and output of the query |
| EposCfg.Tool.Dispatch | code/tools/eposcfg/eposcfg.cc:154-178 | with the tables populated, the answer is the listing or the lookup |
| Thermal.ThermField | thermal-reading/component/thermal.h:22-24 | the digital readout lies in 0..127 |
| Thermal.TargetField | thermal-reading/component/thermal.h:25-27 | the target lies in 0..255 |
| Thermal.TemperatureModulo | thermal-reading/component/thermal.h:22-29 | the result is target − readout modulo 2^32 |
| Thermal.TemperatureBelowTarget | thermal-reading/component/thermal.h:28 | when the target is at least the readout, the result is their plain difference |
| Thermal.TemperatureBelowTargetBound | thermal-reading/component/thermal.h:28 | that difference is at most 255 |
| Thermal.TemperatureAboveTarget | thermal-reading/component/thermal.h:28 | a readout above the target wraps to one of the top 127 unsigned values |
| Thermal.ThermIndependent | thermal-reading/component/thermal.h:23-24 | bits outside 16..22 of IA32_THERM_STATUS do not affect the readout |
| Thermal.TargetIndependent | thermal-reading/component/thermal.h:26-27 | bits outside 16..23 of IA32_TEMPERATURE_TARGET do not affect the target |
| Thermal.TemperatureIndependent | thermal-reading/component/thermal.h:17-29 | the temperature depends only on those bits of the two registers |
| Thermal.Temperature | thermal-reading/component/thermal.h:17-29 | `temperature()`; TemperatureModulo, TemperatureBelowTarget, TemperatureBelowTargetBound, TemperatureAboveTarget and TemperatureIndependent state its contract |

## Left out

- Serial and network I/O, which the model either gives as parameters or leaves out:
  - the Flask and tornado server;
  - the serial port and the `Mote` lock;
  - `requests.post` and the `print` calls.
  - `Network` returns the frames it would write, and `MakeRequest` returns the point it would post.
- Float parsing. The model takes inputs as integers that have already been truncated:
  - `int(float(data))` is the `truncated` half of a `RawValue`;
  - `float(value)` in `mount_request` is the integer the value string spells.
- GatewaySerial.FreeData, GatewaySerial.MountRequest and GatewaySerial.MakeRequestCorrected model the corrected `free_data`, with `int.from_bytes` on line 35. As written, every call ends in the parse error or AttributeError. That is what FreeDataAsWritten, MountRequestAsWritten and MakeRequestAsWritten model.
- `json.loads` is a parameter, the `json` half of a `RawValue`.
- PyText.ParseHexInt: non-ASCII decimal digits are not modelled. CPython reads `int('١', 16)` as 1, but `IsHexDigit` accepts only the ASCII digits and letters, so the model rejects it. Non-ASCII white space is modelled.
- The `tests.py` expectations of a 3-tuple and of frames without CR LF. Those tests no longer match the code, and the model follows the code.
- The TSTP MAC interrupt chain (`cca`, `rx_mf`, `rx_data`, `tx_mf`, `tx_data`) and its timing constants. They depend on IEEE 802.15.4 timer interrupts that are not modelled.
- Cc2538.Count2Us: the result is an unbounded integer and is not truncated to the width of `Microsecond` (code/include/machine/cortex/cc2538.h:404), which is not shown.
- TstpMac.Mac.UpdateTxSchedule: the radio power mode, the microframe it builds for the pending buffer, and the timer it arms. The clock reading is the parameter `nowUs`, which is an unbounded integer since the width of `Microsecond` is not shown.
- The EPOS list (`list.h`) is not part of this model:
  - the schedule is a sequence;
  - `insert` is taken as appending at the tail;
  - deleting a buffer is not modelled.
- TstpMac.Mac.PreNotify: the buffer metadata it writes (time stamp, id, distance, flags) and the id it forges into the microframe are not modelled.
- TstpMac.Mac.PreNotify: like the source's `_tx_pending` pointer, the pending index is not updated when buffers are removed. `Valid()` holds again only after `update_tx_schedule`.
- TstpMac.Mac.PreNotify: a removed buffer is not freed (`delete b`). The schedule only drops it.
- TstpMac.Marshal: `Random::random()` is the parameter `random`.
- Cc2538.Nic.Receive: `MAC::unmarshal` and `copy_from_nic` are not modelled. The method returns the size of the frame it takes.
- Cc2538.Nic.Receive and Cc2538.Nic.ConsumeScan require a slot holding a frame. With none, the source spins until an interrupt fills one, and concurrency is not modelled.
- Cc2538.Nic.HandleInt: `filter()`, `copy_from_nic`, `pre_notify`, `notify` and `post_notify` are parameters. The RSSI and `drop()` are not modelled. A true `post_notify` stands for its microframe branch, which frees the buffer (modelled) after recording the receiving id and hint and arming a timer (not modelled).
- The statistics counters are unbounded, since the width of `Statistics` is not shown. Their default value is taken to be all zeros.
- The CC2538 register-level radio control (`cca`, `wait_for_ack`, `copy_to_nic`, `power`, `Timer::read`/`set`/`interrupt`) is memory-mapped I/O.
- Cc2538.Rf.SetChannel: requires 10 < c < 27 where the source asserts it.
- EposCfg.Tool.Run:
  - the messages written to standard error are left out;
  - the build `Traits` are a parameter;
  - `-COMPONENTS` and `-MEDIATORS` are the traits' two `string -> bool` functions.
- Tstp.Header.constructor: the origin and last-hop coordinates and their accessors are not modelled. The C++ default arguments (tr = false, c = 0, ot = 0, v = V0) are not modelled either: every argument is explicit.
- Thermal: `rdmsr` is a privileged instruction, so the two register words are parameters.
- Distances and regions (`geometry.h`, `tstp.cc`), the Diffie-Hellman and Bignum code, smart data and transducers, and the init files. They depend on `sqrt`, foreign classes and hardware that are not part of this model.

## Findings

| source | as written | input that shows it | evidently intended | confidence | as-written member | corrected member |
|---|---|---|---|---|---|---|
| code/tools/eposiotgw/gateway_daemon/serial.py:35 | `int.frombytes(...)` is called, but `int` has no such attribute, so `free_data` always raises AttributeError | any frame that parse accepts, for example the body of `build(1, 3, [0, 1])` | `int.from_bytes`, as on lines 32-34 | high; not executed | GatewaySerial.FreeDataAsWrittenRejectsValidFrame | GatewaySerial.FreeDataFields |
| code/include/tstp.h:109 | `id()` computes `(_al_count_idh \| 0xf) << 8`, which sets bits 8..11 and shifts the count into the top nibble | setting id 0x123 on a zero count reads back 0xF23 | `(_al_count_idh & 0xf) << 8`, which reads back the nibble the setter stored | high; not executed | Tstp.IdAsWrittenAfterSetId | Tstp.SetIdRoundTrip |
| code/include/tstp.h:99 | the constructor stores `id & 0xf`, the id's low nibble, where the setter on lines 110-113 stores bits 8..11 | Microframe(false, 0x123, 0) stores nibble 3 where id(0x123) stores 1, so the masked getter reads 0x323 | `(id & 0xf00) >> 8`, as in the setter | medium; not executed | Tstp.ConstructorAsWrittenId | Tstp.ConstructorIdRoundTrip |
| code/include/tstp.h:266 | `MOD = D64` selects bits 29..30, the NUM field, instead of the MOD bits 27..28 | Length \| DIV decodes as DIR, and Length \| I64 matches no modifier | `MOD = 3 << 27` | high; not executed | Tstp.ModAsWrittenMisreads | Tstp.ModRoundTrip |
