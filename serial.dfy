/**
 * The gateway's serial side (gateway_daemon/serial.py): a line read from the
 * mote is cleaned of its line end, parsed as a Modbus frame and turned into
 * the data point posted to the time-series database.
 */
module GatewaySerial {
  import opened Wrappers
  import opened PyText
  import Modbus

  // ---------------------------------------------------------------- MODBUS_FUNCTIONS

  /** MODBUS_FUNCTIONS: the read function codes and the kind of value each carries. */
  const MODBUS_FUNCTIONS: map<int, string> := map[3 := "numeric", 1 := "binary"]

  /** MODBUS_FUNCTIONS[cmd] */
  function CommandName(cmd: int): (r: Result<string, PyError>)
    ensures r == Success("numeric") <==> cmd == Modbus.READ_HOLDING_REGISTER
    ensures r == Success("binary") <==> cmd == Modbus.READ_COILS
    ensures r.Failure? <==> cmd != 1 && cmd != 3
    ensures r.Failure? ==> r.error == KeyError
  {
    if cmd in MODBUS_FUNCTIONS then Success(MODBUS_FUNCTIONS[cmd]) else Failure(KeyError)
  }

  // ---------------------------------------------------------------- clean_data

  predicate IsLineEnd(c: char) {
    c == '\r' || c == '\n'
  }

  /** The line without its trailing run of CR and LF characters. */
  function TrimLineEnd(s: string): (r: string)
    ensures |r| <= |s|
  {
    if |s| > 0 && IsLineEnd(s[|s| - 1]) then TrimLineEnd(s[..|s| - 1]) else s
  }

  /** clean_data(data): drop the last character while it is a CR or an LF. */
  method CleanData(data: string) returns (r: string)
    ensures r == TrimLineEnd(data)
  {
    r := data;
    while |r| > 0 && (r[|r| - 1] == '\r' || r[|r| - 1] == '\n')
      invariant TrimLineEnd(r) == TrimLineEnd(data)
    {
      r := r[..|r| - 1];
    }
  }

  /**
   * Cleaning keeps a prefix of the line that does not end in CR or LF and
   * removes nothing but CR and LF characters.
   */
  lemma {:induction false} TrimLineEndRemovesLineEnds(s: string)
    ensures var r := TrimLineEnd(s);
      && r == s[..|r|]
      && (|r| > 0 ==> !IsLineEnd(r[|r| - 1]))
      && (forall i :: |r| <= i < |s| ==> IsLineEnd(s[i]))
  {
    if |s| > 0 && IsLineEnd(s[|s| - 1]) {
      var init := s[..|s| - 1];
      TrimLineEndRemovesLineEnds(init);
      var r := TrimLineEnd(init);
      assert forall i :: |r| <= i < |init| ==> init[i] == s[i];
      assert s[..|r|] == init[..|r|];
    }
  }

  /** Cleaning twice is cleaning once. */
  lemma {:induction false} TrimLineEndIdempotent(s: string)
    ensures TrimLineEnd(TrimLineEnd(s)) == TrimLineEnd(s)
  {
    if |s| > 0 && IsLineEnd(s[|s| - 1]) {
      TrimLineEndIdempotent(s[..|s| - 1]);
    }
  }

  /** A line that does not end in CR or LF is left as it is; a CR LF added to it is removed again. */
  lemma TrimLineEndCrLf(s: string)
    requires |s| == 0 || !IsLineEnd(s[|s| - 1])
    ensures TrimLineEnd(s) == s
    ensures TrimLineEnd(s + "\r\n") == s
  {
    var t := s + "\r\n";
    assert t[..|t| - 1] == s + "\r";
    assert (s + "\r")[..|s|] == s;
  }

  // ---------------------------------------------------------------- free_data

  /** The tuple free_data returns. */
  datatype DataPoint = DataPoint(register: string, command: string, offset: string, value: string,
                                 timestamp: int, coordinates: string, tstpSi: int, macHash: string,
                                 scale: string)

  /** hex(register).split('x')[1].upper(): the address in upper-case hex without its "0x" prefix. */
  function RegisterName(register: int): (r: string)
    ensures r == Upper(LowerHex(if register < 0 then -register else register))
  {
    PyHexSplit(register);
    Upper(Split(PyHex(register), 'x')[1])
  }

  /** The register name of a non-negative address reads back, as hex, as the address. */
  lemma RegisterNameValue(register: nat)
    ensures HexValue(RegisterName(register)) == register
    ensures forall i :: 0 <= i < |RegisterName(register)| ==> IsHexDigit(RegisterName(register)[i])
  {
    HexValueUpper(LowerHex(register));
    var s := LowerHex(register);
    assert forall i :: 0 <= i < |s| ==> IsHexDigit(s[i]);
  }

  /**
   * free_data(data) as written: a parse error propagates, an unknown command
   * is passed over, and then the call int.frombytes on line 35 raises
   * AttributeError, since int has no attribute of that name.
   */
  function FreeDataAsWritten(data: string): (r: Result<DataPoint, PyError>)
  {
    var frame :- Modbus.Parse(data);
    Failure(AttributeError)
  }

  /** free_data as written never returns: it raises the parse error or AttributeError. */
  lemma FreeDataAsWrittenFails(data: string)
    ensures FreeDataAsWritten(data).Failure?
    ensures FreeDataAsWritten(data).error == if Modbus.Parse(data).Failure? then Modbus.Parse(data).error else AttributeError
  {
  }

  /** Even a frame parse accepts, such as the body of a built frame, gets only as far as line 35. */
  lemma FreeDataAsWrittenRejectsValidFrame(a: Byte, c: Byte, p: seq<Byte>)
    requires |p| >= 1
    ensures FreeDataAsWritten(Modbus.Body(a, c, p)) == Failure(AttributeError)
  {
    Modbus.ParseBody(a, c, p);
  }

  /**
   * free_data(data) with int.from_bytes on line 35, as the three lines before
   * it have: the fields of the parsed frame, with offset the big-endian value
   * of data bytes 0..2, value that of the bytes from 2 on, timestamp that of
   * the bytes from 5 on and the TSTP SI field that of the bytes from 15 on.
   * An unknown command leaves `command` unbound, so building the tuple raises
   * UnboundLocalError, a NameError.
   */
  function FreeData(data: string): (r: Result<DataPoint, PyError>)
    ensures Modbus.Parse(data).Failure? ==> r == Failure(Modbus.Parse(data).error)
    ensures Modbus.Parse(data).Success? && CommandName(Modbus.Parse(data).value.command).Failure? ==> r == Failure(NameError)
  {
    var frame :- Modbus.Parse(data);
    var bytes := frame.data;
    var offset := BigEndian(Slice(bytes, 0, 2));
    var value := BigEndian(From(bytes, 2));
    var timestamp := BigEndian(From(bytes, 5));
    var tstpSi := BigEndian(From(bytes, 15));
    match CommandName(frame.command)
    case Failure(_) => Failure(NameError)
    case Success(command) =>
      Success(DataPoint(RegisterName(frame.address), command, Decimal(offset), Decimal(value),
                        timestamp, frame.coordinates, tstpSi, frame.macHash, frame.scale))
  }

  /**
   * What free_data returns for an accepted frame with a read command: the
   * register name reads back as the address, the command is the kind of
   * value, the offset and value strings read back as the big-endian values of
   * bytes 0..2 and of the bytes from 2 on, and the frame's trailing fields
   * are passed through.
   */
  lemma FreeDataFields(data: string)
    requires Modbus.Parse(data).Success?
    requires Modbus.Parse(data).value.address >= 0
    requires CommandName(Modbus.Parse(data).value.command).Success?
    ensures FreeData(data).Success?
    ensures var f := Modbus.Parse(data).value;
      var d := FreeData(data).value;
      && HexValue(d.register) == f.address
      && d.command == MODBUS_FUNCTIONS[f.command]
      && DecimalValue(d.offset) == BigEndian(Slice(f.data, 0, 2))
      && DecimalValue(d.value) == BigEndian(From(f.data, 2))
      && d.timestamp == BigEndian(From(f.data, 5))
      && d.tstpSi == BigEndian(From(f.data, 15))
      && d.coordinates == f.coordinates && d.macHash == f.macHash && d.scale == f.scale
  {
    var f := Modbus.Parse(data).value;
    RegisterNameValue(f.address);
    DecimalRoundTrip(BigEndian(Slice(f.data, 0, 2)));
    DecimalRoundTrip(BigEndian(From(f.data, 2)));
  }

  // ---------------------------------------------------------------- mount_request

  /** The "tags" object of the posted data point. */
  datatype Tags = Tags(coordinateX: char, coordinateY: char, coordinateZ: char, coordinateT: char,
                       tstpSi: int, macHash: string, spatialScale: char, temporalScale: char)

  /** The data point mount_request builds; value is float(value), read here as the integer it spells. */
  datatype Post = Post(name: string, value: nat, timestamp: int, tags: Tags)

  /**
   * The body of mount_request once free_data has returned d: the data point
   * with the metric name register + command + offset, the first four
   * characters of the coordinates and the first two of the scale; a shorter
   * coordinates or scale string raises IndexError, and an exception from
   * free_data propagates.
   */
  function Mount(d: Result<DataPoint, PyError>): (r: Result<Post, PyError>)
    ensures d.Failure? ==> r == Failure(d.error)
    ensures d.Success? ==>
      (r.Failure? <==> |d.value.coordinates| < 4 || |d.value.scale| < 2) && (r.Failure? ==> r.error == IndexError)
    ensures r.Success? ==> r.value.name == d.value.register + d.value.command + d.value.offset
  {
    var p :- d;
    var c := p.coordinates;
    if |c| < 4 || |p.scale| < 2 then Failure(IndexError)
    else
      Success(Post(p.register + p.command + p.offset, DecimalValue(p.value), p.timestamp,
                   Tags(c[0], c[1], c[2], c[3], p.tstpSi, p.macHash, p.scale[0], p.scale[1])))
  }

  /** mount_request(data) over the corrected free_data. */
  function MountRequest(data: string): (r: Result<Post, PyError>)
    ensures FreeData(data).Failure? ==> r == Failure(FreeData(data).error)
    ensures FreeData(data).Success? ==>
      var d := FreeData(data).value;
      (r.Failure? <==> |d.coordinates| < 4 || |d.scale| < 2) && (r.Failure? ==> r.error == IndexError)
  {
    Mount(FreeData(data))
  }

  /** mount_request(data) as written: it never returns a data point. */
  function MountRequestAsWritten(data: string): (r: Result<Post, PyError>)
    ensures r.Failure?
    ensures r.error == if Modbus.Parse(data).Failure? then Modbus.Parse(data).error else AttributeError
  {
    FreeDataAsWrittenFails(data);
    Mount(FreeDataAsWritten(data))
  }

  /** The posted value is the big-endian value of the payload from byte 2 on, and the name starts with the register name. */
  lemma MountRequestFields(data: string)
    requires MountRequest(data).Success?
    ensures var d := FreeData(data).value;
      var post := MountRequest(data).value;
      var f := Modbus.Parse(data).value;
      && post.name == d.register + d.command + d.offset
      && post.name[..|d.register|] == RegisterName(f.address)
      && post.value == BigEndian(From(f.data, 2))
      && post.timestamp == BigEndian(From(f.data, 5))
      && post.tags.coordinateX == f.coordinates[0] && post.tags.coordinateT == f.coordinates[3]
      && post.tags.spatialScale == f.scale[0] && post.tags.temporalScale == f.scale[1]
  {
    var f := Modbus.Parse(data).value;
    DecimalRoundTrip(BigEndian(From(f.data, 2)));
    var d := FreeData(data).value;
    assert (d.register + d.command + d.offset)[..|d.register|] == d.register;
  }

  // ---------------------------------------------------------------- make_request

  /**
   * make_request(data) with mount the mount_request it calls: clean the
   * line and mount the data point; every exception other than an interrupt
   * or an exit is reported and swallowed, so the result is the data point
   * posted, or nothing.
   */
  method MakeRequest(data: string, mount: string -> Result<Post, PyError>) returns (post: Option<Post>)
    ensures var r := mount(TrimLineEnd(data));
      post == if r.Success? then Some(r.value) else None
  {
    var line := CleanData(data);
    var r := mount(line);
    if r.Success? {
      post := Some(r.value);
    } else {
      post := None;
    }
  }

  /** make_request with mount_request as written posts nothing, whatever the line. */
  method MakeRequestAsWritten(data: string) returns (post: Option<Post>)
    ensures post == None
  {
    post := MakeRequest(data, MountRequestAsWritten);
  }

  /** make_request with the corrected mount_request posts the data point of the cleaned line. */
  method MakeRequestCorrected(data: string) returns (post: Option<Post>)
    ensures var r := MountRequest(TrimLineEnd(data));
      post == if r.Success? then Some(r.value) else None
  {
    post := MakeRequest(data, MountRequest);
  }
}
