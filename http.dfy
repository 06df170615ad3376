/**
 * The gateway's HTTP side (gateway_daemon/http.py): a request parameter named
 * W_A_D_N asks for value v to be written to channel N of every mote listed in
 * A; the handler turns it into one Modbus "write" frame per mote.
 */
module GatewayHttp {
  import opened Wrappers
  import opened PyText
  import Modbus

  // ---------------------------------------------------------------- values

  /** A JSON document as json.loads returns it, reduced to what struct.pack tells apart. */
  datatype JsonValue = JsonBool(b: bool) | JsonInt(i: int) | JsonOther

  /**
   * A request value as the two readers of it see it: what json.loads makes of
   * it and what int(float(...)) makes of it, each with the error it raises.
   */
  datatype RawValue = RawValue(json: Result<JsonValue, PyError>, truncated: Result<int, PyError>)

  /** The integer struct.pack takes for a JSON value: a bool counts as 0 or 1, anything but an integer is refused. */
  function JsonInteger(v: JsonValue): Option<int>
  {
    match v
    case JsonBool(b) => Some(if b then 1 else 0)
    case JsonInt(i) => Some(i)
    case JsonOther => None
  }

  // ---------------------------------------------------------------- struct.pack('!HH', ...)

  /** struct.pack('!H', x): two bytes, most significant first; struct.error outside 0..65535. */
  function PackH(x: int): (r: Result<seq<Byte>, PyError>)
    ensures r.Success? <==> 0 <= x < 0x1_0000
    ensures r.Failure? ==> r.error == StructError
    ensures r.Success? ==> |r.value| == 2 && BigEndian(r.value) == x
  {
    if 0 <= x < 0x1_0000 then
      BigEndianPair(x / 256, x % 256);
      Success([x / 256, x % 256])
    else Failure(StructError)
  }

  /** struct.pack('!HH', a, b) */
  function PackHH(a: int, b: int): (r: Result<seq<Byte>, PyError>)
  {
    var hi :- PackH(a);
    var lo :- PackH(b);
    Success(hi + lo)
  }

  /** Packing succeeds exactly for two unsigned shorts, and the four bytes read back, big-endian, as the two numbers. */
  lemma PackHHReadBack(a: int, b: int)
    ensures PackHH(a, b).Success? <==> 0 <= a < 0x1_0000 && 0 <= b < 0x1_0000
    ensures PackHH(a, b).Failure? ==> PackHH(a, b).error == StructError
    ensures PackHH(a, b).Success? ==>
      var r := PackHH(a, b).value;
      |r| == 4 && BigEndian(r[..2]) == a && BigEndian(r[2..]) == b
  {
    if PackHH(a, b).Success? {
      var r := PackHH(a, b).value;
      assert r[..2] == PackH(a).value;
      assert r[2..] == PackH(b).value;
    }
  }

  // ---------------------------------------------------------------- the two write operations

  /** write_single_coil(number, data): function code 5 and the packed pair (number, json.loads(data)). */
  function WriteSingleCoil(number: int, data: RawValue): (r: Result<(int, seq<Byte>), PyError>)
    ensures r.Success? ==> r.value.0 == Modbus.WRITE_SINGLE_COIL == 5
  {
    var v :- data.json;
    var n :- JsonInteger(v).ToResult(StructError);
    var packed :- PackHH(number, n);
    Success((Modbus.WRITE_SINGLE_COIL, packed))
  }

  /** write_holding_register(number, data): function code 6 and the packed pair (number, int(float(data))). */
  function WriteHoldingRegister(number: int, data: RawValue): (r: Result<(int, seq<Byte>), PyError>)
    ensures r.Success? ==> r.value.0 == Modbus.WRITE_HOLDING_REGISTER == 6
  {
    var n :- data.truncated;
    var packed :- PackHH(number, n);
    Success((Modbus.WRITE_HOLDING_REGISTER, packed))
  }

  /** A coil write succeeds exactly when the value is a JSON integer or bool and both numbers fit a short; the coil and the value read back. */
  lemma WriteSingleCoilFields(number: int, data: RawValue)
    ensures data.json.Failure? ==> WriteSingleCoil(number, data) == Failure(data.json.error)
    ensures data.json.Success? && data.json.value.JsonOther? ==> WriteSingleCoil(number, data) == Failure(StructError)
    ensures data.json.Success? && !data.json.value.JsonOther? ==>
      var n := JsonInteger(data.json.value).value;
      var r := WriteSingleCoil(number, data);
      && (r.Success? <==> 0 <= number < 0x1_0000 && 0 <= n < 0x1_0000)
      && (r.Failure? ==> r.error == StructError)
      && (r.Success? ==> |r.value.1| == 4 && BigEndian(r.value.1[..2]) == number && BigEndian(r.value.1[2..]) == n)
  {
    if data.json.Success? && !data.json.value.JsonOther? {
      PackHHReadBack(number, JsonInteger(data.json.value).value);
    }
  }

  /** A register write succeeds exactly when the truncated value and the register fit a short; both read back. */
  lemma WriteHoldingRegisterFields(number: int, data: RawValue)
    ensures data.truncated.Failure? ==> WriteHoldingRegister(number, data) == Failure(data.truncated.error)
    ensures data.truncated.Success? ==>
      var n := data.truncated.value;
      var r := WriteHoldingRegister(number, data);
      && (r.Success? <==> 0 <= number < 0x1_0000 && 0 <= n < 0x1_0000)
      && (r.Failure? ==> r.error == StructError)
      && (r.Success? ==> |r.value.1| == 4 && BigEndian(r.value.1[..2]) == number && BigEndian(r.value.1[2..]) == n)
  {
    if data.truncated.Success? {
      PackHHReadBack(number, data.truncated.value);
    }
  }

  /**
   * MODBUS_FUNCTIONS[data_type](number, data): an unknown data type raises
   * KeyError; a frame body that is built carries code 6 for "numeric" and 5
   * for "binary", and its two shorts read back as the register and the
   * value the chosen reader makes of data.
   */
  function ModbusData(dataType: string, number: int, data: RawValue): (r: Result<(int, seq<Byte>), PyError>)
    ensures dataType != "numeric" && dataType != "binary" ==> r == Failure(KeyError)
    ensures r.Success? ==>
      && (r.value.0 == Modbus.WRITE_HOLDING_REGISTER <==> dataType == "numeric")
      && (r.value.0 == Modbus.WRITE_SINGLE_COIL <==> dataType == "binary")
      && |r.value.1| == 4 && 0 <= number < 0x1_0000 && BigEndian(r.value.1[..2]) == number
    ensures r.Success? && dataType == "numeric" ==> data.truncated == Success(BigEndian(r.value.1[2..]))
    ensures r.Success? && dataType == "binary" ==>
      data.json.Success? && JsonInteger(data.json.value) == Some(BigEndian(r.value.1[2..]))
    ensures r.Failure? && dataType == "numeric" ==>
      r.error == StructError || (data.truncated.Failure? && r.error == data.truncated.error)
    ensures r.Failure? && dataType == "binary" ==>
      r.error == StructError || (data.json.Failure? && r.error == data.json.error)
  {
    WriteHoldingRegisterFields(number, data);
    WriteSingleCoilFields(number, data);
    if dataType == "numeric" then WriteHoldingRegister(number, data)
    else if dataType == "binary" then WriteSingleCoil(number, data)
    else Failure(KeyError)
  }

  // ---------------------------------------------------------------- parameter names

  /**
   * decompose(name): the '-'-separated addresses of the second '_'-separated
   * part read as hex, the third part as it is and the fourth read as hex.
   * Unpacking into four names raises ValueError for any other number of parts.
   */
  function Decompose(name: string): (r: Result<(seq<int>, string, int), PyError>)
    ensures |Split(name, '_')| != 4 ==> r == Failure(ValueError)
    ensures r.Failure? ==> r.error == ValueError
  {
    var parts := Split(name, '_');
    if |parts| != 4 then Failure(ValueError)
    else
      var addresses :- ParseHexInts(Split(parts[1], '-')).ToResult(ValueError);
      var number :- ParseHexInt(parts[3]).ToResult(ValueError);
      Success((addresses, parts[2], number))
  }

  /** A parameter name W_A_D_N with the address list A written as a1-a2-... */
  function ParameterName(what: string, addresses: seq<string>, dataType: string, number: string): string
  {
    Join([what, Join(addresses, '-'), dataType, number], '_')
  }

  /** A character that neither the parts nor the separator are does not appear in their join. */
  lemma {:induction false} JoinAvoids(parts: seq<string>, sep: char, c: char)
    requires c != sep
    requires forall i :: 0 <= i < |parts| ==> c !in parts[i]
    ensures c !in Join(parts, sep)
  {
    if |parts| > 1 {
      JoinAvoids(parts[1..], sep, c);
    }
  }

  /**
   * Decomposing a well-formed parameter name gives back its parts: the
   * addresses read as hex in the order written, the data type unchanged and
   * the channel read as hex; an address or a channel that is not a hex
   * literal raises ValueError.
   */
  lemma DecomposeName(what: string, addresses: seq<string>, dataType: string, number: string)
    requires '_' !in what && '_' !in dataType && '_' !in number
    requires |addresses| >= 1
    requires forall i :: 0 <= i < |addresses| ==> '_' !in addresses[i] && '-' !in addresses[i]
    ensures var r := Decompose(ParameterName(what, addresses, dataType, number));
      && (r.Success? <==> (forall i :: 0 <= i < |addresses| ==> ParseHexInt(addresses[i]).Some?) && ParseHexInt(number).Some?)
      && (r.Success? ==>
            && |r.value.0| == |addresses|
            && (forall i :: 0 <= i < |addresses| ==> ParseHexInt(addresses[i]) == Some(r.value.0[i]))
            && r.value.1 == dataType
            && Some(r.value.2) == ParseHexInt(number))
  {
    var joined := Join(addresses, '-');
    JoinAvoids(addresses, '-', '_');
    var parts := [what, joined, dataType, number];
    SplitOfJoin(parts, '_');
    SplitOfJoin(addresses, '-');
    ParseHexIntsAt(addresses);
  }

  // ---------------------------------------------------------------- the network handler

  /** What one request parameter asks for: the motes, the function code and the packed data. */
  function Request(key: string, value: RawValue): (r: Result<(seq<int>, int, seq<Byte>), PyError>)
    ensures r.Success? ==> r.value.1 == Modbus.WRITE_SINGLE_COIL || r.value.1 == Modbus.WRITE_HOLDING_REGISTER
  {
    var d :- Decompose(key);
    var op :- ModbusData(d.1, d.2, value);
    Success((d.0, op.0, op.1))
  }

  /** build(address, code, data) for each address in order. */
  function FramesFor(addresses: seq<int>, code: int, data: seq<Byte>): seq<string>
  {
    MapAddresses(addresses, a => Modbus.Build(a, code, data))
  }

  /** f applied to each address in order. */
  function MapAddresses<T>(addresses: seq<int>, f: int -> T): (r: seq<T>)
  {
    if |addresses| == 0 then []
    else MapAddresses(addresses[..|addresses| - 1], f) + [f(addresses[|addresses| - 1])]
  }

  /** One frame per address, in the order of the addresses. */
  lemma FramesForAt(addresses: seq<int>, code: int, data: seq<Byte>)
    ensures |FramesFor(addresses, code, data)| == |addresses|
    ensures forall i :: 0 <= i < |addresses| ==> FramesFor(addresses, code, data)[i] == Modbus.Build(addresses[i], code, data)
  {
    MapAddressesAt(addresses, a => Modbus.Build(a, code, data));
  }

  lemma {:induction false} MapAddressesAt<T>(addresses: seq<int>, f: int -> T)
    ensures |MapAddresses(addresses, f)| == |addresses|
    ensures forall i :: 0 <= i < |addresses| ==> MapAddresses(addresses, f)[i] == f(addresses[i])
  {
    if |addresses| > 0 {
      var n := |addresses| - 1;
      MapAddressesAt(addresses[..n], f);
      assert forall i :: 0 <= i < n ==> addresses[..n][i] == addresses[i];
    }
  }

  /**
   * The frames network() writes for the request's parameters, in order, and
   * the error that ends the handler, if one does: the frames of the
   * parameters before the failing one have already been written.
   */
  function Transmissions(params: seq<(string, RawValue)>): (seq<string>, Option<PyError>)
  {
    if |params| == 0 then ([], None)
    else
      match Request(params[0].0, params[0].1)
      case Failure(e) => ([], Some(e))
      case Success(req) =>
        var rest := Transmissions(params[1..]);
        (FramesFor(req.0, req.1, req.2) + rest.0, rest.1)
  }

  /** When every parameter is well formed, one frame per (parameter, address) pair and no error. */
  lemma {:induction false} TransmissionsCount(params: seq<(string, RawValue)>)
    requires forall k :: 0 <= k < |params| ==> Request(params[k].0, params[k].1).Success?
    ensures Transmissions(params).1 == None
    ensures |Transmissions(params).0| == AddressCount(params)
  {
    if |params| > 0 {
      assert forall k :: 0 <= k < |params| - 1 ==> params[1..][k] == params[k + 1];
      TransmissionsCount(params[1..]);
      var req := Request(params[0].0, params[0].1).value;
      FramesForAt(req.0, req.1, req.2);
    }
  }

  /** The number of addresses named by the parameters, each counted once per parameter that names it. */
  function AddressCount(params: seq<(string, RawValue)>): nat
  {
    if |params| == 0 then 0
    else
      var r := Request(params[0].0, params[0].1);
      (if r.Success? then |r.value.0| else 0) + AddressCount(params[1..])
  }

  /**
   * network(): for each parameter, decompose its name, pack its value, then
   * write build(address, code, data) for each address; the serial line is
   * replaced by the list of frames written, and an exception by the error it
   * carries.
   */
  method Network(params: seq<(string, RawValue)>) returns (frames: seq<string>, error: Option<PyError>)
    ensures frames == Transmissions(params).0 && error == Transmissions(params).1
  {
    frames := [];
    var k := 0;
    assert params[0..] == params;
    assert frames + Transmissions(params).0 == Transmissions(params).0;
    while k < |params|
      invariant 0 <= k <= |params|
      invariant Transmissions(params).0 == frames + Transmissions(params[k..]).0
      invariant Transmissions(params).1 == Transmissions(params[k..]).1
    {
      TransmissionsFrom(params, k);
      var req := Request(params[k].0, params[k].1);
      if req.Failure? {
        assert frames + [] == frames;
        error := Some(req.error);
        return;
      }
      ghost var f := FramesFor(req.value.0, req.value.1, req.value.2);
      Assoc(frames, f, Transmissions(params[k + 1..]).0);
      frames := WriteFrames(frames, req.value.0, req.value.1, req.value.2);
      k := k + 1;
    }
    assert params[k..] == [];
    assert frames + [] == frames;
    error := None;
  }

  lemma Assoc<T>(a: seq<T>, b: seq<T>, c: seq<T>)
    ensures a + (b + c) == (a + b) + c
  {
  }

  /** The frames of one more address are those of the addresses before it, then its own. */
  lemma FramesForSnoc(addresses: seq<int>, j: nat, code: int, data: seq<Byte>)
    requires j < |addresses|
    ensures FramesFor(addresses[..j + 1], code, data) == FramesFor(addresses[..j], code, data) + [Modbus.Build(addresses[j], code, data)]
  {
    MapAddressesSnoc(addresses, j, a => Modbus.Build(a, code, data));
  }

  lemma MapAddressesSnoc<T>(addresses: seq<int>, j: nat, f: int -> T)
    requires j < |addresses|
    ensures MapAddresses(addresses[..j + 1], f) == MapAddresses(addresses[..j], f) + [f(addresses[j])]
  {
    assert addresses[..j + 1][..j] == addresses[..j];
  }

  /** The inner loop of network(): build(address, function, data) written for each address in turn. */
  method WriteFrames(written: seq<string>, addresses: seq<int>, code: int, data: seq<Byte>) returns (frames: seq<string>)
    ensures frames == written + FramesFor(addresses, code, data)
  {
    frames := written;
    var j := 0;
    while j < |addresses|
      invariant 0 <= j <= |addresses|
      invariant frames == written + FramesFor(addresses[..j], code, data)
    {
      var frame := Modbus.Build(addresses[j], code, data);
      FramesForSnoc(addresses, j, code, data);
      Assoc(written, FramesFor(addresses[..j], code, data), [frame]);
      frames := frames + [frame];
      j := j + 1;
    }
    assert addresses[..j] == addresses;
  }

  /** Transmissions from parameter k on: those of parameter k, then those of the rest. */
  lemma TransmissionsFrom(params: seq<(string, RawValue)>, k: nat)
    requires k < |params|
    ensures var r := Request(params[k].0, params[k].1);
      Transmissions(params[k..]) ==
        if r.Failure? then ([], Some(r.error))
        else (FramesFor(r.value.0, r.value.1, r.value.2) + Transmissions(params[k + 1..]).0, Transmissions(params[k + 1..]).1)
  {
    assert params[k..][0] == params[k];
    assert params[k..][1..] == params[k + 1..];
  }
}
