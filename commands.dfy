/** Command frames (wxt5xx/message.py, `Message`, `ASCIIMessage`,
    `SDI12Message`, and the protocol and parameter tables they use): an
    address, a command, optional `,key=value` parameters, the CRC when the
    protocol carries one, and the variant's terminator. */
module Commands {
  import opened Common
  import opened Text
  import opened Crc
  import opened Settings
  import opened Parsers
  import opened Frames

  // ---------------------------------------------------------------------
  // Protocol and parameter tables

  /** `CommunicationProtocol`: ASCII automatic / polled, each with and
      without CRC, and NMEA automatic / polled. */
  const Protocols: set<string> := {"A", "a", "P", "p", "N", "Q"}

  /** `SerialInterface`: SDI-12, RS-232, RS-485, RS-422. */
  const SerialInterfaces: set<string> := {"1", "2", "3", "4"}

  /** `CommunicationParameters`: the one-letter parameter names. */
  const Parameters: set<string> := {"A", "M", "T", "C", "I", "B", "D", "P", "S", "L", "N", "V", "H"}

  /** The letters `set_communication_settings` emits: protocol, serial
      interface, composite repeat, baud rate and data bits. */
  const SentParameters: set<string> := {"M", "C", "I", "B", "D"}

  const ValidBaudRates: seq<nat> := [1200, 2400, 4800, 9600, 19200, 38400, 57600, 115200]
  const ValidDataBits: seq<nat> := [7, 8]

  datatype Variant = Ascii | Sdi12

  /** `CommunicationProtocol.lookup_protocol`: the ASCII protocols select
      the ASCII message class; NMEA and anything else select none. */
  function LookupProtocol(protocol: string): (r: Option<Variant>)
    ensures r.Some? <==> protocol in Protocols && protocol != "N" && protocol != "Q"
    ensures r.Some? ==> r.value == Ascii
  {
    if protocol == "A" || protocol == "a" || protocol == "P" || protocol == "p" then Some(Ascii) else None
  }

  /** `CommunicationProtocol.has_crc`: only the two CRC variants of ASCII,
      which are lower-case. */
  function HasCrc(protocol: string): (r: bool)
    ensures r ==> LookupProtocol(protocol) == Some(Ascii) && protocol != Upper(protocol)
    ensures protocol in Protocols && !r ==> protocol == Upper(protocol)
  {
    protocol == "a" || protocol == "p"
  }

  function Term(v: Variant): string {
    match v
    case Ascii => "\r\n"
    case Sdi12 => "!"
  }

  /** The command that reads (and, with parameters, sets) the
      communication settings. */
  function CommsCommand(v: Variant): string {
    match v
    case Ascii => "xU"
    case Sdi12 => "XXU"
  }

  /** `enumerate_devices()`: the address query `?` and the variant's
      terminator, which is whitespace exactly for ASCII. */
  function EnumerateDevices(v: Variant): (r: string)
    ensures |r| >= 2 && r[0] == '?'
    ensures AllSpace(r[1..]) <==> v == Ascii
  {
    TermSpace(v);
    assert ("?" + Term(v))[1..] == Term(v);
    "?" + Term(v)
  }

  /** The terminator is whitespace for ASCII, so the frame check strips it;
      the SDI-12 terminator is not. */
  lemma TermSpace(v: Variant)
    ensures AllSpace(Term(v)) <==> v == Ascii
  {
    if v == Sdi12 {
      assert Term(v)[0] == '!';
    } else {
      assert Term(v)[0] == '\r' && Term(v)[1] == '\n';
    }
  }

  // ---------------------------------------------------------------------
  // set_communication_settings parameters

  /** The keyword arguments of set_communication_settings. Parity, stop
      bits, RS-485 line delay and lock are accepted and never sent. */
  datatype CommParams = CommParams(
    protocol: Option<string>,
    serialInterface: Option<string>,
    compositeDataRepeat: Option<int>,
    baudRate: Option<int>,
    dataBits: Option<int>,
    parity: Option<string>,
    stopBits: Option<string>,
    rs485LineDelay: Option<string>,
    lock: Option<string>)

  function Decimal(n: Option<int>): Option<string> {
    if n.None? then None else Some(IntToString(n.value))
  }

  /** The `key=value` token of a supplied parameter. */
  function Opt(key: string, value: Option<string>): seq<string> {
    if value.None? then [] else [key + "=" + value.value]
  }

  /** The parameters' tokens, in the order M, C, I, B, D, after each has been
      checked against its domain in that order. Data bits are checked against
      `dataBits` (see DataBitsFinding). A request is sent exactly when each
      supplied argument lies in its domain. */
  function Params(p: CommParams, dataBits: seq<nat>): (r: Result<seq<string>>)
    ensures r.Ok? <==>
      && (p.protocol.Some? ==> p.protocol.value in Protocols)
      && (p.serialInterface.Some? ==> p.serialInterface.value in SerialInterfaces)
      && (p.compositeDataRepeat.Some? ==> 0 <= p.compositeDataRepeat.value <= 3600)
      && (p.baudRate.Some? ==> p.baudRate.value in ValidBaudRates)
      && (p.dataBits.Some? ==> p.dataBits.value in dataBits)
    ensures r.Ok? ==> |r.value| <= 5
  {
    if p.protocol.Some? && p.protocol.value !in Protocols then Failure(InvalidParameter("protocol"))
    else if p.serialInterface.Some? && p.serialInterface.value !in SerialInterfaces then
      Failure(InvalidParameter("serial_interface"))
    else if p.compositeDataRepeat.Some? && !(0 <= p.compositeDataRepeat.value <= 3600) then
      Failure(InvalidParameter("composite_data_repeat"))
    else if p.baudRate.Some? && p.baudRate.value !in ValidBaudRates then Failure(InvalidParameter("baud_rate"))
    else if p.dataBits.Some? && p.dataBits.value !in dataBits then Failure(InvalidParameter("data_bits"))
    else Ok(Opt("M", p.protocol) + Opt("C", p.serialInterface) + Opt("I", Decimal(p.compositeDataRepeat))
      + Opt("B", Decimal(p.baudRate)) + Opt("D", Decimal(p.dataBits)))
  }

  /** A refused call fails with the error of the first argument outside its
      domain, checked in the order protocol, serial interface, composite
      repeat, baud rate, data bits. */
  lemma ParamsRefused(p: CommParams, dataBits: seq<nat>)
    ensures p.protocol.Some? && p.protocol.value !in Protocols ==>
      Params(p, dataBits) == Failure(InvalidParameter("protocol"))
    ensures ((p.protocol.Some? ==> p.protocol.value in Protocols)
             && p.serialInterface.Some? && p.serialInterface.value !in SerialInterfaces) ==>
      Params(p, dataBits) == Failure(InvalidParameter("serial_interface"))
    ensures ((p.protocol.Some? ==> p.protocol.value in Protocols)
             && (p.serialInterface.Some? ==> p.serialInterface.value in SerialInterfaces)
             && p.compositeDataRepeat.Some? && !(0 <= p.compositeDataRepeat.value <= 3600)) ==>
      Params(p, dataBits) == Failure(InvalidParameter("composite_data_repeat"))
    ensures ((p.protocol.Some? ==> p.protocol.value in Protocols)
             && (p.serialInterface.Some? ==> p.serialInterface.value in SerialInterfaces)
             && (p.compositeDataRepeat.Some? ==> 0 <= p.compositeDataRepeat.value <= 3600)
             && p.baudRate.Some? && p.baudRate.value !in ValidBaudRates) ==>
      Params(p, dataBits) == Failure(InvalidParameter("baud_rate"))
    ensures ((p.protocol.Some? ==> p.protocol.value in Protocols)
             && (p.serialInterface.Some? ==> p.serialInterface.value in SerialInterfaces)
             && (p.compositeDataRepeat.Some? ==> 0 <= p.compositeDataRepeat.value <= 3600)
             && (p.baudRate.Some? ==> p.baudRate.value in ValidBaudRates)
             && p.dataBits.Some? && p.dataBits.value !in dataBits) ==>
      Params(p, dataBits) == Failure(InvalidParameter("data_bits"))
  {
  }

  /** Each token preceded by a comma. */
  function Parts(ts: seq<string>): string {
    if |ts| == 0 then "" else "," + ts[0] + Parts(ts[1..])
  }

  lemma {:induction false} PartsSnoc(ts: seq<string>, t: string)
    ensures Parts(ts + [t]) == Parts(ts) + "," + t
  {
    if |ts| > 0 {
      assert (ts + [t])[1..] == ts[1..] + [t];
      PartsSnoc(ts[1..], t);
    }
  }

  /** Appending one optional parameter extends the token list by its token. */
  lemma AppendOpt(result: string, ts: seq<string>, key: string, value: Option<string>)
    requires result == Parts(ts)
    ensures (if value.Some? then result + "," + key + "=" + value.value else result) == Parts(ts + Opt(key, value))
  {
    if value.Some? {
      PartsSnoc(ts, key + "=" + value.value);
    } else {
      assert ts + Opt(key, value) == ts;
    }
  }

  lemma {:induction false} SplitParts(t: string, ts: seq<string>)
    requires ',' !in t
    requires forall i :: 0 <= i < |ts| ==> ',' !in ts[i]
    ensures Split(t + Parts(ts), ',') == [t] + ts
    decreases |ts|
  {
    if |ts| == 0 {
      assert t + Parts(ts) == t;
      SplitNoSep(t, ',');
    } else {
      SplitParts(ts[0], ts[1..]);
      assert t + Parts(ts) == t + [','] + (ts[0] + Parts(ts[1..]));
      SplitAfterSep(t, ts[0] + Parts(ts[1..]), ',');
      assert [ts[0]] + ts[1..] == ts;
    }
  }

  /** How the station reads the parameters back: the `key=value` fields,
      numbers in decimal. */
  function ReadParams(fields: map<string, string>): CommParams {
    CommParams(
      TextField(fields, "M"), TextField(fields, "C"),
      NumberField(fields, "I"), NumberField(fields, "B"), NumberField(fields, "D"),
      None, None, None, None)
  }

  function TextField(fields: map<string, string>, key: string): Option<string> {
    if key in fields then Some(fields[key]) else None
  }

  function NumberField(fields: map<string, string>, key: string): Option<int> {
    if key in fields && IsDigits(fields[key]) then Some(DecimalValue(fields[key])) else None
  }

  /** What is sent of a request: everything but the four ignored arguments. */
  function Sent(p: CommParams): CommParams {
    p.(parity := None, stopBits := None, rs485LineDelay := None, lock := None)
  }

  lemma PairsOpt(xs: seq<string>, key: string, value: Option<string>)
    requires Pairs(xs).Ok?
    requires '=' !in key && (value.Some? ==> '=' !in value.value)
    ensures Pairs(xs + Opt(key, value)) == Ok(With(Pairs(xs).value, key, value))
  {
    if value.Some? {
      PairsSnoc(xs, key, value.value);
    } else {
      assert xs + Opt(key, value) == xs;
    }
  }

  lemma DecimalDigits(n: Option<int>)
    requires n.Some? ==> n.value >= 0
    ensures Decimal(n).Some? ==> IsDigits(Decimal(n).value) && '=' !in Decimal(n).value && ',' !in Decimal(n).value
    ensures Decimal(n).Some? ==> DecimalValue(Decimal(n).value) == n.value
    ensures Decimal(n).None? <==> n.None?
  {
    if n.Some? {
      NatToStringValue(n.value);
    }
  }

  /** The fields a request sends, keyed by parameter name. */
  function SentFields(p: CommParams): map<string, string> {
    With(With(With(With(With(map[], "M", p.protocol), "C", p.serialInterface),
      "I", Decimal(p.compositeDataRepeat)), "B", Decimal(p.baudRate)), "D", Decimal(p.dataBits))
  }

  function With(m: map<string, string>, key: string, value: Option<string>): map<string, string> {
    if value.None? then m else m[key := value.value]
  }

  /** A value the tables allow holds neither separator. */
  lemma TableValuesBare(p: CommParams, dataBits: seq<nat>)
    requires Params(p, dataBits).Ok?
    ensures p.protocol.Some? ==> ',' !in p.protocol.value && '=' !in p.protocol.value
    ensures p.serialInterface.Some? ==> ',' !in p.serialInterface.value && '=' !in p.serialInterface.value
    ensures p.compositeDataRepeat.Some? ==> p.compositeDataRepeat.value >= 0
    ensures p.baudRate.Some? ==> p.baudRate.value >= 0
    ensures p.dataBits.Some? ==> p.dataBits.value >= 0
  {
    if p.protocol.Some? {
      var x := p.protocol.value;
      assert x == "A" || x == "a" || x == "P" || x == "p" || x == "N" || x == "Q";
    }
    if p.serialInterface.Some? {
      var x := p.serialInterface.value;
      assert x == "1" || x == "2" || x == "3" || x == "4";
    }
  }

  lemma OptNoComma(key: string, value: Option<string>)
    requires ',' !in key && (value.Some? ==> ',' !in value.value)
    ensures forall t :: t in Opt(key, value) ==> ',' !in t
  {
  }

  lemma ParamsSplit(p: CommParams, dataBits: seq<nat>)
    requires Params(p, dataBits).Ok?
    ensures Split(Parts(Params(p, dataBits).value), ',') == [""] + Params(p, dataBits).value
  {
    var ts := Params(p, dataBits).value;
    TableValuesBare(p, dataBits);
    DecimalDigits(p.compositeDataRepeat);
    DecimalDigits(p.baudRate);
    DecimalDigits(p.dataBits);
    OptNoComma("M", p.protocol);
    OptNoComma("C", p.serialInterface);
    OptNoComma("I", Decimal(p.compositeDataRepeat));
    OptNoComma("B", Decimal(p.baudRate));
    OptNoComma("D", Decimal(p.dataBits));
    assert forall t :: t in ts ==> ',' !in t;
    assert forall j :: 0 <= j < |ts| ==> ts[j] in ts;
    SplitParts("", ts);
    assert "" + Parts(ts) == Parts(ts);
  }

  /** The supplied text arguments hold no `=` and the numbers are not
      negative, as the tables guarantee (TableValuesBare). */
  predicate Bare(p: CommParams) {
    && (p.protocol.Some? ==> '=' !in p.protocol.value)
    && (p.serialInterface.Some? ==> '=' !in p.serialInterface.value)
    && (p.compositeDataRepeat.Some? ==> p.compositeDataRepeat.value >= 0)
    && (p.baudRate.Some? ==> p.baudRate.value >= 0)
    && (p.dataBits.Some? ==> p.dataBits.value >= 0)
  }

  // The tokens' pairs, one parameter at a time.

  lemma PairsM(p: CommParams)
    requires Bare(p)
    ensures Pairs(Opt("M", p.protocol)) == Ok(With(map[], "M", p.protocol))
  {
    var xs0: seq<string> := [];
    assert xs0 + Opt("M", p.protocol) == Opt("M", p.protocol);
    assert Pairs(xs0) == Ok(map[]);
    PairsOpt(xs0, "M", p.protocol);
  }

  lemma PairsMC(p: CommParams)
    requires Bare(p)
    ensures Pairs(Opt("M", p.protocol) + Opt("C", p.serialInterface))
      == Ok(With(With(map[], "M", p.protocol), "C", p.serialInterface))
  {
    PairsM(p);
    PairsOpt(Opt("M", p.protocol), "C", p.serialInterface);
  }

  lemma PairsMCI(p: CommParams)
    requires Bare(p)
    ensures Pairs(Opt("M", p.protocol) + Opt("C", p.serialInterface) + Opt("I", Decimal(p.compositeDataRepeat)))
      == Ok(With(With(With(map[], "M", p.protocol), "C", p.serialInterface), "I", Decimal(p.compositeDataRepeat)))
  {
    PairsMC(p);
    DecimalDigits(p.compositeDataRepeat);
    PairsOpt(Opt("M", p.protocol) + Opt("C", p.serialInterface), "I", Decimal(p.compositeDataRepeat));
  }

  lemma PairsMCIB(p: CommParams)
    requires Bare(p)
    ensures Pairs(Opt("M", p.protocol) + Opt("C", p.serialInterface) + Opt("I", Decimal(p.compositeDataRepeat))
        + Opt("B", Decimal(p.baudRate)))
      == Ok(With(With(With(With(map[], "M", p.protocol), "C", p.serialInterface),
        "I", Decimal(p.compositeDataRepeat)), "B", Decimal(p.baudRate)))
  {
    PairsMCI(p);
    DecimalDigits(p.baudRate);
    PairsOpt(Opt("M", p.protocol) + Opt("C", p.serialInterface) + Opt("I", Decimal(p.compositeDataRepeat)),
      "B", Decimal(p.baudRate));
  }

  /** Reading the sent tokens back as `key=value` pairs gives the sent fields. */
  lemma ParamsPairs(p: CommParams, dataBits: seq<nat>)
    requires Params(p, dataBits).Ok?
    ensures Pairs(Params(p, dataBits).value) == Ok(SentFields(p))
  {
    TableValuesBare(p, dataBits);
    PairsMCIB(p);
    DecimalDigits(p.dataBits);
    PairsOpt(Opt("M", p.protocol) + Opt("C", p.serialInterface) + Opt("I", Decimal(p.compositeDataRepeat))
      + Opt("B", Decimal(p.baudRate)), "D", Decimal(p.dataBits));
  }

  lemma WithKeeps(m: map<string, string>, key: string, value: Option<string>, other: string)
    requires other != key
    ensures TextField(With(m, key, value), other) == TextField(m, other)
    ensures NumberField(With(m, key, value), other) == NumberField(m, other)
  {
  }

  lemma WithPuts(m: map<string, string>, key: string, value: Option<string>)
    ensures TextField(With(m, key, value), key) == (if value.Some? then value else TextField(m, key))
    ensures value.Some? && IsDigits(value.value) ==>
      NumberField(With(m, key, value), key) == Some(DecimalValue(value.value))
    ensures With(m, key, value).Keys <= m.Keys + {key}
  {
  }

  lemma ReadSent(p: CommParams)
    requires p.compositeDataRepeat.Some? ==> p.compositeDataRepeat.value >= 0
    requires p.baudRate.Some? ==> p.baudRate.value >= 0
    requires p.dataBits.Some? ==> p.dataBits.value >= 0
    ensures ReadParams(SentFields(p)) == Sent(p)
  {
    DecimalDigits(p.compositeDataRepeat);
    DecimalDigits(p.baudRate);
    DecimalDigits(p.dataBits);
    var i, b, d := Decimal(p.compositeDataRepeat), Decimal(p.baudRate), Decimal(p.dataBits);
    var m0: map<string, string> := map[];
    var m1 := With(m0, "M", p.protocol);
    var m2 := With(m1, "C", p.serialInterface);
    var m3 := With(m2, "I", i);
    var m4 := With(m3, "B", b);
    var m5 := With(m4, "D", d);
    WithPuts(m0, "M", p.protocol);
    WithPuts(m1, "C", p.serialInterface);
    WithPuts(m2, "I", i);
    WithPuts(m3, "B", b);
    WithPuts(m4, "D", d);
    WithKeeps(m1, "C", p.serialInterface, "M");
    WithKeeps(m2, "I", i, "M");
    WithKeeps(m2, "I", i, "C");
    WithKeeps(m3, "B", b, "M");
    WithKeeps(m3, "B", b, "C");
    WithKeeps(m3, "B", b, "I");
    WithKeeps(m4, "D", d, "M");
    WithKeeps(m4, "D", d, "C");
    WithKeeps(m4, "D", d, "I");
    WithKeeps(m4, "D", d, "B");
    assert TextField(m5, "M") == p.protocol && TextField(m5, "C") == p.serialInterface;
    assert NumberField(m5, "I") == p.compositeDataRepeat;
    assert NumberField(m5, "B") == p.baudRate && NumberField(m5, "D") == p.dataBits;
  }

  /** Only the five emitted letters are sent; parity, stop bits, line delay
      and lock never appear. */
  lemma SentKeys(p: CommParams)
    ensures SentFields(p).Keys <= SentParameters
    ensures SentFields(p).Keys <= Parameters
  {
  }

  /** The parameter string round-trips: reading back the fields after the
      command gives every sent argument, and only the letters M, C, I, B and
      D are used, so parity, stop bits, line delay and lock are absent. */
  lemma CommParamsRoundTrip(p: CommParams, dataBits: seq<nat>)
    requires Params(p, dataBits).Ok?
    ensures var values := Split(Parts(Params(p, dataBits).value), ',');
      && values[0] == ""
      && Pairs(values[1..]).Ok?
      && Pairs(values[1..]).value.Keys <= SentParameters
      && ReadParams(Pairs(values[1..]).value) == Sent(p)
  {
    var ts := Params(p, dataBits).value;
    var values := Split(Parts(ts), ',');
    ParamsSplit(p, dataBits);
    assert values[1..] == ts by { assert ([""] + ts)[1..] == ts; }
    ParamsPairs(p, dataBits);
    assert Pairs(values[1..]) == Ok(SentFields(p));
    ReadSent(p);
    SentKeys(p);
  }

  /** As written, data bits are checked against the baud-rate table: the
      usual 8 data bits are refused and 9600 is sent as a data-bit count. */
  lemma DataBitsFinding()
    ensures var eight := CommParams(None, None, None, None, Some(8), None, None, None, None);
      && Params(eight, ValidBaudRates) == Failure(InvalidParameter("data_bits"))
      && Params(eight, ValidDataBits) == Ok(["D=8"])
    ensures var baud := CommParams(None, None, None, None, Some(9600), None, None, None, None);
      && Params(baud, ValidBaudRates) == Ok(["D=9600"])
      && Params(baud, ValidDataBits) == Failure(InvalidParameter("data_bits"))
  {
    var eight := CommParams(None, None, None, None, Some(8), None, None, None, None);
    var baud := CommParams(None, None, None, None, Some(9600), None, None, None, None);
    var none: seq<string> := [];
    assert Opt("M", None) == none && Opt("C", None) == none && Decimal(None) == None && Opt("I", None) == none;
    assert NatToString(8) == "8";
    assert NatToString(9) == "9" && NatToString(96) == "96" && NatToString(960) == "960";
    assert NatToString(9600) == "9600";
    assert "D" + "=" + "8" == "D=8";
    assert "D" + "=" + "9600" == "D=9600";
    assert Opt("D", Some("8")) == ["D=8"];
    assert Opt("D", Some("9600")) == ["D=9600"];
    assert 8 !in ValidBaudRates && 8 in ValidDataBits;
    assert 9600 in ValidBaudRates && 9600 !in ValidDataBits;
    assert Params(eight, ValidDataBits).Ok? && Params(baud, ValidBaudRates).Ok?;
    assert Params(eight, ValidDataBits).value == none + none + none + none + ["D=8"] == ["D=8"];
    assert Params(baud, ValidBaudRates).value == none + none + none + none + ["D=9600"] == ["D=9600"];
  }

  /** With the data-bit table, only 7 or 8 data bits are ever sent. */
  lemma DataBitsCorrected(p: CommParams)
    requires Params(p, ValidDataBits).Ok?
    ensures p.dataBits.Some? ==> p.dataBits.value == 7 || p.dataBits.value == 8
    ensures p.dataBits.Some? ==> "D=" + NatToString(p.dataBits.value) in Params(p, ValidDataBits).value
  {
    if p.dataBits.Some? {
      var ts := Params(p, ValidDataBits).value;
      assert ts[|ts| - 1] == "D=" + IntToString(p.dataBits.value);
    }
  }

  /** The checks and appends of set_communication_settings, one parameter
      after another: the `,key=value` text that follows the command. */
  method AppendParams(p: CommParams, dataBits: seq<nat>) returns (r: Result<string>)
    ensures match Params(p, dataBits)
      case Ok(ts) => r == Ok(Parts(ts))
      case Failure(e) => r == Failure(e)
  {
    var result := "";
    ghost var ts: seq<string> := [];
    ghost var before: string;
    before := result;
    if p.protocol.Some? {
      if p.protocol.value !in Protocols {
        return Failure(InvalidParameter("protocol"));
      }
      result := result + "," + "M" + "=" + p.protocol.value;
    }
    AppendOpt(before, ts, "M", p.protocol);
    ts := Opt("M", p.protocol);
    assert [] + ts == ts;
    assert result == Parts(ts);
    before := result;
    if p.serialInterface.Some? {
      if p.serialInterface.value !in SerialInterfaces {
        return Failure(InvalidParameter("serial_interface"));
      }
      result := result + "," + "C" + "=" + p.serialInterface.value;
    }
    AppendOpt(before, ts, "C", p.serialInterface);
    ts := ts + Opt("C", p.serialInterface);
    assert result == Parts(ts);
    before := result;
    if p.compositeDataRepeat.Some? {
      if p.compositeDataRepeat.value < 0 || p.compositeDataRepeat.value > 3600 {
        return Failure(InvalidParameter("composite_data_repeat"));
      }
      result := result + "," + "I" + "=" + IntToString(p.compositeDataRepeat.value);
    }
    AppendOpt(before, ts, "I", Decimal(p.compositeDataRepeat));
    ts := ts + Opt("I", Decimal(p.compositeDataRepeat));
    assert result == Parts(ts);
    before := result;
    if p.baudRate.Some? {
      if p.baudRate.value !in ValidBaudRates {
        return Failure(InvalidParameter("baud_rate"));
      }
      result := result + "," + "B" + "=" + IntToString(p.baudRate.value);
    }
    AppendOpt(before, ts, "B", Decimal(p.baudRate));
    ts := ts + Opt("B", Decimal(p.baudRate));
    assert result == Parts(ts);
    before := result;
    if p.dataBits.Some? {
      if p.dataBits.value !in dataBits {
        return Failure(InvalidParameter("data_bits"));
      }
      result := result + "," + "D" + "=" + IntToString(p.dataBits.value);
    }
    AppendOpt(before, ts, "D", Decimal(p.dataBits));
    ts := ts + Opt("D", Decimal(p.dataBits));
    assert result == Parts(ts);
    r := Ok(result);
  }

  // ---------------------------------------------------------------------
  // The message builder

  /** `ASCIIMessage` / `SDI12Message`: a station address, whether frames
      carry a CRC, and the variant's command set and terminator. */
  class Message {
    var address: string
    const hasChecksum: bool
    const variant: Variant

    constructor (address: string, hasChecksum: bool, variant: Variant)
      ensures this.address == address && this.hasChecksum == hasChecksum && this.variant == variant
    {
      this.address := address;
      this.hasChecksum := hasChecksum;
      this.variant := variant;
    }

    method SetAddress(address: string)
      modifies this
      ensures this.address == address
    {
      this.address := address;
    }

    /** `checksum(message)`: the payload, followed by its three CRC
        characters, none of them whitespace, only when the protocol has a
        CRC. */
    function WithChecksum(payload: string): (r: string)
      ensures |r| == |payload| + (if hasChecksum then 3 else 0)
      ensures r[..|payload|] == payload
      ensures hasChecksum ==> forall i :: |payload| <= i < |r| ==> !IsSpace(r[i])
      ensures hasChecksum ==> r[|payload|..] == Checksum(payload)
      ensures !hasChecksum ==> r == payload
    {
      if hasChecksum then payload + Checksum(payload) else payload
    }

    /** `self.checksum(payload) + self.term`. An ASCII frame with CRC passes
        the frame check and gives the payload back; without CRC the payload
        is sent as is. */
    function Framed(payload: string): (r: string)
      ensures variant == Ascii && hasChecksum && (|payload| > 0 ==> !IsSpace(payload[0])) ==>
        CheckCrc(r) == (payload, true)
      ensures !hasChecksum ==> r == payload + Term(variant)
    {
      // Both branches build the same frame; the first only brings in the
      // round-trip fact its condition makes available.
      if variant == Ascii && hasChecksum && (|payload| > 0 ==> !IsSpace(payload[0])) then
        CrcRoundTrip(payload, "\r\n");
        WithChecksum(payload) + Term(variant)
      else
        WithChecksum(payload) + Term(variant)
    }

    // The commands that are never checksummed.

    function ReadAllData(): string
      reads this
    {
      address + "R" + Term(variant)
    }

    function ResetPrecipitationIntensity(): string
      reads this
    {
      address + "xZRI" + Term(variant)
    }

    function ResetPrecipitationCounter(): string
      reads this
    {
      address + "xZRU" + Term(variant)
    }

    /** An ASCII builder with checksum whose address does not start with
        whitespace: its frames pass the CRC check. */
    predicate Checkable()
      reads this
    {
      variant == Ascii && hasChecksum && (|address| > 0 ==> !IsSpace(address[0]))
    }

    // The commands framed with `checksum(...) + term`: a checkable builder's
    // frame passes the CRC check and gives the address and command back;
    // without checksum it is the command and the terminator.

    function Reset(): (r: string)
      reads this
      ensures Checkable() ==> CheckCrc(r) == (address + "xZ", true)
      ensures !hasChecksum ==> r == address + "xZ" + Term(variant)
    {
      Framed(address + "xZ")
    }

    /** `get_connection_info()`: the ASCII command, for both variants. */
    function GetConnectionInfo(): (r: string)
      reads this
      ensures Checkable() ==> CheckCrc(r) == (address + "xU", true)
      ensures !hasChecksum ==> r == address + "xU" + Term(variant)
    {
      Framed(address + "xU")
    }

    function GetCommunicationSettings(): (r: string)
      reads this
      ensures Checkable() ==> CheckCrc(r) == (address + "xU", true)
      ensures !hasChecksum ==> r == address + CommsCommand(variant) + Term(variant)
    {
      Framed(address + CommsCommand(variant))
    }

    /** `get_ptu_settings()`, `get_precipitation_settings()`,
        `get_supervisor_settings()`. */
    function GetSettings(k: Kind): (r: string)
      reads this
      ensures Checkable() ==> CheckCrc(r) == (address + Tag(k), true)
      ensures !hasChecksum ==> r == address + Tag(k) + Term(variant)
    {
      Framed(address + Tag(k))
    }

    /** The frame `set_*_settings(settings)` returns: create_message's
        error, or a frame that a CRC parser accepts with the tag and the
        message as its body. */
    function SettingsFrame(k: Kind, es: seq<Entry>): (r: Result<string>)
      reads this
      requires WellFormed(es)
      ensures r.Ok? <==> CreatedMessage(k, es).Ok?
      ensures r.Failure? ==> r.error == CreatedMessage(k, es).error
      ensures r.Ok? && Checkable() ==> CheckCrc(r.value) == (address + Tag(k) + "," + CreatedMessage(k, es).value, true)
    {
      var body :- CreatedMessage(k, es);
      Ok(Framed(address + Tag(k) + "," + body))
    }

    /** `set_ptu_settings(settings)` and its two siblings: the settings
        dict is packed in place, as create_message does. */
    method SetSettings(k: Kind, settings: SettingsDict) returns (r: Result<string>)
      requires WellFormed(settings.entries)
      modifies settings
      ensures r == SettingsFrame(k, old(settings.entries))
      ensures settings.entries == EntriesAfter(k, old(settings.entries))
    {
      var body := settings.CreateMessage(k);
      if body.Failure? {
        return Failure(body.error);
      }
      r := Ok(Framed(address + Tag(k) + "," + body.value));
    }

    /** The frame set_communication_settings returns, with data bits checked
        against `dataBits`: the first refused argument's error, or a frame
        that a CRC parser accepts with the command and the parameters as its
        body. */
    function CommSettingsFrame(p: CommParams, dataBits: seq<nat>): (r: Result<string>)
      reads this
      ensures r.Ok? <==> Params(p, dataBits).Ok?
      ensures r.Failure? ==> r.error == Params(p, dataBits).error
      ensures r.Ok? && Checkable() ==>
        CheckCrc(r.value) == (address + "xU" + Parts(Params(p, dataBits).value), true)
    {
      var ts :- Params(p, dataBits);
      Ok(Framed(address + CommsCommand(variant) + Parts(ts)))
    }

    /** `set_communication_settings(...)`, with data bits checked against
        `dataBits`: the code as written passes the baud-rate table, the
        intended one the data-bit table (see DataBitsFinding). */
    method SetCommunicationSettings(p: CommParams, dataBits: seq<nat>) returns (r: Result<string>)
      ensures r == CommSettingsFrame(p, dataBits)
    {
      var parts := AppendParams(p, dataBits);
      if parts.Failure? {
        return Failure(parts.error);
      }
      r := Ok(Framed(address + CommsCommand(variant) + parts.value));
    }
  }

  // ---------------------------------------------------------------------
  // Properties of the builder

  /** Only the checksummed commands change with the CRC flag: the read and
      the two precipitation resets are the same frame either way. */
  lemma ChecksumOnlyWhereSent(a: Message, b: Message)
    requires a.address == b.address && a.variant == b.variant
    requires a.hasChecksum && !b.hasChecksum
    ensures a.ReadAllData() == b.ReadAllData()
    ensures a.ResetPrecipitationIntensity() == b.ResetPrecipitationIntensity()
    ensures a.ResetPrecipitationCounter() == b.ResetPrecipitationCounter()
    ensures |a.Reset()| == |b.Reset()| + 3
    ensures |a.GetConnectionInfo()| == |b.GetConnectionInfo()| + 3
    ensures |a.GetCommunicationSettings()| == |b.GetCommunicationSettings()| + 3
    ensures forall k :: |a.GetSettings(k)| == |b.GetSettings(k)| + 3
  {
  }
}
