/** Unit resolution of one `name=value` field (wxt5xx/message.py,
    `BaseMessageParser.parse_unit`): the last character of the value is a
    unit code, looked up in a table chosen by the name. */
module Units {
  import opened Common
  import opened Text

  /** One decoded measurement: Python's `[val, unit]` list. */
  datatype Reading = Reading(value: string, unit: string)

  const TemperatureUnits: map<char, string> := map['C' := "C", 'F' := "F"]
  const SpeedUnits: map<char, string> := map['M' := "m/s", 'K' := "km/h", 'S' := "mph", 'N' := "kn"]
  const DirectionUnits: map<char, string> := map['D' := "deg"]
  const PressureUnits: map<char, string> := map['H' := "hPa", 'P' := "Pa", 'B' := "bar", 'M' := "mmHg", 'I' := "inHg"]
  const HumidityUnits: map<char, string> := map['P' := "%"]
  const RainAccumulationUnits: map<char, string> := map['M' := "mm", 'I' := "in"]
  /** Both 'S' and 's' are accepted: the vendor manual is inconsistent. */
  const DurationUnits: map<char, string> := map['S' := "s", 's' := "s"]
  const RainIntensityUnits: map<char, string> := map['M' := "mm/h", 'I' := "in/h"]
  const HailAccumulationUnits: map<char, string> := map['M' := "hits/cm2", 'I' := "hits/in2", 'H' := "hits"]
  const HailIntensityUnits: map<char, string> := map['M' := "hits/cm2h", 'I' := "hits/in2h", 'H' := "hits/h"]
  const VoltageUnits: map<char, string> := map['V' := "V"]
  const HeatingStatus: map<char, string> :=
    map['N' := "0% hi-", 'V' := "50% mid-hi", 'W' := "100% lo-mid", 'F' := "50% -lo"]

  /** The unit tables of parse_unit, one per kind of measurement. */
  datatype UnitTable =
    | Temperature | Speed | Direction | Pressure | Humidity | RainAccumulation
    | Duration | RainIntensity | HailAccumulation | HailIntensity | Voltage | HeatingLevel

  function Codes(t: UnitTable): map<char, string> {
    match t
    case Temperature => TemperatureUnits
    case Speed => SpeedUnits
    case Direction => DirectionUnits
    case Pressure => PressureUnits
    case Humidity => HumidityUnits
    case RainAccumulation => RainAccumulationUnits
    case Duration => DurationUnits
    case RainIntensity => RainIntensityUnits
    case HailAccumulation => HailAccumulationUnits
    case HailIntensity => HailIntensityUnits
    case Voltage => VoltageUnits
    case HeatingLevel => HeatingStatus
  }

  /** The sentinel unit of a field the sensor reports as unavailable. */
  const Invalid := "invalid"

  /** The table the if/elif chain selects for a name, or None when no branch
      matches (the unit then stays ''). The chain tests, in this order: first
      character T, S, D; exactly Pa, Ua; last character d; exactly Ri or Rp,
      Rc, Hi or Hp, Hc, Vh; first character V. */
  function TableFor(name: string): (r: Option<UnitTable>)
    requires |name| > 0
    ensures r.None? <==>
      && name[0] != 'T' && name[0] != 'S' && name[0] != 'D' && name[0] != 'V'
      && name[|name| - 1] != 'd'
      && name !in {"Pa", "Ua", "Ri", "Rp", "Rc", "Hi", "Hp", "Hc"}
  {
    if name[0] == 'T' then Some(Temperature)
    else if name[0] == 'S' then Some(Speed)
    else if name[0] == 'D' then Some(Direction)
    else if name == "Pa" then Some(Pressure)
    else if name == "Ua" then Some(Humidity)
    else if name[|name| - 1] == 'd' then Some(Duration)
    else if name == "Ri" || name == "Rp" then Some(RainIntensity)
    else if name == "Rc" then Some(RainAccumulation)
    else if name == "Hi" || name == "Hp" then Some(HailIntensity)
    else if name == "Hc" then Some(HailAccumulation)
    else if name == "Vh" then Some(HeatingLevel)
    else if name[0] == 'V' then Some(Voltage)
    else None
  }

  /** `parse_unit(label_value)`: None for the `Id` field, otherwise the value
      without its last character and the unit that character stands for. A
      token without exactly one '=' or with an empty value is an error, `Id`
      included; the unit stays '' exactly when no table matches the name. */
  function ParseUnit(token: string): (r: Result<Option<Reading>>)
    ensures |Split(token, '=')| != 2 ==> r == Failure(MalformedField(token))
    ensures r.Ok? ==> |Split(token, '=')| == 2 && |Split(token, '=')[1]| > 0
    ensures r == Ok(None) <==>
      |Split(token, '=')| == 2 && Split(token, '=')[0] == "Id" && |Split(token, '=')[1]| > 0
    ensures r.Ok? && r.value.Some? ==> var value := Split(token, '=')[1];
      r.value.value.value == value[..|value| - 1]
  {
    var parts := Split(token, '=');
    if |parts| != 2 then Failure(MalformedField(token))
    else
      var name, value := parts[0], parts[1];
      if |value| == 0 then Failure(EmptyValue(token))
      else
        var code, val := value[|value| - 1], value[..|value| - 1];
        if name == "Id" then Ok(None)
        else if |name| == 0 then Failure(EmptyLabel(token))
        else match TableFor(name)
          case None => Ok(Some(Reading(val, "")))
          case Some(table) =>
            if code in Codes(table) then Ok(Some(Reading(val, Codes(table)[code])))
            else if code == '#' then Ok(Some(Reading(val, Invalid)))
            else Failure(UnresolvableUnit(code))
  }

  // ---------------------------------------------------------------------
  // An independent statement of the branch order: a list of rules, the
  // first whose matcher accepts the name chooses the table.

  datatype Matcher = FirstChar(c: char) | Exactly(word: string) | LastChar(c: char)

  predicate Accepts(m: Matcher, name: string)
    requires |name| > 0
  {
    match m
    case FirstChar(c) => name[0] == c
    case Exactly(w) => name == w
    case LastChar(c) => name[|name| - 1] == c
  }

  const Rules: seq<(Matcher, UnitTable)> := [
    (FirstChar('T'), Temperature),
    (FirstChar('S'), Speed),
    (FirstChar('D'), Direction),
    (Exactly("Pa"), Pressure),
    (Exactly("Ua"), Humidity),
    (LastChar('d'), Duration),
    (Exactly("Ri"), RainIntensity),
    (Exactly("Rp"), RainIntensity),
    (Exactly("Rc"), RainAccumulation),
    (Exactly("Hi"), HailIntensity),
    (Exactly("Hp"), HailIntensity),
    (Exactly("Hc"), HailAccumulation),
    (Exactly("Vh"), HeatingLevel),
    (FirstChar('V'), Voltage)
  ]

  /** The table of the first rule at or after index `i` that accepts the name. */
  function FirstMatchFrom(i: nat, name: string): Option<UnitTable>
    requires i <= |Rules| && |name| > 0
    decreases |Rules| - i
  {
    if i == |Rules| then None
    else if Accepts(Rules[i].0, name) then Some(Rules[i].1)
    else FirstMatchFrom(i + 1, name)
  }

  lemma FirstMatchTail(name: string)
    requires |name| > 0
    ensures FirstMatchFrom(6, name) ==
      if name == "Ri" || name == "Rp" then Some(RainIntensity)
      else if name == "Rc" then Some(RainAccumulation)
      else if name == "Hi" || name == "Hp" then Some(HailIntensity)
      else if name == "Hc" then Some(HailAccumulation)
      else if name == "Vh" then Some(HeatingLevel)
      else if name[0] == 'V' then Some(Voltage)
      else None
  {
    assert FirstMatchFrom(14, name) == None;
    assert FirstMatchFrom(13, name) == (if name[0] == 'V' then Some(Voltage) else None);
    assert FirstMatchFrom(12, name) == (if name == "Vh" then Some(HeatingLevel) else FirstMatchFrom(13, name));
    assert FirstMatchFrom(11, name) == (if name == "Hc" then Some(HailAccumulation) else FirstMatchFrom(12, name));
    assert FirstMatchFrom(10, name) == (if name == "Hp" then Some(HailIntensity) else FirstMatchFrom(11, name));
    assert FirstMatchFrom(9, name) == (if name == "Hi" then Some(HailIntensity) else FirstMatchFrom(10, name));
    assert FirstMatchFrom(8, name) == (if name == "Rc" then Some(RainAccumulation) else FirstMatchFrom(9, name));
    assert FirstMatchFrom(7, name) == (if name == "Rp" then Some(RainIntensity) else FirstMatchFrom(8, name));
  }

  /** The if/elif chain is the first-match rule list, in declared order. */
  lemma TableForIsFirstMatch(name: string)
    requires |name| > 0
    ensures TableFor(name) == FirstMatchFrom(0, name)
  {
    FirstMatchTail(name);
    assert FirstMatchFrom(5, name) == (if name[|name| - 1] == 'd' then Some(Duration) else FirstMatchFrom(6, name));
    assert FirstMatchFrom(4, name) == (if name == "Ua" then Some(Humidity) else FirstMatchFrom(5, name));
    assert FirstMatchFrom(3, name) == (if name == "Pa" then Some(Pressure) else FirstMatchFrom(4, name));
    assert FirstMatchFrom(2, name) == (if name[0] == 'D' then Some(Direction) else FirstMatchFrom(3, name));
    assert FirstMatchFrom(1, name) == (if name[0] == 'S' then Some(Speed) else FirstMatchFrom(2, name));
  }

  // ---------------------------------------------------------------------
  // Properties of parse_unit

  /** The field `name=value` with a non-empty value splits into the value
      without its last character and a unit chosen by that character: none
      for `Id`, '' for a name no branch matches, the table's entry, the
      sentinel for '#', and an error for any other character. */
  lemma ParseUnitSplit(name: string, value: string)
    requires '=' !in name && '=' !in value
    requires |value| > 0
    ensures var code, val := value[|value| - 1], value[..|value| - 1];
      ParseUnit(name + "=" + value) ==
        if name == "Id" then Ok(None)
        else if |name| == 0 then Failure(EmptyLabel(name + "=" + value))
        else match TableFor(name)
          case None => Ok(Some(Reading(val, "")))
          case Some(t) =>
            if code in Codes(t) then Ok(Some(Reading(val, Codes(t)[code])))
            else if code == '#' then Ok(Some(Reading(val, Invalid)))
            else Failure(UnresolvableUnit(code))
  {
    SplitPair(name, value, '=');
  }

  /** A field with nothing after '=' is an error for every label, `Id`
      included: the unit character is read before the label is looked at. */
  lemma EmptyValueRejected(name: string)
    requires '=' !in name
    ensures ParseUnit(name + "=") == Failure(EmptyValue(name + "="))
  {
    SplitPair(name, "", '=');
    assert name + "=" + "" == name + "=";
  }

  /** No unit table has an entry for '#'. */
  lemma NoTableHasSentinel(t: UnitTable)
    ensures '#' !in Codes(t)
  {
  }

  /** Sentinel: a measured field whose unit code is '#' resolves to the unit
      "invalid" whenever its name selects a table, and to '' otherwise; it is
      never an error. */
  lemma SentinelResolvesToInvalid(name: string, val: string)
    requires '=' !in name && '=' !in val
    requires |name| > 0 && name != "Id"
    ensures ParseUnit(name + "=" + val + "#") ==
      Ok(Some(Reading(val, if TableFor(name).Some? then Invalid else "")))
  {
    var v := val + "#";
    assert name + "=" + val + "#" == name + "=" + v;
    assert v[|v| - 1] == '#' && v[..|v| - 1] == val;
    ParseUnitSplit(name, v);
    if TableFor(name).Some? {
      NoTableHasSentinel(TableFor(name).value);
    }
  }

  /** Only a name that selects a table can reject a unit code, and it
      rejects exactly the codes outside the table other than '#'. */
  lemma UnresolvableIff(name: string, value: string)
    requires '=' !in name && '=' !in value
    requires |name| > 0 && name != "Id" && |value| > 0
    ensures var code := value[|value| - 1];
      ParseUnit(name + "=" + value).Failure? <==>
        (TableFor(name).Some? && code !in Codes(TableFor(name).value) && code != '#')
  {
    ParseUnitSplit(name, value);
  }
}
