/** The settings codec (wxt5xx/message.py, `SettingsMessageParser` and its
    three kinds): plain `label=value` fields plus the `R` field, whose value
    packs two boolean vectors over the kind's fixed field order as
    `requested&composite`, each a string of 0/1 digits zero-padded to 8. */
module Settings {
  import opened Common
  import opened Text

  datatype Kind = PtuSettings | PrecipitationSettings | SupervisorSettings

  /** The tag of the kind's command and response. */
  function Tag(k: Kind): string {
    match k
    case PtuSettings => "xTU"
    case PrecipitationSettings => "xRU"
    case SupervisorSettings => "xSU"
  }

  /** The kind's field order: bit i of each half of `R` is field Order[i]. */
  function Order(k: Kind): (r: seq<string>)
    ensures 0 < |r| <= 8
    ensures forall i, j :: 0 <= i < j < |r| ==> r[i] != r[j]
  {
    match k
    case PtuSettings => ["Pa", "Ta", "Tp", "Ua"]
    case PrecipitationSettings => ["Rc", "Rd", "Ri", "Hc", "Hd", "Hi", "Rp", "Hp"]
    case SupervisorSettings => ["Th", "Vh", "Vs", "Vr", "Id"]
  }

  /** Labels never emitted by create_message. */
  function Ignored(k: Kind): set<string> {
    match k
    case SupervisorSettings => {"a", "b", "c", "d", "e", "f", "g", "h", "j", "k"}
    case _ => {}
  }

  // ---------------------------------------------------------------------
  // Decoding (parse)

  /** A decoded settings response: the plain fields, and the Requested and
      Composite flags of the `R` field keyed by the kind's labels. */
  datatype Decoded = Decoded(fields: map<string, string>, requested: map<string, bool>, composite: map<string, bool>)

  /** `result[key] = value` for every `key=value` token, in order. */
  function Pairs(tokens: seq<string>): (r: Result<map<string, string>>)
    ensures r.Ok? <==> forall i :: 0 <= i < |tokens| ==> |Split(tokens[i], '=')| == 2
    ensures r.Ok? ==> forall i :: 0 <= i < |tokens| ==> Split(tokens[i], '=')[0] in r.value
  {
    if |tokens| == 0 then Ok(map[])
    else
      var last := tokens[|tokens| - 1];
      var parts := Split(last, '=');
      match Pairs(tokens[..|tokens| - 1])
      case Failure(e) => Failure(e)
      case Ok(m) =>
        if |parts| != 2 then Failure(MalformedField(last))
        else
          SplitTwo(last, '=');
          Ok(m[parts[0] := parts[1]])
  }

  /** `[False, True][int(x)]`. */
  function Bit(c: char): Result<bool> {
    if c == '0' then Ok(false)
    else if c == '1' then Ok(true)
    else Failure(InvalidBit(c))
  }

  predicate IsBitString(s: string) {
    forall i :: 0 <= i < |s| ==> s[i] == '0' || s[i] == '1'
  }

  /** The list comprehension over the digits of one half. */
  function Bits(s: string): (r: Result<seq<bool>>)
    ensures r.Ok? <==> IsBitString(s)
    ensures r.Ok? ==> |r.value| == |s| && forall i :: 0 <= i < |s| ==> r.value[i] == (s[i] == '1')
  {
    if |s| == 0 then Ok([])
    else
      match Bits(s[..|s| - 1])
      case Failure(e) => Failure(e)
      case Ok(front) =>
        match Bit(s[|s| - 1])
        case Failure(e) => Failure(e)
        case Ok(b) => Ok(front + [b])
  }

  /** No later position of the order holds the label at position i. */
  predicate LastIn(order: seq<string>, i: nat) {
    forall j :: i < j < |order| ==> order[j] != order[i]
  }

  /** `result['R'][...][order[i]] = bits[i]` for every i: each label of the
      order gets the bit of its last position. */
  function Assign(order: seq<string>, bits: seq<bool>): (r: map<string, bool>)
    requires |bits| >= |order|
    ensures r.Keys == set x | x in order
    ensures forall i :: 0 <= i < |order| && LastIn(order, i) ==> r[order[i]] == bits[i]
  {
    if |order| == 0 then map[]
    else Assign(order[..|order| - 1], bits)[order[|order| - 1] := bits[|order| - 1]]
  }

  /** The decoding of the `R` value: `m, c = R.split("&")`, each half's
      digits as booleans, then Requested/Composite over the field order.
      Only 0/1 digits are accepted, at least one per field. */
  function UnpackR(order: seq<string>, text: string): (r: Result<(map<string, bool>, map<string, bool>)>)
    ensures var h := Split(text, '&');
      r.Ok? <==> && |h| == 2
                 && IsBitString(h[0]) && |h[0]| >= |order|
                 && IsBitString(h[1]) && |h[1]| >= |order|
    ensures r.Ok? ==> forall x :: (x in r.value.0 <==> x in order) && (x in r.value.1 <==> x in order)
    ensures r.Ok? ==> var h := Split(text, '&');
      forall i :: 0 <= i < |order| && LastIn(order, i) ==>
        && order[i] in r.value.0 && r.value.0[order[i]] == (h[0][i] == '1')
        && order[i] in r.value.1 && r.value.1[order[i]] == (h[1][i] == '1')
  {
    var halves := Split(text, '&');
    if |halves| != 2 then Failure(MalformedBitmask(text))
    else
      var m :- Bits(halves[0]);
      var c :- Bits(halves[1]);
      if |m| < |order| || |c| < |order| then Failure(ShortBitmask)
      else Ok((Assign(order, m), Assign(order, c)))
  }

  /** `SettingsMessageParser.parse`: None exactly when the tag is not the
      kind's; a decoded reply has lost its `R` field and holds both flag
      maps over exactly the kind's order. */
  function ParseSettings(k: Kind, message: string): (r: Result<Option<Decoded>>)
    ensures r == Ok(None) <==> Split(message, ',')[0] != Tag(k)
    ensures r.Ok? && r.value.Some? ==> var d := r.value.value;
      && "R" !in d.fields
      && forall x :: (x in d.requested <==> x in Order(k)) && (x in d.composite <==> x in Order(k))
  {
    var values := Split(message, ',');
    if values[0] != Tag(k) then Ok(None)
    else
      var result :- Pairs(values[1..]);
      if "R" !in result then Failure(MissingKey("R"))
      else
        var flags :- UnpackR(Order(k), result["R"]);
        Ok(Some(Decoded(result - {"R"}, flags.0, flags.1)))
  }

  /** The fields hold nothing but the tokens: each `key=value` entry is one
      of them. */
  lemma {:induction false} PairsDrawn(tokens: seq<string>)
    requires Pairs(tokens).Ok?
    ensures forall key :: key in Pairs(tokens).value ==> key + "=" + Pairs(tokens).value[key] in tokens
  {
    if |tokens| > 0 {
      var front := tokens[..|tokens| - 1];
      var last := tokens[|tokens| - 1];
      PairsDrawn(front);
      SplitTwo(last, '=');
      assert forall t :: t in front ==> t in tokens;
    }
  }

  /** A key holds the value of the last token that carries it, as
      assignments into a dict do. */
  lemma {:induction false} PairsLastWins(tokens: seq<string>, i: nat)
    requires Pairs(tokens).Ok? && i < |tokens|
    requires forall j :: i < j < |tokens| ==> Split(tokens[j], '=')[0] != Split(tokens[i], '=')[0]
    ensures Pairs(tokens).value[Split(tokens[i], '=')[0]] == Split(tokens[i], '=')[1]
  {
    var front := tokens[..|tokens| - 1];
    if i < |tokens| - 1 {
      assert forall j :: i < j < |front| ==> front[j] == tokens[j];
      PairsLastWins(front, i);
    }
  }

  lemma {:induction false} PairsFailsFrom(tokens: seq<string>, n: nat)
    requires n <= |tokens| && Pairs(tokens[..n]).Failure?
    ensures Pairs(tokens) == Pairs(tokens[..n])
    decreases |tokens| - n
  {
    if n < |tokens| {
      assert tokens[..n + 1][..n] == tokens[..n];
      PairsFailsFrom(tokens, n + 1);
    } else {
      assert tokens[..n] == tokens;
    }
  }

  lemma {:induction false} BitsFailsFrom(s: string, n: nat)
    requires n <= |s| && Bits(s[..n]).Failure?
    ensures Bits(s) == Bits(s[..n])
    decreases |s| - n
  {
    if n < |s| {
      assert s[..n + 1][..n] == s[..n];
      BitsFailsFrom(s, n + 1);
    } else {
      assert s[..n] == s;
    }
  }

  /** The parse method: one loop per loop of the source. */
  method DecodeSettings(k: Kind, message: string) returns (r: Result<Option<Decoded>>)
    ensures r == ParseSettings(k, message)
  {
    var values := Split(message, ',');
    if values[0] != Tag(k) {
      return Ok(None);
    }
    var pairs := DecodePairs(values[1..]);
    if pairs.Failure? {
      return Failure(pairs.error);
    }
    var result := pairs.value;
    if "R" !in result {
      return Failure(MissingKey("R"));
    }
    var flags := DecodeR(Order(k), result["R"]);
    if flags.Failure? {
      return Failure(flags.error);
    }
    r := Ok(Some(Decoded(result - {"R"}, flags.value.0, flags.value.1)));
  }

  /** `m, c = result['R'].split("&")`, the digits of each half, and the
      loop that assigns them over the field order. */
  method DecodeR(order: seq<string>, text: string) returns (r: Result<(map<string, bool>, map<string, bool>)>)
    ensures r == UnpackR(order, text)
  {
    var halves := Split(text, '&');
    if |halves| != 2 {
      return Failure(MalformedBitmask(text));
    }
    var m := DecodeBits(halves[0]);
    if m.Failure? {
      return Failure(m.error);
    }
    var c := DecodeBits(halves[1]);
    if c.Failure? {
      return Failure(c.error);
    }
    if |m.value| < |order| || |c.value| < |order| {
      return Failure(ShortBitmask);
    }
    var requested, composite := AssignFlags(order, m.value, c.value);
    r := Ok((requested, composite));
  }

  /** The loop `for i in range(len(self.order))` filling Requested and Composite. */
  method AssignFlags(order: seq<string>, m: seq<bool>, c: seq<bool>)
    returns (requested: map<string, bool>, composite: map<string, bool>)
    requires |m| >= |order| && |c| >= |order|
    ensures requested == Assign(order, m) && composite == Assign(order, c)
  {
    requested, composite := map[], map[];
    for i := 0 to |order|
      invariant requested == Assign(order[..i], m)
      invariant composite == Assign(order[..i], c)
    {
      assert order[..i + 1][..i] == order[..i];
      requested := requested[order[i] := m[i]];
      composite := composite[order[i] := c[i]];
    }
    assert order[..|order|] == order;
  }

  /** The loop `for i in values[1:]: key, value = i.split("="); result[key] = value`. */
  method DecodePairs(tokens: seq<string>) returns (r: Result<map<string, string>>)
    ensures r == Pairs(tokens)
  {
    var result: map<string, string> := map[];
    for i := 0 to |tokens|
      invariant Pairs(tokens[..i]) == Ok(result)
    {
      assert tokens[..i + 1][..i] == tokens[..i];
      var parts := Split(tokens[i], '=');
      if |parts| != 2 {
        PairsFailsFrom(tokens, i + 1);
        return Failure(MalformedField(tokens[i]));
      }
      result := result[parts[0] := parts[1]];
    }
    assert tokens[..|tokens|] == tokens;
    r := Ok(result);
  }

  /** `[[False, True][int(x)] for x in list(s)]`. */
  method DecodeBits(s: string) returns (r: Result<seq<bool>>)
    ensures r == Bits(s)
  {
    var bits: seq<bool> := [];
    for i := 0 to |s|
      invariant Bits(s[..i]) == Ok(bits)
    {
      assert s[..i + 1][..i] == s[..i];
      var b := Bit(s[i]);
      if b.Failure? {
        BitsFailsFrom(s, i + 1);
        return Failure(b.error);
      }
      bits := bits + [b.value];
    }
    assert s[..|s|] == s;
    r := Ok(bits);
  }

  // ---------------------------------------------------------------------
  // Encoding (create_message)

  /** `R["Requested"]` / `R["Composite"]`: a dict of flags, or the digit
      string an earlier create_message call stored in its place. */
  datatype Flags = FlagMap(flags: map<string, bool>) | FlagText(text: string)

  /** A settings dict value: a plain string, or the `R` dict. */
  datatype Value = Plain(text: string) | RValue(requested: Flags, composite: Flags)

  type Entry = (string, Value)

  /** `"".join([str(int(f[x])) for x in order])`. */
  function Digits(order: seq<string>, f: Flags): (r: Result<string>)
    ensures r.Ok? ==> |r.value| == |order| && IsBitString(r.value)
  {
    if |order| == 0 then Ok("")
    else
      var x := order[|order| - 1];
      match Digits(order[..|order| - 1], f)
      case Failure(e) => Failure(e)
      case Ok(front) =>
        match f
        case FlagText(_) => Failure(NotAMapping)
        case FlagMap(m) =>
          if x !in m then Failure(MissingKey(x))
          else Ok(front + (if m[x] then "1" else "0"))
  }

  function Zeros(n: int): (r: string)
    ensures |r| == if n < 0 then 0 else n
    ensures forall i :: 0 <= i < |r| ==> r[i] == '0'
    decreases n
  {
    if n <= 0 then "" else "0" + Zeros(n - 1)
  }

  /** The packed `R` value: `requested + pad + "&" + composite + pad`,
      where the composite digits are computed first. */
  function PackR(order: seq<string>, v: Value): (r: Result<string>)
    ensures r.Ok? ==> forall i :: 0 <= i < |r.value| ==> r.value[i] in "01&"
  {
    match v
    case Plain(_) => Failure(NotAMapping)
    case RValue(req, comp) =>
      var c :- Digits(order, comp);
      var r :- Digits(order, req);
      Ok(r + Zeros(8 - |order|) + "&" + c + Zeros(8 - |order|))
  }

  /** The value `settings['R']` holds after create_message, also when it
      raises: the composite half is replaced by its digits before the
      requested half is read. It is plain exactly when packing succeeds, and
      then holds the packed text; a failure of the requested half leaves
      the composite half already replaced. */
  function RAfter(order: seq<string>, v: Value): (r: Value)
    ensures r.Plain? <==> v.Plain? || PackR(order, v).Ok?
    ensures PackR(order, v).Ok? ==> r == Plain(PackR(order, v).value)
    ensures v.RValue? && Digits(order, v.composite).Failure? ==> r == v
    ensures v.RValue? && Digits(order, v.composite).Ok? && Digits(order, v.requested).Failure? ==>
      r == RValue(v.requested, FlagText(Digits(order, v.composite).value))
  {
    match v
    case Plain(_) => v
    case RValue(req, comp) =>
      match Digits(order, comp)
      case Failure(_) => v
      case Ok(c) =>
        match Digits(order, req)
        case Failure(_) => RValue(req, FlagText(c))
        case Ok(r) => Plain(r + Zeros(8 - |order|) + "&" + c + Zeros(8 - |order|))
  }

  function Keys(es: seq<Entry>): seq<string> {
    seq(|es|, i requires 0 <= i < |es| => es[i].0)
  }

  /** The shape of a settings dict a caller passes in: distinct keys, and
      every value other than R's a plain string. */
  predicate WellFormed(es: seq<Entry>) {
    && (forall i, j :: 0 <= i < j < |es| ==> es[i].0 != es[j].0)
    && (forall i :: 0 <= i < |es| && es[i].0 != "R" ==> es[i].1.Plain?)
  }

  function IndexOf(es: seq<Entry>, key: string): (r: Option<nat>)
    ensures r.Some? ==> r.value < |es| && es[r.value].0 == key
    ensures r.None? ==> forall i :: 0 <= i < |es| ==> es[i].0 != key
  {
    if |es| == 0 then None
    else if es[0].0 == key then Some(0)
    else match IndexOf(es[1..], key)
      case None => None
      case Some(i) => Some(i + 1)
  }

  /** The `key=value` tokens create_message emits, in dict order. */
  function Tokens(k: Kind, es: seq<Entry>): seq<string>
    requires forall i :: 0 <= i < |es| ==> es[i].1.Plain?
  {
    if |es| == 0 then []
    else
      var (key, v) := es[|es| - 1];
      var front := Tokens(k, es[..|es| - 1]);
      if key in Ignored(k) then front else front + [key + "=" + v.text]
  }

  /** The dict after create_message, whether or not it raised. */
  function EntriesAfter(k: Kind, es: seq<Entry>): (r: seq<Entry>)
    ensures |r| == |es| && Keys(r) == Keys(es)
  {
    match IndexOf(es, "R")
    case None => es
    case Some(i) => es[i := ("R", RAfter(Order(k), es[i].1))]
  }

  /** `create_message(settings)`: the comma-joined tokens of the dict after
      its R value has been packed. A dict without R raises KeyError; one
      whose R value packs gives a message. */
  function CreatedMessage(k: Kind, es: seq<Entry>): (r: Result<string>)
    requires WellFormed(es)
    ensures (forall i :: 0 <= i < |es| ==> es[i].0 != "R") ==> r == Failure(MissingKey("R"))
    ensures r.Ok? <==> exists i :: 0 <= i < |es| && es[i].0 == "R" && PackR(Order(k), es[i].1).Ok?
  {
    match IndexOf(es, "R")
    case None => Failure(MissingKey("R"))
    case Some(i) =>
      var packed :- PackR(Order(k), es[i].1);
      var after := es[i := ("R", Plain(packed))];
      Ok(Join(Tokens(k, after), ','))
  }

  /** A settings dict that create_message updates in place. */
  class SettingsDict {
    var entries: seq<Entry>

    constructor (es: seq<Entry>)
      ensures entries == es
    {
      entries := es;
    }

    /** `create_message(self.entries)`: packs R in place, then joins the
        non-ignored `key=value` tokens with commas. */
    method CreateMessage(k: Kind) returns (r: Result<string>)
      requires WellFormed(entries)
      modifies this
      ensures r == CreatedMessage(k, old(entries))
      ensures entries == EntriesAfter(k, old(entries))
      ensures r.Ok? ==> WellFormed(entries)
    {
      var idx := IndexOf(entries, "R");
      if idx.None? {
        return Failure(MissingKey("R"));
      }
      var i := idx.value;
      var order := Order(k);
      var rv := entries[i].1;
      if rv.Plain? {
        return Failure(NotAMapping);
      }
      var comp := Digits(order, rv.composite);
      if comp.Failure? {
        return Failure(comp.error);
      }
      entries := entries[i := ("R", RValue(rv.requested, FlagText(comp.value)))];
      var req := Digits(order, rv.requested);
      if req.Failure? {
        return Failure(req.error);
      }
      var packed := req.value + Zeros(8 - |order|) + "&" + comp.value + Zeros(8 - |order|);
      assert PackR(order, rv) == Ok(packed);
      entries := entries[i := ("R", Plain(packed))];
      assert entries == old(entries)[i := ("R", Plain(packed))];
      var tmp := EmitTokens(k, entries);
      r := Ok(Join(tmp, ','));
    }
  }

  /** The loop `for i in settings: if i in self.ignore: continue; tmp.append(...)`. */
  method EmitTokens(k: Kind, es: seq<Entry>) returns (tmp: seq<string>)
    requires forall i :: 0 <= i < |es| ==> es[i].1.Plain?
    ensures tmp == Tokens(k, es)
  {
    tmp := [];
    for j := 0 to |es|
      invariant tmp == Tokens(k, es[..j])
    {
      assert es[..j + 1][..j] == es[..j];
      if es[j].0 !in Ignored(k) {
        tmp := tmp + [es[j].0 + "=" + es[j].1.text];
      }
    }
    assert es[..|es|] == es;
  }

  // ---------------------------------------------------------------------
  // Properties of the codec

  /** Each flag map restricted to the field order. */
  function Over(order: seq<string>, f: map<string, bool>): (r: map<string, bool>)
    requires forall i :: 0 <= i < |order| ==> order[i] in f
  {
    map x | x in order :: f[x]
  }

  /** Digit i of a packed half is the flag of field Order[i]; packing fails
      exactly when a field of the order is missing from the flag map. */
  lemma {:induction false} DigitsSpec(order: seq<string>, m: map<string, bool>)
    ensures Digits(order, FlagMap(m)).Ok? <==> forall i :: 0 <= i < |order| ==> order[i] in m
    ensures Digits(order, FlagMap(m)).Ok? ==>
      forall i :: 0 <= i < |order| ==> Digits(order, FlagMap(m)).value[i] == (if m[order[i]] then '1' else '0')
  {
    if |order| > 0 {
      var front := order[..|order| - 1];
      DigitsSpec(front, m);
      assert forall i :: 0 <= i < |front| ==> front[i] == order[i];
      if Digits(front, FlagMap(m)).Failure? {
        var i :| 0 <= i < |front| && front[i] !in m;
        assert order[i] !in m;
      }
    }
  }

  /** Assigning the digits of a packed half, position by position, gives
      back the flag map over the order. */
  lemma {:induction false} AssignOver(order: seq<string>, bits: seq<bool>, f: map<string, bool>)
    requires |bits| >= |order|
    requires forall i :: 0 <= i < |order| ==> order[i] in f && bits[i] == f[order[i]]
    ensures Assign(order, bits) == Over(order, f)
  {
    if |order| > 0 {
      var front := order[..|order| - 1];
      var last := order[|order| - 1];
      AssignOver(front, bits, f);
      assert forall x :: x in order <==> x in front || x == last;
      assert Over(order, f) == Over(front, f)[last := f[last]];
    }
  }

  /** What create_message packs: the two halves of 0/1 digits, one per
      field of the order, padded with zeros to eight and joined by `&`. */
  lemma PackRHalves(order: seq<string>, req: map<string, bool>, comp: map<string, bool>)
    requires |order| <= 8
    requires forall i :: 0 <= i < |order| ==> order[i] in req && order[i] in comp
    ensures Digits(order, FlagMap(req)).Ok? && Digits(order, FlagMap(comp)).Ok?
    ensures var h0, h1 := Digits(order, FlagMap(req)).value + Zeros(8 - |order|),
        Digits(order, FlagMap(comp)).value + Zeros(8 - |order|);
      && PackR(order, RValue(FlagMap(req), FlagMap(comp))) == Ok(h0 + "&" + h1)
      && IsBitString(h0) && IsBitString(h1) && |h0| >= |order| && |h1| >= |order|
      && forall i :: 0 <= i < |order| ==>
        h0[i] == (if req[order[i]] then '1' else '0') && h1[i] == (if comp[order[i]] then '1' else '0')
  {
    DigitsSpec(order, req);
    DigitsSpec(order, comp);
    var dr := Digits(order, FlagMap(req)).value;
    var dc := Digits(order, FlagMap(comp)).value;
    var pad := Zeros(8 - |order|);
    assert dr + pad + "&" + dc + pad == (dr + pad) + "&" + (dc + pad);
  }

  /** The `R` codec round-trips: unpacking what create_message packs gives
      back the Requested and Composite flags over the kind's order. */
  lemma PackUnpackR(order: seq<string>, req: map<string, bool>, comp: map<string, bool>)
    requires |order| <= 8
    requires forall i :: 0 <= i < |order| ==> order[i] in req && order[i] in comp
    ensures PackR(order, RValue(FlagMap(req), FlagMap(comp))).Ok?
    ensures UnpackR(order, PackR(order, RValue(FlagMap(req), FlagMap(comp))).value) ==
      Ok((Over(order, req), Over(order, comp)))
  {
    PackRHalves(order, req, comp);
    var h0 := Digits(order, FlagMap(req)).value + Zeros(8 - |order|);
    var h1 := Digits(order, FlagMap(comp)).value + Zeros(8 - |order|);
    BitHalvesUnpack(order, h0, h1);
    assert forall i :: 0 <= i < |order| ==> (h0[i] == '1') == req[order[i]] && (h1[i] == '1') == comp[order[i]];
    AssignOver(order, Bits(h0).value, req);
    AssignOver(order, Bits(h1).value, comp);
  }

  /** Two long enough bit strings joined by `&` unpack to their digits. */
  lemma BitHalvesUnpack(order: seq<string>, h0: string, h1: string)
    requires IsBitString(h0) && IsBitString(h1) && |h0| >= |order| && |h1| >= |order|
    ensures Bits(h0).Ok? && Bits(h1).Ok?
    ensures forall i :: 0 <= i < |h0| ==> Bits(h0).value[i] == (h0[i] == '1')
    ensures forall i :: 0 <= i < |h1| ==> Bits(h1).value[i] == (h1[i] == '1')
    ensures UnpackR(order, h0 + "&" + h1) == Ok((Assign(order, Bits(h0).value), Assign(order, Bits(h1).value)))
  {
    assert '&' !in h0 && '&' !in h1 by {
      assert forall i :: 0 <= i < |h0| ==> h0[i] == '0' || h0[i] == '1';
      assert forall i :: 0 <= i < |h1| ==> h1[i] == '0' || h1[i] == '1';
    }
    SplitPair(h0, h1, '&');
    assert h0 + "&" + h1 == h0 + ['&'] + h1;
  }

  /** Any `R` half holding a character other than 0 and 1 fails the parse. */
  lemma NonBitRejected(order: seq<string>, text: string, i: nat)
    requires var h := Split(text, '&'); |h| == 2 && ((i < |h[0]| && h[0][i] != '0' && h[0][i] != '1') || (i < |h[1]| && h[1][i] != '0' && h[1][i] != '1'))
    ensures UnpackR(order, text).Failure?
  {
  }

  /** Position, not value, carries meaning: exchanging two fields of the
      order whose flags differ changes the packed digits. */
  lemma OrderMatters(order: seq<string>, m: map<string, bool>, i: nat, j: nat)
    requires i < j < |order|
    requires forall x :: x in order ==> x in m
    requires m[order[i]] != m[order[j]]
    ensures Digits(order, FlagMap(m)).Ok? && Digits(order[i := order[j]][j := order[i]], FlagMap(m)).Ok?
    ensures Digits(order, FlagMap(m)) != Digits(order[i := order[j]][j := order[i]], FlagMap(m))
  {
    var swapped := order[i := order[j]][j := order[i]];
    DigitsSpec(order, m);
    DigitsSpec(swapped, m);
    assert Digits(order, FlagMap(m)).value[i] != Digits(swapped, FlagMap(m)).value[i];
  }

  /** The PTU example: Requested = {Pa, Ta}, nothing composite. */
  lemma PtuPackExample()
    ensures PackR(Order(PtuSettings), RValue(
      FlagMap(map["Pa" := true, "Ta" := true, "Tp" := false, "Ua" := false]),
      FlagMap(map["Pa" := false, "Ta" := false, "Tp" := false, "Ua" := false]))) == Ok("11000000&00000000")
  {
    var req := map["Pa" := true, "Ta" := true, "Tp" := false, "Ua" := false];
    var comp := map["Pa" := false, "Ta" := false, "Tp" := false, "Ua" := false];
    var order := Order(PtuSettings);
    DigitsSpec(order, req);
    DigitsSpec(order, comp);
    assert Digits(order, FlagMap(req)).value == "1100";
    assert Digits(order, FlagMap(comp)).value == "0000";
    assert Zeros(8 - |order|) == "0000";
    assert "1100" + "0000" + "&" + "0000" + "0000" == "11000000&00000000";
  }

  // ---------------------------------------------------------------------
  // The whole settings message round-trips

  /** The plain fields create_message emits, as the parser's dict holds them. */
  function PlainFields(k: Kind, es: seq<Entry>): (r: map<string, string>)
    ensures forall key :: key in r ==> key !in Ignored(k)
  {
    if |es| == 0 then map[]
    else
      var (key, v) := es[|es| - 1];
      var f := PlainFields(k, es[..|es| - 1]);
      if key in Ignored(k) || !v.Plain? then f else f[key := v.text]
  }

  /** A key the dict does not hold is not among its plain fields. */
  lemma {:induction false} PlainFieldsAbsent(k: Kind, es: seq<Entry>, key: string)
    requires forall j :: 0 <= j < |es| ==> es[j].0 != key
    ensures key !in PlainFields(k, es)
  {
    if |es| > 0 {
      PlainFieldsAbsent(k, es[..|es| - 1], key);
    }
  }

  /** Keys and plain values free of the two separators of the wire format. */
  predicate Clean(es: seq<Entry>) {
    forall i :: 0 <= i < |es| ==>
      && ',' !in es[i].0 && '=' !in es[i].0
      && (es[i].1.Plain? ==> ',' !in es[i].1.text && '=' !in es[i].1.text)
  }

  /** One more `key=value` token binds `key` to `value`. */
  lemma PairsSnoc(ts: seq<string>, key: string, value: string)
    requires Pairs(ts).Ok?
    requires '=' !in key && '=' !in value
    ensures Pairs(ts + [key + "=" + value]) == Ok(Pairs(ts).value[key := value])
  {
    var t := key + "=" + value;
    SplitPair(key, value, '=');
    assert key + ['='] + value == t;
    assert (ts + [t])[..|ts|] == ts;
  }

  /** Parsing the emitted tokens gives back the non-ignored plain fields. */
  lemma {:induction false} PairsOfTokens(k: Kind, es: seq<Entry>)
    requires forall i :: 0 <= i < |es| ==> es[i].1.Plain?
    requires Clean(es)
    ensures Pairs(Tokens(k, es)) == Ok(PlainFields(k, es))
  {
    if |es| > 0 {
      var front := es[..|es| - 1];
      var (key, v) := es[|es| - 1];
      PairsOfTokens(k, front);
      if key !in Ignored(k) {
        PairsSnoc(Tokens(k, front), key, v.text);
      }
    }
  }

  /** The emitted tokens hold no comma, so the joined message splits back
      into them. */
  lemma {:induction false} TokensNoComma(k: Kind, es: seq<Entry>)
    requires forall i :: 0 <= i < |es| ==> es[i].1.Plain?
    requires Clean(es)
    ensures forall j :: 0 <= j < |Tokens(k, es)| ==> ',' !in Tokens(k, es)[j]
  {
    if |es| > 0 {
      var front := es[..|es| - 1];
      var (key, v) := es[|es| - 1];
      TokensNoComma(k, front);
      var ts := Tokens(k, front);
      if key !in Ignored(k) {
        var t := key + "=" + v.text;
        assert ',' !in t;
        assert forall j :: 0 <= j < |ts| ==> (ts + [t])[j] == ts[j];
      }
    }
  }

  /** Packing R in place adds exactly the R field to the plain fields. */
  lemma {:induction false} PlainFieldsReplace(k: Kind, es: seq<Entry>, i: nat, p: string)
    requires i < |es| && es[i].0 == "R" && es[i].1.RValue?
    requires forall j :: 0 <= j < |es| && j != i ==> es[j].0 != "R"
    ensures "R" !in PlainFields(k, es)
    ensures PlainFields(k, es[i := ("R", Plain(p))]) == PlainFields(k, es)["R" := p]
  {
    var n := |es|;
    var front := es[..n - 1];
    var es' := es[i := ("R", Plain(p))];
    assert "R" !in Ignored(k);
    if i == n - 1 {
      assert es'[..n - 1] == front;
      PlainFieldsAbsent(k, front, "R");
    } else {
      assert es'[..n - 1] == front[i := ("R", Plain(p))];
      PlainFieldsReplace(k, front, i, p);
      assert es'[n - 1] == es[n - 1];
      var (key, v) := es[n - 1];
      var f := PlainFields(k, front);
      if !(key in Ignored(k) || !v.Plain?) {
        assert f["R" := p][key := v.text] == f[key := v.text]["R" := p];
      }
    }
  }

  /** A message of comma-free tokens under the kind's tag splits back
      into the tag and the tokens. */
  lemma SplitTagged(k: Kind, tokens: seq<string>)
    requires |tokens| >= 1
    requires forall j :: 0 <= j < |tokens| ==> ',' !in tokens[j]
    ensures Split(Tag(k) + "," + Join(tokens, ','), ',') == [Tag(k)] + tokens
  {
    var msg := Join(tokens, ',');
    assert Tag(k) + "," + msg == Tag(k) + [','] + msg;
    SplitAfterSep(Tag(k), msg, ',');
    SplitJoin(tokens, ',');
  }

  /** The dict with R packed in place is all plain, still clean, and is
      what create_message joins. */
  lemma PackedDict(k: Kind, es: seq<Entry>, i: nat, p: string, after: seq<Entry>)
    requires WellFormed(es) && Clean(es)
    requires i < |es| && es[i].0 == "R" && PackR(Order(k), es[i].1) == Ok(p)
    requires after == es[i := ("R", Plain(p))]
    ensures forall j :: 0 <= j < |after| ==> after[j].1.Plain?
    ensures Clean(after)
    ensures forall j :: 0 <= j < |es| && j != i ==> es[j].0 != "R"
    ensures CreatedMessage(k, es) == Ok(Join(Tokens(k, after), ','))
  {
    assert IndexOf(es, "R") == Some(i);
    assert forall j :: 0 <= j < |p| ==> p[j] in "01&";
  }

  /** A response whose tag is the kind's parses as its tokens do. */
  lemma ParseTagged(k: Kind, message: string, tokens: seq<string>, result: map<string, string>)
    requires Split(message, ',') == [Tag(k)] + tokens
    requires Pairs(tokens) == Ok(result) && "R" in result
    requires UnpackR(Order(k), result["R"]).Ok?
    ensures var flags := UnpackR(Order(k), result["R"]).value;
      ParseSettings(k, message) == Ok(Some(Decoded(result - {"R"}, flags.0, flags.1)))
  {
    assert ([Tag(k)] + tokens)[1..] == tokens;
  }

  lemma RemoveAdded(m: map<string, string>, key: string, v: string)
    requires key !in m
    ensures m[key := v] - {key} == m
  {
  }

  /** Parsing the tagged tokens whose fields are `fields` plus a packed R. */
  lemma ParseWithR(k: Kind, tokens: seq<string>, fields: map<string, string>, p: string,
                   req: map<string, bool>, comp: map<string, bool>)
    requires forall j :: 0 <= j < |tokens| ==> ',' !in tokens[j]
    requires Pairs(tokens) == Ok(fields["R" := p]) && "R" !in fields
    requires UnpackR(Order(k), p) == Ok((req, comp))
    ensures ParseSettings(k, Tag(k) + "," + Join(tokens, ',')) == Ok(Some(Decoded(fields, req, comp)))
  {
    assert |tokens| != 0 by {
      assert "R" in Pairs(tokens).value;
    }
    SplitTagged(k, tokens);
    var result := fields["R" := p];
    RemoveAdded(fields, "R", p);
    assert "R" in result && result["R"] == p;
    ParseTagged(k, Tag(k) + "," + Join(tokens, ','), tokens, result);
  }

  /** What create_message emits for a kind parses back, under that kind's
      tag, to the dict's non-ignored plain fields and to its Requested and
      Composite flags over the kind's field order. */
  lemma SettingsRoundTrip(k: Kind, es: seq<Entry>, i: nat, req: map<string, bool>, comp: map<string, bool>)
    requires WellFormed(es) && Clean(es)
    requires i < |es| && es[i] == ("R", RValue(FlagMap(req), FlagMap(comp)))
    requires forall x :: x in Order(k) ==> x in req && x in comp
    ensures CreatedMessage(k, es).Ok?
    ensures ParseSettings(k, Tag(k) + "," + CreatedMessage(k, es).value) ==
      Ok(Some(Decoded(PlainFields(k, es), Over(Order(k), req), Over(Order(k), comp))))
  {
    var order := Order(k);
    PackUnpackR(order, req, comp);
    var p := PackR(order, es[i].1).value;
    var after := es[i := ("R", Plain(p))];
    PackedDict(k, es, i, p, after);
    PairsOfTokens(k, after);
    TokensNoComma(k, after);
    PlainFieldsReplace(k, es, i, p);
    ParseWithR(k, Tokens(k, after), PlainFields(k, es), p, Over(order, req), Over(order, comp));
  }
}
