/** The nine response parsers of wxt5xx/message.py and their order in
    `MessageParser.parsers`. Every parser splits the body on ',' and looks at
    the first token, its tag; a parser that does not recognise the tag
    answers None. */
module Parsers {
  import opened Common
  import opened Text
  import opened Units
  import opened Fields
  import opened Settings

  // ---------------------------------------------------------------------
  // The four data messages

  /** Wind (r1), PTU (r2), rain (r3) and supervisor status (r5). */
  datatype DataKind = WindData | PtuData | RainData | StatusData

  function ResultTag(d: DataKind): string {
    match d
    case WindData => "r1"
    case PtuData => "r2"
    case RainData => "r3"
    case StatusData => "r5"
  }

  /** The two dictionaries a data parser fills: Speed/Direction for wind,
      Temperature/Data for PTU (in the source the Data dict also holds the
      Temperature dict), Rain/Hail for rain, Voltages/Heating for
      status. */
  datatype Group = First | Second

  datatype Groups = Groups(first: map<string, Field>, second: map<string, Field>)

  function Get(gs: Groups, g: Group): map<string, Field> {
    if g == First then gs.first else gs.second
  }

  function Put(gs: Groups, g: Group, m: map<string, Field>): Groups {
    if g == First then gs.(first := m) else gs.(second := m)
  }

  /** One `self.add_field(data[...], name, field, vmap, transform)` call. */
  datatype Step = Step(group: Group, name: string, spec: FieldSpec, t: Transform)

  /** The add_field calls of each data parser, in source order. */
  function Steps(d: DataKind): seq<Step> {
    match d
    case WindData => [
      Step(First, "Average", One("Sm"), Identity),
      Step(First, "Limits", Many(["Sn", "Sx"]), Identity),
      Step(Second, "Average", One("Dm"), Identity),
      Step(Second, "Limits", Many(["Dn", "Dx"]), Identity)]
    case PtuData => [
      Step(First, "Ambient", One("Ta"), Identity),
      Step(First, "Internal", One("Tp"), Identity),
      Step(Second, "Humidity", One("Ua"), Identity),
      Step(Second, "Pressure", One("Pa"), Identity)]
    case RainData => [
      Step(First, "Intensity", One("Ri"), Identity),
      Step(First, "Peak", One("Rp"), Identity),
      Step(First, "Accumulation", One("Rc"), Identity),
      Step(First, "Duration", One("Rd"), Identity),
      Step(Second, "Intensity", One("Hi"), Identity),
      Step(Second, "Peak", One("Hp"), Identity),
      Step(Second, "Accumulation", One("Hc"), Identity),
      Step(Second, "Duration", One("Hd"), Identity)]
    case StatusData => [
      Step(First, "Supply", One("Vs"), Identity),
      Step(First, "Reference", One("Vr"), Identity),
      Step(First, "Heating", One("Vh"), AsVolts),
      Step(Second, "Temperature", One("Th"), Identity),
      Step(Second, "Status", One("Vh"), UnitOnly)]
  }

  /** The dictionaries after the given add_field calls, starting empty; the
      first call that raises ends the parse. */
  function ApplySteps(steps: seq<Step>, vmap: map<string, string>): Result<Groups> {
    if |steps| == 0 then Ok(Groups(map[], map[]))
    else
      var s := steps[|steps| - 1];
      var gs :- ApplySteps(steps[..|steps| - 1], vmap);
      var m :- AddedField(Get(gs, s.group), s.name, s.spec, vmap, s.t);
      Ok(Put(gs, s.group, m))
  }

  /** Whether one add_field call succeeds. */
  predicate StepOk(s: Step, vmap: map<string, string>) {
    match s.spec
    case One(key) => key !in vmap || FieldOf(s.t, vmap[key]).Ok?
    case Many(keys) => Collect(keys, vmap, s.t).Ok?
  }

  /** Whether a call stores an entry: always for a list of labels, only when
      its label is present for a single one. */
  predicate Stores(s: Step, vmap: map<string, string>) {
    s.spec.Many? || s.spec.key in vmap
  }

  /** The entry names of a group after the calls. */
  function Filled(steps: seq<Step>, g: Group, vmap: map<string, string>): set<string> {
    set j | 0 <= j < |steps| && steps[j].group == g && Stores(steps[j], vmap) :: steps[j].name
  }

  lemma {:induction false} ApplyStepsFailsFrom(steps: seq<Step>, n: nat, vmap: map<string, string>)
    requires n <= |steps| && ApplySteps(steps[..n], vmap).Failure?
    ensures ApplySteps(steps, vmap) == ApplySteps(steps[..n], vmap)
    decreases |steps| - n
  {
    if n < |steps| {
      assert steps[..n + 1][..n] == steps[..n];
      ApplyStepsFailsFrom(steps, n + 1, vmap);
    } else {
      assert steps[..n] == steps;
    }
  }

  /** The calls succeed exactly when each of them does on its own. */
  lemma {:induction false} ApplyStepsOk(steps: seq<Step>, vmap: map<string, string>)
    ensures ApplySteps(steps, vmap).Ok? <==> forall j :: 0 <= j < |steps| ==> StepOk(steps[j], vmap)
  {
    if |steps| > 0 {
      var front := steps[..|steps| - 1];
      ApplyStepsOk(front, vmap);
      assert forall j :: 0 <= j < |front| ==> front[j] == steps[j];
      var s := steps[|steps| - 1];
      if ApplySteps(front, vmap).Ok? {
        var gs := ApplySteps(front, vmap).value;
        var r := AddedField(Get(gs, s.group), s.name, s.spec, vmap, s.t);
        match s.spec {
          case One(key) =>
          case Many(keys) =>
        }
        assert r.Ok? <==> StepOk(s, vmap);
      }
    }
  }

  /** Each group ends up with exactly the entries of the calls that store
      one, and nothing else. */
  lemma {:induction false} ApplyStepsKeys(steps: seq<Step>, vmap: map<string, string>, g: Group)
    requires ApplySteps(steps, vmap).Ok?
    ensures Get(ApplySteps(steps, vmap).value, g).Keys == Filled(steps, g, vmap)
  {
    if |steps| > 0 {
      var n := |steps| - 1;
      var front := steps[..n];
      var s := steps[n];
      ApplyStepsKeys(front, vmap, g);
      FilledSnoc(steps, g, vmap);
    }
  }

  lemma FilledSnoc(steps: seq<Step>, g: Group, vmap: map<string, string>)
    requires |steps| > 0
    ensures var n := |steps| - 1;
      Filled(steps, g, vmap) ==
        Filled(steps[..n], g, vmap) + (if steps[n].group == g && Stores(steps[n], vmap) then {steps[n].name} else {})
  {
    var n := |steps| - 1;
    var front := steps[..n];
    assert forall j :: 0 <= j < n ==> front[j] == steps[j];
    forall x | x in Filled(steps, g, vmap)
      ensures x in Filled(front, g, vmap) || (steps[n].group == g && Stores(steps[n], vmap) && x == steps[n].name)
    {
      var j :| 0 <= j < |steps| && steps[j].group == g && Stores(steps[j], vmap) && steps[j].name == x;
      if j < n {
        assert front[j].name == x;
      }
    }
  }

  /** The entry a call stores survives every later call that names a
      different entry or another group. */
  lemma {:induction false} ApplyStepsValue(steps: seq<Step>, vmap: map<string, string>, j: nat)
    requires ApplySteps(steps, vmap).Ok? && j < |steps|
    requires Stores(steps[j], vmap)
    requires forall i :: j < i < |steps| ==> steps[i].group != steps[j].group || steps[i].name != steps[j].name
    ensures var s, m := steps[j], Get(ApplySteps(steps, vmap).value, steps[j].group);
      && s.name in m
      && (s.spec.One? ==> FieldOf(s.t, vmap[s.spec.key]) == Ok(m[s.name]))
      && (s.spec.Many? ==> m[s.name].List? && Collect(s.spec.keys, vmap, s.t) == Ok(m[s.name].items))
  {
    var front := steps[..|steps| - 1];
    var s := steps[|steps| - 1];
    var gs := ApplySteps(front, vmap).value;
    if j < |steps| - 1 {
      assert forall i :: j < i < |front| ==> front[i] == steps[i];
      ApplyStepsValue(front, vmap, j);
    }
  }

  /** `values = message.split(","); if values[0] == tag: ...` for a data
      kind: None exactly for another tag, otherwise a reply of this kind or
      the first error. */
  function ParseData(d: DataKind, message: string): (r: Result<Option<Reply>>)
    ensures r == Ok(None) <==> Leader(message) != ResultTag(d)
    ensures r.Ok? && r.value.Some? ==> r.value.value.Data? && r.value.value.kind == d
  {
    var values := Split(message, ',');
    if values[0] != ResultTag(d) then Ok(None)
    else
      var vmap :- Lookup(values[1..]);
      var gs :- ApplySteps(Steps(d), vmap);
      Ok(Some(Data(d, gs)))
  }

  /** The data parsers' add_field calls, made on two result dictionaries
      updated in place. */
  method FillGroups(steps: seq<Step>, vmap: map<string, string>) returns (r: Result<Groups>)
    ensures r == ApplySteps(steps, vmap)
  {
    var first := new FieldGroup();
    var second := new FieldGroup();
    for i := 0 to |steps|
      invariant ApplySteps(steps[..i], vmap) == Ok(Groups(first.entries, second.entries))
    {
      assert steps[..i + 1][..i] == steps[..i];
      var s := steps[i];
      var err;
      if s.group == First {
        err := first.AddField(s.name, s.spec, vmap, s.t);
      } else {
        err := second.AddField(s.name, s.spec, vmap, s.t);
      }
      if err.Some? {
        ApplyStepsFailsFrom(steps, i + 1, vmap);
        return Failure(err.value);
      }
    }
    assert steps[..|steps|] == steps;
    r := Ok(Groups(first.entries, second.entries));
  }

  // ---------------------------------------------------------------------
  // The parser chain

  /** What a parser returns when it recognises a message. */
  datatype Reply =
    | Data(kind: DataKind, groups: Groups)          // the four data dictionaries
    | Comms(values: seq<string>)                   // the split body, unresolved
    | CommandResponse(result: string)              // `values[1]`
    | SettingsReply(settings: Kind, decoded: Decoded)

  datatype Parser = DataParser(d: DataKind) | CommsParser | CommandResponseParser | SettingsParser(k: Kind)

  /** `MessageParser.parsers`, in order. */
  const Chain: seq<Parser> := [
    DataParser(WindData), DataParser(PtuData), DataParser(RainData), DataParser(StatusData),
    CommsParser, CommandResponseParser,
    SettingsParser(PtuSettings), SettingsParser(PrecipitationSettings), SettingsParser(SupervisorSettings)]

  /** The connection-info reply, case-insensitive: `xU` or `XXU`. */
  predicate IsConnectionInfo(tag: string) {
    Upper(tag) == "XU" || Upper(tag) == "XXU"
  }

  /** The reply a parser builds: the data kind it parses, the connection
      info, the command result, or the settings kind it decodes. */
  predicate Fits(p: Parser, reply: Reply) {
    match p
    case DataParser(d) => reply.Data? && reply.kind == d
    case CommsParser => reply.Comms?
    case CommandResponseParser => reply.CommandResponse?
    case SettingsParser(k) => reply.SettingsReply? && reply.settings == k
  }

  /** `parser.parse(address, message)`; the address is not used by any
      parser. A parser answers None exactly when it does not recognise the
      tag; once it does, it either raises or returns its own kind of reply. */
  function Run(p: Parser, message: string): (r: Result<Option<Reply>>)
    ensures r == Ok(None) <==> !Recognizes(p, Leader(message))
    ensures r.Ok? && r.value.Some? ==> Fits(p, r.value.value)
  {
    match p
    case DataParser(d) => ParseData(d, message)
    case CommsParser =>
      var values := Split(message, ',');
      if IsConnectionInfo(values[0]) then Ok(Some(Comms(values))) else Ok(None)
    case CommandResponseParser =>
      var values := Split(message, ',');
      if values[0] != "tX" then Ok(None)
      else if |values| < 2 then Failure(MissingResult)
      else Ok(Some(CommandResponse(values[1])))
    case SettingsParser(k) =>
      var d :- ParseSettings(k, message);
      if d.None? then Ok(None) else Ok(Some(SettingsReply(k, d.value)))
  }

  /** The tag a parser answers to. */
  predicate Recognizes(p: Parser, tag: string) {
    match p
    case DataParser(d) => tag == ResultTag(d)
    case CommsParser => IsConnectionInfo(tag)
    case CommandResponseParser => tag == "tX"
    case SettingsParser(k) => tag == Tag(k)
  }

  function Leader(message: string): string {
    Split(message, ',')[0]
  }

  /** No tag is recognised by two parsers of the chain: the order decides
      nothing between them. */
  lemma ChainDisjoint(i: nat, j: nat, tag: string)
    requires i < j < |Chain|
    ensures !(Recognizes(Chain[i], tag) && Recognizes(Chain[j], tag))
  {
    if Recognizes(Chain[j], tag) && Chain[j] == CommsParser {
      assert Upper(tag)[0] == 'X';
    } else if Recognizes(Chain[i], tag) && Chain[i] == CommsParser {
      assert Upper("tX") == "TX";
      assert Upper("xTU") == "XTU";
      assert Upper("xRU") == "XRU";
      assert Upper("xSU") == "XSU";
    }
  }

  /** The loop over the parsers from position i on: the first answer other
      than None wins, and a parser that raises ends the loop. A reply comes
      from a later parser that recognises the tag, and is of its kind. */
  function DispatchFrom(i: nat, message: string): (r: Result<Reply>)
    requires i <= |Chain|
    ensures r.Ok? ==> exists n :: i <= n < |Chain| && Recognizes(Chain[n], Leader(message)) && Fits(Chain[n], r.value)
    decreases |Chain| - i
  {
    if i == |Chain| then Failure(UnrecognizedMessage)
    else match Run(Chain[i], message)
      case Failure(e) => Failure(e)
      case Ok(Some(r)) => Ok(r)
      case Ok(None) => DispatchFrom(i + 1, message)
  }

  /** `MessageParser.parse`'s loop over all parsers. */
  function Dispatch(message: string): (r: Result<Reply>)
    ensures r.Ok? ==> exists n :: 0 <= n < |Chain| && Recognizes(Chain[n], Leader(message)) && Fits(Chain[n], r.value)
  {
    DispatchFrom(0, message)
  }

  /** The result of the one parser that recognises the tag. */
  function Answer(p: Parser, message: string): Result<Reply> {
    match Run(p, message)
    case Failure(e) => Failure(e)
    case Ok(Some(r)) => Ok(r)
    case Ok(None) => Failure(UnrecognizedMessage)
  }

  /** A parser that does not recognise the tag passes the message on. */
  lemma DispatchPasses(i: nat, message: string)
    requires i < |Chain| && !Recognizes(Chain[i], Leader(message))
    ensures DispatchFrom(i, message) == DispatchFrom(i + 1, message)
  {
  }

  /** A parser that recognises the tag decides the dispatch. */
  lemma DispatchStops(n: nat, message: string)
    requires n < |Chain| && Recognizes(Chain[n], Leader(message))
    ensures DispatchFrom(n, message) == Answer(Chain[n], message)
  {
  }

  lemma {:induction false} DispatchFromSkips(i: nat, n: nat, message: string)
    requires i <= n < |Chain|
    requires Recognizes(Chain[n], Leader(message))
    ensures DispatchFrom(i, message) == Answer(Chain[n], message)
    decreases n - i
  {
    if i < n {
      ChainDisjoint(i, n, Leader(message));
      DispatchPasses(i, message);
      DispatchFromSkips(i + 1, n, message);
    } else {
      DispatchStops(n, message);
    }
  }

  lemma {:induction false} DispatchFromNone(i: nat, message: string)
    requires i <= |Chain|
    requires forall n :: i <= n < |Chain| ==> !Recognizes(Chain[n], Leader(message))
    ensures DispatchFrom(i, message) == Failure(UnrecognizedMessage)
    decreases |Chain| - i
  {
    if i < |Chain| {
      DispatchPasses(i, message);
      DispatchFromNone(i + 1, message);
    }
  }

  /** Dispatch is the answer of the parser whose tag the message carries,
      wherever it sits in the chain, and UnrecognizedMessage when no parser
      recognises the tag. */
  lemma DispatchByTag(message: string)
    ensures forall n :: 0 <= n < |Chain| && Recognizes(Chain[n], Leader(message)) ==>
      Dispatch(message) == Answer(Chain[n], message)
    ensures (forall n :: 0 <= n < |Chain| ==> !Recognizes(Chain[n], Leader(message))) ==>
      Dispatch(message) == Failure(UnrecognizedMessage)
  {
    forall n | 0 <= n < |Chain| && Recognizes(Chain[n], Leader(message))
      ensures Dispatch(message) == Answer(Chain[n], message)
    {
      DispatchFromSkips(0, n, message);
    }
    if forall n :: 0 <= n < |Chain| ==> !Recognizes(Chain[n], Leader(message)) {
      DispatchFromNone(0, message);
    }
  }
}
