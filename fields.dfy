/** The field map of a data message and the optional-field helper
    (wxt5xx/message.py, `BaseMessageParser.create_lookup` and `add_field`). */
module Fields {
  import opened Common
  import opened Text
  import opened Units

  /** A value stored in a result dictionary. */
  datatype Field =
    | Measured(reading: Reading)   // the `[val, unit]` list of parse_unit
    | Nothing                      // the None parse_unit returns for `Id`
    | List(items: seq<Field>)      // a list-valued entry such as "Limits"
    | Str(text: string)            // a bare string, such as a heating status

  /** The `transform` argument of add_field. */
  datatype Transform =
    | Identity     // lambda a: a
    | AsVolts      // lambda a: [a[0], "V"]
    | UnitOnly     // lambda a: a[1]

  /** The `field` argument of add_field: one label or a list of labels. */
  datatype FieldSpec = One(key: string) | Many(keys: seq<string>)

  function Apply(t: Transform, u: Option<Reading>): Result<Field> {
    match t
    case Identity => if u.None? then Ok(Nothing) else Ok(Measured(u.value))
    case AsVolts => if u.None? then Failure(NotSubscriptable) else Ok(Measured(Reading(u.value.value, "V")))
    case UnitOnly => if u.None? then Failure(NotSubscriptable) else Ok(Str(u.value.unit))
  }

  /** `transform(self.parse_unit(token))`. */
  function FieldOf(t: Transform, token: string): Result<Field> {
    var u :- ParseUnit(token);
    Apply(t, u)
  }

  // ---------------------------------------------------------------------
  // create_lookup

  predicate IsPair(token: string) {
    |Split(token, '=')| == 2
  }

  function LabelOf(token: string): string {
    Split(token, '=')[0]
  }

  /** `create_lookup(values)`: each label mapped to a `label=value` token
      that carries it (the last one, by LookupLastWins). Any token without
      exactly one '=' makes it fail. */
  function Lookup(tokens: seq<string>): (r: Result<map<string, string>>)
    ensures r.Ok? <==> forall i :: 0 <= i < |tokens| ==> IsPair(tokens[i])
    ensures r.Ok? ==> forall i :: 0 <= i < |tokens| ==> LabelOf(tokens[i]) in r.value
    ensures r.Ok? ==> forall k :: k in r.value ==> IsPair(r.value[k]) && LabelOf(r.value[k]) == k
  {
    if |tokens| == 0 then Ok(map[])
    else
      var last := tokens[|tokens| - 1];
      match Lookup(tokens[..|tokens| - 1])
      case Failure(e) => Failure(e)
      case Ok(m) =>
        if !IsPair(last) then Failure(MalformedField(last))
        else Ok(m[LabelOf(last) := last])
  }

  /** A label maps to the last token that carries it: later tokens override
      earlier ones, as assignments into a dict do. */
  lemma {:induction false} LookupLastWins(tokens: seq<string>, i: nat)
    requires Lookup(tokens).Ok? && i < |tokens|
    requires forall j :: i < j < |tokens| ==> LabelOf(tokens[j]) != LabelOf(tokens[i])
    ensures Lookup(tokens).value[LabelOf(tokens[i])] == tokens[i]
  {
    var front := tokens[..|tokens| - 1];
    if i < |tokens| - 1 {
      assert forall j :: i < j < |front| ==> front[j] == tokens[j];
      LookupLastWins(front, i);
    }
  }

  /** The map holds nothing but the tokens: every value is one of them, so
      every key is the label of one of them. */
  lemma {:induction false} LookupDrawn(tokens: seq<string>)
    requires Lookup(tokens).Ok?
    ensures forall k :: k in Lookup(tokens).value ==> Lookup(tokens).value[k] in tokens
  {
    if |tokens| > 0 {
      var front := tokens[..|tokens| - 1];
      LookupDrawn(front);
      assert forall t :: t in front ==> t in tokens;
    }
  }

  /** `create_lookup`: the loop that fills the dictionary. */
  method CreateLookup(tokens: seq<string>) returns (r: Result<map<string, string>>)
    ensures r == Lookup(tokens)
  {
    var vmap: map<string, string> := map[];
    for i := 0 to |tokens|
      invariant Lookup(tokens[..i]) == Ok(vmap)
    {
      assert tokens[..i + 1][..i] == tokens[..i];
      var parts := Split(tokens[i], '=');
      if |parts| != 2 {
        LookupFailsFrom(tokens, i + 1);
        return Failure(MalformedField(tokens[i]));
      }
      vmap := vmap[parts[0] := tokens[i]];
    }
    assert tokens[..|tokens|] == tokens;
    r := Ok(vmap);
  }

  /** A failure in a prefix is the failure of the whole lookup. */
  lemma {:induction false} LookupFailsFrom(tokens: seq<string>, n: nat)
    requires n <= |tokens| && Lookup(tokens[..n]).Failure?
    ensures Lookup(tokens) == Lookup(tokens[..n])
    decreases |tokens| - n
  {
    if n < |tokens| {
      assert tokens[..n + 1][..n] == tokens[..n];
      LookupFailsFrom(tokens, n + 1);
    } else {
      assert tokens[..n] == tokens;
    }
  }

  // ---------------------------------------------------------------------
  // add_field

  /** The labels of `keys` that the field map holds, in declared order. */
  function Present(keys: seq<string>, vmap: map<string, string>): (r: seq<string>)
    ensures |r| <= |keys|
    ensures forall i :: 0 <= i < |r| ==> r[i] in vmap && r[i] in keys
  {
    if |keys| == 0 then []
    else
      var front := Present(keys[..|keys| - 1], vmap);
      if keys[|keys| - 1] in vmap then front + [keys[|keys| - 1]] else front
  }

  /** The list that add_field builds for a list of labels (see CollectPresent). */
  function Collect(keys: seq<string>, vmap: map<string, string>, t: Transform): Result<seq<Field>> {
    if |keys| == 0 then Ok([])
    else
      var key := keys[|keys| - 1];
      match Collect(keys[..|keys| - 1], vmap, t)
      case Failure(e) => Failure(e)
      case Ok(items) =>
        if key in vmap then
          match FieldOf(t, vmap[key])
          case Failure(e) => Failure(e)
          case Ok(f) => Ok(items + [f])
        else Ok(items)
  }

  /** The list is built exactly when the reading of every present label
      succeeds. */
  lemma {:induction false} CollectOkIff(keys: seq<string>, vmap: map<string, string>, t: Transform)
    ensures Collect(keys, vmap, t).Ok? <==>
      forall i :: 0 <= i < |Present(keys, vmap)| ==> FieldOf(t, vmap[Present(keys, vmap)[i]]).Ok?
  {
    if |keys| > 0 {
      var front := keys[..|keys| - 1];
      var key := keys[|keys| - 1];
      CollectOkIff(front, vmap, t);
      if key in vmap {
        assert Present(keys, vmap) == Present(front, vmap) + [key];
        assert Collect(keys, vmap, t).Ok? <==> Collect(front, vmap, t).Ok? && FieldOf(t, vmap[key]).Ok?;
        ReadAllSnoc(Present(front, vmap), key, vmap, t);
      } else {
        assert Collect(keys, vmap, t) == Collect(front, vmap, t);
        assert Present(keys, vmap) == Present(front, vmap);
      }
    }
  }

  /** Every label of `p + [key]` reads when those of `p` and `key` do. */
  lemma ReadAllSnoc(p: seq<string>, key: string, vmap: map<string, string>, t: Transform)
    requires forall i :: 0 <= i < |p| ==> p[i] in vmap
    requires key in vmap
    ensures (forall i :: 0 <= i < |p + [key]| ==> FieldOf(t, vmap[(p + [key])[i]]).Ok?) <==>
      (forall i :: 0 <= i < |p| ==> FieldOf(t, vmap[p[i]]).Ok?) && FieldOf(t, vmap[key]).Ok?
  {
    var q := p + [key];
    assert forall i :: 0 <= i < |p| ==> q[i] == p[i];
    assert q[|p|] == key;
  }

  /** The list holds the transformed readings of the present labels only, in
      declared order. */
  lemma {:induction false} CollectPresent(keys: seq<string>, vmap: map<string, string>, t: Transform)
    ensures var p, r := Present(keys, vmap), Collect(keys, vmap, t);
      r.Ok? ==> |r.value| == |p| && forall i :: 0 <= i < |p| ==> FieldOf(t, vmap[p[i]]) == Ok(r.value[i])
  {
    if |keys| > 0 && Collect(keys, vmap, t).Ok? {
      var front := keys[..|keys| - 1];
      var key := keys[|keys| - 1];
      CollectPresent(front, vmap, t);
      var p0, p := Present(front, vmap), Present(keys, vmap);
      var r0, r := Collect(front, vmap, t).value, Collect(keys, vmap, t).value;
      if key in vmap {
        assert p == p0 + [key];
        assert r == r0 + [FieldOf(t, vmap[key]).value];
        forall i | 0 <= i < |p|
          ensures FieldOf(t, vmap[p[i]]) == Ok(r[i])
        {
          if i < |p0| { assert p[i] == p0[i] && r[i] == r0[i]; }
        }
      } else {
        assert p == p0 && r == r0;
      }
    }
  }

  /** `add_field(data, name, field, vmap, transform)` as a function of the
      dictionary before the call: the dictionary after it. */
  function AddedField(data: map<string, Field>, name: string, spec: FieldSpec,
                      vmap: map<string, string>, t: Transform): (r: Result<map<string, Field>>)
    ensures r.Ok? ==> forall k :: k != name ==>
      (k in r.value <==> k in data) && (k in data ==> r.value[k] == data[k])
    ensures spec.One? && spec.key !in vmap ==> r == Ok(data)
    ensures spec.One? && spec.key in vmap ==> (r.Ok? <==> FieldOf(t, vmap[spec.key]).Ok?)
    ensures spec.One? && spec.key in vmap && r.Ok? ==>
      name in r.value && FieldOf(t, vmap[spec.key]) == Ok(r.value[name])
    ensures spec.Many? ==> (r.Ok? <==> Collect(spec.keys, vmap, t).Ok?)
    ensures spec.Many? && r.Ok? ==>
      name in r.value && r.value[name] == List(Collect(spec.keys, vmap, t).value)
  {
    match spec
    case One(key) =>
      if key in vmap then
        match FieldOf(t, vmap[key])
        case Failure(e) => Failure(e)
        case Ok(f) => Ok(data[name := f])
      else Ok(data)
    case Many(keys) =>
      match Collect(keys, vmap, t)
      case Failure(e) => Failure(e)
      case Ok(items) => Ok(data[name := List(items)])
  }

  /** A result dictionary that add_field updates in place. */
  class FieldGroup {
    var entries: map<string, Field>

    constructor ()
      ensures entries == map[]
    {
      entries := map[];
    }

    /** `add_field(self.entries, name, spec, vmap, t)`: on an exception the
        dictionary is left as it was. */
    method AddField(name: string, spec: FieldSpec, vmap: map<string, string>, t: Transform)
      returns (err: Option<Error>)
      modifies this
      ensures match AddedField(old(entries), name, spec, vmap, t)
        case Ok(m) => err == None && entries == m
        case Failure(e) => err == Some(e) && entries == old(entries)
    {
      match spec
      case One(key) =>
        if key in vmap {
          var u := ParseUnit(vmap[key]);
          if u.Failure? { return Some(u.error); }
          var f := Apply(t, u.value);
          if f.Failure? { return Some(f.error); }
          entries := entries[name := f.value];
        }
        err := None;
      case Many(keys) =>
        var tmp: seq<Field> := [];
        for i := 0 to |keys|
          invariant Collect(keys[..i], vmap, t) == Ok(tmp)
        {
          assert keys[..i + 1][..i] == keys[..i];
          if keys[i] in vmap {
            var u := ParseUnit(vmap[keys[i]]);
            if u.Failure? {
              CollectFailsFrom(keys, i + 1, vmap, t);
              return Some(u.error);
            }
            var f := Apply(t, u.value);
            if f.Failure? {
              CollectFailsFrom(keys, i + 1, vmap, t);
              return Some(f.error);
            }
            tmp := tmp + [f.value];
          }
        }
        assert keys[..|keys|] == keys;
        entries := entries[name := List(tmp)];
        err := None;
    }
  }

  lemma {:induction false} CollectFailsFrom(keys: seq<string>, n: nat, vmap: map<string, string>, t: Transform)
    requires n <= |keys| && Collect(keys[..n], vmap, t).Failure?
    ensures Collect(keys, vmap, t) == Collect(keys[..n], vmap, t)
    decreases |keys| - n
  {
    if n < |keys| {
      assert keys[..n + 1][..n] == keys[..n];
      CollectFailsFrom(keys, n + 1, vmap, t);
    } else {
      assert keys[..n] == keys;
    }
  }
}
