/** `ModelCheck`: resolving the field names a query mentions, against the
    model and the models joined under an alias (`alias__field`). */
module Resolve {
  import opened Wrappers
  import opened Text
  import opened Dicts
  import opened Schema

  /** `{'join_model': model, 'join_on': ((left, right), ...)}`. */
  datatype JoinInfo = JoinInfo(model: ModelSchema, on: seq<(string, string)>)

  /** The `join_as` dictionary: aliases in the order they were joined. */
  type Joins = Dict<string, JoinInfo>

  const Dunder := "__"

  function Unresolved(name: string): Error
  {
    TypeError("Cannot resolve keyword " + name + " into field.")
  }

  /** `ModelCheck.field_info`: a plain name is a column of the model;
      `alias__field` a column of the model joined under `alias`. */
  function FieldInfo(model: ModelSchema, joins: Joins, name: string): (r: Result<string>)
    ensures !Contains(name, Dunder) ==> r == ColumnRef(model, name)
    ensures r.Err? && r.error.ValueError? <==> Contains(name, Dunder) && |Split(name, Dunder)| != 2
    ensures Contains(name, Dunder) && |Split(name, Dunder)| == 2 ==>
      match Get(joins, Split(name, Dunder)[0])
      case None => r == Err(Unresolved(name))
      case Some(info) => r == ColumnRef(info.model, Split(name, Dunder)[1])
  {
    if !Contains(name, Dunder) then ColumnRef(model, name)
    else
      var parts := Split(name, Dunder);
      if |parts| != 2 then Err(ValueError("too many values to unpack (expected 2)"))
      else
        match Get(joins, parts[0])
        case None => Err(Unresolved(name))
        case Some(info) => ColumnRef(info.model, parts[1])
  }

  /** Where `field_wash` looks a name up: the prefix it keeps (`alias__` or
      nothing), the model, and the attribute name. An unknown alias is the
      KeyError of `self.join_as[temp_as]`. */
  function Locate(model: ModelSchema, joins: Joins, name: string): (r: Result<(string, ModelSchema, string)>)
    ensures !Contains(name, Dunder) ==> r == Ok(("", model, name))
    ensures r.Ok? && r.value.0 == "" ==> r.value.1 == model && r.value.2 == name && !Contains(name, Dunder)
    ensures r.Err? && r.error.ValueError? <==> Contains(name, Dunder) && |Split(name, Dunder)| != 2
    ensures r.Err? && r.error.KeyError? ==> Contains(name, Dunder) && Get(joins, Split(name, Dunder)[0]).None?
    ensures Contains(name, Dunder) && |Split(name, Dunder)| == 2 ==>
      match Get(joins, Split(name, Dunder)[0])
      case None => r == Err(KeyError(Split(name, Dunder)[0]))
      case Some(info) => r == Ok((Split(name, Dunder)[0] + Dunder, info.model, Split(name, Dunder)[1]))
  {
    if !Contains(name, Dunder) then Ok(("", model, name))
    else
      var parts := Split(name, Dunder);
      if |parts| != 2 then Err(ValueError("too many values to unpack (expected 2)"))
      else
        match Get(joins, parts[0])
        case None => Err(KeyError(parts[0]))
        case Some(info) =>
          Ok((parts[0] + Dunder, info.model, parts[1]))
  }

  /** `temp_model.attrs.get(field)`, which must be a truthy `Field`. */
  function FieldObj(model: ModelSchema, key: string): (r: Result<Field>)
    ensures r.Ok? <==> key in model.attrs && model.attrs[key].FieldAttr?
    ensures r.Ok? ==> r.value == model.attrs[key].field
    ensures r.Err? && r.error.TypeError? <==> key !in model.attrs || model.attrs[key] == OtherAttr(false)
  {
    if key !in model.attrs || model.attrs[key] == OtherAttr(false) then Err(Unresolved(key))
    else if model.attrs[key].OtherAttr? then Err(AttributeError("name"))
    else Ok(model.attrs[key].field)
  }

  /** One name of `field_wash`'s list: a leading `-` kept, the alias kept, and
      the attribute replaced by the name of the field it stands for (so `pk`
      becomes the primary key's name). */
  function WashOne(model: ModelSchema, joins: Joins, field: string): (r: Result<string>)
    ensures field == "" ==> r == Err(IndexError)
    ensures r.Ok? && field[0] == '-' ==> |r.value| > 0 && r.value[0] == '-'
    ensures field != "" ==> (Locate(model, joins, Unsigned(field)).Err? ==> r == Err(Locate(model, joins, Unsigned(field)).error))
    ensures field != "" && Contains(Unsigned(field), Dunder) && |Split(Unsigned(field), Dunder)| == 2 ==>
      Get(joins, Split(Unsigned(field), Dunder)[0]).None? ==> r == Err(KeyError(Split(Unsigned(field), Dunder)[0]))
    ensures field != "" && Locate(model, joins, Unsigned(field)).Ok? ==>
      var loc := Locate(model, joins, Unsigned(field)).value;
      (FieldObj(loc.1, loc.2).Err? ==> r == Err(FieldObj(loc.1, loc.2).error)) &&
      (FieldObj(loc.1, loc.2).Ok? ==> r == Ok((if field[0] == '-' then "-" else "") + loc.0 + FieldObj(loc.1, loc.2).value.name))
  {
    if |field| == 0 then Err(IndexError)
    else
      var minus := if field[0] == '-' then "-" else "";
      var name := if field[0] == '-' then field[1..] else field;
      var loc :- Locate(model, joins, name);
      var f :- FieldObj(loc.1, loc.2);
      Ok(minus + loc.0 + f.name)
  }

  /** `field_wash(fields_list)`: every name washed, left to right, the first
      failure raised. */
  function WashFrom(model: ModelSchema, joins: Joins, fields: seq<string>, i: nat, acc: seq<string>): (r: Result<seq<string>>)
    requires i <= |fields|
    ensures r.Ok? ==> |r.value| == |acc| + |fields| - i && r.value[..|acc|] == acc
    ensures r.Ok? ==> forall j | i <= j < |fields| :: WashOne(model, joins, fields[j]) == Ok(r.value[|acc| + j - i])
    ensures r.Err? <==> exists j | i <= j < |fields| :: WashOne(model, joins, fields[j]).Err?
    decreases |fields| - i
  {
    if i == |fields| then Ok(acc)
    else
      var w :- WashOne(model, joins, fields[i]);
      WashFrom(model, joins, fields, i + 1, acc + [w])
  }

  function FieldWash(model: ModelSchema, joins: Joins, fields: seq<string>): Result<seq<string>>
  {
    WashFrom(model, joins, fields, 0, [])
  }

  /** The loop of `ModelCheck.field_wash` over its list. */
  method FieldWashList(model: ModelSchema, joins: Joins, fields: seq<string>) returns (r: Result<seq<string>>)
    ensures r == FieldWash(model, joins, fields)
  {
    var acc: seq<string> := [];
    var i := 0;
    while i < |fields|
      invariant i <= |fields|
      invariant WashFrom(model, joins, fields, i, acc) == FieldWash(model, joins, fields)
    {
      var w := WashOne(model, joins, fields[i]);
      if w.Err? {
        return Err(w.error);
      }
      acc := acc + [w.value];
      i := i + 1;
    }
    return Ok(acc);
  }

  /** One key of `field_wash(fields_dict=...)`: no `-` handling and no
      emptiness check; the key becomes the washed name. */
  function WashKey(model: ModelSchema, joins: Joins, key: string): (r: Result<string>)
  {
    var loc :- Locate(model, joins, key);
    var f :- FieldObj(loc.1, loc.2);
    Ok(loc.0 + f.name)
  }

  /** `field_wash(fields_dict=d)`: each value stored under its washed key;
      keys that wash to the same name keep the last value. */
  function WashDictFrom<V>(model: ModelSchema, joins: Joins, d: Dict<string, V>, i: nat, acc: Dict<string, V>): (r: Result<Dict<string, V>>)
    requires i <= |d|
    ensures r.Err? <==> exists j | i <= j < |d| :: WashKey(model, joins, d[j].0).Err?
    decreases |d| - i
  {
    if i == |d| then Ok(acc)
    else
      var k :- WashKey(model, joins, d[i].0);
      WashDictFrom(model, joins, d, i + 1, Put(acc, k, d[i].1))
  }

  /** What the washed dictionary holds: the value of every entry under its
      washed key, unless a later entry washes to the same key (the later
      value wins), and what `acc` held under every key no entry washes to. */
  lemma {:induction false} WashDictFromValues<V>(model: ModelSchema, joins: Joins, d: Dict<string, V>, i: nat, acc: Dict<string, V>)
    requires i <= |d|
    requires WashDictFrom(model, joins, d, i, acc).Ok?
    ensures var r := WashDictFrom(model, joins, d, i, acc).value;
      forall j | i <= j < |d| && (forall j' | j < j' < |d| :: WashKey(model, joins, d[j'].0) != WashKey(model, joins, d[j].0)) ::
        Get(r, WashKey(model, joins, d[j].0).value) == Some(d[j].1)
    ensures var r := WashDictFrom(model, joins, d, i, acc).value;
      forall k | (forall j | i <= j < |d| :: WashKey(model, joins, d[j].0) != Ok(k)) :: Get(r, k) == Get(acc, k)
    decreases |d| - i
  {
    if i < |d| {
      var k0 := WashKey(model, joins, d[i].0).value;
      var acc' := Put(acc, k0, d[i].1);
      WashDictFromValues(model, joins, d, i + 1, acc');
      var r := WashDictFrom(model, joins, d, i, acc).value;
      assert r == WashDictFrom(model, joins, d, i + 1, acc').value;
      forall j | i <= j < |d| && (forall j' | j < j' < |d| :: WashKey(model, joins, d[j'].0) != WashKey(model, joins, d[j].0))
        ensures Get(r, WashKey(model, joins, d[j].0).value) == Some(d[j].1)
      {
        if j == i {
          assert forall j' | i + 1 <= j' < |d| :: WashKey(model, joins, d[j'].0) != Ok(k0);
        }
      }
    }
  }

  function FieldWashDict<V>(model: ModelSchema, joins: Joins, d: Dict<string, V>): Result<Dict<string, V>>
  {
    WashDictFrom(model, joins, d, 0, [])
  }

  /** The loop of `ModelCheck.field_wash` over its dictionary. */
  method FieldWashDictLoop<V>(model: ModelSchema, joins: Joins, d: Dict<string, V>) returns (r: Result<Dict<string, V>>)
    ensures r == FieldWashDict(model, joins, d)
  {
    var acc: Dict<string, V> := [];
    var i := 0;
    while i < |d|
      invariant i <= |d|
      invariant WashDictFrom(model, joins, d, i, acc) == FieldWashDict(model, joins, d)
    {
      var k := WashKey(model, joins, d[i].0);
      if k.Err? {
        return Err(k.error);
      }
      acc := Put(acc, k.value, d[i].1);
      i := i + 1;
    }
    return Ok(acc);
  }

  // ---------------------------------------------------------------------------
  // What washing guarantees

  /** A field name as Python declares one: not empty, no leading `-`, no `__`. */
  predicate PlainName(n: string)
  {
    |n| > 0 && n[0] != '-' && !Contains(n, Dunder)
  }

  ghost predicate PlainModel(s: ModelSchema)
  {
    WellFormed(s) &&
    forall k | k in s.attrs && s.attrs[k].FieldAttr? :: PlainName(s.attrs[k].field.name)
  }

  ghost predicate PlainJoins(joins: Joins)
  {
    forall j | 0 <= j < |joins| :: PlainModel(joins[j].1.model)
  }

  /** The name without its leading `-`. */
  function Unsigned(w: string): string
  {
    if |w| > 0 && w[0] == '-' then w[1..] else w
  }

  /** A dictionary key washes as the same name in a list would. */
  lemma WashKeyAgrees(model: ModelSchema, joins: Joins, key: string)
    requires |key| > 0 && key[0] != '-'
    ensures WashKey(model, joins, key) == WashOne(model, joins, key)
  {
    var loc := Locate(model, joins, key);
    if loc.Ok? {
      var f := FieldObj(loc.value.1, loc.value.2);
      if f.Ok? {
        assert "" + loc.value.0 + f.value.name == loc.value.0 + f.value.name;
      }
    }
  }

  /** What `Locate` finds behind an alias: the split is `[alias, attribute]`
      and the model is the one joined under the alias. */
  lemma LocateAlias(model: ModelSchema, joins: Joins, name: string)
    requires Locate(model, joins, name).Ok? && Locate(model, joins, name).value.0 != ""
    ensures var loc := Locate(model, joins, name).value;
      var alias := Split(name, Dunder)[0];
      Split(name, Dunder) == [alias, loc.2] &&
      loc.0 == alias + Dunder &&
      name == alias + Dunder + loc.2 &&
      !Contains(alias + "_", Dunder) &&
      Get(joins, alias).Some? && Get(joins, alias).value.model == loc.1 &&
      exists j | 0 <= j < |joins| :: joins[j].0 == alias && joins[j].1.model == loc.1
  {
    var parts := Split(name, Dunder);
    var info := Get(joins, parts[0]).value;
    assert (parts[0], info) in joins;
    SplitHead(name, Dunder);
    assert Dunder[..|Dunder| - 1] == "_";
    JoinSplit(name, Dunder);
    JoinTwo(parts[0], parts[1], Dunder);
  }

  /** The model `Locate` finds is plain when all models are. */
  lemma LocatePlain(model: ModelSchema, joins: Joins, name: string)
    requires PlainModel(model) && PlainJoins(joins)
    requires Locate(model, joins, name).Ok?
    ensures PlainModel(Locate(model, joins, name).value.1)
  {
    if Locate(model, joins, name).value.0 != "" {
      LocateAlias(model, joins, name);
    }
  }

  /** The field an attribute stands for is an entry under its own name. */
  lemma FieldObjNamed(target: ModelSchema, key: string)
    requires PlainModel(target)
    requires FieldObj(target, key).Ok?
    ensures var f := FieldObj(target, key).value;
      PlainName(f.name) && FieldObj(target, f.name).Ok? && FieldObj(target, f.name).value.name == f.name &&
      (key != PrimaryKeyAlias ==> f.name == key)
  {
    assert NamedEntry(target.attrs, key);
  }

  /** A washed name, spelled out. */
  lemma WashShape(model: ModelSchema, joins: Joins, field: string)
    requires WashOne(model, joins, field).Ok?
    ensures |field| > 0
    ensures var loc := Locate(model, joins, Unsigned(field)).value;
      Locate(model, joins, Unsigned(field)).Ok? && FieldObj(loc.1, loc.2).Ok? &&
      WashOne(model, joins, field).value ==
        (if field[0] == '-' then "-" else "") + loc.0 + FieldObj(loc.1, loc.2).value.name
  {
  }

  /** The washed name without its sign: the prefix and the field's name. */
  function Washed(model: ModelSchema, joins: Joins, field: string): string
    requires WashOne(model, joins, field).Ok?
  {
    WashShape(model, joins, field);
    var loc := Locate(model, joins, Unsigned(field)).value;
    loc.0 + FieldObj(loc.1, loc.2).value.name
  }

  /** Washing keeps the sign and nothing else changes the leading character. */
  lemma WashSign(model: ModelSchema, joins: Joins, field: string)
    requires PlainModel(model) && PlainJoins(joins)
    requires WashOne(model, joins, field).Ok?
    ensures var w := WashOne(model, joins, field).value;
      w == (if field[0] == '-' then "-" else "") + Washed(model, joins, field) &&
      Unsigned(w) == Washed(model, joins, field) && (w[0] == '-' <==> field[0] == '-')
  {
    WashShape(model, joins, field);
    var name := Unsigned(field);
    var loc := Locate(model, joins, name).value;
    LocatePlain(model, joins, name);
    FieldObjNamed(loc.1, loc.2);
    var f := FieldObj(loc.1, loc.2).value;
    var u := loc.0 + f.name;
    if loc.0 != "" && field[0] != '-' {
      LocateAlias(model, joins, name);
      var alias := Split(name, Dunder)[0];
      if |alias| > 0 {
        assert u[0] == alias[0] == name[0];
      } else {
        assert u[0] == '_';
      }
    }
  }

  /** Where the unsigned washed name leads: the same model and a field name
      that is an entry of it. */
  lemma WashedLocates(model: ModelSchema, joins: Joins, field: string)
    requires PlainModel(model) && PlainJoins(joins)
    requires WashOne(model, joins, field).Ok?
    ensures var loc := Locate(model, joins, Unsigned(field)).value;
      var f := FieldObj(loc.1, loc.2).value;
      Locate(model, joins, Washed(model, joins, field)) == Ok((loc.0, loc.1, f.name))
    ensures var loc := Locate(model, joins, Unsigned(field)).value;
      var f := FieldObj(loc.1, loc.2).value;
      FieldInfo(model, joins, Washed(model, joins, field)) == ColumnRef(loc.1, f.name)
    ensures var loc := Locate(model, joins, Unsigned(field)).value;
      var f := FieldObj(loc.1, loc.2).value;
      FieldObj(loc.1, f.name).Ok? && FieldObj(loc.1, f.name).value.name == f.name
    ensures var loc := Locate(model, joins, Unsigned(field)).value;
      loc.2 != PrimaryKeyAlias ==> Washed(model, joins, field) == Unsigned(field)
  {
    WashShape(model, joins, field);
    var name := Unsigned(field);
    var loc := Locate(model, joins, name).value;
    LocatePlain(model, joins, name);
    FieldObjNamed(loc.1, loc.2);
    var f := FieldObj(loc.1, loc.2).value;
    var u := loc.0 + f.name;
    if loc.0 != "" {
      LocateAlias(model, joins, name);
      var alias := Split(name, Dunder)[0];
      assert Dunder[..|Dunder| - 1] == "_";
      SplitPair(alias, Dunder, f.name);
      assert u == alias + Dunder + f.name;
      SplitMany(u, Dunder);
      assert Contains(u, Dunder);
      var info := Get(joins, alias).value;
      assert Locate(model, joins, u) == Ok((alias + Dunder, info.model, f.name));
      assert FieldInfo(model, joins, u) == ColumnRef(info.model, f.name);
    } else {
      assert u == f.name;
      assert PlainName(f.name);
      assert FieldInfo(model, joins, u) == ColumnRef(model, f.name);
    }
    assert Washed(model, joins, field) == u;
  }

  /** A washed name resolves: the compiler's `field_info` accepts it once
      `order_by`'s `-` is stripped. Washing changes nothing but `pk`. */
  lemma WashResolves(model: ModelSchema, joins: Joins, field: string)
    requires PlainModel(model) && PlainJoins(joins)
    requires WashOne(model, joins, field).Ok?
    ensures FieldInfo(model, joins, Unsigned(WashOne(model, joins, field).value)).Ok?
    ensures Locate(model, joins, Unsigned(field)).value.2 != PrimaryKeyAlias ==>
      WashOne(model, joins, field) == Ok(field)
  {
    WashSign(model, joins, field);
    WashedLocates(model, joins, field);
    var w := WashOne(model, joins, field).value;
    var loc := Locate(model, joins, Unsigned(field)).value;
    if loc.2 != PrimaryKeyAlias {
      assert field == (if field[0] == '-' then "-" else "") + Unsigned(field);
    }
  }

  /** Washing a washed name gives it back. */
  lemma WashIdempotent(model: ModelSchema, joins: Joins, field: string)
    requires PlainModel(model) && PlainJoins(joins)
    requires WashOne(model, joins, field).Ok?
    ensures WashOne(model, joins, WashOne(model, joins, field).value) == WashOne(model, joins, field)
  {
    WashSign(model, joins, field);
    WashedLocates(model, joins, field);
    WashShape(model, joins, field);
    var w := WashOne(model, joins, field).value;
    assert Unsigned(w) == Washed(model, joins, field);
  }
}
