/** The static schema of a model class, as `MetaModel` binds it when the class
    is created, the column and table references `Model.field_info` and
    `Model.table_info` render from it, and model instances. */
module Schema {
  import opened Wrappers
  import opened Values
  import opened Dicts

  /** A declared column once the metaclass has bound its attribute name. */
  datatype Field = Field(name: string, dbColumn: Option<string>, primaryKey: bool)

  /** One entry of a class body: a `Field(...)` declaration or any other
      attribute (a method, `Meta`, a constant), with its Python truth value. */
  datatype Decl = FieldDecl(dbColumn: Option<string>, primaryKey: bool) | OtherDecl(truthy: bool)

  /** What the class's `attrs` maps a name to. */
  datatype Attr = FieldAttr(field: Field) | OtherAttr(truthy: bool)

  /** The optional `class Meta` block. */
  datatype Meta = Meta(isAbstract: bool, dbTable: Option<string>, dbLabel: Option<string>)

  /** The two settings of `Database.db_config[label]` the query layer reads. */
  datatype DbConfig = DbConfig(database: Option<string>, host: Option<string>)

  /** Everything the query layer reads from a model class. */
  datatype ModelSchema = ModelSchema(
    name: string,
    table: string,
    dbLabel: string,
    config: DbConfig,
    fieldList: seq<string>,
    attrs: map<string, Attr>,
    primaryKey: Option<string>)

  const PrimaryKeyAlias := "pk"

  /** Every field entry is named by its own key, except the `pk` alias, which
      names a field entry named by its own key; every listed field is an entry. */
  ghost predicate WellFormed(s: ModelSchema)
  {
    WellNamed(s.attrs) &&
    (forall f | f in s.fieldList :: f in s.attrs && s.attrs[f].FieldAttr?) &&
    (s.primaryKey.Some? ==> s.primaryKey.value in s.fieldList && PrimaryKeyAlias in s.attrs)
  }

  // ---------------------------------------------------------------------------
  // MetaModel: merging the bodies along the MRO and binding the fields

  /** `attr_dict`: the bodies of `cls.mro()[:-2]` (the class first) applied
      with `dict.update` from the most basic class to the class itself. */
  function MergeMro(mro: seq<Dict<string, Decl>>): Dict<string, Decl>
  {
    if |mro| == 0 then [] else Update(MergeMro(mro[1..]), mro[0])
  }

  /** The names the metaclass turns into fields, in `attr_dict` order. */
  function FieldKeys(items: Dict<string, Decl>): seq<string>
  {
    if |items| == 0 then []
    else
      var last := items[|items| - 1];
      FieldKeys(items[..|items| - 1]) + (if last.1.FieldDecl? then [last.0] else [])
  }

  /** How many entries declare `primary_key=True`. */
  function PrimaryKeyCount(items: Dict<string, Decl>): nat
  {
    if |items| == 0 then 0
    else
      var last := items[|items| - 1];
      PrimaryKeyCount(items[..|items| - 1]) + (if last.1.FieldDecl? && last.1.primaryKey then 1 else 0)
  }

  /** The state the binding loop carries. */
  datatype Binding = Binding(fieldList: seq<string>, primaryKey: Option<string>, attrs: map<string, Attr>)

  /** The class's own namespace before binding. */
  function OwnAttrs(body: Dict<string, Decl>): map<string, Attr>
  {
    map k | k in Keys(body) :: AttrOf(k, Get(body, k).value)
  }

  /** A class-body entry as `attrs` holds it. */
  function AttrOf(key: string, d: Decl): Attr
  {
    match d
    case FieldDecl(column, isKey) => FieldAttr(Field(key, column, isKey))
    case OtherDecl(t) => OtherAttr(t)
  }

  /** The binding loop over `attr_dict.items()` from position `i` on. */
  function BindFrom(className: string, items: Dict<string, Decl>, i: nat, acc: Binding): Result<Binding>
    requires i <= |items|
    decreases |items| - i
  {
    if i == |items| then Ok(acc)
    else
      var (key, decl) := items[i];
      match decl
      case OtherDecl(_) => BindFrom(className, items, i + 1, acc)
      case FieldDecl(column, isKey) =>
        var f := FieldAttr(Field(key, column, isKey));
        if isKey && acc.primaryKey.Some? then
          Err(TypeError("Cannot define more than 1 primary key in class: " + className))
        else
          var attrs := if isKey then acc.attrs[PrimaryKeyAlias := f] else acc.attrs;
          BindFrom(className, items, i + 1,
            Binding(acc.fieldList + [key], if isKey then Some(key) else acc.primaryKey, attrs[key := f]))
  }

  /** `MetaModel.__init__`: no schema for the base class `Model` itself or an
      abstract class; otherwise table and label from `Meta` (defaulting to the
      class name and `'default'`), fields in MRO order, one primary key at most. */
  function BuildSchema(className: string, meta: Option<Meta>, mro: seq<Dict<string, Decl>>,
                       configs: map<string, DbConfig>): Result<Option<ModelSchema>>
    requires |mro| > 0
  {
    if className == "Model" then Ok(None)
    else if meta.Some? && meta.value.isAbstract then Ok(None)
    else
      var table := if meta.Some? && meta.value.dbTable.Some? then meta.value.dbTable.value else className;
      var dbLabel := if meta.Some? && meta.value.dbLabel.Some? then meta.value.dbLabel.value else "default";
      var config := if dbLabel in configs then configs[dbLabel] else DbConfig(None, None);
      var b :- BindFrom(className, MergeMro(mro), 0, Binding([], None, OwnAttrs(mro[0])));
      Ok(Some(ModelSchema(className, table, dbLabel, config, b.fieldList, b.attrs, b.primaryKey)))
  }

  /** The binding loop lists exactly the field entries, in order, and fails
      exactly when a second primary key turns up. */
  lemma {:induction false} BindFromFacts(className: string, items: Dict<string, Decl>, i: nat, acc: Binding)
    requires i <= |items|
    requires acc.primaryKey.Some? <==> PrimaryKeyCount(items[..i]) > 0
    requires PrimaryKeyCount(items[..i]) <= 1
    ensures BindFrom(className, items, i, acc).Ok? <==> PrimaryKeyCount(items) <= 1
    ensures BindFrom(className, items, i, acc).Ok? ==>
      BindFrom(className, items, i, acc).value.fieldList == acc.fieldList + FieldKeys(items[i..])
    decreases |items| - i
  {
    if i == |items| {
      assert items[..i] == items;
      assert items[i..] == [];
    } else {
      var (key, decl) := items[i];
      assert items[..i + 1][..i] == items[..i];
      CountSplit(items, i);
      KeysSplit(items, i);
      if decl.FieldDecl? && decl.primaryKey && acc.primaryKey.Some? {
      } else {
        var next := if decl.OtherDecl? then acc else
          var f := FieldAttr(Field(key, decl.dbColumn, decl.primaryKey));
          var attrs := if decl.primaryKey then acc.attrs[PrimaryKeyAlias := f] else acc.attrs;
          Binding(acc.fieldList + [key], if decl.primaryKey then Some(key) else acc.primaryKey, attrs[key := f]);
        assert BindFrom(className, items, i, acc) == BindFrom(className, items, i + 1, next);
        BindFromFacts(className, items, i + 1, next);
      }
    }
  }

  /** `PrimaryKeyCount` of a prefix, one entry further, and of the whole. */
  lemma {:induction false} CountSplit(items: Dict<string, Decl>, i: nat)
    requires i < |items|
    ensures PrimaryKeyCount(items[..i + 1]) == PrimaryKeyCount(items[..i]) +
      (if items[i].1.FieldDecl? && items[i].1.primaryKey then 1 else 0)
    ensures PrimaryKeyCount(items) >= PrimaryKeyCount(items[..i + 1])
    decreases |items| - i
  {
    assert items[..i + 1][..i] == items[..i];
    if i + 1 < |items| {
      CountSplit(items, i + 1);
    } else {
      assert items[..i + 1] == items;
    }
  }

  /** `FieldKeys` of a suffix, one entry at a time. */
  lemma KeysSplit(items: Dict<string, Decl>, i: nat)
    requires i < |items|
    ensures FieldKeys(items[i..]) ==
      (if items[i].1.FieldDecl? then [items[i].0] else []) + FieldKeys(items[i + 1..])
  {
    KeysCons(items[i], items[i + 1..]);
    assert items[i..] == [items[i]] + items[i + 1..];
  }

  lemma {:induction false} KeysCons(x: (string, Decl), rest: Dict<string, Decl>)
    ensures FieldKeys([x] + rest) == (if x.1.FieldDecl? then [x.0] else []) + FieldKeys(rest)
    decreases |rest|
  {
    if |rest| > 0 {
      var init := rest[..|rest| - 1];
      assert ([x] + rest)[..|rest|] == [x] + init;
      KeysCons(x, init);
    } else {
      assert [x][..0] == [];
    }
  }

  /** The entry at `k`, if a field, is named by its key (the `pk` alias: by
      the key of the field it stands for). */
  ghost predicate NamedEntry(attrs: map<string, Attr>, k: string)
  {
    k in attrs && attrs[k].FieldAttr? ==>
      (k != PrimaryKeyAlias ==> attrs[k].field.name == k) &&
      (k == PrimaryKeyAlias ==> var n := attrs[k].field.name;
         n in attrs && attrs[n].FieldAttr? && attrs[n].field.name == n)
  }

  ghost predicate WellNamed(attrs: map<string, Attr>)
  {
    forall k :: NamedEntry(attrs, k)
  }

  /** One binding step (`attrs['pk'] = val` for a primary key, then
      `attrs[key] = val`) keeps the map well named. */
  lemma BindStepWellNamed(attrs: map<string, Attr>, key: string, f: Field)
    requires WellNamed(attrs)
    requires f.name == key
    ensures WellNamed((if f.primaryKey then attrs[PrimaryKeyAlias := FieldAttr(f)] else attrs)[key := FieldAttr(f)])
  {
    var a := if f.primaryKey then attrs[PrimaryKeyAlias := FieldAttr(f)] else attrs;
    var next := a[key := FieldAttr(f)];
    forall k ensures NamedEntry(next, k) {
      assert NamedEntry(attrs, k);
      if k == key {
      } else if k == PrimaryKeyAlias && f.primaryKey {
        assert next[key] == FieldAttr(f);
      } else if k in next && next[k].FieldAttr? {
        assert next[k] == attrs[k];
        if k == PrimaryKeyAlias {
          var n := attrs[k].field.name;
          assert NamedEntry(attrs, n);
          if n != key {
            assert next[n] == attrs[n];
          }
        }
      }
    }
  }

  lemma {:induction false} BindFromWellFormed(className: string, items: Dict<string, Decl>, i: nat, acc: Binding)
    requires i <= |items|
    requires WellNamed(acc.attrs)
    requires forall f | f in acc.fieldList :: f in acc.attrs && acc.attrs[f].FieldAttr?
    requires acc.primaryKey.Some? ==> acc.primaryKey.value in acc.fieldList && PrimaryKeyAlias in acc.attrs
    ensures var r := BindFrom(className, items, i, acc);
      r.Ok? ==> (WellNamed(r.value.attrs) &&
        (forall f | f in r.value.fieldList :: f in r.value.attrs && r.value.attrs[f].FieldAttr?) &&
        (r.value.primaryKey.Some? ==> r.value.primaryKey.value in r.value.fieldList && PrimaryKeyAlias in r.value.attrs))
    decreases |items| - i
  {
    if i < |items| {
      var (key, decl) := items[i];
      if decl.FieldDecl? && !(decl.primaryKey && acc.primaryKey.Some?) {
        var f := FieldAttr(Field(key, decl.dbColumn, decl.primaryKey));
        var attrs := if decl.primaryKey then acc.attrs[PrimaryKeyAlias := f] else acc.attrs;
        var next := Binding(acc.fieldList + [key], if decl.primaryKey then Some(key) else acc.primaryKey, attrs[key := f]);
        BindStepWellNamed(acc.attrs, key, f.field);
        BindFromWellFormed(className, items, i + 1, next);
      } else if decl.OtherDecl? {
        BindFromWellFormed(className, items, i + 1, acc);
      }
    }
  }

  /** The merged bodies hold each name once. */
  lemma {:induction false} MergeMroUnique(mro: seq<Dict<string, Decl>>)
    ensures UniqueKeys(MergeMro(mro))
    decreases |mro|
  {
    if |mro| > 0 {
      MergeMroUnique(mro[1..]);
      UpdateUnique(MergeMro(mro[1..]), mro[0]);
    }
  }

  /** A field declared under the name `pk` is itself the primary key (any
      other would take the `pk` alias over). */
  predicate PkNameIsKey(items: Dict<string, Decl>)
  {
    forall j | 0 <= j < |items| && items[j].0 == PrimaryKeyAlias && items[j].1.FieldDecl? :: items[j].1.primaryKey
  }

  /** `attrs['pk']` is the field bound under the primary key's name, and
      that field is declared `primary_key`. */
  predicate KeyAliased(primaryKey: Option<string>, attrs: map<string, Attr>)
  {
    primaryKey.Some? ==>
      var pk := primaryKey.value;
      PrimaryKeyAlias in attrs && pk in attrs && attrs[PrimaryKeyAlias] == attrs[pk] &&
      attrs[pk].FieldAttr? && attrs[pk].field.name == pk && attrs[pk].field.primaryKey
  }

  /** The primary key the binding loop records is a merged entry declared
      `primary_key`, and `pk` stands for exactly that field. */
  lemma {:induction false} BindFromPrimaryKey(className: string, items: Dict<string, Decl>, i: nat, acc: Binding)
    requires i <= |items| && UniqueKeys(items) && PkNameIsKey(items)
    requires KeyAliased(acc.primaryKey, acc.attrs)
    requires acc.primaryKey.Some? ==>
      exists j | 0 <= j < i :: items[j].0 == acc.primaryKey.value && items[j].1.FieldDecl? && items[j].1.primaryKey
    ensures var r := BindFrom(className, items, i, acc);
      r.Ok? ==> (KeyAliased(r.value.primaryKey, r.value.attrs) &&
        (r.value.primaryKey.Some? ==>
          exists j | 0 <= j < |items| :: items[j].0 == r.value.primaryKey.value && items[j].1.FieldDecl? && items[j].1.primaryKey))
    decreases |items| - i
  {
    if i < |items| {
      var (key, decl) := items[i];
      if decl.OtherDecl? {
        BindFromPrimaryKey(className, items, i + 1, acc);
      } else if !(decl.primaryKey && acc.primaryKey.Some?) {
        var f := FieldAttr(Field(key, decl.dbColumn, decl.primaryKey));
        var attrs := if decl.primaryKey then acc.attrs[PrimaryKeyAlias := f] else acc.attrs;
        var next := Binding(acc.fieldList + [key], if decl.primaryKey then Some(key) else acc.primaryKey, attrs[key := f]);
        assert BindFrom(className, items, i, acc) == BindFrom(className, items, i + 1, next);
        if acc.primaryKey.Some? {
          var j :| 0 <= j < i && items[j].0 == acc.primaryKey.value && items[j].1.FieldDecl? && items[j].1.primaryKey;
          assert key != acc.primaryKey.value;
          assert key != PrimaryKeyAlias;
        }
        assert KeyAliased(next.primaryKey, next.attrs);
        BindFromPrimaryKey(className, items, i + 1, next);
      }
    }
  }

  /** A built schema lists exactly the field entries of the merged bodies in
      order, exists exactly when at most one of them is a primary key, and is
      well formed. */
  lemma BuildSchemaFacts(className: string, meta: Option<Meta>, mro: seq<Dict<string, Decl>>,
                         configs: map<string, DbConfig>)
    requires |mro| > 0
    requires className != "Model" && !(meta.Some? && meta.value.isAbstract)
    ensures BuildSchema(className, meta, mro, configs).Ok? <==> PrimaryKeyCount(MergeMro(mro)) <= 1
    ensures BuildSchema(className, meta, mro, configs).Ok? ==>
      var s := BuildSchema(className, meta, mro, configs).value;
      s.Some? && s.value.fieldList == FieldKeys(MergeMro(mro)) && WellFormed(s.value)
    ensures BuildSchema(className, meta, mro, configs).Ok? && PkNameIsKey(MergeMro(mro)) ==>
      var s := BuildSchema(className, meta, mro, configs).value.value;
      var items := MergeMro(mro);
      KeyAliased(s.primaryKey, s.attrs) &&
      (s.primaryKey.Some? ==>
        exists j | 0 <= j < |items| :: items[j].0 == s.primaryKey.value && items[j].1.FieldDecl? && items[j].1.primaryKey)
  {
    var items := MergeMro(mro);
    var start := Binding([], None, OwnAttrs(mro[0]));
    assert items[..0] == [] && items[0..] == items;
    assert WellNamed(start.attrs) by {
      forall k ensures NamedEntry(start.attrs, k) {
        if k in start.attrs {
          assert start.attrs[k] == AttrOf(k, Get(mro[0], k).value);
        }
      }
    }
    BindFromFacts(className, items, 0, start);
    BindFromWellFormed(className, items, 0, start);
    MergeMroUnique(mro);
    if PkNameIsKey(items) {
      BindFromPrimaryKey(className, items, 0, start);
    }
    var r := BindFrom(className, items, 0, start);
    assert BuildSchema(className, meta, mro, configs).Ok? <==> r.Ok?;
  }

  // ---------------------------------------------------------------------------
  // Model.field_info, Model.table_info

  /** `Model.field_info`: the quoted, table-qualified column of a field name
      (or of `pk`), the `db_column` override taking precedence. */
  function ColumnRef(s: ModelSchema, field: string): (r: Result<string>)
    ensures r.Ok? <==> field in s.attrs && s.attrs[field].FieldAttr?
    ensures r.Ok? ==> var f := s.attrs[field].field;
      r.value == "`" + s.table + "`.`" + (if f.dbColumn.Some? && f.dbColumn.value != "" then f.dbColumn.value else f.name) + "`"
    ensures r.Err? && !r.error.TypeError? ==> r == Err(AttributeError("db_column"))
    ensures r.Err? && r.error.TypeError? <==> field !in s.attrs || s.attrs[field] == OtherAttr(false)
  {
    if field !in s.attrs || s.attrs[field] == OtherAttr(false) then
      Err(TypeError("Cannot resolve keyword " + field + " into field."))
    else if s.attrs[field].OtherAttr? then Err(AttributeError("db_column"))
    else
      var f := s.attrs[field].field;
      var column := if f.dbColumn.Some? && f.dbColumn.value != "" then f.dbColumn.value else f.name;
      Ok("`" + s.table + "`.`" + column + "`")
  }

  /** With `pk` aliasing the primary key, `field_info('pk')` is the primary
      key's own column: its `db_column` when set, else its name. */
  lemma ColumnRefPrimaryKey(s: ModelSchema)
    requires s.primaryKey.Some? && KeyAliased(s.primaryKey, s.attrs)
    ensures ColumnRef(s, PrimaryKeyAlias) == ColumnRef(s, s.primaryKey.value)
    ensures var f := s.attrs[s.primaryKey.value].field;
      ColumnRef(s, PrimaryKeyAlias) ==
        Ok("`" + s.table + "`.`" + (if f.dbColumn.Some? && f.dbColumn.value != "" then f.dbColumn.value else s.primaryKey.value) + "`")
  {
  }

  /** `Model.table_info`: the table, qualified by the database when the
      connection settings name one. */
  function TableRef(s: ModelSchema): (r: string)
    ensures s.config.database.Some? && s.config.database.value != "" ==>
      r == "`" + s.config.database.value + "`.`" + s.table + "`"
    ensures !(s.config.database.Some? && s.config.database.value != "") ==> r == "`" + s.table + "`"
  {
    if s.config.database.Some? && s.config.database.value != "" then
      "`" + s.config.database.value + "`.`" + s.table + "`"
    else "`" + s.table + "`"
  }

  // ---------------------------------------------------------------------------
  // Model instances

  /** An instance attribute: a column value or, after a join, a related instance. */
  datatype Slot = Scalar(v: Value) | Related(obj: Instance)

  /** A model instance: its class and its `__dict__`. */
  datatype Instance = Instance(model: ModelSchema, dict: map<string, Slot>)

  /** `setattr(obj, name, v)`: `pk` goes through the property to the primary
      key field (a TypeError without one) unless a field is itself named `pk`. */
  function SetAttr(obj: Instance, name: string, v: Slot): Result<Instance>
  {
    if name == PrimaryKeyAlias && PrimaryKeyAlias !in obj.model.fieldList then
      if obj.model.primaryKey.None? then
        Err(TypeError("Primary key not defined in class: " + obj.model.name))
      else Ok(obj.(dict := obj.dict[obj.model.primaryKey.value := v]))
    else Ok(obj.(dict := obj.dict[name := v]))
  }

  /** The keyword loop of `Model.__init__` from position `i` on. */
  function InitFrom(obj: Instance, kw: Dict<string, Value>, i: nat): Result<Instance>
    requires i <= |kw|
    decreases |kw| - i
  {
    if i == |kw| then Ok(obj)
    else
      var k := kw[i].0;
      if k in obj.model.fieldList then InitFrom(obj.(dict := obj.dict[k := Scalar(kw[i].1)]), kw, i + 1)
      else if k == PrimaryKeyAlias && obj.model.primaryKey.Some? then
        match SetAttr(obj, k, Scalar(kw[i].1))
        case Err(e) => Err(e)
        case Ok(next) => InitFrom(next, kw, i + 1)
      else Err(TypeError("'" + k + "' is an invalid keyword argument for this function"))
  }

  /** `Model(**kw)`: every field set to None, then the keyword arguments. */
  function NewInstance(s: ModelSchema, kw: Dict<string, Value>): Result<Instance>
  {
    InitFrom(Instance(s, map f | f in s.fieldList :: Scalar(PyNone)), kw, 0)
  }

  /** A keyword argument `Model.__init__` accepts. */
  predicate Accepted(s: ModelSchema, k: string)
  {
    k in s.fieldList || (k == PrimaryKeyAlias && s.primaryKey.Some?)
  }

  /** The field a keyword argument assigns. */
  function Target(s: ModelSchema, k: string): string
    requires Accepted(s, k)
  {
    if k in s.fieldList then k else s.primaryKey.value
  }

  /** Reference meaning of `Model(**kw)` for field `f`: the value of the last
      keyword that targets it, None when none does. */
  function Assigned(s: ModelSchema, kw: Dict<string, Value>, f: string): Value
    requires forall j | 0 <= j < |kw| :: Accepted(s, kw[j].0)
  {
    if |kw| == 0 then PyNone
    else if Target(s, kw[|kw| - 1].0) == f then kw[|kw| - 1].1
    else Assigned(s, kw[..|kw| - 1], f)
  }

  /** `Model(**kw)` succeeds exactly when every keyword is a field name (or
      `pk` with a primary key); the instance then holds every field, each with
      the value of the last keyword that targets it. */
  lemma NewInstanceFacts(s: ModelSchema, kw: Dict<string, Value>)
    requires s.primaryKey.Some? ==> s.primaryKey.value in s.fieldList
    ensures NewInstance(s, kw).Ok? <==> forall j | 0 <= j < |kw| :: Accepted(s, kw[j].0)
    ensures NewInstance(s, kw).Ok? ==>
      var obj := NewInstance(s, kw).value;
      obj.model == s && obj.dict.Keys == (set f | f in s.fieldList) &&
      forall f | f in s.fieldList :: obj.dict[f] == Scalar(Assigned(s, kw, f))
  {
    var start := Instance(s, map f | f in s.fieldList :: Scalar(PyNone));
    assert kw[..0] == [];
    InitFromFacts(s, kw, 0, start);
  }

  lemma {:induction false} InitFromFacts(s: ModelSchema, kw: Dict<string, Value>, i: nat, obj: Instance)
    requires i <= |kw|
    requires s.primaryKey.Some? ==> s.primaryKey.value in s.fieldList
    requires obj.model == s && obj.dict.Keys == set f | f in s.fieldList
    requires forall j | 0 <= j < i :: Accepted(s, kw[j].0)
    requires forall f | f in s.fieldList :: obj.dict[f] == Scalar(Assigned(s, kw[..i], f))
    ensures InitFrom(obj, kw, i).Ok? <==> forall j | 0 <= j < |kw| :: Accepted(s, kw[j].0)
    ensures InitFrom(obj, kw, i).Ok? ==>
      var r := InitFrom(obj, kw, i).value;
      r.model == s && r.dict.Keys == (set f | f in s.fieldList) &&
      forall f | f in s.fieldList :: r.dict[f] == Scalar(Assigned(s, kw, f))
    decreases |kw| - i
  {
    if i == |kw| {
      assert kw[..i] == kw;
    } else {
      var (k, v) := kw[i];
      if Accepted(s, k) {
        var t := Target(s, k);
        var next := obj.(dict := obj.dict[t := Scalar(v)]);
        assert InitFrom(obj, kw, i) == InitFrom(next, kw, i + 1);
        assert kw[..i + 1][..i] == kw[..i];
        forall f | f in s.fieldList ensures next.dict[f] == Scalar(Assigned(s, kw[..i + 1], f)) {
        }
        InitFromFacts(s, kw, i + 1, next);
      }
    }
  }

  /** `Model.__eq__`: same class, same attribute dictionary. */
  predicate SameInstance(a: Instance, b: Instance)
    ensures SameInstance(a, b) <==> a == b
  {
    a.model == b.model && a.dict == b.dict
  }

  /** `Model.__bool__`: an instance is true when its `__dict__` is not empty. */
  predicate InstanceTruthy(obj: Instance)
  {
    obj.dict != map[]
  }
}
