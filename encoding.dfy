/**
 * Query and form parameter encoding: `url.Values` as a multimap that `Set`
 * replaces and `Add` appends to, filled from a `map[string]string`, from a
 * map value, or by flattening a struct field by field.
 *
 * Go values are an explicit tree instead of reflection. `fmt.Sprint` is a
 * parameter `sprint`; `url.Values.Encode` is not part of this module.
 */
module Encoding {
  import opened Types

  /** The struct tag key that names a parameter. */
  const TagName: string := "form"

  const NotStructPanic: Error := "only support struct or struct pointer"
  /** What `Type()` on the zero `reflect.Value` panics with. */
  const ZeroValuePanic: Error := "reflect: call of reflect.Value.Type on zero Value"

  /**
   * A Go value as reflection sees it. `Invalid` is the zero `reflect.Value`
   * (a nil interface, or a nil pointer after `reflect.Indirect`); `Scalar`
   * is any other value that is neither a struct, a map nor a pointer.
   */
  datatype GoValue =
    | Invalid
    | Scalar(repr: string)
    | NilPointer
    | Pointer(target: GoValue)
    | Struct(fields: seq<Field>)
    | MapValue(entries: map<string, GoValue>)

  /** A struct field: its Go name, the value of its `form` tag if the tag is present, and whether it is embedded. */
  datatype Field = Field(name: string, tag: Option<string>, anonymous: bool, value: GoValue)

  /** `reflect.Indirect`: one level of pointer is followed. */
  function Indirect(v: GoValue): (u: GoValue)
    ensures v.Pointer? ==> u == v.target
    ensures v.NilPointer? ==> u.Invalid?
    ensures !v.Pointer? && !v.NilPointer? ==> u == v
  {
    match v
    case Pointer(t) => t
    case NilPointer => Invalid
    case _ => v
  }

  /** The parameter name of a named field: the tag when present, even if empty, else the field name. */
  function Key(f: Field): (k: string)
    ensures f.tag.Some? ==> k == f.tag.value
    ensures f.tag.None? ==> k == f.name
  {
    if f.tag.Some? then f.tag.value else f.name
  }

  /** The values stored under `k`; a missing key has none. */
  function Lookup(m: map<string, seq<string>>, k: string): seq<string>
  {
    if k in m then m[k] else []
  }

  /** `Values.Add`: append `value` to the values of `key`. */
  function AddPair(m: map<string, seq<string>>, key: string, value: string): (r: map<string, seq<string>>)
    ensures r.Keys == m.Keys + {key}
    ensures r[key] == Lookup(m, key) + [value]
    ensures forall k :: k in m && k != key ==> r[k] == m[k]
  {
    m[key := Lookup(m, key) + [value]]
  }

  /** `Add` of every pair, in order. */
  function AddAll(m: map<string, seq<string>>, pairs: seq<(string, string)>): map<string, seq<string>>
  {
    if pairs == [] then m
    else
      var last := pairs[|pairs| - 1];
      AddPair(AddAll(m, pairs[..|pairs| - 1]), last.0, last.1)
  }

  /** The values a sequence of pairs gives to `k`, in order. */
  function ValuesOf(pairs: seq<(string, string)>, k: string): seq<string>
  {
    if pairs == [] then []
    else
      var last := pairs[|pairs| - 1];
      ValuesOf(pairs[..|pairs| - 1], k) + (if last.0 == k then [last.1] else [])
  }

  /** After a run of `Add`s a key holds its old values followed by the added ones, in the order added. */
  lemma {:induction false} AddAllLookup(m: map<string, seq<string>>, pairs: seq<(string, string)>, k: string)
    ensures Lookup(AddAll(m, pairs), k) == Lookup(m, k) + ValuesOf(pairs, k)
    decreases |pairs|
  {
    if pairs != [] {
      AddAllLookup(m, pairs[..|pairs| - 1], k);
    }
  }

  lemma {:induction false} AddAllAppend(m: map<string, seq<string>>, p: seq<(string, string)>, q: seq<(string, string)>)
    ensures AddAll(m, p + q) == AddAll(AddAll(m, p), q)
    decreases |q|
  {
    if q == [] {
      assert p + q == p;
    } else {
      assert (p + q)[..|p + q| - 1] == p + q[..|q| - 1];
      AddAllAppend(m, p, q[..|q| - 1]);
    }
  }

  /** `url.Values`, mutated in place by `Add` and `Set`. */
  class Values {
    var entries: map<string, seq<string>>

    constructor ()
      ensures entries == map[]
    {
      entries := map[];
    }

    method Add(key: string, value: string)
      modifies this
      ensures entries == AddPair(old(entries), key, value)
    {
      entries := entries[key := Lookup(entries, key) + [value]];
    }

    method Set(key: string, value: string)
      modifies this
      ensures entries == old(entries)[key := [value]]
    {
      entries := entries[key := [value]];
    }
  }

  /** What the struct flattening added before it finished or panicked. */
  datatype Flat = Flat(pairs: seq<(string, string)>, panic: Option<Error>)

  /** The pairs `reflectToValues` adds for `v`, and the panic that stops it, if any. */
  function Flatten(v: GoValue, sprint: GoValue -> string): Flat
    decreases v, 1
  {
    var u := Indirect(v);
    if u.Invalid? then Flat([], Some(ZeroValuePanic))
    else if !u.Struct? then Flat([], Some(NotStructPanic))
    else FlattenFields(u, |u.fields|, sprint)
  }

  /** The first `n` iterations of the field loop of `reflectToValues` on the struct `u`. */
  function FlattenFields(u: GoValue, n: nat, sprint: GoValue -> string): Flat
    requires u.Struct? && n <= |u.fields|
    decreases u, 0, n
  {
    if n == 0 then Flat([], None)
    else
      var prev := FlattenFields(u, n - 1, sprint);
      if prev.panic.Some? then prev
      else
        var next := FlattenField(u.fields[n - 1], sprint);
        Flat(prev.pairs + next.pairs, next.panic)
  }

  /** One iteration: an embedded field is flattened in place, a named field adds one pair. */
  function FlattenField(f: Field, sprint: GoValue -> string): Flat
    decreases f.value, 2
  {
    if f.anonymous then Flatten(f.value, sprint)
    else Flat([(Key(f), sprint(f.value))], None)
  }

  /**
   * `reflectToValues(v, values)`: adds a pair per named field, recursing
   * into embedded fields, and reports the panic that stops it. The pairs
   * added before a panic stay in `values`.
   */
  method ReflectToValues(v: GoValue, values: Values, sprint: GoValue -> string) returns (panic: Option<Error>)
    modifies values
    ensures values.entries == AddAll(old(values.entries), Flatten(v, sprint).pairs)
    ensures panic == Flatten(v, sprint).panic
    decreases v, 1
  {
    var u := Indirect(v);
    if u.Invalid? {
      return Some(ZeroValuePanic);
    }
    if !u.Struct? {
      return Some(NotStructPanic);
    }
    panic := AddFields(u, values, sprint);
  }

  /** The field loop of `reflectToValues`, in declaration order, stopping at the first panic. */
  method AddFields(u: GoValue, values: Values, sprint: GoValue -> string) returns (panic: Option<Error>)
    requires u.Struct?
    modifies values
    ensures values.entries == AddAll(old(values.entries), FlattenFields(u, |u.fields|, sprint).pairs)
    ensures panic == FlattenFields(u, |u.fields|, sprint).panic
    decreases u, 0
  {
    ghost var m0 := values.entries;
    panic := None;
    var i := 0;
    while i < |u.fields| && panic.None?
      invariant 0 <= i <= |u.fields|
      invariant panic == FlattenFields(u, i, sprint).panic
      invariant values.entries == AddAll(m0, FlattenFields(u, i, sprint).pairs)
    {
      panic := AddField(u.fields[i], values, sprint);
      FieldsStep(m0, u, i, sprint);
      i := i + 1;
    }
    if panic.Some? {
      FlattenFieldsStops(u, i, |u.fields|, sprint);
    }
  }

  /** The body of the field loop for one field. */
  method AddField(f: Field, values: Values, sprint: GoValue -> string) returns (panic: Option<Error>)
    modifies values
    ensures values.entries == AddAll(old(values.entries), FlattenField(f, sprint).pairs)
    ensures panic == FlattenField(f, sprint).panic
    decreases f.value, 2
  {
    if f.anonymous {
      // embedded fields are flattened recursively, with no prefix
      panic := ReflectToValues(f.value, values, sprint);
    } else {
      values.Add(Key(f), sprint(f.value));
      panic := None;
      assert [(Key(f), sprint(f.value))][..0] == [];
    }
  }

  lemma FieldsStep(m: map<string, seq<string>>, u: GoValue, i: nat, sprint: GoValue -> string)
    requires u.Struct? && i < |u.fields|
    requires FlattenFields(u, i, sprint).panic.None?
    ensures FlattenFields(u, i + 1, sprint).panic == FlattenField(u.fields[i], sprint).panic
    ensures AddAll(m, FlattenFields(u, i + 1, sprint).pairs)
         == AddAll(AddAll(m, FlattenFields(u, i, sprint).pairs), FlattenField(u.fields[i], sprint).pairs)
  {
    AddAllAppend(m, FlattenFields(u, i, sprint).pairs, FlattenField(u.fields[i], sprint).pairs);
  }

  /** Once a field panics, the later fields add nothing. */
  lemma {:induction false} FlattenFieldsStops(u: GoValue, i: nat, n: nat, sprint: GoValue -> string)
    requires u.Struct? && i <= n <= |u.fields|
    requires FlattenFields(u, i, sprint).panic.Some?
    ensures FlattenFields(u, n, sprint) == FlattenFields(u, i, sprint)
    decreases n - i
  {
    if i < n {
      FlattenFieldsStops(u, i, n - 1, sprint);
    }
  }

  /** `mapToValues`: one value per key, the map's own. */
  method MapToValues(params: map<string, string>) returns (values: Values)
    ensures fresh(values)
    ensures values.entries == SingleValues(params)
  {
    values := new Values();
    var todo := params.Keys;
    while todo != {}
      invariant todo <= params.Keys
      invariant values.entries.Keys == params.Keys - todo
      invariant forall k :: k in params && k !in todo ==> values.entries[k] == [params[k]]
      decreases todo
    {
      var k :| k in todo;
      values.Set(k, params[k]);
      todo := todo - {k};
    }
  }

  /** The multimap `mapToValues` builds. */
  function SingleValues(params: map<string, string>): (r: map<string, seq<string>>)
    ensures r.Keys == params.Keys
    ensures forall k :: k in params ==> r[k] == [params[k]]
  {
    map k | k in params :: [params[k]]
  }

  /** What `structToValues` yields: the entries built, and the panic that interrupted it, if any. */
  datatype Encoded = Encoded(entries: map<string, seq<string>>, panic: Option<Error>)

  function StructValues(i: GoValue, sprint: GoValue -> string): Encoded
  {
    if i.MapValue? then
      Encoded(map k | k in i.entries :: [sprint(i.entries[k])], None)
    else
      var f := Flatten(i, sprint);
      Encoded(AddAll(map[], f.pairs), f.panic)
  }

  /** `structToValues`: a map adds each key once with its printed value; anything else is flattened as a struct. */
  method StructToValues(i: GoValue, sprint: GoValue -> string) returns (values: Values, panic: Option<Error>)
    ensures fresh(values)
    ensures values.entries == StructValues(i, sprint).entries
    ensures panic == StructValues(i, sprint).panic
  {
    values := new Values();
    if i.MapValue? {
      var todo := i.entries.Keys;
      while todo != {}
        invariant todo <= i.entries.Keys
        invariant values.entries.Keys == i.entries.Keys - todo
        invariant forall k :: k in i.entries && k !in todo ==> values.entries[k] == [sprint(i.entries[k])]
        decreases todo
      {
        var k :| k in todo;
        values.Add(k, sprint(i.entries[k]));
        todo := todo - {k};
      }
      panic := None;
    } else {
      panic := ReflectToValues(i, values, sprint);
    }
  }

  /** A map argument: one value per key, the printed map value, and no panic. */
  lemma StructValuesOfMap(m: map<string, GoValue>, sprint: GoValue -> string)
    ensures var e := StructValues(MapValue(m), sprint);
      && e.panic.None? && e.entries.Keys == m.Keys
      && forall k :: k in m ==> e.entries[k] == [sprint(m[k])]
  {
  }

  /** A pointer to a struct flattens exactly as the struct does. */
  lemma PointerIsFollowed(fields: seq<Field>, sprint: GoValue -> string)
    ensures Flatten(Pointer(Struct(fields)), sprint) == Flatten(Struct(fields), sprint)
  {
  }

  /** Anything that is not a struct after one dereference panics at once, adding nothing. */
  lemma NonStructPanics(v: GoValue, sprint: GoValue -> string)
    requires !Indirect(v).Struct?
    ensures Flatten(v, sprint).pairs == []
    ensures Flatten(v, sprint).panic.Some?
    ensures Indirect(v).Invalid? <==> Flatten(v, sprint).panic == Some(ZeroValuePanic)
    ensures !Indirect(v).Invalid? <==> Flatten(v, sprint).panic == Some(NotStructPanic)
  {
  }

  /**
   * The named fields reached by inlining embedded fields, in declaration
   * order, defined front to back independently of the loop.
   */
  function NamedLeaves(v: GoValue): seq<Field>
    decreases v, 1
  {
    var u := Indirect(v);
    if u.Struct? then LeavesFrom(u, 0) else []
  }

  function LeavesFrom(u: GoValue, i: nat): seq<Field>
    requires u.Struct? && i <= |u.fields|
    decreases u, 0, |u.fields| - i
  {
    if i == |u.fields| then [] else FieldLeaves(u.fields[i]) + LeavesFrom(u, i + 1)
  }

  function FieldLeaves(f: Field): seq<Field>
    decreases f.value, 2
  {
    if f.anonymous then NamedLeaves(f.value) else [f]
  }

  /** A value `reflectToValues` accepts: a struct or struct pointer whose embedded fields are accepted too. */
  predicate Flattenable(v: GoValue)
    decreases v, 1
  {
    var u := Indirect(v);
    u.Struct? && FieldsFlattenable(u, 0)
  }

  predicate FieldsFlattenable(u: GoValue, i: nat)
    requires u.Struct? && i <= |u.fields|
    decreases u, 0, |u.fields| - i
  {
    i == |u.fields| || (FieldFlattenable(u.fields[i]) && FieldsFlattenable(u, i + 1))
  }

  predicate FieldFlattenable(f: Field)
    decreases f.value, 2
  {
    f.anonymous ==> Flattenable(f.value)
  }

  /** The pair each named leaf contributes. */
  function Pairs(leaves: seq<Field>, sprint: GoValue -> string): (r: seq<(string, string)>)
    ensures |r| == |leaves|
    ensures forall j :: 0 <= j < |leaves| ==> r[j] == (Key(leaves[j]), sprint(leaves[j].value))
  {
    if leaves == [] then [] else Pairs(leaves[..|leaves| - 1], sprint) + [(Key(leaves[|leaves| - 1]), sprint(leaves[|leaves| - 1].value))]
  }

  lemma PairsAppend(a: seq<Field>, b: seq<Field>, sprint: GoValue -> string)
    ensures Pairs(a + b, sprint) == Pairs(a, sprint) + Pairs(b, sprint)
  {
    assert |Pairs(a + b, sprint)| == |Pairs(a, sprint) + Pairs(b, sprint)|;
    forall j | 0 <= j < |a + b|
      ensures Pairs(a + b, sprint)[j] == (Pairs(a, sprint) + Pairs(b, sprint))[j]
    {
      if j < |a| {
        assert (a + b)[j] == a[j];
      } else {
        assert (a + b)[j] == b[j - |a|];
      }
    }
  }

  /**
   * Flattening panics exactly when some value on the embedding path is not
   * a struct; otherwise it adds one pair per named leaf field, in
   * declaration order, keyed by tag or name with no prefix from the
   * embedding, so the number of pairs is the number of named leaves.
   */
  lemma {:induction false} FlattenIsLeaves(v: GoValue, sprint: GoValue -> string)
    ensures Flatten(v, sprint).panic.None? <==> Flattenable(v)
    ensures Flattenable(v) ==> Flatten(v, sprint).pairs == Pairs(NamedLeaves(v), sprint)
    ensures Flattenable(v) ==> |Flatten(v, sprint).pairs| == |NamedLeaves(v)|
    decreases v, 1
  {
    var u := Indirect(v);
    if u.Struct? {
      FieldsAreLeaves(u, |u.fields|, sprint);
      LeavesSplit(u, |u.fields|);
      FlattenableSplit(u, |u.fields|);
      assert LeavesFrom(u, |u.fields|) == [];
    }
  }

  lemma {:induction false} FieldIsLeaves(f: Field, sprint: GoValue -> string)
    ensures FlattenField(f, sprint).panic.None? <==> FieldFlattenable(f)
    ensures FieldFlattenable(f) ==> FlattenField(f, sprint).pairs == Pairs(FieldLeaves(f), sprint)
    decreases f.value, 2
  {
    if f.anonymous {
      FlattenIsLeaves(f.value, sprint);
    }
  }

  /** The leaves of fields `0..n`, the counterpart of `LeavesFrom` for a prefix. */
  function LeavesBefore(u: GoValue, n: nat): seq<Field>
    requires u.Struct? && n <= |u.fields|
    decreases n
  {
    if n == 0 then [] else LeavesBefore(u, n - 1) + FieldLeaves(u.fields[n - 1])
  }

  predicate AllBefore(u: GoValue, n: nat)
    requires u.Struct? && n <= |u.fields|
  {
    forall j :: 0 <= j < n ==> FieldFlattenable(u.fields[j])
  }

  lemma {:induction false} LeavesSplit(u: GoValue, n: nat)
    requires u.Struct? && n <= |u.fields|
    ensures LeavesFrom(u, 0) == LeavesBefore(u, n) + LeavesFrom(u, n)
    decreases n
  {
    if n > 0 {
      LeavesSplit(u, n - 1);
      assert LeavesFrom(u, n - 1) == FieldLeaves(u.fields[n - 1]) + LeavesFrom(u, n);
    }
  }

  lemma {:induction false} FlattenableSplit(u: GoValue, n: nat)
    requires u.Struct? && n <= |u.fields|
    ensures AllBefore(u, n) && FieldsFlattenable(u, n) <==> FieldsFlattenable(u, 0)
    decreases n
  {
    if n > 0 {
      FlattenableSplit(u, n - 1);
      assert FieldsFlattenable(u, n - 1) == (FieldFlattenable(u.fields[n - 1]) && FieldsFlattenable(u, n));
      assert AllBefore(u, n) == (AllBefore(u, n - 1) && FieldFlattenable(u.fields[n - 1]));
    }
  }

  lemma {:induction false} FieldsAreLeaves(u: GoValue, n: nat, sprint: GoValue -> string)
    requires u.Struct? && n <= |u.fields|
    ensures FlattenFields(u, n, sprint).panic.None? <==> AllBefore(u, n)
    ensures AllBefore(u, n) ==> FlattenFields(u, n, sprint).pairs == Pairs(LeavesBefore(u, n), sprint)
    decreases u, 0, n
  {
    if n > 0 {
      FieldsAreLeaves(u, n - 1, sprint);
      FieldIsLeaves(u.fields[n - 1], sprint);
      FieldsStepLeaves(u, n, sprint);
    }
  }

  /** One more field: the flattening, the leaves and acceptance all extend by that field's share. */
  lemma FieldsStepLeaves(u: GoValue, n: nat, sprint: GoValue -> string)
    requires u.Struct? && 0 < n <= |u.fields|
    requires FlattenFields(u, n - 1, sprint).panic.None? <==> AllBefore(u, n - 1)
    requires AllBefore(u, n - 1) ==> FlattenFields(u, n - 1, sprint).pairs == Pairs(LeavesBefore(u, n - 1), sprint)
    requires FlattenField(u.fields[n - 1], sprint).panic.None? <==> FieldFlattenable(u.fields[n - 1])
    requires FieldFlattenable(u.fields[n - 1]) ==>
      FlattenField(u.fields[n - 1], sprint).pairs == Pairs(FieldLeaves(u.fields[n - 1]), sprint)
    ensures FlattenFields(u, n, sprint).panic.None? <==> AllBefore(u, n)
    ensures AllBefore(u, n) ==> FlattenFields(u, n, sprint).pairs == Pairs(LeavesBefore(u, n), sprint)
  {
    var f := u.fields[n - 1];
    assert AllBefore(u, n) == (AllBefore(u, n - 1) && FieldFlattenable(f));
    if AllBefore(u, n) {
      PairsAppend(LeavesBefore(u, n - 1), FieldLeaves(f), sprint);
    }
  }

  /** The embedded-struct query of the request tests: `Page` is embedded in `UserVip`, which is embedded in the query. */
  const PageExample: GoValue := Struct([Field("Offset", Some("offset"), false, Scalar("0"))])
  const UserVipExample: GoValue :=
    Struct([Field("IsVip", Some("is_vip"), false, Scalar("true")), Field("Page", None, true, PageExample)])
  const QueryExample: GoValue :=
    Struct([Field("Id", Some("id"), false, Scalar("1")),
            Field("Name", Some("name"), false, Scalar("golang")),
            Field("UserVip", None, true, UserVipExample)])

  lemma UserVipExamplePairs(sprint: GoValue -> string)
    requires forall t :: sprint(Scalar(t)) == t
    ensures Flatten(UserVipExample, sprint) == Flat([("is_vip", "true"), ("offset", "0")], None)
  {
    assert FlattenField(PageExample.fields[0], sprint) == Flat([("offset", "0")], None);
    assert FlattenFields(PageExample, 1, sprint) == Flat([("offset", "0")], None);
    assert Flatten(PageExample, sprint) == Flat([("offset", "0")], None);
    assert FlattenField(UserVipExample.fields[0], sprint) == Flat([("is_vip", "true")], None);
    assert FlattenFields(UserVipExample, 1, sprint) == Flat([("is_vip", "true")], None);
    assert FlattenField(UserVipExample.fields[1], sprint) == Flat([("offset", "0")], None);
    assert FlattenFields(UserVipExample, 2, sprint) == Flat([("is_vip", "true"), ("offset", "0")], None);
  }

  lemma QueryExamplePairs(sprint: GoValue -> string)
    requires forall t :: sprint(Scalar(t)) == t
    ensures Flatten(QueryExample, sprint) == Flat([("id", "1"), ("name", "golang"), ("is_vip", "true"), ("offset", "0")], None)
  {
    UserVipExamplePairs(sprint);
    assert FlattenField(QueryExample.fields[0], sprint) == Flat([("id", "1")], None);
    assert FlattenFields(QueryExample, 1, sprint) == Flat([("id", "1")], None);
    assert FlattenField(QueryExample.fields[1], sprint) == Flat([("name", "golang")], None);
    assert FlattenFields(QueryExample, 2, sprint) == Flat([("id", "1"), ("name", "golang")], None);
    assert FlattenField(QueryExample.fields[2], sprint) == Flat([("is_vip", "true"), ("offset", "0")], None);
    assert FlattenFields(QueryExample, 3, sprint) == Flat([("id", "1"), ("name", "golang"), ("is_vip", "true"), ("offset", "0")], None);
  }

  /** The example query yields `id=1, name=golang, is_vip=true, offset=0`: embedded fields add no prefix. */
  lemma EmbeddedExample(sprint: GoValue -> string)
    requires forall t :: sprint(Scalar(t)) == t
    ensures StructValues(QueryExample, sprint)
         == Encoded(map["id" := ["1"], "name" := ["golang"], "is_vip" := ["true"], "offset" := ["0"]], None)
  {
    QueryExamplePairs(sprint);
    var p1 := [("id", "1")];
    var p2 := p1 + [("name", "golang")];
    var p3 := p2 + [("is_vip", "true")];
    var p4 := p3 + [("offset", "0")];
    assert p4 == [("id", "1"), ("name", "golang"), ("is_vip", "true"), ("offset", "0")];
    var m1 := map["id" := ["1"]];
    var m2 := m1["name" := ["golang"]];
    var m3 := m2["is_vip" := ["true"]];
    AddAllSnoc(map[], [], ("id", "1"));
    assert [] + p1 == p1;
    AddFresh(map[], "id", "1");
    AddAllSnoc(map[], p1, ("name", "golang"));
    AddFresh(m1, "name", "golang");
    AddAllSnoc(map[], p2, ("is_vip", "true"));
    AddFresh(m2, "is_vip", "true");
    AddAllSnoc(map[], p3, ("offset", "0"));
    AddFresh(m3, "offset", "0");
  }

  /** A name repeated across embedded structs accumulates its values in declaration order. */
  lemma RepeatedNameAccumulates(sprint: GoValue -> string)
    requires forall t :: sprint(Scalar(t)) == t
    ensures var inner := Struct([Field("A", Some("x"), false, Scalar("2"))]);
      var v := Struct([Field("B", Some("x"), false, Scalar("1")), Field("Inner", None, true, inner)]);
      StructValues(v, sprint) == Encoded(map["x" := ["1", "2"]], None)
  {
    var inner := Struct([Field("A", Some("x"), false, Scalar("2"))]);
    var v := Struct([Field("B", Some("x"), false, Scalar("1")), Field("Inner", None, true, inner)]);
    assert FlattenField(inner.fields[0], sprint) == Flat([("x", "2")], None);
    assert FlattenFields(inner, 1, sprint) == Flat([("x", "2")], None);
    assert Flatten(inner, sprint) == Flat([("x", "2")], None);
    assert FlattenField(v.fields[0], sprint) == Flat([("x", "1")], None);
    assert FlattenFields(v, 1, sprint) == Flat([("x", "1")], None);
    assert FlattenField(v.fields[1], sprint) == Flat([("x", "2")], None);
    assert FlattenFields(v, 2, sprint) == Flat([("x", "1"), ("x", "2")], None);
    var p1 := [("x", "1")];
    assert p1 + [("x", "2")] == [("x", "1"), ("x", "2")];
    AddAllSnoc(map[], [], ("x", "1"));
    assert [] + p1 == p1;
    AddFresh(map[], "x", "1");
    AddAllSnoc(map[], p1, ("x", "2"));
    assert ["1"] + ["2"] == ["1", "2"];
  }

  lemma AddAllSnoc(m: map<string, seq<string>>, p: seq<(string, string)>, x: (string, string))
    ensures AddAll(m, p + [x]) == AddPair(AddAll(m, p), x.0, x.1)
  {
    assert (p + [x])[..|p|] == p;
  }

  lemma AddFresh(m: map<string, seq<string>>, k: string, v: string)
    requires k !in m
    ensures AddPair(m, k, v) == m[k := [v]]
  {
    assert Lookup(m, k) + [v] == [v];
  }

}
