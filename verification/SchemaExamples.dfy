/** Example values for OpenAPI schemas, following references that may be cyclic. */
module SchemaExamples {
  import opened Wrappers

  datatype Json = Null | Bool(b: bool) | Number(n: int) | Str(s: string) | Array(items: seq<Json>)
      | Object(fields: map<string, Json>)

  datatype Property = Property(name: string, schema: Schema)

  /** `Undefined` is anything that is not a schema object; `kind` is the `type` field. */
  datatype Schema =
    | Undefined
    | Schema(ref: Option<string>, enumValues: seq<Json>, oneOf: seq<Schema>, allOf: seq<Schema>, kind: string,
             format: string,
             properties: seq<Property>)

  type Spec = map<string, Schema>

  const REF_PREFIX := "#/components/schemas/"

  function NameOf(ref: string): string
  {
    if REF_PREFIX <= ref then ref[|REF_PREFIX|..] else ref
  }

  lemma NameOfExactly(name: string)
    ensures NameOf("#/components/schemas/" + name) == name
  {
    assert ("#/components/schemas/" + name)[|REF_PREFIX|..] == name;
  }

  function ScalarExample(kind: string, format: string): Json
  {
    match kind
    case "string" =>
      if format == "date-time" then Str("1970-01-01T00:00:00.000Z")
      else if format == "uuid" then Str("00000000-0000-0000-0000-000000000000")
      else Str("")
    case "integer" => Number(0)
    case "number" => Number(0)
    case "boolean" => Bool(false)
    case "array" => Array([])
    case _ => Object(map[])
  }

  predicate IsScalar(kind: string)
  {
    kind in {"string", "integer", "number", "boolean", "array"}
  }

  /** `Object.assign` of the objects among `values`, in order. */
  function Merged(values: seq<Json>): map<string, Json>
  {
    if values == [] then map[]
    else
      var last := values[|values| - 1];
      Merged(values[..|values| - 1]) + if last.Object? then last.fields else map[]
  }

  function Filled(names: seq<string>, values: seq<Json>): map<string, Json>
    requires |names| == |values|
  {
    if names == [] then map[]
    else
      var n := |names| - 1;
      Filled(names[..n], values[..n])[names[n] := values[n]]
  }

  function Names(s: Schema): seq<string>
    requires s.Schema?
  {
    seq(|s.properties|, i requires 0 <= i < |s.properties| => s.properties[i].name)
  }

  // ---- References -----------------------------------------------------------

  /** Every reference written anywhere in a schema. */
  function Refs(s: Schema): set<string>
  {
    if s.Undefined? then {}
    else
      (if s.ref.Some? then {s.ref.value} else {})
      + (set i, r | 0 <= i < |s.oneOf| && r in Refs(s.oneOf[i]) :: r)
      + (set i, r | 0 <= i < |s.allOf| && r in Refs(s.allOf[i]) :: r)
      + (set i, r | 0 <= i < |s.properties| && r in Refs(s.properties[i].schema) :: r)
  }

  function SpecRefs(spec: Spec): set<string>
  {
    set name, r | name in spec && r in Refs(spec[name]) :: r
  }

  ghost predicate Closed(s: Schema, spec: Spec, all: set<string>)
  {
    Refs(s) <= all && SpecRefs(spec) <= all
  }

  lemma FollowRef(s: Schema, spec: Spec, visited: set<string>, all: set<string>)
    requires Closed(s, spec, all) && s.Schema? && s.ref.Some? && s.ref.value !in visited
    ensures |all - (visited + {s.ref.value})| < |all - visited|
    ensures NameOf(s.ref.value) in spec ==> Closed(spec[NameOf(s.ref.value)], spec, all)
  {
    var rest := all - (visited + {s.ref.value});
    assert all - visited == rest + {s.ref.value};
    hide NameOf;
  }

  // ---- The example ----------------------------------------------------------

  /** `all` bounds the references there are; the value does not depend on it. */
  function ExampleFor(spec: Spec, s: Schema, visited: set<string>, ghost all: set<string>): Json
    requires Closed(s, spec, all)
    decreases |all - visited|, s
  {
    if s.Undefined? then Null
    else if s.ref.Some? then
      var ref := s.ref.value;
      if ref in visited then Null
      else if NameOf(ref) !in spec then Null
      else
        FollowRef(s, spec, visited, all);
        ExampleFor(spec, spec[NameOf(ref)], visited + {ref}, all)
    else if s.enumValues != [] then s.enumValues[0]
    else if s.oneOf != [] then ExampleFor(spec, s.oneOf[0], visited, all)
    else if s.allOf != [] then
      Object(Merged(seq(|s.allOf|, i requires 0 <= i < |s.allOf| => ExampleFor(spec, s.allOf[i], visited, all))))
    else if IsScalar(s.kind) then ScalarExample(s.kind, s.format)
    else
      Object(Filled(Names(s), seq(|s.properties|, i requires 0 <= i < |s.properties| =>
        ExampleFor(spec, s.properties[i].schema, visited, all))))
  }

  lemma MergedOne(values: seq<Json>, v: Json)
    ensures Merged(values + [v]) == if v.Object? then Merged(values) + v.fields else Merged(values)
  {
    assert (values + [v])[..|values|] == values;
    assert Merged(values) + map[] == Merged(values);
  }

  lemma FilledOne(names: seq<string>, values: seq<Json>, name: string, v: Json)
    requires |names| == |values|
    ensures Filled(names + [name], values + [v]) == Filled(names, values)[name := v]
  {
    assert (names + [name])[..|names|] == names && (values + [v])[..|values|] == values;
  }

  /** The generator itself: local objects filled in loops, a fresh visited set for each reference. */
  method Generate(spec: Spec, s: Schema, visited: set<string>, ghost all: set<string>) returns (example: Json)
    requires Closed(s, spec, all)
    ensures example == ExampleFor(spec, s, visited, all)
    decreases |all - visited|, s
  {
    hide NameOf, ScalarExample, IsScalar, Merged, Filled;
    match s
    case Undefined => example := Null;
    case Schema(ref, enumValues, oneOf, allOf, kind, format, properties) =>
      if ref.Some? {
        if ref.value in visited || NameOf(ref.value) !in spec {
          return Null;
        }
        FollowRef(s, spec, visited, all);
        example := Generate(spec, spec[NameOf(ref.value)], visited + {ref.value}, all);
      } else if |enumValues| > 0 {
        example := enumValues[0];
      } else if |oneOf| > 0 {
        example := Generate(spec, oneOf[0], visited, all);
      } else if |allOf| > 0 {
        example := GenerateAll(spec, s, visited, all);
      } else if IsScalar(kind) {
        example := ScalarExample(kind, format);
      } else {
        example := GenerateObject(spec, s, visited, all);
      }
  }

  method GenerateAll(spec: Spec, s: Schema, visited: set<string>, ghost all: set<string>) returns (example: Json)
    requires Closed(s, spec, all)
    requires s.Schema? && s.ref.None? && s.enumValues == [] && s.oneOf == [] && s.allOf != []
    ensures example == ExampleFor(spec, s, visited, all)
    decreases |all - visited|, s, 0
  {
    var merged: map<string, Json> := map[];
    ghost var values := seq(|s.allOf|, i requires 0 <= i < |s.allOf| => ExampleFor(spec, s.allOf[i], visited, all));
    assert ExampleFor(spec, s, visited, all) == Object(Merged(values));
    hide ExampleFor;
    for i := 0 to |s.allOf|
      invariant merged == Merged(values[..i])
    {
      var v := Generate(spec, s.allOf[i], visited, all);
      assert values[..i + 1] == values[..i] + [v];
      MergedOne(values[..i], v);
      if v.Object? {
        merged := merged + v.fields;
      }
    }
    assert values[..|s.allOf|] == values;
    example := Object(merged);
  }

  method GenerateObject(spec: Spec, s: Schema, visited: set<string>, ghost all: set<string>) returns (example: Json)
    requires Closed(s, spec, all)
    requires s.Schema? && s.ref.None? && s.enumValues == [] && s.oneOf == [] && s.allOf == [] && !IsScalar(s.kind)
    ensures example == ExampleFor(spec, s, visited, all)
    decreases |all - visited|, s, 0
  {
    var fields: map<string, Json> := map[];
    ghost var values := seq(|s.properties|, i requires 0 <= i < |s.properties| =>
      ExampleFor(spec, s.properties[i].schema, visited, all));
    assert ExampleFor(spec, s, visited, all) == Object(Filled(Names(s), values));
    hide ExampleFor;
    for i := 0 to |s.properties|
      invariant fields == Filled(Names(s)[..i], values[..i])
    {
      var v := Generate(spec, s.properties[i].schema, visited, all);
      assert Names(s)[..i + 1] == Names(s)[..i] + [s.properties[i].name] && values[..i + 1] == values[..i] + [v];
      FilledOne(Names(s)[..i], values[..i], s.properties[i].name, v);
      fields := fields[s.properties[i].name := v];
    }
    assert values[..|s.properties|] == values && Names(s)[..|s.properties|] == Names(s);
    example := Object(fields);
  }

  // ---- What the example says about its schema --------------------------------

  /** Where the last object with `key` is; nobody later has it. */
  ghost predicate LastWith(values: seq<Json>, key: string, i: int)
  {
    && 0 <= i < |values| && values[i].Object? && key in values[i].fields
    && forall j :: i < j < |values| && values[j].Object? ==> key !in values[j].fields
  }

  /** A merged object has exactly the keys of its parts, each with its last value. */
  lemma {:induction false} MergedExactly(values: seq<Json>, key: string)
    ensures key in Merged(values) <==> exists i :: LastWith(values, key, i)
    ensures forall i :: LastWith(values, key, i) ==> Merged(values)[key] == values[i].fields[key]
  {
    if values != [] {
      var n := |values| - 1;
      var rest, last := values[..n], values[n];
      MergedExactly(rest, key);
      if last.Object? && key in last.fields {
        assert LastWith(values, key, n);
      } else {
        assert forall j :: 0 <= j < n ==> values[j] == rest[j];
        forall i ensures LastWith(values, key, i) <==> LastWith(rest, key, i) {
          assert 0 <= i < n ==> values[i] == rest[i];
        }
      }
    }
  }

  /** The example of an `allOf` is an object with exactly the keys of its object parts, each with its last value. */
  lemma AllOfExample(spec: Spec, s: Schema, visited: set<string>, all: set<string>, key: string)
    requires Closed(s, spec, all) && s.Schema? && s.ref.None? && s.enumValues == [] && s.oneOf == [] && s.allOf != []
    ensures forall i :: 0 <= i < |s.allOf| ==> Closed(s.allOf[i], spec, all)
    ensures var v := ExampleFor(spec, s, visited, all);
            var parts := seq(|s.allOf|, i requires 0 <= i < |s.allOf| => ExampleFor(spec, s.allOf[i], visited, all));
            && v.Object?
            && (key in v.fields <==> exists i :: LastWith(parts, key, i))
            && (forall i :: LastWith(parts, key, i) ==> v.fields[key] == parts[i].fields[key])
  {
    MergedExactly(seq(|s.allOf|, i requires 0 <= i < |s.allOf| => ExampleFor(spec, s.allOf[i], visited, all)), key);
    hide Merged, LastWith;
  }

  lemma {:induction false} FilledExactly(names: seq<string>, values: seq<Json>)
    requires |names| == |values| && forall i, j :: 0 <= i < j < |names| ==> names[i] != names[j]
    ensures forall key :: key in Filled(names, values) <==> key in names
    ensures forall i :: 0 <= i < |names| ==> Filled(names, values)[names[i]] == values[i]
  {
    if names != [] {
      var n := |names| - 1;
      FilledExactly(names[..n], values[..n]);
      assert names == names[..n] + [names[n]];
      forall i | 0 <= i < n ensures names[..n][i] == names[i] && values[..n][i] == values[i] {}
    }
  }

  /** The example of an object has exactly the properties, each with its own example. */
  lemma ObjectExample(spec: Spec, s: Schema, visited: set<string>, all: set<string>)
    requires Closed(s, spec, all) && s.Schema? && s.ref.None? && s.enumValues == [] && s.oneOf == [] && s.allOf == []
    requires s.kind !in {"string", "integer", "number", "boolean", "array"}
    requires forall i, j :: 0 <= i < j < |s.properties| ==> s.properties[i].name != s.properties[j].name
    ensures forall i :: 0 <= i < |s.properties| ==> Closed(s.properties[i].schema, spec, all)
    ensures var v := ExampleFor(spec, s, visited, all);
            && v.Object?
            && (forall key :: key in v.fields <==> exists i :: 0 <= i < |s.properties| && s.properties[i].name == key)
            && (forall i :: 0 <= i < |s.properties| ==>
                  && s.properties[i].name in v.fields
                  && v.fields[s.properties[i].name] == ExampleFor(spec, s.properties[i].schema, visited, all))
  {
    var values := seq(|s.properties|, i requires 0 <= i < |s.properties| =>
      ExampleFor(spec, s.properties[i].schema, visited, all));
    FilledExactly(Names(s), values);
    assert ExampleFor(spec, s, visited, all) == Object(Filled(Names(s), values));
    hide ExampleFor, Filled, Closed;
    forall i | 0 <= i < |s.properties| ensures Names(s)[i] == s.properties[i].name {}
    forall key ensures key in Names(s) <==> exists i :: 0 <= i < |s.properties| && s.properties[i].name == key {
      if key in Names(s) {
        var i :| 0 <= i < |Names(s)| && Names(s)[i] == key;
        assert s.properties[i].name == key;
      }
      if i :| 0 <= i < |s.properties| && s.properties[i].name == key {
        assert Names(s)[i] in Names(s);
      }
    }
  }

  /** A value of the type that a schema names. */
  predicate OfType(v: Json, kind: string)
  {
    match kind
    case "string" => v.Str?
    case "integer" => v.Number?
    case "number" => v.Number?
    case "boolean" => v.Bool?
    case "array" => v.Array?
    case _ => v.Object?
  }

  /**
   Without a reference: the first enum value if there are any, else what the first alternative gives,
   else a value of the schema's type, with the forms of dates and UUIDs. What is no schema gives null.
   */
  lemma PlainExample(spec: Spec, s: Schema, visited: set<string>, all: set<string>)
    requires Closed(s, spec, all)
    ensures s.Undefined? ==> ExampleFor(spec, s, visited, all) == Null
    ensures s.Schema? && s.ref.None? ==>
            var v := ExampleFor(spec, s, visited, all);
            && (s.enumValues != [] ==> v == s.enumValues[0])
            && (s.enumValues == [] && s.oneOf != [] ==>
                  Closed(s.oneOf[0], spec, all) && v == ExampleFor(spec, s.oneOf[0], visited, all))
            && (s.enumValues == [] && s.oneOf == [] && s.allOf == [] ==>
                  && OfType(v, s.kind)
                  && (s.kind == "string" && s.format == "date-time" ==> v == Str("1970-01-01T00:00:00.000Z"))
                  && (s.kind == "string" && s.format == "uuid" ==> v == Str("00000000-0000-0000-0000-000000000000")))
  {
    assert s.Schema? && s.kind == "string" ==> IsScalar(s.kind);
  }

  /** A reference gives the example of the schema it names, or null if that is being expanded or unknown. */
  lemma RefExample(spec: Spec, s: Schema, visited: set<string>, all: set<string>, name: string)
    requires Closed(s, spec, all) && s.Schema? && s.ref == Some("#/components/schemas/" + name)
    ensures var v := ExampleFor(spec, s, visited, all);
            if s.ref.value in visited || name !in spec then v == Null
            else
              && Closed(spec[name], spec, all)
              && v == ExampleFor(spec, spec[name], visited + {s.ref.value}, all)
  {
    NameOfExactly(name);
    if s.ref.value !in visited {
      FollowRef(s, spec, visited, all);
    }
    hide Closed, NameOf;
  }

  // ---- The recursion as written, for as long as `fuel` lasts ----------------

  function Values(results: seq<Option<Json>>): Option<seq<Json>>
  {
    if forall i :: 0 <= i < |results| ==> results[i].Some? then
      Some(seq(|results|, i requires 0 <= i < |results| => results[i].value))
    else None
  }

  /** Without a visited set there is no guard against cycles. */
  function Unroll(spec: Spec, s: Schema, visited: Option<set<string>>, fuel: nat): Option<Json>
    decreases fuel
  {
    if fuel == 0 then None
    else if s.Undefined? then Some(Null)
    else if s.ref.Some? then
      var ref := s.ref.value;
      if visited.Some? && ref in visited.value then Some(Null)
      else if NameOf(ref) !in spec then Some(Null)
      else Unroll(spec, spec[NameOf(ref)], if visited.Some? then Some(visited.value + {ref}) else None, fuel - 1)
    else if s.enumValues != [] then Some(s.enumValues[0])
    else if s.oneOf != [] then Unroll(spec, s.oneOf[0], visited, fuel - 1)
    else if s.allOf != [] then
      var values := Values(seq(|s.allOf|, i requires 0 <= i < |s.allOf| =>
          Unroll(spec, s.allOf[i], visited, fuel - 1)));
      if values.Some? then Some(Object(Merged(values.value))) else None
    else if IsScalar(s.kind) then Some(ScalarExample(s.kind, s.format))
    else
      var values := Values(seq(|s.properties|, i requires 0 <= i < |s.properties| =>
        Unroll(spec, s.properties[i].schema, visited, fuel - 1)));
      if values.Some? then Some(Object(Filled(Names(s), values.value))) else None
  }

  function Max(heights: seq<nat>): (m: nat)
    ensures forall i :: 0 <= i < |heights| ==> heights[i] <= m
  {
    if heights == [] then 0
    else
      var m, last := Max(heights[..|heights| - 1]), heights[|heights| - 1];
      if last > m then last else m
  }

  function Height(s: Schema): nat
  {
    if s.Undefined? then 1
    else
      1 + Max(seq(|s.oneOf|, i requires 0 <= i < |s.oneOf| => Height(s.oneOf[i])))
      + Max(seq(|s.allOf|, i requires 0 <= i < |s.allOf| => Height(s.allOf[i])))
      + Max(seq(|s.properties|, i requires 0 <= i < |s.properties| => Height(s.properties[i].schema)))
  }

  lemma ChildrenLower(s: Schema)
    requires s.Schema?
    ensures forall i :: 0 <= i < |s.oneOf| ==> Height(s.oneOf[i]) < Height(s)
    ensures forall i :: 0 <= i < |s.allOf| ==> Height(s.allOf[i]) < Height(s)
    ensures forall i :: 0 <= i < |s.properties| ==> Height(s.properties[i].schema) < Height(s)
  {
    var a := seq(|s.oneOf|, i requires 0 <= i < |s.oneOf| => Height(s.oneOf[i]));
    var b := seq(|s.allOf|, i requires 0 <= i < |s.allOf| => Height(s.allOf[i]));
    var c := seq(|s.properties|, i requires 0 <= i < |s.properties| => Height(s.properties[i].schema));
    assert forall i :: 0 <= i < |s.oneOf| ==> a[i] == Height(s.oneOf[i]);
    assert forall i :: 0 <= i < |s.allOf| ==> b[i] == Height(s.allOf[i]);
    assert forall i :: 0 <= i < |s.properties| ==> c[i] == Height(s.properties[i].schema);
    assert Height(s) == 1 + Max(a) + Max(b) + Max(c);
    hide Max;
  }

  /** Enough fuel: each unvisited reference can be followed once, each time through the highest schema. */
  predicate Enough(fuel: nat, s: Schema, spec: Spec, visited: set<string>, all: set<string>, highest: nat)
  {
    (forall name :: name in spec ==> Height(spec[name]) <= highest) && fuel >= |all - visited| * highest + Height(s)
  }

  lemma OneLessRound(fewer: nat, rounds: nat, highest: nat)
    requires fewer < rounds
    ensures 0 <= fewer * highest && fewer * highest + highest <= rounds * highest
  {
    assert rounds * highest == (fewer + 1) * highest + (rounds - fewer - 1) * highest;
  }

  lemma EnoughForOne(s: Schema, spec: Spec, visited: set<string>, all: set<string>, highest: nat, fuel: nat)
    requires Enough(fuel, s, spec, visited, all, highest)
    ensures fuel >= 1 && Height(s) >= 1
    ensures forall name :: name in spec ==> Height(spec[name]) <= highest
  {
    OneLessRound(|all - visited|, |all - visited| + 1, highest);
  }

  lemma EnoughAfterRef(s: Schema, target: Schema, spec: Spec, visited: set<string>, ref: string, all: set<string>,
                       highest: nat, fuel: nat)
    requires Enough(fuel, s, spec, visited, all, highest) && Height(target) <= highest
    requires |all - (visited + {ref})| < |all - visited| && Height(s) >= 1
    ensures fuel >= 1 && Enough(fuel - 1, target, spec, visited + {ref}, all, highest)
  {
    OneLessRound(|all - (visited + {ref})|, |all - visited|, highest);
    hide Height;
  }

  lemma ValuesAre(results: seq<Option<Json>>, values: seq<Json>)
    requires |results| == |values| && forall i :: 0 <= i < |results| ==> results[i] == Some(values[i])
    ensures Values(results) == Some(values)
  {
    assert seq(|results|, i requires 0 <= i < |results| => results[i].value) == values;
  }

  /** The recursion ends for every schema of every spec, cyclic references included, within a known depth. */
  lemma {:induction false} Terminates(spec: Spec, s: Schema, visited: set<string>, all: set<string>, highest: nat,
                                      fuel: nat)
    requires Closed(s, spec, all) && Enough(fuel, s, spec, visited, all, highest)
    ensures Unroll(spec, s, Some(visited), fuel) == Some(ExampleFor(spec, s, visited, all))
    decreases fuel, 2
  {
    EnoughForOne(s, spec, visited, all, highest, fuel);
    hide Enough;
    if s.Schema? {
      hide Height, IsScalar, ScalarExample, NameOf, Values, Merged, Filled;
      if s.ref.Some? {
        if s.ref.value !in visited && NameOf(s.ref.value) in spec {
          FollowRef(s, spec, visited, all);
          var target := spec[NameOf(s.ref.value)];
          EnoughAfterRef(s, target, spec, visited, s.ref.value, all, highest, fuel);
          Terminates(spec, target, visited + {s.ref.value}, all, highest, fuel - 1);
        }
      } else if s.enumValues == [] {
        ChildrenTerminate(spec, s, visited, all, highest, fuel);
        hide Unroll, ExampleFor;
      }
    }
  }

  lemma ChildrenReady(s: Schema, spec: Spec, visited: set<string>, all: set<string>, highest: nat, fuel: nat)
    requires s.Schema? && Closed(s, spec, all) && Enough(fuel, s, spec, visited, all, highest) && fuel >= 1
    ensures forall i :: 0 <= i < |s.oneOf| ==> Closed(s.oneOf[i], spec, all)
    ensures forall i :: 0 <= i < |s.allOf| ==> Closed(s.allOf[i], spec, all)
    ensures forall i :: 0 <= i < |s.properties| ==> Closed(s.properties[i].schema, spec, all)
    ensures forall i :: 0 <= i < |s.oneOf| ==> Enough(fuel - 1, s.oneOf[i], spec, visited, all, highest)
    ensures forall i :: 0 <= i < |s.allOf| ==> Enough(fuel - 1, s.allOf[i], spec, visited, all, highest)
    ensures forall i :: 0 <= i < |s.properties| ==>
              Enough(fuel - 1, s.properties[i].schema, spec, visited, all, highest)
  {
    ChildrenLower(s);
    hide Height;
  }

  lemma {:induction false} ChildrenTerminate(spec: Spec, s: Schema, visited: set<string>, all: set<string>,
                                             highest: nat, fuel: nat)
    requires s.Schema? && s.ref.None? && s.enumValues == []
    requires Closed(s, spec, all) && Enough(fuel, s, spec, visited, all, highest) && fuel >= 1
    ensures Unroll(spec, s, Some(visited), fuel) == Some(ExampleFor(spec, s, visited, all))
    decreases fuel, 1
  {
    hide Height, Refs, SpecRefs, Enough, IsScalar, ScalarExample, NameOf, Values, Merged, Filled;
    if s.oneOf != [] {
      ChildrenReady(s, spec, visited, all, highest, fuel);
      Terminates(spec, s.oneOf[0], visited, all, highest, fuel - 1);
    } else if s.allOf != [] {
      AllOfTerminates(spec, s, visited, all, highest, fuel);
      hide Unroll, ExampleFor;
    } else if !IsScalar(s.kind) {
      ObjectTerminates(spec, s, visited, all, highest, fuel);
      hide Unroll, ExampleFor;
    }
  }

  lemma {:induction false} AllOfTerminates(spec: Spec, s: Schema, visited: set<string>, all: set<string>,
                                           highest: nat, fuel: nat)
    requires s.Schema? && s.ref.None? && s.enumValues == [] && s.oneOf == [] && s.allOf != []
    requires Closed(s, spec, all) && Enough(fuel, s, spec, visited, all, highest) && fuel >= 1
    ensures Unroll(spec, s, Some(visited), fuel) == Some(ExampleFor(spec, s, visited, all))
    decreases fuel, 0
  {
    hide Height, Refs, SpecRefs, Closed, Enough, IsScalar, ScalarExample, NameOf, Values, Merged, Filled;
    ChildrenReady(s, spec, visited, all, highest, fuel);
    AllTerminate(spec, s.allOf, visited, all, highest, fuel - 1);
  }

  lemma {:induction false} ObjectTerminates(spec: Spec, s: Schema, visited: set<string>, all: set<string>,
                                            highest: nat, fuel: nat)
    requires s.Schema? && s.ref.None? && s.enumValues == [] && s.oneOf == [] && s.allOf == [] && !IsScalar(s.kind)
    requires Closed(s, spec, all) && Enough(fuel, s, spec, visited, all, highest) && fuel >= 1
    ensures Unroll(spec, s, Some(visited), fuel) == Some(ExampleFor(spec, s, visited, all))
    decreases fuel, 0
  {
    hide Height, Refs, SpecRefs, Closed, Enough, IsScalar, ScalarExample, NameOf, Values, Merged, Filled;
    ChildrenReady(s, spec, visited, all, highest, fuel);
    PropertiesTerminate(spec, s.properties, visited, all, highest, fuel - 1);
  }

  lemma {:induction false} PropertiesTerminate(spec: Spec, properties: seq<Property>, visited: set<string>,
                                               all: set<string>, highest: nat, fuel: nat)
    requires forall i :: 0 <= i < |properties| ==> Closed(properties[i].schema, spec, all)
    requires forall i :: 0 <= i < |properties| ==> Enough(fuel, properties[i].schema, spec, visited, all, highest)
    ensures Values(seq(|properties|, i requires 0 <= i < |properties| =>
              Unroll(spec, properties[i].schema, Some(visited), fuel)))
            == Some(seq(|properties|, i requires 0 <= i < |properties| =>
                 ExampleFor(spec, properties[i].schema, visited, all)))
    decreases fuel, 4
  {
    hide Values, Unroll, ExampleFor, Closed, Enough;
    var schemas := seq(|properties|, i requires 0 <= i < |properties| => properties[i].schema);
    AllTerminate(spec, schemas, visited, all, highest, fuel);
    assert seq(|properties|, i requires 0 <= i < |properties| =>
             Unroll(spec, properties[i].schema, Some(visited), fuel))
           == seq(|schemas|, i requires 0 <= i < |schemas| => Unroll(spec, schemas[i], Some(visited), fuel));
    assert seq(|properties|, i requires 0 <= i < |properties| =>
             ExampleFor(spec, properties[i].schema, visited, all))
           == seq(|schemas|, i requires 0 <= i < |schemas| => ExampleFor(spec, schemas[i], visited, all));
  }

  lemma {:induction false} AllTerminate(spec: Spec, schemas: seq<Schema>, visited: set<string>, all: set<string>,
                                        highest: nat, fuel: nat)
    requires forall i :: 0 <= i < |schemas| ==>
               Closed(schemas[i], spec, all) && Enough(fuel, schemas[i], spec, visited, all, highest)
    ensures Values(seq(|schemas|, i requires 0 <= i < |schemas| => Unroll(spec, schemas[i], Some(visited), fuel)))
            == Some(seq(|schemas|, i requires 0 <= i < |schemas| => ExampleFor(spec, schemas[i], visited, all)))
    decreases fuel, 3
  {
    hide Values;
    forall i | 0 <= i < |schemas|
      ensures Unroll(spec, schemas[i], Some(visited), fuel) == Some(ExampleFor(spec, schemas[i], visited, all))
    {
      Terminates(spec, schemas[i], visited, all, highest, fuel);
    }
    hide Unroll, ExampleFor, Closed, Enough;
    ValuesAre(seq(|schemas|, i requires 0 <= i < |schemas| => Unroll(spec, schemas[i], Some(visited), fuel)),
              seq(|schemas|, i requires 0 <= i < |schemas| => ExampleFor(spec, schemas[i], visited, all)));
  }

  lemma {:induction false} Highest(spec: Spec) returns (highest: nat)
    ensures forall name :: name in spec ==> Height(spec[name]) <= highest
  {
    if spec == map[] {
      highest := 0;
    } else {
      var first :| first in spec;
      var rest := spec - {first};
      assert |rest.Keys| < |spec.Keys| by { assert spec.Keys == rest.Keys + {first}; }
      var below := Highest(rest);
      highest := if below > Height(spec[first]) then below else Height(spec[first]);
      forall name | name in spec ensures Height(spec[name]) <= highest {
        assert name != first ==> name in rest;
      }
    }
  }

  function AllRefs(spec: Spec, s: Schema): set<string>
  {
    Refs(s) + SpecRefs(spec)
  }

  ghost predicate EndsWith(spec: Spec, s: Schema, visited: Option<set<string>>, depth: nat, example: Json)
  {
    forall fuel: nat :: fuel >= depth ==> Unroll(spec, s, visited, fuel) == Some(example)
  }

  lemma EnoughSomewhere(spec: Spec, s: Schema, all: set<string>) returns (highest: nat, depth: nat)
    ensures forall fuel: nat :: fuel >= depth ==> Enough(fuel, s, spec, {}, all, highest)
  {
    highest := Highest(spec);
    depth := |all - {}| * highest + Height(s);
    hide Height;
  }

  /** `exampleFor` ends on every schema of every spec. */
  lemma AlwaysEnds(spec: Spec, s: Schema)
    ensures exists depth :: EndsWith(spec, s, Some({}), depth, ExampleFor(spec, s, {}, AllRefs(spec, s)))
  {
    var all := AllRefs(spec, s);
    assert Closed(s, spec, all);
    hide Unroll, ExampleFor, Enough, AllRefs, Closed;
    var highest, depth := EnoughSomewhere(spec, s, all);
    forall fuel: nat | fuel >= depth ensures Unroll(spec, s, Some({}), fuel) == Some(ExampleFor(spec, s, {}, all)) {
      Terminates(spec, s, {}, all, highest, fuel);
    }
    assert EndsWith(spec, s, Some({}), depth, ExampleFor(spec, s, {}, all));
  }

  // ---- The guard only matters on cycles ------------------------------------

  lemma ValuesSome(results: seq<Option<Json>>, i: nat)
    ensures Values(results).Some? && i < |results| ==> results[i].Some? && Values(results).value[i] == results[i].value
  {
  }

  /** More fuel never changes an answer. */
  lemma {:induction false} MoreFuel(spec: Spec, s: Schema, fuel: nat, more: nat)
    requires fuel <= more && Unroll(spec, s, None, fuel).Some?
    ensures Unroll(spec, s, None, more) == Unroll(spec, s, None, fuel)
    decreases fuel
  {
    if s.Schema? {
      hide IsScalar, ScalarExample, NameOf, Values, Merged, Filled;
      if s.ref.Some? {
        if NameOf(s.ref.value) in spec {
          MoreFuel(spec, spec[NameOf(s.ref.value)], fuel - 1, more - 1);
        }
      } else if s.enumValues != [] {
      } else if s.oneOf != [] {
        MoreFuel(spec, s.oneOf[0], fuel - 1, more - 1);
      } else if s.allOf != [] {
        var few := seq(|s.allOf|, i requires 0 <= i < |s.allOf| => Unroll(spec, s.allOf[i], None, fuel - 1));
        var many := seq(|s.allOf|, i requires 0 <= i < |s.allOf| => Unroll(spec, s.allOf[i], None, more - 1));
        forall i | 0 <= i < |s.allOf| ensures few[i] == many[i] {
          ValuesSome(few, i);
          MoreFuel(spec, s.allOf[i], fuel - 1, more - 1);
        }
        assert few == many;
      } else if !IsScalar(s.kind) {
        var few := seq(|s.properties|, i requires 0 <= i < |s.properties| =>
            Unroll(spec, s.properties[i].schema, None, fuel - 1));
        var many := seq(|s.properties|, i requires 0 <= i < |s.properties| =>
            Unroll(spec, s.properties[i].schema, None, more - 1));
        forall i | 0 <= i < |s.properties| ensures few[i] == many[i] {
          ValuesSome(few, i);
          MoreFuel(spec, s.properties[i].schema, fuel - 1, more - 1);
        }
        assert few == many;
      }
    }
  }

  /** The least fuel with which the unguarded recursion ends. */
  lemma {:induction false} LeastFuel(spec: Spec, s: Schema, fuel: nat) returns (least: nat)
    requires Unroll(spec, s, None, fuel).Some?
    ensures 1 <= least <= fuel && Unroll(spec, s, None, least).Some? && Unroll(spec, s, None, least - 1).None?
    ensures Unroll(spec, s, None, least) == Unroll(spec, s, None, fuel)
  {
    assert Unroll(spec, s, None, 0).None?;
    hide Unroll;
    if Unroll(spec, s, None, fuel - 1).Some? {
      least := LeastFuel(spec, s, fuel - 1);
      MoreFuel(spec, s, fuel - 1, fuel);
    } else {
      least := fuel;
    }
  }

  /** The visited references are those being expanded, and none of them would end on this little fuel. */
  ghost predicate Expanding(spec: Spec, visited: set<string>, fuel: nat)
  {
    forall r :: r in visited ==> NameOf(r) in spec && Unroll(spec, spec[NameOf(r)], None, fuel).None?
  }

  lemma LessFuel(spec: Spec, visited: set<string>, fuel: nat, less: nat)
    requires Expanding(spec, visited, fuel) && less <= fuel
    ensures Expanding(spec, visited, less)
  {
    forall r | r in visited ensures Unroll(spec, spec[NameOf(r)], None, less).None? {
      if Unroll(spec, spec[NameOf(r)], None, less).Some? {
        MoreFuel(spec, spec[NameOf(r)], less, fuel);
      }
    }
    hide Unroll, NameOf;
  }

  lemma {:induction false} GuardUnused(spec: Spec, s: Schema, visited: set<string>, fuel: nat, all: set<string>)
    requires Closed(s, spec, all) && fuel >= 1
    requires Unroll(spec, s, None, fuel).Some? && Expanding(spec, visited, fuel - 1)
    ensures Unroll(spec, s, None, fuel) == Some(ExampleFor(spec, s, visited, all))
    decreases fuel, 2
  {
    if s.Schema? {
      if s.ref.Some? {
        RefUnused(spec, s, visited, fuel, all);
        hide Unroll, ExampleFor;
      } else if s.enumValues == [] {
        LessFuel(spec, visited, fuel - 1, if fuel >= 2 then fuel - 2 else 0);
        ChildrenUnused(spec, s, visited, fuel, all);
        hide Unroll, ExampleFor;
      }
    }
    hide Expanding, NameOf, IsScalar, ScalarExample, Values, Merged, Filled;
  }

  lemma RefUnused(spec: Spec, s: Schema, visited: set<string>, fuel: nat, all: set<string>)
    requires s.Schema? && s.ref.Some?
    requires Closed(s, spec, all) && fuel >= 1
    requires Unroll(spec, s, None, fuel).Some? && Expanding(spec, visited, fuel - 1)
    ensures Unroll(spec, s, None, fuel) == Some(ExampleFor(spec, s, visited, all))
    decreases fuel, 1
  {
    RefUnfolds(spec, s, visited, fuel, all);
    hide Unroll, ExampleFor, NameOf, Closed;
    if NameOf(s.ref.value) in spec {
      var target := spec[NameOf(s.ref.value)];
      var least := LeastFuel(spec, target, fuel - 1);
      LessFuel(spec, visited, fuel - 1, least - 1);
      GuardUnused(spec, target, visited + {s.ref.value}, least, all);
    }
  }

  lemma RefUnfolds(spec: Spec, s: Schema, visited: set<string>, fuel: nat, all: set<string>)
    requires s.Schema? && s.ref.Some?
    requires Closed(s, spec, all) && fuel >= 1
    requires Unroll(spec, s, None, fuel).Some? && Expanding(spec, visited, fuel - 1)
    ensures NameOf(s.ref.value) !in spec ==> Unroll(spec, s, None, fuel) == Some(ExampleFor(spec, s, visited, all))
    ensures NameOf(s.ref.value) in spec ==>
              var target := spec[NameOf(s.ref.value)];
              && Closed(target, spec, all) && s.ref.value !in visited
              && Unroll(spec, s, None, fuel) == Unroll(spec, target, None, fuel - 1)
              && ExampleFor(spec, s, visited, all) == ExampleFor(spec, target, visited + {s.ref.value}, all)
  {
    if NameOf(s.ref.value) in spec {
      assert Unroll(spec, s, None, fuel) == Unroll(spec, spec[NameOf(s.ref.value)], None, fuel - 1);
      assert s.ref.value !in visited;
      FollowRef(s, spec, visited, all);
    }
    hide IsScalar, ScalarExample, NameOf, Values, Merged, Filled, Closed;
  }

  lemma {:induction false} ChildrenUnused(spec: Spec, s: Schema, visited: set<string>, fuel: nat, all: set<string>)
    requires s.Schema? && s.ref.None? && s.enumValues == []
    requires Closed(s, spec, all) && fuel >= 1
    requires Unroll(spec, s, None, fuel).Some? && Expanding(spec, visited, if fuel >= 2 then fuel - 2 else 0)
    ensures Unroll(spec, s, None, fuel) == Some(ExampleFor(spec, s, visited, all))
    decreases fuel, 0
  {
    hide IsScalar, ScalarExample, NameOf, Values, Merged, Filled;
    if s.oneOf != [] {
      GuardUnused(spec, s.oneOf[0], visited, fuel - 1, all);
    } else if s.allOf != [] {
      var results := seq(|s.allOf|, i requires 0 <= i < |s.allOf| => Unroll(spec, s.allOf[i], None, fuel - 1));
      forall i | 0 <= i < |s.allOf|
        ensures Closed(s.allOf[i], spec, all) && results[i] == Some(ExampleFor(spec, s.allOf[i], visited, all))
      {
        ValuesSome(results, i);
        GuardUnused(spec, s.allOf[i], visited, fuel - 1, all);
      }
      ValuesAre(results, seq(|s.allOf|, i requires 0 <= i < |s.allOf| => ExampleFor(spec, s.allOf[i], visited, all)));
    } else if !IsScalar(s.kind) {
      var results := seq(|s.properties|, i requires 0 <= i < |s.properties| =>
          Unroll(spec, s.properties[i].schema, None, fuel - 1));
      forall i | 0 <= i < |s.properties|
        ensures Closed(s.properties[i].schema, spec, all)
        ensures results[i] == Some(ExampleFor(spec, s.properties[i].schema, visited, all))
      {
        ValuesSome(results, i);
        GuardUnused(spec, s.properties[i].schema, visited, fuel - 1, all);
      }
      ValuesAre(results, seq(|s.properties|, i requires 0 <= i < |s.properties| =>
        ExampleFor(spec, s.properties[i].schema, visited, all)));
    }
  }

  /** Where following references without a guard ends, the guard changes nothing. */
  lemma GuardOnlyCutsCycles(spec: Spec, s: Schema, fuel: nat)
    requires Unroll(spec, s, None, fuel).Some?
    ensures Unroll(spec, s, None, fuel) == Some(ExampleFor(spec, s, {}, AllRefs(spec, s)))
  {
    GuardUnused(spec, s, {}, fuel, AllRefs(spec, s));
    hide NameOf;
  }
}
