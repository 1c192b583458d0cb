/** `ObjectUtils`: loading named SQL objects from configuration properties. */
module ObjectUtils {
  import opened Models
  import opened ConfigKeys

  const Kind := "object"

  /** The two properties that set a field of an object. */
  const Fields: set<string> := {"sql", "connection"}

  /** An object as first seen: only its name is known. */
  function Fresh(name: string): (o: DbObject)
    ensures o.name == name && o.sql == None && o.connection == None
  {
    DbObject(name, None, None)
  }

  /** The field a property name sets. */
  function Field(o: DbObject, f: string): Option<string>
    requires f in Fields
  {
    if f == "sql" then o.sql else o.connection
  }

  /** The switch of `setDbObjectProperty`: the named field takes the value;
      `name` and unknown property names change nothing. */
  function ApplyProperty(o: DbObject, property: string, value: Option<string>): (r: DbObject)
    ensures r.name == o.name
    ensures forall f :: f in Fields ==> Field(r, f) == if f == property then value else Field(o, f)
  {
    match property
    case "sql" => o.WithSql(value)
    case "connection" => o.WithConnection(value)
    case _ => o
  }

  /** `setDbObjectProperty`: the updated record is put under the object's
      name, whatever the property was; other entries are untouched. */
  function SetObjectProperty(objects: map<string, DbObject>, value: Option<string>, property: string,
                             name: string, o: DbObject): (r: map<string, DbObject>)
    ensures r.Keys == objects.Keys + {name}
    ensures forall k :: k in objects && k != name ==> r[k] == objects[k]
    ensures r[name] == ApplyProperty(o, property, value)
  {
    objects[name := ApplyProperty(o, property, value)]
  }

  /** One iteration of the loop of `loadObjects`. */
  function Step(objects: map<string, DbObject>, p: Property, prefix: string): map<string, DbObject> {
    if !Accepted(p, prefix, Kind) then objects
    else
      var (name, property) := ParseKey(p.name, Kind).value;
      var o := if name in objects then objects[name] else Fresh(name);
      SetObjectProperty(objects, p.value, property, name, o)
  }

  /** The map `loadObjects` builds from properties in configuration order. */
  function Objects(props: seq<Property>, prefix: string): map<string, DbObject>
  {
    if props == [] then map[]
    else Step(Objects(props[..|props| - 1], prefix), props[|props| - 1], prefix)
  }

  /** `loadObjects`. */
  method LoadObjects(props: seq<Property>, prefix: string) returns (objects: map<string, DbObject>)
    ensures objects == Objects(props, prefix)
  {
    objects := map[];
    for i := 0 to |props|
      invariant objects == Objects(props[..i], prefix)
    {
      var item := props[i];
      assert props[..i + 1][..i] == props[..i];
      if prefix <= item.name {
        var matcher := ParseKey(item.name, Kind);
        if matcher.Some? {
          var (objectName, property) := matcher.value;
          var obj;
          if objectName in objects {
            obj := objects[objectName];
          } else {
            obj := Fresh(objectName);
          }
          objects := SetObjectProperty(objects, item.value, property, objectName, obj);
        }
      }
    }
    assert props[..|props|] == props;
  }

  /** The object name (group 1) of an accepted property. */
  function NameOf(p: Property): string
    requires ParseKey(p.name, Kind).Some?
  {
    ParseKey(p.name, Kind).value.0
  }

  /** The property name (group 2) of an accepted property. */
  function PropertyOf(p: Property): string
    requires ParseKey(p.name, Kind).Some?
  {
    ParseKey(p.name, Kind).value.1
  }

  /** The value of the last accepted property for `name` and field `f`, or
      `None` when there is none: the value that field ends up with. */
  function LastValue(props: seq<Property>, prefix: string, name: string, f: string): Option<string>
  {
    if props == [] then None
    else
      var p := props[|props| - 1];
      if Accepted(p, prefix, Kind) && NameOf(p) == name && PropertyOf(p) == f then p.value
      else LastValue(props[..|props| - 1], prefix, name, f)
  }

  /** The loaded objects are exactly those named by an accepted property. */
  lemma {:induction false} ObjectsKeys(props: seq<Property>, prefix: string)
    ensures Objects(props, prefix).Keys
         == set p | p in props && Accepted(p, prefix, Kind) :: NameOf(p)
  {
    if props != [] {
      var init := props[..|props| - 1];
      var last := props[|props| - 1];
      ObjectsKeys(init, prefix);
      assert props == init + [last];
      assert forall p :: p in props <==> p in init || p == last;
    }
  }

  /** Every loaded object carries its own key as its name. */
  lemma {:induction false} ObjectsNamedByKey(props: seq<Property>, prefix: string)
    ensures forall n :: n in Objects(props, prefix) ==> Objects(props, prefix)[n].name == n
  {
    if props != [] {
      ObjectsNamedByKey(props[..|props| - 1], prefix);
    }
  }

  /** Each field of a loaded object holds the value of the last property that
      set it, in configuration order; a field never set stays null. */
  lemma {:induction false} ObjectsLastWins(props: seq<Property>, prefix: string, name: string, f: string)
    requires f in Fields
    requires name in Objects(props, prefix)
    ensures Field(Objects(props, prefix)[name], f) == LastValue(props, prefix, name, f)
  {
    var init := props[..|props| - 1];
    if name in Objects(init, prefix) {
      ObjectsLastWins(init, prefix, name, f);
    } else if init != [] {
      LastValueOfAbsent(init, prefix, name, f);
    }
  }

  /** A name that was never loaded has no property that set a field of it. */
  lemma {:induction false} LastValueOfAbsent(props: seq<Property>, prefix: string, name: string, f: string)
    requires name !in Objects(props, prefix)
    ensures LastValue(props, prefix, name, f) == None
  {
    if props != [] {
      LastValueOfAbsent(props[..|props| - 1], prefix, name, f);
    }
  }

  /** The accepted properties, in order. */
  function AcceptedOnly(props: seq<Property>, prefix: string): (r: seq<Property>)
    ensures forall p :: p in r ==> p in props && Accepted(p, prefix, Kind)
  {
    if props == [] then []
    else
      var last := props[|props| - 1];
      AcceptedOnly(props[..|props| - 1], prefix) + if Accepted(last, prefix, Kind) then [last] else []
  }

  /** One more property is one more step. */
  lemma ObjectsSnoc(a: seq<Property>, p: Property, prefix: string)
    ensures Objects(a + [p], prefix) == Step(Objects(a, prefix), p, prefix)
  {
    assert (a + [p])[..|a|] == a;
  }

  /** Properties that do not match the pattern have no effect on the result. */
  lemma {:induction false} ObjectsIgnoreOthers(props: seq<Property>, prefix: string)
    ensures Objects(AcceptedOnly(props, prefix), prefix) == Objects(props, prefix)
  {
    if props != [] {
      var init := props[..|props| - 1];
      var last := props[|props| - 1];
      ObjectsIgnoreOthers(init, prefix);
      var a := AcceptedOnly(init, prefix);
      if Accepted(last, prefix, Kind) {
        assert AcceptedOnly(props, prefix) == a + [last];
        ObjectsSnoc(a, last, prefix);
      } else {
        assert AcceptedOnly(props, prefix) == a;
      }
    }
  }
}
