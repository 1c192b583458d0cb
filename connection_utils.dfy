/** `ConnectionUtils`: loading connection profiles from configuration
    properties, and the platform check of `loadDriver`. */
module ConnectionUtils {
  import opened Models
  import opened ConfigKeys

  const Kind := "connection"

  /** The four properties that set a field of a connection. */
  const Fields: set<string> := {"url", "user", "password", "platform"}

  /** A connection as first seen: only its name is known. */
  function Fresh(name: string): (c: DbConnection)
    ensures c.name == name && c.url == None && c.user == None && c.password == None && c.platform == None
  {
    DbConnection(name, None, None, None, None)
  }

  /** The field a property name sets. */
  function Field(c: DbConnection, f: string): Option<string>
    requires f in Fields
  {
    match f
    case "url" => c.url
    case "user" => c.user
    case "password" => c.password
    case _ => c.platform
  }

  /** The switch of `setDbConnectionProperty`: the named field takes the
      value; `name` and unknown property names change nothing. */
  function ApplyProperty(c: DbConnection, property: string, value: Option<string>): (r: DbConnection)
    ensures r.name == c.name
    ensures forall f :: f in Fields ==> Field(r, f) == if f == property then value else Field(c, f)
  {
    match property
    case "url" => c.WithUrl(value)
    case "user" => c.WithUser(value)
    case "password" => c.WithPassword(value)
    case "platform" => c.WithPlatform(value)
    case _ => c
  }

  /** `setDbConnectionProperty`: the updated record is put under the connection's
      name, whatever the property was; other entries are untouched. */
  function SetConnectionProperty(conns: map<string, DbConnection>, value: Option<string>, property: string,
                                 name: string, c: DbConnection): (r: map<string, DbConnection>)
    ensures r.Keys == conns.Keys + {name}
    ensures forall k :: k in conns && k != name ==> r[k] == conns[k]
    ensures r[name] == ApplyProperty(c, property, value)
  {
    conns[name := ApplyProperty(c, property, value)]
  }

  /** One iteration of the loop of `loadConnections`. */
  function Step(conns: map<string, DbConnection>, p: Property, prefix: string): map<string, DbConnection> {
    if !Accepted(p, prefix, Kind) then conns
    else
      var (name, property) := ParseKey(p.name, Kind).value;
      var c := if name in conns then conns[name] else Fresh(name);
      SetConnectionProperty(conns, p.value, property, name, c)
  }

  /** The map `loadConnections` builds from properties in configuration order. */
  function Connections(props: seq<Property>, prefix: string): map<string, DbConnection>
  {
    if props == [] then map[]
    else Step(Connections(props[..|props| - 1], prefix), props[|props| - 1], prefix)
  }

  /** `loadConnections`. */
  method LoadConnections(props: seq<Property>, prefix: string) returns (conns: map<string, DbConnection>)
    ensures conns == Connections(props, prefix)
  {
    conns := map[];
    for i := 0 to |props|
      invariant conns == Connections(props[..i], prefix)
    {
      var item := props[i];
      assert props[..i + 1][..i] == props[..i];
      if prefix <= item.name {
        var matcher := ParseKey(item.name, Kind);
        if matcher.Some? {
          var (connectionName, property) := matcher.value;
          var connection;
          if connectionName in conns {
            connection := conns[connectionName];
          } else {
            connection := Fresh(connectionName);
          }
          conns := SetConnectionProperty(conns, item.value, property, connectionName, connection);
        }
      }
    }
    assert props[..|props|] == props;
  }

  /** The connection name (group 1) of an accepted property. */
  function NameOf(p: Property): string
    requires ParseKey(p.name, Kind).Some?
  {
    ParseKey(p.name, Kind).value.0
  }

  /** The property name (group 2) of an accepted property. */
  function PropertyOf(p: Property): string
    requires ParseKey(p.name, Kind).Some?
  {
    ParseKey(p.name, Kind).value.1
  }

  /** The value the last accepted property for `name` and field `f` carries,
      or `None` when there is none: the value that field ends up with. */
  function LastValue(props: seq<Property>, prefix: string, name: string, f: string): Option<string>
  {
    if props == [] then None
    else
      var p := props[|props| - 1];
      if Accepted(p, prefix, Kind) && NameOf(p) == name && PropertyOf(p) == f then p.value
      else LastValue(props[..|props| - 1], prefix, name, f)
  }

  /** The loaded connections are exactly those named by an accepted property. */
  lemma {:induction false} ConnectionsKeys(props: seq<Property>, prefix: string)
    ensures Connections(props, prefix).Keys
         == set p | p in props && Accepted(p, prefix, Kind) :: NameOf(p)
  {
    if props != [] {
      var init := props[..|props| - 1];
      var last := props[|props| - 1];
      ConnectionsKeys(init, prefix);
      assert props == init + [last];
      assert forall p :: p in props <==> p in init || p == last;
    }
  }

  /** Every loaded connection carries its own key as its name. */
  lemma {:induction false} ConnectionsNamedByKey(props: seq<Property>, prefix: string)
    ensures forall n :: n in Connections(props, prefix) ==> Connections(props, prefix)[n].name == n
  {
    if props != [] {
      ConnectionsNamedByKey(props[..|props| - 1], prefix);
    }
  }

  /** Each field of a loaded connection holds the value of the last property
      that set it, in configuration order; a field never set stays null. */
  lemma {:induction false} ConnectionsLastWins(props: seq<Property>, prefix: string, name: string, f: string)
    requires f in Fields
    requires name in Connections(props, prefix)
    ensures Field(Connections(props, prefix)[name], f) == LastValue(props, prefix, name, f)
  {
    var init := props[..|props| - 1];
    var last := props[|props| - 1];
    if name in Connections(init, prefix) {
      ConnectionsLastWins(init, prefix, name, f);
    } else if props != [] && init != [] {
      LastValueOfAbsent(init, prefix, name, f);
    }
  }

  /** A name that was never loaded has no property that set a field of it. */
  lemma {:induction false} LastValueOfAbsent(props: seq<Property>, prefix: string, name: string, f: string)
    requires name !in Connections(props, prefix)
    ensures LastValue(props, prefix, name, f) == None
  {
    if props != [] {
      LastValueOfAbsent(props[..|props| - 1], prefix, name, f);
    }
  }

  /** The accepted properties, in order. */
  function AcceptedOnly(props: seq<Property>, prefix: string): (r: seq<Property>)
    ensures forall p :: p in r ==> p in props && Accepted(p, prefix, Kind)
  {
    if props == [] then []
    else
      var last := props[|props| - 1];
      AcceptedOnly(props[..|props| - 1], prefix) + if Accepted(last, prefix, Kind) then [last] else []
  }

  /** One more property is one more step. */
  lemma ConnectionsSnoc(a: seq<Property>, p: Property, prefix: string)
    ensures Connections(a + [p], prefix) == Step(Connections(a, prefix), p, prefix)
  {
    assert (a + [p])[..|a|] == a;
  }

  /** Properties that do not match the pattern have no effect on the result. */
  lemma {:induction false} ConnectionsIgnoreOthers(props: seq<Property>, prefix: string)
    ensures Connections(AcceptedOnly(props, prefix), prefix) == Connections(props, prefix)
  {
    if props != [] {
      var init := props[..|props| - 1];
      var last := props[|props| - 1];
      ConnectionsIgnoreOthers(init, prefix);
      var a := AcceptedOnly(init, prefix);
      if Accepted(last, prefix, Kind) {
        assert AcceptedOnly(props, prefix) == a + [last];
        ConnectionsSnoc(a, last, prefix);
      } else {
        assert AcceptedOnly(props, prefix) == a;
      }
    }
  }

  /** The platforms with a known JDBC driver, and the driver class of each. */
  const DriverMap: map<string, string> := map[
    "mysql" := "com.mysql.cj.jdbc.Driver",
    "postgresql" := "org.postgresql.Driver",
    "oracle" := "oracle.jdbc.OracleDriver",
    "sqlite" := "org.sqlite.JDBC",
    "h2" := "org.h2.Driver"]

  datatype DriverError = NullPointer | IllegalArgument(message: string)

  datatype DriverResult = DriverClass(className: string) | DriverRefused(error: DriverError)

  /** The check of `loadDriver`: the driver class to load for a platform.
      `Map.of(...).containsKey(null)` throws, so a null platform fails too. */
  function LoadDriver(platform: Option<string>): (r: DriverResult)
    ensures platform == None ==> r == DriverRefused(NullPointer)
    ensures platform.Some? && platform.value in {"mysql", "postgresql", "oracle", "sqlite", "h2"} ==>
      r == DriverClass(DriverMap[platform.value])
    ensures platform.Some? && platform.value !in {"mysql", "postgresql", "oracle", "sqlite", "h2"} ==>
      r == DriverRefused(IllegalArgument("Unknown platform: " + platform.value))
  {
    if platform == None then DriverRefused(NullPointer)
    else if platform.value !in DriverMap then DriverRefused(IllegalArgument("Unknown platform: " + platform.value))
    else DriverClass(DriverMap[platform.value])
  }
}
