/** The two configuration records. A Java `null` field is `None`. */
module Models {

  datatype Option<+T> = None | Some(value: T)

  /** A named database connection profile. */
  datatype DbConnection = DbConnection(
    name: string,
    url: Option<string>,
    user: Option<string>,
    password: Option<string>,
    platform: Option<string>)
  {
    /** A copy with `url` replaced and every other component kept. */
    function WithUrl(u: Option<string>): (r: DbConnection)
      ensures r.url == u
      ensures r.name == name && r.user == user && r.password == password && r.platform == platform
    {
      this.(url := u)
    }

    /** A copy with `user` replaced and every other component kept. */
    function WithUser(u: Option<string>): (r: DbConnection)
      ensures r.user == u
      ensures r.name == name && r.url == url && r.password == password && r.platform == platform
    {
      this.(user := u)
    }

    /** A copy with `password` replaced and every other component kept. */
    function WithPassword(p: Option<string>): (r: DbConnection)
      ensures r.password == p
      ensures r.name == name && r.url == url && r.user == user && r.platform == platform
    {
      this.(password := p)
    }

    /** A copy with `platform` replaced and every other component kept. */
    function WithPlatform(p: Option<string>): (r: DbConnection)
      ensures r.platform == p
      ensures r.name == name && r.url == url && r.user == user && r.password == password
    {
      this.(platform := p)
    }
  }

  /** A named SQL object bound to a connection by name. */
  datatype DbObject = DbObject(name: string, sql: Option<string>, connection: Option<string>)
  {
    /** A copy with `sql` replaced and every other component kept. */
    function WithSql(v: Option<string>): (r: DbObject)
      ensures r.sql == v
      ensures r.name == name && r.connection == connection
    {
      this.(sql := v)
    }

    /** A copy with `connection` replaced and every other component kept. */
    function WithConnection(c: Option<string>): (r: DbObject)
      ensures r.connection == c
      ensures r.name == name && r.sql == sql
    {
      this.(connection := c)
    }
  }

  /** Withers on different fields of a connection commute, and a second
      wither on the same field keeps only the later value. */
  lemma ConnectionWithersCommute(c: DbConnection, a: Option<string>, b: Option<string>)
    ensures c.WithUrl(a).WithUser(b) == c.WithUser(b).WithUrl(a)
    ensures c.WithUrl(a).WithPassword(b) == c.WithPassword(b).WithUrl(a)
    ensures c.WithUrl(a).WithPlatform(b) == c.WithPlatform(b).WithUrl(a)
    ensures c.WithUser(a).WithPassword(b) == c.WithPassword(b).WithUser(a)
    ensures c.WithUser(a).WithPlatform(b) == c.WithPlatform(b).WithUser(a)
    ensures c.WithPassword(a).WithPlatform(b) == c.WithPlatform(b).WithPassword(a)
    ensures c.WithUrl(a).WithUrl(b) == c.WithUrl(b)
    ensures c.WithUser(a).WithUser(b) == c.WithUser(b)
    ensures c.WithPassword(a).WithPassword(b) == c.WithPassword(b)
    ensures c.WithPlatform(a).WithPlatform(b) == c.WithPlatform(b)
  {
  }

  /** The same for the two withers of an object. */
  lemma ObjectWithersCommute(o: DbObject, a: Option<string>, b: Option<string>)
    ensures o.WithSql(a).WithConnection(b) == o.WithConnection(b).WithSql(a)
    ensures o.WithSql(a).WithSql(b) == o.WithSql(b)
    ensures o.WithConnection(a).WithConnection(b) == o.WithConnection(b)
  {
  }
}
