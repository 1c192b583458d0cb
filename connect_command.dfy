/** The `connect` command: each connection's objects are selected, their
    queries run and the rows read; then a REPL is built, every row list is
    bound as a variable, and the REPL is started. JDBC is a parameter: the
    outcome of opening a connection, and the result of each query. */
module ConnectCommand {
  import opened Text
  import opened Models
  import opened LinkedMaps
  import opened ConfigKeys
  import opened Session
  import opened ReplFunctions
  import ReplLoop
  import ConnectionUtils
  import ObjectUtils

  // ---------------------------------------------------------------------
  // The object filter

  /** The stream filter of `run`: the object names this connection, and its
      SQL is present, non-empty and, lower-cased but not trimmed, starts
      with `select`. */
  predicate Selected(o: DbObject, c: DbConnection) {
    && o.connection.Some? && o.connection.value == c.name
    && o.sql.Some? && o.sql.value != []
    && "select" <= ToLower(o.sql.value)
  }

  /** The objects selected for a connection, in the order `values()` gave them. */
  function Selection(objects: seq<DbObject>, c: DbConnection): (r: seq<DbObject>)
    ensures forall o :: o in r <==> o in objects && Selected(o, c)
    ensures |r| <= |objects|
  {
    if objects == [] then []
    else
      var init := objects[..|objects| - 1];
      var last := objects[|objects| - 1];
      assert objects == init + [last];
      Selection(init, c) + if Selected(last, c) then [last] else []
  }

  /** `SELECT`, in any case, selects. */
  lemma SelectInAnyCase(o: DbObject, c: DbConnection, keyword: string, rest: string)
    requires |keyword| == 6 && ToLower(keyword) == "select"
    requires o.connection == Some(c.name) && o.sql == Some(keyword + rest)
    ensures Selected(o, c)
  {
    var sql := keyword + rest;
    assert forall k :: 0 <= k < 6 ==> ToLower(sql)[k] == LowerChar(keyword[k]) == ToLower(keyword)[k];
  }

  /** The SQL is not trimmed: a query with a blank before `select` is not selected. */
  lemma LeadingBlankNotSelected(o: DbObject, c: DbConnection)
    requires o.sql.Some? && o.sql.value != [] && IsTrimmable(o.sql.value[0])
    ensures !Selected(o, c)
  {
    assert ToLower(o.sql.value)[0] == LowerChar(o.sql.value[0]);
  }

  /** Selecting keeps distinct object names distinct. */
  lemma {:induction false} SelectionDistinct(objects: seq<DbObject>, c: DbConnection)
    requires DistinctNames(objects)
    ensures DistinctNames(Selection(objects, c))
  {
    if objects != [] {
      var init := objects[..|objects| - 1];
      var last := objects[|objects| - 1];
      SelectionDistinct(init, c);
      assert objects == init + [last];
      forall o | o in Selection(init, c)
        ensures o.name != last.name
      {
        var i :| 0 <= i < |init| && init[i] == o;
        assert objects[i] == o;
      }
    }
  }

  /** No two objects of the list share a name. */
  predicate DistinctNames(objects: seq<DbObject>) {
    forall i, j :: 0 <= i < j < |objects| ==> objects[i].name != objects[j].name
  }

  // ---------------------------------------------------------------------
  // The database

  /** One column of a result-set row: its label and its value. */
  type Column = (string, SqlValue)

  /** What `executeQuery` gives: its rows, each a list of columns in column
      order, or the message of the `SQLException`. */
  datatype QueryResult = ResultSet(rows: seq<seq<Column>>) | QueryFailed(message: string)

  /** The JDBC side: opening a statement on a connection
      (`DriverManager.getConnection`, then `createStatement`) succeeds or
      fails with a message; a query on an open statement gives a result. */
  datatype Database = Database(open: DbConnection -> Option<string>, query: (DbConnection, string) -> QueryResult)

  /** What stops `run`: the platform check of `loadDriver`, or an exception
      from the database. The `catch` of `run` rethrows either one wrapped in
      a `RuntimeException`. */
  datatype Failure = DriverFailed(error: ConnectionUtils.DriverError) | DatabaseFailed(message: string)

  /** `ConnectionUtils.connect`, then `createStatement`: the failure, if any. */
  function Connect(c: DbConnection, db: Database): Option<Failure> {
    match ConnectionUtils.LoadDriver(c.platform)
    case DriverRefused(e) => Some(DriverFailed(e))
    case DriverClass(_) => if db.open(c).Some? then Some(DatabaseFailed(db.open(c).value)) else None
  }

  // ---------------------------------------------------------------------
  // Rows

  /** The `LinkedHashMap` built from one result-set row: each column put in turn. */
  function BuiltRow(columns: seq<Column>): (row: Row)
    ensures row.Valid()
  {
    Empty<SqlValue>().PutAll(columns)
  }

  /** A built row is empty exactly when the result set has no column. */
  lemma BuiltRowEmpty(columns: seq<Column>)
    ensures BuiltRow(columns).IsEmpty() <==> columns == []
  {
    PutAllKeys(Empty<SqlValue>(), columns);
    if columns != [] {
      var row := BuiltRow(columns);
      assert columns[0].0 in row.entries;
      assert row.order != [];
    }
  }

  /** The rows `run` keeps from a result set: every row that has a column,
      in result-set order. */
  function KeptRows(rows: seq<seq<Column>>): (r: seq<Row>)
    ensures |r| <= |rows|
    ensures forall i :: 0 <= i < |r| ==> !r[i].IsEmpty()
  {
    if rows == [] then []
    else
      var row := BuiltRow(rows[|rows| - 1]);
      KeptRows(rows[..|rows| - 1]) + if row.IsEmpty() then [] else [row]
  }

  /** The result-set rows that have at least one column. */
  function Filled(rows: seq<seq<Column>>): (r: seq<seq<Column>>)
    ensures forall i :: 0 <= i < |r| ==> r[i] != []
  {
    if rows == [] then []
    else Filled(rows[..|rows| - 1]) + if rows[|rows| - 1] == [] then [] else [rows[|rows| - 1]]
  }

  /** The kept rows are the filled result-set rows, each built from its
      columns, in order. */
  lemma {:induction false} KeptRowsAreFilled(rows: seq<seq<Column>>)
    ensures |KeptRows(rows)| == |Filled(rows)|
    ensures forall i :: 0 <= i < |Filled(rows)| ==> KeptRows(rows)[i] == BuiltRow(Filled(rows)[i])
  {
    if rows != [] {
      KeptRowsAreFilled(rows[..|rows| - 1]);
      BuiltRowEmpty(rows[|rows| - 1]);
    }
  }

  /** The `for` over the columns of one result-set row. */
  method ReadRow(columns: seq<Column>) returns (row: Row)
    ensures row == BuiltRow(columns)
  {
    row := Empty();
    for i := 0 to |columns|
      invariant row == BuiltRow(columns[..i])
    {
      assert columns[..i + 1][..i] == columns[..i];
      row := row.Put(columns[i].0, columns[i].1);
    }
    assert columns[..|columns|] == columns;
  }

  /** The `while (rs.next())` over one result set: each row that has a
      column is appended, and counted. */
  method ReadRows(rows: seq<seq<Column>>, loaded: nat) returns (kept: seq<Row>, loaded': nat)
    ensures kept == KeptRows(rows)
    ensures loaded' == loaded + |kept|
  {
    kept := [];
    loaded' := loaded;
    var i := 0;
    while i < |rows|
      invariant i <= |rows|
      invariant kept == KeptRows(rows[..i])
      invariant loaded' == loaded + |kept|
    {
      var row := ReadRow(rows[i]);
      assert rows[..i + 1][..i] == rows[..i];
      if !row.IsEmpty() {
        kept := kept + [row];
        loaded' := loaded' + 1;
      }
      i := i + 1;
    }
    assert rows[..|rows|] == rows;
  }

  // ---------------------------------------------------------------------
  // Loading the objects

  /** What `run` has gathered so far: the row lists by object name and the
      count of rows read (`objectsLoaded`), or the failure that ended it. */
  datatype Loading = Loading(mapObjects: map<string, seq<Row>>, objectsLoaded: nat) | Aborted(failure: Failure)

  /** One object of the inner loop: its query runs, and its kept rows are
      stored under its name and counted; a failed query ends the command. */
  function QueryStep(s: Loading, c: DbConnection, o: DbObject, db: Database): Loading
    requires Selected(o, c)
  {
    if s.Aborted? then s
    else
      match db.query(c, o.sql.value)
      case QueryFailed(message) => Aborted(DatabaseFailed(message))
      case ResultSet(rows) => Loading(s.mapObjects[o.name := KeptRows(rows)], s.objectsLoaded + |KeptRows(rows)|)
  }

  /** The inner loop over the objects selected for one connection. */
  function Queried(s: Loading, c: DbConnection, sel: seq<DbObject>, db: Database): Loading
    requires forall o :: o in sel ==> Selected(o, c)
  {
    if sel == [] then s
    else
      assert sel[|sel| - 1] in sel;
      QueryStep(Queried(s, c, sel[..|sel| - 1], db), c, sel[|sel| - 1], db)
  }

  /** One connection of the outer loop: without selected objects it is
      skipped and never opened; otherwise it is opened and its objects
      queried. */
  function ConnectionStep(s: Loading, c: DbConnection, objects: seq<DbObject>, db: Database): Loading {
    if s.Aborted? then s
    else
      var sel := Selection(objects, c);
      if sel == [] then s
      else
        match Connect(c, db)
        case Some(failure) => Aborted(failure)
        case None => Queried(s, c, sel, db)
  }

  /** The outer loop of `run`, over the connections in the order `values()`
      gave them. */
  function Load(connections: seq<DbConnection>, objects: seq<DbObject>, db: Database): Loading {
    if connections == [] then Loading(map[], 0)
    else ConnectionStep(Load(connections[..|connections| - 1], objects, db), connections[|connections| - 1], objects, db)
  }

  /** Once a query has failed, the inner loop is over. */
  lemma {:induction false} QueriedStaysAborted(s: Loading, c: DbConnection, sel: seq<DbObject>, db: Database, j: nat)
    requires forall o :: o in sel ==> Selected(o, c)
    requires j <= |sel| && Queried(s, c, sel[..j], db).Aborted?
    ensures Queried(s, c, sel, db) == Queried(s, c, sel[..j], db)
    decreases |sel| - j
  {
    if j < |sel| {
      assert sel[..j + 1][..j] == sel[..j];
      QueriedStaysAborted(s, c, sel, db, j + 1);
    } else {
      assert sel[..j] == sel;
    }
  }

  /** Once a connection has failed, the outer loop is over. */
  lemma {:induction false} LoadStaysAborted(connections: seq<DbConnection>, objects: seq<DbObject>, db: Database, j: nat)
    requires j <= |connections| && Load(connections[..j], objects, db).Aborted?
    ensures Load(connections, objects, db) == Load(connections[..j], objects, db)
    decreases |connections| - j
  {
    if j < |connections| {
      assert connections[..j + 1][..j] == connections[..j];
      LoadStaysAborted(connections, objects, db, j + 1);
    } else {
      assert connections[..j] == connections;
    }
  }

  /** The inner loop one object further. */
  lemma QueriedSnoc(s: Loading, c: DbConnection, sel: seq<DbObject>, db: Database, i: nat)
    requires forall o :: o in sel ==> Selected(o, c)
    requires i < |sel|
    ensures forall o :: o in sel[..i] ==> Selected(o, c)
    ensures Selected(sel[i], c)
    ensures Queried(s, c, sel[..i + 1], db) == QueryStep(Queried(s, c, sel[..i], db), c, sel[i], db)
  {
    assert sel[..i + 1][..i] == sel[..i];
    assert forall o :: o in sel[..i] ==> o in sel;
  }

  /** The `for` over the objects selected for one connection, on its open
      statement. */
  method QueryObjects(c: DbConnection, sel: seq<DbObject>, db: Database, mapObjects: map<string, seq<Row>>,
                      objectsLoaded: nat) returns (r: Loading)
    requires forall o :: o in sel ==> Selected(o, c)
    ensures r == Queried(Loading(mapObjects, objectsLoaded), c, sel, db)
  {
    var m, n := mapObjects, objectsLoaded;
    for i := 0 to |sel|
      invariant Queried(Loading(mapObjects, objectsLoaded), c, sel[..i], db) == Loading(m, n)
    {
      var o := sel[i];
      QueriedSnoc(Loading(mapObjects, objectsLoaded), c, sel, db, i);
      match db.query(c, o.sql.value)
      case QueryFailed(message) =>
        QueriedStaysAborted(Loading(mapObjects, objectsLoaded), c, sel, db, i + 1);
        return Aborted(DatabaseFailed(message));
      case ResultSet(rows) =>
        var kept;
        kept, n := ReadRows(rows, n);
        m := m[o.name := kept];
    }
    assert sel[..|sel|] == sel;
    r := Loading(m, n);
  }

  /** The outer loop one connection further. */
  lemma LoadSnoc(connections: seq<DbConnection>, objects: seq<DbObject>, db: Database, i: nat)
    requires i < |connections|
    ensures Load(connections[..i + 1], objects, db) == ConnectionStep(Load(connections[..i], objects, db), connections[i], objects, db)
  {
    assert connections[..i + 1][..i] == connections[..i];
  }

  /** The loop over the connections of `run`, up to its `catch`. */
  method LoadFromDatabase(connections: seq<DbConnection>, objects: seq<DbObject>, db: Database) returns (r: Loading)
    ensures r == Load(connections, objects, db)
  {
    var m: map<string, seq<Row>>, n := map[], 0;
    for i := 0 to |connections|
      invariant Load(connections[..i], objects, db) == Loading(m, n)
    {
      var c := connections[i];
      LoadSnoc(connections, objects, db, i);
      var sel := Selection(objects, c);
      if sel == [] {
        continue;
      }
      var failure := Connect(c, db);
      if failure.Some? {
        LoadStaysAborted(connections, objects, db, i + 1);
        return Aborted(failure.value);
      }
      var q := QueryObjects(c, sel, db, m, n);
      if q.Aborted? {
        LoadStaysAborted(connections, objects, db, i + 1);
        return q;
      }
      m, n := q.mapObjects, q.objectsLoaded;
    }
    assert connections[..|connections|] == connections;
    r := Loading(m, n);
  }

  // ---------------------------------------------------------------------
  // What the loading promises

  /** A connection that makes `run` fail: it has selected objects, and it
      does not open or one of their queries throws. */
  predicate Fails(c: DbConnection, objects: seq<DbObject>, db: Database) {
    && Selection(objects, c) != []
    && (|| Connect(c, db).Some?
        || exists o :: o in Selection(objects, c) && db.query(c, o.sql.value).QueryFailed?)
  }

  /** The inner loop fails exactly when one of its queries throws. */
  lemma {:induction false} QueriedAbortsIff(s: Loading, c: DbConnection, sel: seq<DbObject>, db: Database)
    requires s.Loading? && forall o :: o in sel ==> Selected(o, c)
    ensures Queried(s, c, sel, db).Aborted? <==> exists o :: o in sel && db.query(c, o.sql.value).QueryFailed?
  {
    if sel != [] {
      var init := sel[..|sel| - 1];
      var last := sel[|sel| - 1];
      assert sel == init + [last];
      QueriedAbortsIff(s, c, init, db);
      if Queried(s, c, init, db).Aborted? {
        var o :| o in init && db.query(c, o.sql.value).QueryFailed?;
        assert o in sel;
      } else if o :| o in sel && db.query(c, o.sql.value).QueryFailed? {
        assert o in init || o == last;
      }
    }
  }

  /** `run` fails exactly when one of its connections fails, whatever order
      the connections and objects come in. */
  lemma {:induction false} LoadAbortsIff(connections: seq<DbConnection>, objects: seq<DbObject>, db: Database)
    ensures Load(connections, objects, db).Aborted? <==> exists c :: c in connections && Fails(c, objects, db)
  {
    if connections != [] {
      var init := connections[..|connections| - 1];
      var c := connections[|connections| - 1];
      assert connections == init + [c];
      LoadAbortsIff(init, objects, db);
      var s := Load(init, objects, db);
      if s.Aborted? {
        var d :| d in init && Fails(d, objects, db);
        assert d in connections;
      } else {
        if Selection(objects, c) != [] && Connect(c, db).None? {
          QueriedAbortsIff(s, c, Selection(objects, c), db);
        }
        if ConnectionStep(s, c, objects, db).Aborted? {
          assert Fails(c, objects, db) && c in connections;
        }
        if d :| d in connections && Fails(d, objects, db) {
          assert d in init || d == c;
        }
      }
    }
  }

  /** A connection without selected objects is skipped: the loop goes on
      whatever opening it would have done. */
  lemma SkipsUnselected(s: Loading, c: DbConnection, objects: seq<DbObject>, db: Database)
    requires Selection(objects, c) == []
    ensures ConnectionStep(s, c, objects, db) == s
    ensures !Fails(c, objects, db)
  {
  }

  /** The rows a selected object's query gives, when it gives any. */
  function Answer(c: DbConnection, o: DbObject, db: Database): seq<Row>
    requires Selected(o, c)
  {
    match db.query(c, o.sql.value)
    case ResultSet(rows) => KeptRows(rows)
    case QueryFailed(_) => []
  }

  /** The number of rows held by the lists under the given keys. */
  ghost function RowSum(m: map<string, seq<Row>>, keys: set<string>): nat
    requires keys <= m.Keys
  {
    if keys == {} then 0
    else
      var k :| k in keys;
      |m[k]| + RowSum(m, keys - {k})
  }

  /** The number of rows held by all the lists of the map. */
  ghost function RowTotal(m: map<string, seq<Row>>): nat {
    RowSum(m, m.Keys)
  }

  /** Any key can be taken out of the sum first. */
  lemma {:induction false} RowSumRemove(m: map<string, seq<Row>>, keys: set<string>, k: string)
    requires keys <= m.Keys && k in keys
    ensures RowSum(m, keys) == |m[k]| + RowSum(m, keys - {k})
    decreases keys
  {
    var j :| j in keys && RowSum(m, keys) == |m[j]| + RowSum(m, keys - {j});
    if j != k {
      RowSumRemove(m, keys - {j}, k);
      RowSumRemove(m, keys - {k}, j);
      assert keys - {j} - {k} == keys - {k} - {j};
    }
  }

  /** The sum only looks at the lists under the given keys. */
  lemma {:induction false} RowSumAgree(m: map<string, seq<Row>>, m': map<string, seq<Row>>, keys: set<string>)
    requires keys <= m.Keys && keys <= m'.Keys
    requires forall k :: k in keys ==> m[k] == m'[k]
    ensures RowSum(m, keys) == RowSum(m', keys)
    decreases keys
  {
    if keys != {} {
      var k :| k in keys;
      RowSumRemove(m, keys, k);
      RowSumRemove(m', keys, k);
      RowSumAgree(m, m', keys - {k});
    }
  }

  /** A list stored under a new key adds its rows to the total. */
  lemma RowTotalPut(m: map<string, seq<Row>>, k: string, v: seq<Row>)
    requires k !in m
    ensures RowTotal(m[k := v]) == RowTotal(m) + |v|
  {
    var m' := m[k := v];
    RowSumRemove(m', m'.Keys, k);
    assert m'.Keys - {k} == m.Keys;
    RowSumAgree(m, m', m.Keys);
  }

  /** The names of a list of objects. */
  function Names(objects: seq<DbObject>): set<string> {
    set o | o in objects :: o.name
  }

  /** What the inner loop has done to the state `s` once it reaches `q`:
      each selected object's rows stored under its name, what was stored
      before kept, and exactly the stored rows counted. */
  ghost predicate Gathered(s: Loading, q: Loading, c: DbConnection, sel: seq<DbObject>, db: Database)
    requires s.Loading? && q.Loading? && forall o :: o in sel ==> Selected(o, c)
  {
    && q.mapObjects.Keys == s.mapObjects.Keys + Names(sel)
    && (forall k :: k in s.mapObjects ==> q.mapObjects[k] == s.mapObjects[k])
    && (forall o :: o in sel ==> q.mapObjects[o.name] == Answer(c, o, db))
    && q.objectsLoaded + RowTotal(s.mapObjects) == s.objectsLoaded + RowTotal(q.mapObjects)
  }

  /** One more object keeps the inner loop's account. */
  lemma GatheredStep(s: Loading, p: Loading, c: DbConnection, init: seq<DbObject>, last: DbObject, db: Database)
    requires s.Loading? && p.Loading? && Selected(last, c) && forall o :: o in init ==> Selected(o, c)
    requires Gathered(s, p, c, init, db)
    requires last.name !in s.mapObjects && last.name !in Names(init)
    requires QueryStep(p, c, last, db).Loading?
    ensures forall o :: o in init + [last] ==> Selected(o, c)
    ensures Gathered(s, QueryStep(p, c, last, db), c, init + [last], db)
  {
    var q := QueryStep(p, c, last, db);
    var sel := init + [last];
    assert Names(sel) == Names(init) + {last.name};
    assert last.name !in p.mapObjects;
    RowTotalPut(p.mapObjects, last.name, Answer(c, last, db));
    assert q.mapObjects == p.mapObjects[last.name := Answer(c, last, db)];
    forall o | o in sel
      ensures q.mapObjects[o.name] == Answer(c, o, db)
    {
      if o != last {
        assert o in init;
      }
    }
  }

  /** The objects before the last of a distinctly named list are distinctly
      named, and none shares the last one's name. */
  lemma DistinctInit(sel: seq<DbObject>)
    requires DistinctNames(sel) && sel != []
    ensures DistinctNames(sel[..|sel| - 1])
    ensures forall o :: o in sel[..|sel| - 1] ==> o.name != sel[|sel| - 1].name
  {
    var init := sel[..|sel| - 1];
    assert forall i :: 0 <= i < |init| ==> init[i] == sel[i];
  }

  /** On an open statement, the inner loop over distinctly named objects
      that were not stored before gathers their answers. */
  lemma {:induction false} QueriedGathers(s: Loading, c: DbConnection, sel: seq<DbObject>, db: Database)
    requires s.Loading? && forall o :: o in sel ==> Selected(o, c)
    requires DistinctNames(sel) && forall o :: o in sel ==> o.name !in s.mapObjects
    requires Queried(s, c, sel, db).Loading?
    ensures Gathered(s, Queried(s, c, sel, db), c, sel, db)
  {
    if sel == [] {
      assert Names(sel) == {};
    } else {
      var init := sel[..|sel| - 1];
      var last := sel[|sel| - 1];
      assert sel == init + [last];
      assert forall o :: o in init ==> o in sel;
      var p := Queried(s, c, init, db);
      assert p.Loading?;
      DistinctInit(sel);
      QueriedGathers(s, c, init, db);
      GatheredStep(s, p, c, init, last, db);
    }
  }

  /** No two connections share a name, as keys of the connections map. */
  predicate DistinctConnections(connections: seq<DbConnection>) {
    forall i, j :: 0 <= i < j < |connections| ==> connections[i].name != connections[j].name
  }

  /** The names of the objects some connection selects. */
  ghost function SelectedNames(connections: seq<DbConnection>, objects: seq<DbObject>): set<string> {
    set c, o | c in connections && o in objects && Selected(o, c) :: o.name
  }

  /** Two different objects of a distinctly named list differ in name. */
  lemma NamesDiffer(objects: seq<DbObject>, o: DbObject, o': DbObject)
    requires DistinctNames(objects) && o in objects && o' in objects && o != o'
    ensures o.name != o'.name
  {
    var i :| 0 <= i < |objects| && objects[i] == o;
    var j :| 0 <= j < |objects| && objects[j] == o';
    assert i != j;
  }

  /** The names one more connection selects. */
  lemma SelectedNamesSnoc(init: seq<DbConnection>, c: DbConnection, objects: seq<DbObject>)
    ensures SelectedNames(init + [c], objects) == SelectedNames(init, objects) + Names(Selection(objects, c))
  {
    var cs := init + [c];
    forall n | n in SelectedNames(cs, objects)
      ensures n in SelectedNames(init, objects) + Names(Selection(objects, c))
    {
      var c', o :| c' in cs && o in objects && Selected(o, c') && o.name == n;
      if c' == c {
        assert o in Selection(objects, c);
      } else {
        assert c' in init;
      }
    }
    forall n | n in SelectedNames(init, objects) + Names(Selection(objects, c))
      ensures n in SelectedNames(cs, objects)
    {
      if n in SelectedNames(init, objects) {
        var c', o :| c' in init && o in objects && Selected(o, c') && o.name == n;
        assert c' in cs;
      } else {
        var o :| o in Selection(objects, c) && o.name == n;
        assert c in cs;
      }
    }
  }

  /** A connection after distinctly named ones selects no object an
      earlier one selects. */
  lemma FreshNames(init: seq<DbConnection>, c: DbConnection, objects: seq<DbObject>, o: DbObject)
    requires DistinctNames(objects) && DistinctConnections(init + [c])
    requires o in objects && Selected(o, c)
    ensures o.name !in SelectedNames(init, objects)
  {
    forall c', o' | c' in init && o' in objects && Selected(o', c')
      ensures o'.name != o.name
    {
      var i :| 0 <= i < |init| && init[i] == c';
      assert (init + [c])[i] == c' && (init + [c])[|init|] == c;
      NamesDiffer(objects, o, o');
    }
  }

  /** A completed load holds, under each selected object's name, the rows
      its query gave, nothing else, and counts exactly the rows it holds. */
  ghost predicate Gathers(l: Loading, connections: seq<DbConnection>, objects: seq<DbObject>, db: Database)
    requires l.Loading?
  {
    && l.mapObjects.Keys == SelectedNames(connections, objects)
    && (forall c, o | c in connections && o in objects && Selected(o, c) :: l.mapObjects[o.name] == Answer(c, o, db))
    && l.objectsLoaded == RowTotal(l.mapObjects)
  }

  /** The outer loop over distinctly named connections and objects gathers
      every query's answer. */
  lemma {:induction false} LoadGathers(connections: seq<DbConnection>, objects: seq<DbObject>, db: Database)
    requires DistinctNames(objects) && DistinctConnections(connections)
    requires Load(connections, objects, db).Loading?
    ensures Gathers(Load(connections, objects, db), connections, objects, db)
  {
    if connections == [] {
      assert SelectedNames(connections, objects) == {};
      assert RowTotal(map[]) == 0;
    } else {
      var init := connections[..|connections| - 1];
      var c := connections[|connections| - 1];
      assert connections == init + [c];
      var s := Load(init, objects, db);
      assert s.Loading?;
      assert DistinctConnections(init) by {
        forall i, j | 0 <= i < j < |init|
          ensures init[i].name != init[j].name
        {
          assert init[i] == connections[i] && init[j] == connections[j];
        }
      }
      LoadGathers(init, objects, db);
      SelectedNamesSnoc(init, c, objects);
      var sel := Selection(objects, c);
      if sel == [] {
        LoadGathersSkip(init, c, objects, db);
      } else {
        LoadGathersQuery(init, c, objects, db);
      }
    }
  }

  /** A connection that selects nothing leaves a gathered load gathered. */
  lemma LoadGathersSkip(init: seq<DbConnection>, c: DbConnection, objects: seq<DbObject>, db: Database)
    requires Load(init, objects, db).Loading? && Selection(objects, c) == []
    requires Gathers(Load(init, objects, db), init, objects, db)
    ensures Load(init + [c], objects, db) == Load(init, objects, db)
    ensures Gathers(Load(init, objects, db), init + [c], objects, db)
  {
    var cs := init + [c];
    assert cs[..|cs| - 1] == init;
    SelectedNamesSnoc(init, c, objects);
    assert Names(Selection(objects, c)) == {};
    forall c', o | c' in cs && o in objects && Selected(o, c')
      ensures c' in init
    {
      if c' == c {
        assert false;
      }
    }
  }

  /** A connection that selects something and completes its queries was
      opened, and the load after it is its inner loop's. */
  lemma LoadSnocQueried(init: seq<DbConnection>, c: DbConnection, objects: seq<DbObject>, db: Database)
    requires Load(init, objects, db).Loading? && Load(init + [c], objects, db).Loading?
    requires Selection(objects, c) != []
    ensures Connect(c, db).None?
    ensures Load(init + [c], objects, db) == Queried(Load(init, objects, db), c, Selection(objects, c), db)
  {
    var cs := init + [c];
    assert cs[..|cs| - 1] == init;
  }

  /** A connection that selects something and completes its queries
      leaves a gathered load gathered. */
  lemma LoadGathersQuery(init: seq<DbConnection>, c: DbConnection, objects: seq<DbObject>, db: Database)
    requires DistinctNames(objects) && DistinctConnections(init + [c])
    requires Load(init, objects, db).Loading? && Load(init + [c], objects, db).Loading?
    requires Selection(objects, c) != []
    requires Gathers(Load(init, objects, db), init, objects, db)
    ensures Gathers(Load(init + [c], objects, db), init + [c], objects, db)
  {
    var cs := init + [c];
    var s := Load(init, objects, db);
    var sel := Selection(objects, c);
    LoadSnocQueried(init, c, objects, db);
    var q := Queried(s, c, sel, db);
    SelectionDistinct(objects, c);
    forall o | o in sel
      ensures o.name !in s.mapObjects
    {
      FreshNames(init, c, objects, o);
    }
    QueriedGathers(s, c, sel, db);
    SelectedNamesSnoc(init, c, objects);
    forall c', o | c' in cs && o in objects && Selected(o, c')
      ensures q.mapObjects[o.name] == Answer(c', o, db)
    {
      if c' == c {
        assert o in sel;
      } else {
        assert c' in init;
        assert o.name in s.mapObjects;
      }
    }
  }

  // ---------------------------------------------------------------------
  // The command

  /** `values()` of a hash map: each value once, in an order the model
      leaves open; `keys` lists their keys in the same order. */
  method Values<T>(m: map<string, T>) returns (keys: seq<string>, values: seq<T>)
    ensures Enumerates(keys, m.Keys)
    ensures |values| == |keys| && forall i :: 0 <= i < |keys| ==> values[i] == m[keys[i]]
  {
    keys, values := [], [];
    var remaining := m.Keys;
    while remaining != {}
      invariant ListedSoFar(keys, remaining, m.Keys)
      invariant |values| == |keys| && forall i :: 0 <= i < |keys| ==> values[i] == m[keys[i]]
      decreases |remaining|
    {
      var k :| k in remaining;
      ListedStep(keys, remaining, m.Keys, k);
      keys, values := keys + [k], values + [m[k]];
      remaining := remaining - {k};
    }
  }

  /** Values listed under distinct keys, each naming itself by its key,
      have distinct names. */
  lemma ValuesDistinct(conns: map<string, DbConnection>, keys: seq<string>, cs: seq<DbConnection>,
                       objs: map<string, DbObject>, okeys: seq<string>, os: seq<DbObject>)
    requires Enumerates(keys, conns.Keys) && |cs| == |keys| && forall i :: 0 <= i < |keys| ==> cs[i] == conns[keys[i]]
    requires Enumerates(okeys, objs.Keys) && |os| == |okeys| && forall i :: 0 <= i < |okeys| ==> os[i] == objs[okeys[i]]
    requires forall n :: n in conns ==> conns[n].name == n
    requires forall n :: n in objs ==> objs[n].name == n
    ensures DistinctConnections(cs) && DistinctNames(os)
  {
    assert forall i :: 0 <= i < |cs| ==> cs[i].name == keys[i];
    assert forall i :: 0 <= i < |os| ==> os[i].name == okeys[i];
  }

  /** The loading half of `run`: the connections and objects of the
      configuration, each in `values()` order, then the loops. */
  method LoadPhase(props: seq<Property>, connectionPrefix: string, objectPrefix: string, db: Database)
    returns (loading: Loading, ghost connections: seq<DbConnection>, ghost objects: seq<DbObject>)
    ensures var conns := ConnectionUtils.Connections(props, connectionPrefix);
      && |connections| == |conns| && (forall c :: c in connections <==> c in conns.Values)
    ensures var objs := ObjectUtils.Objects(props, objectPrefix);
      && |objects| == |objs| && (forall o :: o in objects <==> o in objs.Values)
    ensures DistinctConnections(connections) && DistinctNames(objects)
    ensures loading == Load(connections, objects, db)
    ensures loading.Aborted? <==> exists c :: c in connections && Fails(c, objects, db)
    ensures loading.Loading? ==> Gathers(loading, connections, objects, db)
  {
    var conns := ConnectionUtils.LoadConnections(props, connectionPrefix);
    var objs := ObjectUtils.LoadObjects(props, objectPrefix);
    var keys, cs := Values(conns);
    var okeys, os := Values(objs);
    ConnectionUtils.ConnectionsNamedByKey(props, connectionPrefix);
    ObjectUtils.ObjectsNamedByKey(props, objectPrefix);
    ValuesDistinct(conns, keys, cs, objs, okeys, os);
    ValuesListed(conns, keys, cs);
    ValuesListed(objs, okeys, os);
    connections, objects := cs, os;
    loading := LoadFromDatabase(cs, os, db);
    LoadAbortsIff(cs, os, db);
    if loading.Loading? {
      LoadGathers(cs, os, db);
    }
  }

  /** Values listed under an enumeration of the keys are the map's values,
      one per key. */
  lemma ValuesListed<T>(m: map<string, T>, keys: seq<string>, vs: seq<T>)
    requires Enumerates(keys, m.Keys) && |vs| == |keys| && forall i :: 0 <= i < |keys| ==> vs[i] == m[keys[i]]
    ensures |vs| == |m| && forall v :: v in vs <==> v in m.Values
  {
    EnumeratesSize(keys, m.Keys);
    forall v | v in m.Values
      ensures v in vs
    {
      var k :| k in m && m[k] == v;
      var i :| 0 <= i < |keys| && keys[i] == k;
      assert vs[i] == v;
    }
  }

  /** The `scope` argument group: the `--global` and `--local` flags, whose
      defaults are false and true. */
  datatype Scope = Scope(global: bool, local: bool)

  /** The two configurations `getConfig` can read. */
  datatype ConfigSource = LocalConfig | GlobalConfig

  /** `getConfig`: the local configuration when no scope is given or the
      scope is local, the global one otherwise. */
  function ConfigOf(scope: Option<Scope>): (r: ConfigSource)
    ensures r == GlobalConfig <==> scope.Some? && !scope.value.local
  {
    if scope.None? || scope.value.local then LocalConfig else GlobalConfig
  }

  /** `getConfig` never looks at the `--global` flag: with `--local`
      defaulting to true, `--global` alone still reads the local
      configuration. */
  lemma GlobalFlagIgnored(scope: Scope)
    ensures ConfigOf(Some(scope)) == ConfigOf(Some(scope.(global := !scope.global)))
    ensures ConfigOf(Some(Scope(true, true))) == LocalConfig
  {
  }

  /** The lines `setVariable` prints, one per name. */
  function SetLines(names: seq<string>): (r: seq<Output>)
    ensures |r| == |names|
    ensures forall i :: 0 <= i < |names| ==> r[i] == Line("Variable set: " + names[i], Green)
  {
    seq(|names|, i requires 0 <= i < |names| => Line("Variable set: " + names[i], Green))
  }

  lemma SetLinesSnoc(names: seq<string>, n: string)
    ensures SetLines(names + [n]) == SetLines(names) + [Line("Variable set: " + n, Green)]
  {
    var names' := names + [n];
    assert forall i :: 0 <= i < |names| ==> names'[i] == names[i];
  }

  /** The binding `b`, reached from `b0` once the names not in `remaining`
      have been bound to their lists of rows. */
  ghost predicate SeededSoFar(b0: LinkedMap<Value>, b: LinkedMap<Value>, mapObjects: map<string, seq<Row>>, remaining: set<string>) {
    && b.entries.Keys == b0.entries.Keys + (mapObjects.Keys - remaining)
    && (forall k :: k in mapObjects && k !in remaining ==> b.entries[k] == RowList(mapObjects[k]))
    && (forall k :: k in b0.entries && (k !in mapObjects || k in remaining) ==> b.entries[k] == b0.entries[k])
    && KeepsVariables(b0, b)
  }

  /** Binding one more waiting name keeps the account. */
  lemma SeededStep(b0: LinkedMap<Value>, b: LinkedMap<Value>, b': LinkedMap<Value>,
                   mapObjects: map<string, seq<Row>>, remaining: set<string>, k: string)
    requires SeededSoFar(b0, b, mapObjects, remaining) && k in remaining && remaining <= mapObjects.Keys
    requires b'.entries == b.entries[k := RowList(mapObjects[k])] && b.order <= b'.order
    ensures SeededSoFar(b0, b', mapObjects, remaining - {k})
  {
    assert b'.entries.Keys == b.entries.Keys + {k};
    assert mapObjects.Keys - (remaining - {k}) == (mapObjects.Keys - remaining) + {k};
  }

  /** The loop of `run` over `mapObjects.entrySet()`: each stored name is
      bound to its list of rows, in an order the model leaves open
      (`names`), and the other variables are left alone. */
  method Seed(repl: Repl, mapObjects: map<string, seq<Row>>) returns (ghost names: seq<string>)
    requires repl.Valid()
    modifies repl`binding, repl`out
    ensures repl.Valid()
    ensures Enumerates(names, mapObjects.Keys)
    ensures SeededSoFar(old(repl.binding), repl.binding, mapObjects, {})
    ensures repl.out == old(repl.out) + SetLines(names)
  {
    names := [];
    ghost var b0, o0 := repl.binding, repl.out;
    var remaining := mapObjects.Keys;
    while remaining != {}
      invariant repl.Valid()
      invariant ListedSoFar(names, remaining, mapObjects.Keys)
      invariant SeededSoFar(b0, repl.binding, mapObjects, remaining)
      invariant repl.out == o0 + SetLines(names)
      decreases |remaining|
    {
      var k :| k in remaining;
      ListedStep(names, remaining, mapObjects.Keys, k);
      ghost var b1 := repl.binding;
      repl.SetVariable(k, RowList(mapObjects[k]));
      SeededStep(b0, b1, repl.binding, mapObjects, remaining, k);
      SetLinesSnoc(names, k);
      AppendAssociative(o0, SetLines(names), [Line("Variable set: " + k, Green)]);
      names := names + [k];
      remaining := remaining - {k};
    }
  }

  /** `new Repl()` as `run` calls it: a REPL reading `input`, in the state
      `Constructed` describes. */
  method NewRepl(engine: Engine, input: seq<InputEvent>) returns (repl: Repl)
    ensures fresh(repl) && repl.Valid()
    ensures repl.engine == engine && repl.State() == Constructed(engine, input)
  {
    repl := new Repl(engine, input);
    repl.RegisterGreeting();
  }

  /** The REPL `run` builds before starting it: the state `new Repl()`
      gives, with every stored list of rows bound under its object's name,
      in the order `names`, and one line printed per name. */
  ghost predicate Seeded(engine: Engine, input: seq<InputEvent>, mapObjects: map<string, seq<Row>>,
                         names: seq<string>, s: ReplState) {
    var s0 := Constructed(engine, input);
    && Enumerates(names, mapObjects.Keys)
    && SeededSoFar(s0.binding, s.binding, mapObjects, {})
    && s == s0.(binding := s.binding, out := s0.out + SetLines(names))
  }

  /** What the REPL half of `run` does: the seeded REPL `seeded` is
      started and runs `turns` to `final`. */
  ghost predicate SeededRun(engine: Engine, input: seq<InputEvent>, mapObjects: map<string, seq<Row>>,
                            names: seq<string>, seeded: ReplState, turns: seq<ReplState>, final: ReplState) {
    Seeded(engine, input, mapObjects, names, seeded) && ReplLoop.Started(engine, seeded, turns, final)
  }

  /** The names bound before the loop are still bound when it stops, which
      it does at its proper point of the input, with the farewell line
      last. */
  lemma SeededRunKeeps(engine: Engine, input: seq<InputEvent>, mapObjects: map<string, seq<Row>>,
                       names: seq<string>, seeded: ReplState, turns: seq<ReplState>, final: ReplState)
    requires SeededRun(engine, input, mapObjects, names, seeded, turns, final)
    ensures forall k :: k in mapObjects ==> k in final.binding.entries
    ensures ReplLoop.Suffix(input, final.input) && ReplLoop.StoppedAt(input, final.input)
    ensures final.binding.Valid() && final.out != [] && final.out[|final.out| - 1] == ReplLoop.Farewell
  {
    ReplLoop.RanKeeps(engine, turns, final);
    assert KeepsVariables(seeded.binding, final.binding);
  }

  /** The REPL half of `run`: a new REPL, every stored list of rows bound
      under its object's name, then `start`. */
  method ReplPhase(engine: Engine, input: seq<InputEvent>, mapObjects: map<string, seq<Row>>)
    returns (repl: Repl, ghost names: seq<string>, ghost seeded: ReplState, ghost turns: seq<ReplState>)
    ensures fresh(repl) && repl.Valid() && repl.engine == engine
    ensures SeededRun(engine, input, mapObjects, names, seeded, turns, repl.State())
    ensures forall k :: k in mapObjects ==> k in repl.binding.entries
    ensures ReplLoop.Suffix(input, repl.input) && ReplLoop.StoppedAt(input, repl.input)
    ensures |repl.out| > 0 && repl.out[|repl.out| - 1] == ReplLoop.Farewell
  {
    repl, names := SeededRepl(engine, input, mapObjects);
    seeded := repl.State();
    turns := ReplLoop.Start(repl);
    SeededRunKeeps(engine, input, mapObjects, names, seeded, turns, repl.State());
  }

  /** The first steps of the REPL half of `run`: `new Repl()`, then every
      stored list of rows bound. */
  method SeededRepl(engine: Engine, input: seq<InputEvent>, mapObjects: map<string, seq<Row>>)
    returns (repl: Repl, ghost names: seq<string>)
    ensures fresh(repl) && repl.Valid() && repl.engine == engine
    ensures Seeded(engine, input, mapObjects, names, repl.State())
  {
    repl := NewRepl(engine, input);
    names := Seed(repl, mapObjects);
  }

  /** `run`. The configuration `getConfig` picks is read for connections
      and objects; their `values()` orders are `connections` and
      `objects`. When a connection cannot be opened or a query fails, the
      exception ends the command before any REPL exists (`repl` is null).
      Otherwise the REPL half runs. */
  method Run(scope: Option<Scope>, local: seq<Property>, global: seq<Property>,
             connectionPrefix: string, objectPrefix: string, db: Database,
             engine: Engine, input: seq<InputEvent>)
    returns (loading: Loading, repl: Repl?, ghost connections: seq<DbConnection>, ghost objects: seq<DbObject>,
             ghost names: seq<string>, ghost seeded: ReplState, ghost turns: seq<ReplState>)
    ensures var props := if ConfigOf(scope) == LocalConfig then local else global;
      && (forall c :: c in connections <==> c in ConnectionUtils.Connections(props, connectionPrefix).Values)
      && (forall o :: o in objects <==> o in ObjectUtils.Objects(props, objectPrefix).Values)
    ensures DistinctConnections(connections) && DistinctNames(objects)
    ensures loading == Load(connections, objects, db)
    ensures loading.Aborted? <==> exists c :: c in connections && Fails(c, objects, db)
    ensures loading.Loading? ==> Gathers(loading, connections, objects, db)
    ensures loading.Aborted? <==> repl == null
    ensures repl != null ==> fresh(repl) && repl.Valid() && repl.engine == engine
    ensures repl != null ==> SeededRun(engine, input, loading.mapObjects, names, seeded, turns, repl.State())
    ensures repl != null ==> forall k :: k in loading.mapObjects ==> k in repl.binding.entries
    ensures repl != null ==> ReplLoop.Suffix(input, repl.input) && ReplLoop.StoppedAt(input, repl.input)
    ensures repl != null ==> |repl.out| > 0 && repl.out[|repl.out| - 1] == ReplLoop.Farewell
  {
    var props := if ConfigOf(scope) == LocalConfig then local else global;
    loading, connections, objects := LoadPhase(props, connectionPrefix, objectPrefix, db);
    if loading.Aborted? {
      repl, names, turns := null, [], [];
      seeded := ReplState(LinkedMap(map[], []), map[], false, [], []);
    } else {
      repl, names, seeded, turns := ReplPhase(engine, input, loading.mapObjects);
    }
  }
}
