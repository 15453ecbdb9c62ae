/**
 * The choice of database URL in `MyBot.__init__` (main.py:101-107) from the
 * `database` section of the configuration, whose values are given here as the
 * text an f-string makes of them.
 */
module DatabaseUrl {
  import opened Wrappers

  /** `KeyError` for a missing field, `ValueError("Unsupported database type ...")`. */
  datatype ConfigError = KeyError(key: string) | UnsupportedDatabaseType

  const SqliteScheme := "sqlite+aiosqlite:///"
  const PostgresScheme := "postgresql+asyncpg://"

  /** The PostgreSQL fields in the order the f-string reads them (main.py:105). */
  const PostgresFields: seq<string> := ["user", "password", "host", "port", "dbname"]

  /** The first of `keys` that `db` lacks: the one whose lookup raises. */
  function FirstMissing(db: map<string, string>, keys: seq<string>): (r: Option<string>)
    ensures r.None? <==> forall i :: 0 <= i < |keys| ==> keys[i] in db
    ensures r.Some? ==> exists i :: 0 <= i < |keys| && keys[i] == r.value && r.value !in db
                                   && forall j :: 0 <= j < i ==> keys[j] in db
  {
    if keys == [] then None
    else if keys[0] !in db then Some(keys[0])
    else match FirstMissing(db, keys[1..])
      case None => None
      case Some(k) =>
        FirstMissingStep(db, keys, k);
        Some(k)
  }

  /** A key missing first from the tail is missing first from the whole list when the head is present. */
  lemma FirstMissingStep(db: map<string, string>, keys: seq<string>, k: string)
    requires |keys| > 0 && keys[0] in db
    requires exists i :: 0 <= i < |keys[1..]| && keys[1..][i] == k && k !in db
                         && forall j :: 0 <= j < i ==> keys[1..][j] in db
    ensures exists i :: 0 <= i < |keys| && keys[i] == k && k !in db
                        && forall j :: 0 <= j < i ==> keys[j] in db
  {
    var i :| 0 <= i < |keys[1..]| && keys[1..][i] == k && k !in db
      && forall j :: 0 <= j < i ==> keys[1..][j] in db;
    assert keys[i + 1] == k;
  }

  predicate HasPostgresFields(db: map<string, string>)
  {
    "user" in db && "password" in db && "host" in db && "port" in db && "dbname" in db
  }

  lemma PostgresFieldsPresent(db: map<string, string>)
    ensures (forall i :: 0 <= i < |PostgresFields| ==> PostgresFields[i] in db) <==> HasPostgresFields(db)
  {
    if HasPostgresFields(db) {
      forall i | 0 <= i < |PostgresFields| ensures PostgresFields[i] in db {
        assert i in {0, 1, 2, 3, 4};
      }
    }
    if forall i :: 0 <= i < |PostgresFields| ==> PostgresFields[i] in db {
      assert PostgresFields[0] in db && PostgresFields[1] in db && PostgresFields[2] in db;
      assert PostgresFields[3] in db && PostgresFields[4] in db;
    }
  }

  function PostgresUrl(user: string, password: string, host: string, port: string, dbname: string): (r: string)
    ensures StartsWith(r, PostgresScheme) && !StartsWith(r, SqliteScheme)
    ensures |r| == |PostgresScheme| + |user| + |password| + |host| + |port| + |dbname| + 4
  {
    var r := PostgresScheme + user + ":" + password + "@" + host + ":" + port + "/" + dbname;
    assert r[..|PostgresScheme|] == PostgresScheme && r[0] == 'p';
    r
  }

  /** The URL handed to the database layer, or the error that aborts start-up. */
  function DatabaseUrlOf(db: map<string, string>): (r: Result<string, ConfigError>)
    ensures r.Success? <==>
      && "type" in db
      && ((db["type"] == "sqlite" && "path" in db) || (db["type"] == "postgresql" && HasPostgresFields(db)))
    ensures "type" !in db ==> r == Failure(KeyError("type"))
    ensures "type" in db && db["type"] != "sqlite" && db["type"] != "postgresql" ==> r == Failure(UnsupportedDatabaseType)
    ensures r.Failure? && r.error.KeyError? ==> r.error.key !in db
  {
    if "type" !in db then Failure(KeyError("type"))
    else if db["type"] == "sqlite" then
      if "path" !in db then Failure(KeyError("path"))
      else Success(SqliteScheme + db["path"])
    else if db["type"] == "postgresql" then
      PostgresFieldsPresent(db);
      match FirstMissing(db, PostgresFields)
      case Some(k) => Failure(KeyError(k))
      case None => Success(PostgresUrl(db["user"], db["password"], db["host"], db["port"], db["dbname"]))
    else Failure(UnsupportedDatabaseType)
  }

  // ----- Reading a URL back -----

  /** The connection target a URL names. */
  datatype Target =
    | Sqlite(path: string)
    | Postgres(user: string, password: string, host: string, port: string, dbname: string)

  predicate StartsWith(s: string, p: string) { |p| <= |s| && s[..|p|] == p }

  /** Splits `s` at the first `c`. */
  function SplitFirst(s: string, c: char): (r: Option<(string, string)>)
    ensures r.None? <==> c !in s
    ensures r.Some? ==> c !in r.value.0 && s == r.value.0 + [c] + r.value.1
  {
    if |s| == 0 then None
    else if s[0] == c then Some(([], s[1..]))
    else match SplitFirst(s[1..], c)
      case None => None
      case Some((a, b)) => Some(([s[0]] + a, b))
  }

  lemma {:induction false} SplitFirstOfJoin(a: string, c: char, b: string)
    requires c !in a
    ensures SplitFirst(a + [c] + b, c) == Some((a, b))
  {
    if a != [] {
      SplitFirstOfJoin(a[1..], c, b);
      assert (a + [c] + b)[1..] == a[1..] + [c] + b;
      assert [a[0]] + a[1..] == a;
    } else {
      assert a + [c] + b == [c] + b;
    }
  }

  function ParseDatabaseUrl(url: string): Option<Target>
  {
    if StartsWith(url, SqliteScheme) then Some(Sqlite(url[|SqliteScheme|..]))
    else if StartsWith(url, PostgresScheme) then
      match SplitFirst(url[|PostgresScheme|..], ':')
      case None => None
      case Some((user, afterUser)) =>
        match SplitFirst(afterUser, '@')
        case None => None
        case Some((password, afterPassword)) =>
          match SplitFirst(afterPassword, ':')
          case None => None
          case Some((host, afterHost)) =>
            match SplitFirst(afterHost, '/')
            case None => None
            case Some((port, dbname)) => Some(Postgres(user, password, host, port, dbname))
    else None
  }

  /** No field contains the separator written after it, so the URL can be read back. */
  predicate ReadableFields(db: map<string, string>)
  {
    && ("user" in db ==> ':' !in db["user"])
    && ("password" in db ==> '@' !in db["password"])
    && ("host" in db ==> ':' !in db["host"])
    && ("port" in db ==> '/' !in db["port"])
  }

  /** The target the section describes. */
  function TargetOf(db: map<string, string>): Target
    requires DatabaseUrlOf(db).Success?
  {
    if db["type"] == "sqlite" then Sqlite(db["path"])
    else Postgres(db["user"], db["password"], db["host"], db["port"], db["dbname"])
  }

  /** The URL built from a section names exactly that section's target. */
  lemma DatabaseUrlRoundTrip(db: map<string, string>)
    requires DatabaseUrlOf(db).Success? && (db["type"] == "postgresql" ==> ReadableFields(db))
    ensures ParseDatabaseUrl(DatabaseUrlOf(db).value) == Some(TargetOf(db))
  {
    var url := DatabaseUrlOf(db).value;
    if db["type"] == "sqlite" {
      assert url[..|SqliteScheme|] == SqliteScheme;
      assert url[|SqliteScheme|..] == db["path"];
    } else {
      var user, password, host, port, dbname := db["user"], db["password"], db["host"], db["port"], db["dbname"];
      assert url == PostgresScheme + (user + [':'] + (password + ['@'] + (host + [':'] + (port + ['/'] + dbname))));
      assert !StartsWith(url, SqliteScheme) by {
        assert url[0] == 'p';
      }
      assert url[..|PostgresScheme|] == PostgresScheme;
      assert url[|PostgresScheme|..] == user + [':'] + (password + ['@'] + (host + [':'] + (port + ['/'] + dbname)));
      SplitFirstOfJoin(user, ':', password + ['@'] + (host + [':'] + (port + ['/'] + dbname)));
      SplitFirstOfJoin(password, '@', host + [':'] + (port + ['/'] + dbname));
      SplitFirstOfJoin(host, ':', port + ['/'] + dbname);
      SplitFirstOfJoin(port, '/', dbname);
    }
  }

  /** A SQLite URL and a PostgreSQL URL are never equal. */
  lemma SchemesDistinct(a: map<string, string>, b: map<string, string>)
    requires DatabaseUrlOf(a).Success? && DatabaseUrlOf(b).Success?
    requires a["type"] == "sqlite" && b["type"] == "postgresql"
    ensures DatabaseUrlOf(a).value != DatabaseUrlOf(b).value
  {
    assert DatabaseUrlOf(a).value[0] == 's';
    assert DatabaseUrlOf(b).value[0] == 'p';
  }
}
