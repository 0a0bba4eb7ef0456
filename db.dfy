/**
 * The database URL built from the environment at start-up (`_build_url` in
 * api/app/db.py): DATABASE_URL wins; otherwise five MYSQL_* settings are
 * assembled, and a missing one stops the start with a message naming it.
 */
module Db {
  import opened Wrappers
  import opened Text

  /** `os.getenv(key, default).strip()`. */
  function Setting(env: map<string, string>, key: string, default: string): string {
    Strip(if key in env then env[key] else default)
  }

  /** The five MYSQL_* settings, each stripped. */
  datatype MySqlConfig = MySqlConfig(host: string, port: string, database: string, user: string, password: string)

  /** The names of the five settings. */
  datatype Key = Host | Port | Database | User | Password

  function EnvName(k: Key): string {
    match k
    case Host => "MYSQL_HOST"
    case Port => "MYSQL_PORT"
    case Database => "MYSQL_DATABASE"
    case User => "MYSQL_USER"
    case Password => "MYSQL_PASSWORD"
  }

  function Value(c: MySqlConfig, k: Key): string {
    match k
    case Host => c.host
    case Port => c.port
    case Database => c.database
    case User => c.user
    case Password => c.password
  }

  /** MYSQL_PORT defaults to 3306 only when it is not set at all. */
  function ReadConfig(env: map<string, string>): MySqlConfig {
    MySqlConfig(Setting(env, EnvName(Host), ""), Setting(env, EnvName(Port), "3306"),
                Setting(env, EnvName(Database), ""), Setting(env, EnvName(User), ""),
                Setting(env, EnvName(Password), ""))
  }

  predicate Complete(c: MySqlConfig) {
    c.host != "" && c.port != "" && c.database != "" && c.user != "" && c.password != ""
  }

  /** `[k]` when setting `k` is empty, `[]` otherwise. */
  function IfBlank(c: MySqlConfig, k: Key): (r: seq<Key>)
    ensures forall j :: j in r <==> j == k && Value(c, k) == ""
  {
    if Value(c, k) == "" then [k] else []
  }

  /** The position of each setting in the order they are checked and reported. */
  function Rank(k: Key): nat {
    match k
    case Host => 0
    case Port => 1
    case Database => 2
    case User => 3
    case Password => 4
  }

  /** The empty settings, in the order HOST, PORT, DATABASE, USER, PASSWORD, each once. */
  function Missing(c: MySqlConfig): (r: seq<Key>)
    ensures Ascending(r)
    ensures forall k :: k in r <==> Value(c, k) == ""
    ensures r == [] <==> Complete(c)
  {
    MissingMembers(c);
    MissingOrder(c);
    IfBlank(c, Host) + (IfBlank(c, Port) + (IfBlank(c, Database) + (IfBlank(c, User) + IfBlank(c, Password))))
  }

  lemma MissingMembers(c: MySqlConfig)
    ensures var r := IfBlank(c, Host) + (IfBlank(c, Port) + (IfBlank(c, Database) + (IfBlank(c, User) + IfBlank(c, Password))));
      && (forall k :: k in r <==> Value(c, k) == "")
      && (r == [] <==> Complete(c))
  {
    var h, p, d := IfBlank(c, Host), IfBlank(c, Port), IfBlank(c, Database);
    var u, w := IfBlank(c, User), IfBlank(c, Password);
    var r := h + (p + (d + (u + w)));
    forall k ensures k in r <==> Value(c, k) == "" {
      assert k in r <==> k in h || k in p || k in d || k in u || k in w;
      assert k == Host || k == Port || k == Database || k == User || k == Password;
    }
    assert r == [] <==> h == [] && p == [] && d == [] && u == [] && w == [];
  }

  lemma MissingOrder(c: MySqlConfig)
    ensures Ascending(IfBlank(c, Host) + (IfBlank(c, Port) + (IfBlank(c, Database) + (IfBlank(c, User) + IfBlank(c, Password)))))
  {
    var p, d := IfBlank(c, Port), IfBlank(c, Database);
    var u, w := IfBlank(c, User), IfBlank(c, Password);
    PrependBlank(c, User, w);
    PrependBlank(c, Database, u + w);
    PrependBlank(c, Port, d + (u + w));
    PrependBlank(c, Host, p + (d + (u + w)));
  }

  /** Each setting comes before every setting after it in the reporting order; so none is listed twice. */
  ghost predicate Ascending(r: seq<Key>) {
    forall i, j :: 0 <= i < j < |r| ==> Rank(r[i]) < Rank(r[j])
  }

  /** Putting an earlier setting in front of a list of later ones keeps the order. */
  lemma PrependBlank(c: MySqlConfig, k: Key, t: seq<Key>)
    requires Ascending(t) && forall x :: x in t ==> Rank(k) < Rank(x)
    ensures Ascending(IfBlank(c, k) + t)
  {
    var r := IfBlank(c, k) + t;
    if Value(c, k) == "" {
      forall i, j | 0 <= i < j < |r| ensures Rank(r[i]) < Rank(r[j]) {
        assert r[j] == t[j - 1];
        if i > 0 {
          assert r[i] == t[i - 1];
        }
      }
    } else {
      assert r == t;
    }
  }

  /** The names of the given settings, in their order. */
  function Names(ks: seq<Key>): (r: seq<string>)
    ensures |r| == |ks| && forall i :: 0 <= i < |ks| ==> r[i] == EnvName(ks[i])
  {
    if ks == [] then [] else [EnvName(ks[0])] + Names(ks[1..])
  }

  const MissingPrefix := "DB config missing: "

  function Url(c: MySqlConfig): string {
    "mysql+pymysql://" + c.user + ":" + c.password + "@" + c.host + ":" + c.port + "/" + c.database
  }

  /** `_build_url`: the URL, or the start-up error's message. */
  function BuildUrl(env: map<string, string>): (r: Result<string, string>)
    ensures Setting(env, "DATABASE_URL", "") != "" ==> r == Ok(Setting(env, "DATABASE_URL", ""))
    ensures Setting(env, "DATABASE_URL", "") == "" ==>
      && (r.Ok? <==> Complete(ReadConfig(env)))
      && (r.Ok? ==> r.value == Url(ReadConfig(env)))
      && (r.Err? ==> r.error == MissingPrefix + Join(Names(Missing(ReadConfig(env))), ", "))
  {
    var url := Setting(env, "DATABASE_URL", "");
    if url != "" then Ok(url)
    else
      var c := ReadConfig(env);
      var missing := Missing(c);
      if missing != [] then Err(MissingPrefix + Join(Names(missing), ", "))
      else Ok(Url(c))
  }

  /** A MYSQL_PORT that is set but blank is reported missing; the default applies only when it is absent. */
  lemma BlankPortIsMissing(env: map<string, string>)
    requires Setting(env, "DATABASE_URL", "") == ""
    requires "MYSQL_PORT" in env && forall k :: 0 <= k < |env["MYSQL_PORT"]| ==> IsSpace(env["MYSQL_PORT"][k])
    ensures BuildUrl(env).Err?
    ensures Port in Missing(ReadConfig(env))
  {
    StripBlank(env["MYSQL_PORT"]);
    assert ReadConfig(env).port == "";
  }

  /** Without MYSQL_PORT the port is 3306. */
  lemma DefaultPort(env: map<string, string>)
    requires "MYSQL_PORT" !in env
    ensures ReadConfig(env).port == "3306"
  {
    StripUnchanged("3306");
  }

  /** A setting that is not in the environment and has an empty default reads as empty. */
  lemma UnsetIsBlank(env: map<string, string>, key: string)
    requires key !in env
    ensures Setting(env, key, "") == ""
  {
    StripBlank("");
  }

  /** An empty environment reads as blank settings with the default port. */
  lemma EmptyEnvironment()
    ensures ReadConfig(map[]) == MySqlConfig("", "3306", "", "", "")
  {
    var env: map<string, string> := map[];
    DefaultPort(env);
    UnsetIsBlank(env, EnvName(Host));
    UnsetIsBlank(env, EnvName(Database));
    UnsetIsBlank(env, EnvName(User));
    UnsetIsBlank(env, EnvName(Password));
  }

  /** With nothing configured, every setting but the defaulted port is named, in order. */
  lemma NothingConfigured()
    ensures Missing(ReadConfig(map[])) == [Host, Database, User, Password]
  {
    EmptyEnvironment();
    DefaultsMissing();
  }

  lemma DefaultsMissing()
    ensures Missing(MySqlConfig("", "3306", "", "", "")) == [Host, Database, User, Password]
  {
    var c := MySqlConfig("", "3306", "", "", "");
    assert IfBlank(c, Port) == [];
  }
}
