/**
 * The SQL URL classes of rowgenerators/appurl/sql.py: `Sql`, with the query
 * kept in slot 0 of the fragment and a connection string whose password is
 * filled in from the environment; `SqlDsn`, which names a DSN to be looked up
 * in a table; and `OracleSql`. The three are one class here, told apart by
 * `variant`.
 */
module SqlUrl {
  import opened Wrappers
  import opened PyText

  /** Which of the SQL URL classes an object is. */
  datatype Variant = Sql | SqlDsn | OracleSql

  /** `Sql.match_priority`, inherited by both subclasses: one below the base `Url` class's priority. */
  function MatchPriority(v: Variant, basePriority: int): (p: int)
    ensures p < basePriority && p + 1 == basePriority
  {
    basePriority - 1
  }

  /** The `_match` class methods: `SqlDsn` claims the `sql` scheme and `OracleSql` the `oracle` scheme. */
  function MatchVariant(proto: string): (v: Option<Variant>)
    ensures v == Some(SqlDsn) <==> proto == "sql"
    ensures v == Some(OracleSql) <==> proto == "oracle"
    ensures v != Some(Sql)
  {
    if proto == "sql" then Some(SqlDsn) else if proto == "oracle" then Some(OracleSql) else None
  }

  // ---- str.format(**environ) on the password ----

  /** Why `str.format` with keyword arguments only fails. */
  datatype FormatError =
    | MissingKey(name: string)  // `KeyError`: the placeholder names no variable
    | MissingIndex              // `IndexError`: `{}` or `{0}` asks for a positional argument and there are none
    | Unbalanced                // `ValueError`: a single `}`, or a `{` that is never closed

  function Prepend(p: string, r: Result<string, FormatError>): Result<string, FormatError> {
    match r
    case Ok(t) => Ok(p + t)
    case Err(e) => Err(e)
  }

  /**
   * `s.format(**env)`, left to right: `{{` and `}}` stand for one brace, and
   * `{name}` for `env[name]`. The first failure met is the one raised.
   */
  function Format(s: string, env: map<string, string>): Result<string, FormatError>
    decreases |s|
  {
    if s == [] then Ok([])
    else if s[0] == '{' then
      if |s| >= 2 && s[1] == '{' then Prepend("{", Format(s[2..], env))
      else
        var j := IndexOf(s[1..], '}');
        if j == |s| - 1 then Err(Unbalanced)
        else
          var name := s[1..j + 1];
          if name == [] || AllDigits(name) then Err(MissingIndex)
          else if name !in env then Err(MissingKey(name))
          else Prepend(env[name], Format(s[j + 2..], env))
    else if s[0] == '}' then
      if |s| >= 2 && s[1] == '}' then Prepend("}", Format(s[2..], env)) else Err(Unbalanced)
    else Prepend([s[0]], Format(s[1..], env))
  }

  /** A field name made of digits only is a positional index; any other is a keyword. */
  predicate AllDigits(name: string) {
    forall k :: 0 <= k < |name| ==> IsDigit(name[k])
  }

  /** A placeholder name `Format` looks up in the environment. */
  predicate KeyName(name: string) {
    name != [] && !AllDigits(name) && '{' !in name && '}' !in name
  }

  /** `{name}` alone is replaced by the variable's value, or fails naming the variable. */
  lemma FormatPlaceholder(name: string, env: map<string, string>)
    requires KeyName(name)
    ensures name in env ==> Format("{" + name + "}", env) == Ok(env[name])
    ensures name !in env ==> Format("{" + name + "}", env) == Err(MissingKey(name))
  {
    var s := "{" + name + "}";
    assert s[1] == name[0] != '{';
    assert s[1..] == name + "}";
    IndexOfAppend(name, "}", '}');
    assert IndexOf(s[1..], '}') == |name|;
    assert s[1..|name| + 1] == name;
    assert s[|name| + 2..] == [];
    if name in env {
      assert env[name] + [] == env[name];
    }
  }

  /** `{}` or `{0}` alone asks for a positional argument, whatever the environment holds. */
  lemma FormatPositional(name: string, env: map<string, string>)
    requires AllDigits(name)
    ensures Format("{" + name + "}", env) == Err(MissingIndex)
  {
    var s := "{" + name + "}";
    assert s[1..] == name + "}";
    if name != [] {
      assert s[1] == name[0] && IsDigit(name[0]);
    }
    assert '}' !in name by {
      forall k | 0 <= k < |name| ensures name[k] != '}' { assert IsDigit(name[k]); }
    }
    IndexOfAppend(name, "}", '}');
    assert s[1..|name| + 1] == name;
  }

  /** The text with every brace doubled, so that formatting gives it back. */
  function Escape(s: string): (e: string)
    ensures |e| >= |s|
  {
    if s == [] then []
    else (if s[0] == '{' || s[0] == '}' then [s[0], s[0]] else [s[0]]) + Escape(s[1..])
  }

  /** Formatting undoes escaping, whatever the environment: a password with its braces doubled is taken literally. */
  lemma {:induction false} FormatEscape(s: string, env: map<string, string>)
    ensures Format(Escape(s), env) == Ok(s)
    decreases |s|
  {
    if s != [] {
      var rest := Escape(s[1..]);
      FormatEscape(s[1..], env);
      if s[0] == '{' || s[0] == '}' {
        var e := [s[0], s[0]] + rest;
        assert Escape(s) == e;
        assert e[2..] == rest;
      } else {
        var e := [s[0]] + rest;
        assert Escape(s) == e;
        assert e[1..] == rest;
      }
      assert [s[0]] + s[1..] == s;
    }
  }

  /** Text without braces is left as it is. */
  lemma {:induction false} FormatPlain(s: string, env: map<string, string>)
    requires '{' !in s && '}' !in s
    ensures Format(s, env) == Ok(s)
  {
    EscapePlain(s);
    FormatEscape(s, env);
  }

  lemma {:induction false} EscapePlain(s: string)
    requires '{' !in s && '}' !in s
    ensures Escape(s) == s
  {
    if s != [] {
      assert '{' !in s[1..] && '}' !in s[1..];
      EscapePlain(s[1..]);
      assert [s[0]] + s[1..] == s;
    }
  }

  // ---- the URL objects ----

  datatype UrlError =
    | AppUrlError(dsnName: string)      // the DSN is not in the table
    | RowGeneratorError(name: string)   // the password names a variable missing from the environment
    | IndexError                        // the fragment list has no slot 0, or the password asks for a positional argument
    | ValueError                        // the password has an unbalanced brace
    | AttributeError                    // the URL has no password to format

  /** What `dsn` makes of the password: the interpolated text, or the error it raises. */
  function InterpolatePassword(password: Option<string>, env: map<string, string>): (r: Result<string, UrlError>)
    ensures password.None? ==> r == Err(AttributeError)
    ensures password.Some? && Format(password.value, env).Ok? ==> r == Ok(Format(password.value, env).value)
    ensures password.Some? && Format(password.value, env).Err? ==>
      r.Err? && (r.error.RowGeneratorError? <==> Format(password.value, env).error.MissingKey?)
  {
    if password.None? then Err(AttributeError)
    else match Format(password.value, env)
      case Ok(p) => Ok(p)
      case Err(MissingKey(k)) => Err(RowGeneratorError(k))
      case Err(MissingIndex) => Err(IndexError)
      case Err(Unbalanced) => Err(ValueError)
  }

  /** A password that is one placeholder takes the variable's value, or fails naming it. */
  lemma PasswordFromEnvironment(name: string, env: map<string, string>)
    requires KeyName(name)
    ensures name in env ==> InterpolatePassword(Some("{" + name + "}"), env) == Ok(env[name])
    ensures name !in env ==> InterpolatePassword(Some("{" + name + "}"), env) == Err(RowGeneratorError(name))
  {
    FormatPlaceholder(name, env);
  }

  /** The parts of a parsed URL that the SQL classes read or write. */
  datatype UrlParts = UrlParts(
    variant: Variant,
    proto: string,
    hostname: string,
    path: string,
    query: string,
    password: Option<string>,
    fragment: seq<Option<string>>)

  class Url {
    var variant: Variant
    var proto: string
    var hostname: string
    var path: string
    var query: string
    var password: Option<string>
    /** The fragment list; slot 0 holds the SQL query. */
    var fragment: seq<Option<string>>
    /** The DSN table of a `SqlDsn` URL. */
    var dsns: map<string, string>

    function Parts(): UrlParts
      reads this
    {
      UrlParts(variant, proto, hostname, path, query, password, fragment)
    }

    /** `SqlDsn.__init__`: a missing DSN table is an empty one. */
    constructor (p: UrlParts, dsns: Option<map<string, string>>)
      ensures Parts() == p
      ensures this.dsns == if dsns.Some? then dsns.value else map[]
    {
      variant := p.variant;
      proto := p.proto;
      hostname := p.hostname;
      path := p.path;
      query := p.query;
      password := p.password;
      fragment := p.fragment;
      this.dsns := if dsns.Some? then dsns.value else map[];
    }

    /** `dsn_name`: the DSN a `sql://name#query` URL refers to is its host name. */
    function DsnName(): (n: string)
      reads this
      ensures n == Parts().hostname
    {
      hostname
    }

    /** The `sql` getter: slot 0 of the fragment, or `IndexError` when the list is empty. */
    function SqlQuery(): (r: Result<Option<string>, UrlError>)
      reads this
      ensures r.Err? <==> fragment == []
      ensures r.Err? ==> r.error == IndexError
      ensures r.Ok? ==> r.value == fragment[0]
    {
      if fragment == [] then Err(IndexError) else Ok(fragment[0])
    }

    /** The `sql` setter: writes slot 0 and nothing else; reading it back gives the value. */
    method SetSqlQuery(value: Option<string>) returns (err: Option<UrlError>)
      modifies this`fragment
      ensures old(fragment) == [] ==> err == Some(IndexError) && fragment == []
      ensures old(fragment) != [] ==> err == None && fragment == old(fragment)[0 := value]
      ensures old(fragment) != [] ==> SqlQuery() == Ok(value) && fragment[1..] == old(fragment)[1..]
    {
      if fragment == [] {
        return Some(IndexError);
      }
      fragment := fragment[0 := value];
      return None;
    }

    /** `clone()`: a new object with the same parts. */
    method Clone() returns (u: Url)
      ensures fresh(u) && u.Parts() == Parts() && u.dsns == dsns
    {
      u := new Url(Parts(), Some(dsns));
    }

    /**
     * The `dsn` property: on a clone, the fragment is cleared and the password
     * formatted with the environment; this URL is left as it was. The string
     * form of the clone is the connection string.
     */
    method Dsn(env: map<string, string>) returns (r: Result<Url, UrlError>)
      ensures r.Err? ==> InterpolatePassword(password, env) == Err(r.error)
      ensures r.Ok? ==> InterpolatePassword(password, env).Ok?
      ensures InterpolatePassword(password, env).Ok? ==>
        && r.Ok? && fresh(r.value)
        && r.value.Parts() == Parts().(fragment := [], password := Some(InterpolatePassword(password, env).value))
    {
      var u := Clone();
      u.fragment := [];
      var p := InterpolatePassword(u.password, env);
      if p.Err? {
        return Err(p.error);
      }
      u.password := Some(p.value);
      return Ok(u);
    }

    /**
     * `get_resource`: a `SqlDsn` URL is replaced by the parse of its DSN's
     * connection URL, carrying this URL's query in fragment slot 0; the other
     * variants are their own resource. `parse` stands for `parse_app_url`.
     */
    method GetResource(parse: string -> UrlParts) returns (r: Result<Url, UrlError>)
      ensures variant != SqlDsn ==> r == Ok(this)
      ensures variant == SqlDsn && hostname !in dsns ==> r == Err(AppUrlError(hostname))
      ensures variant == SqlDsn && hostname in dsns ==>
        var p := parse(dsns[hostname]);
        if fragment == [] || p.fragment == [] then r == Err(IndexError)
        else r.Ok? && fresh(r.value) && r.value.Parts() == p.(fragment := p.fragment[0 := fragment[0]])
    {
      if variant != SqlDsn {
        return Ok(this);
      }
      var name := DsnName();
      if name !in dsns {
        return Err(AppUrlError(name));
      }
      var u := new Url(parse(dsns[name]), None);
      var q := SqlQuery();
      if q.Err? {
        return Err(q.error);
      }
      var e := u.SetSqlQuery(q.value);
      if e.Some? {
        return Err(e.value);
      }
      return Ok(u);
    }

    /** `get_target`: the URL itself. */
    method GetTarget() returns (u: Url)
      ensures u == this
    {
      return this;
    }
  }
}
