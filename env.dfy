/**
 * The gateway's configuration object: each setting read from the process
 * environment with `value || fallback`, and the upstream list parsed from a
 * comma-separated string.
 */
module Env {
  import opened Wrappers
  import opened Seqs
  import opened JsStrings

  /** The variables the configuration reads, by their names in the environment. */
  datatype Var =
    | PORT | NODE_ENV | SUPABASE_URL | SUPABASE_SERVICE_KEY
    | UPSTREAMS | STRIPE_SECRET_KEY | UPSTREAM_HMAC_KEY | CORS_ORIGIN

  /** `process.env` as far as the configuration reads it: the variables that are set. */
  type Environment = map<Var, string>

  function Lookup(env: Environment, name: Var): (r: Option<string>)
    ensures r.Some? <==> name in env
    ensures r.Some? ==> r.value == env[name]
  {
    if name in env then Some(env[name]) else None
  }

  /** `value || fallback`: an unset or empty variable gives the fallback. */
  function OrDefault(v: Option<string>, fallback: string): (r: string)
    ensures v.Some? && v.value != [] ==> r == v.value
    ensures v.None? || v.value == [] ==> r == fallback
  {
    match v
    case Some(s) => if s != [] then s else fallback
    case None => fallback
  }

  const DefaultUpstream: string := "http://127.0.0.1:8000/v1"

  /** `filter(Boolean)` on strings: only the empty string is dropped. */
  function NonEmpty(): string -> bool
  {
    (s: string) => s != []
  }

  /** `s.split(",").map(s => s.trim()).filter(Boolean)`. */
  function UpstreamList(s: string): (r: seq<string>)
    ensures |r| <= Count(s, ',') + 1
    ensures forall i :: 0 <= i < |r| ==> r[i] != [] && !IsWhitespace(r[i][0]) && !IsWhitespace(r[i][|r[i]| - 1])
  {
    Filter(Map(Split(s, ','), Trim), NonEmpty())
  }

  /** The list follows the input left to right: text on either side of a comma contributes in order. */
  lemma UpstreamListConcat(a: string, b: string)
    ensures UpstreamList(a + [','] + b) == UpstreamList(a) + UpstreamList(b)
  {
    SplitConcat(a, b, ',');
    MapConcat(Split(a, ','), Split(b, ','), Trim);
    FilterConcat(Map(Split(a, ','), Trim), Map(Split(b, ','), Trim), NonEmpty());
  }

  /** Without a comma the list is the trimmed input, or nothing if that is empty. */
  lemma UpstreamListSingle(s: string)
    requires ',' !in s
    ensures UpstreamList(s) == if Trim(s) == [] then [] else [Trim(s)]
  {
    CountAbsent(s, ',');
    JoinSplit(s, ',');
    assert Split(s, ',') == [s];
    assert Map([s], Trim) == [Trim(s)];
  }

  /** A list made of nothing but commas and whitespace parses to no upstream at all. */
  lemma UpstreamListSeparatorsOnly(s: string)
    requires forall i :: 0 <= i < |s| ==> s[i] == ',' || IsWhitespace(s[i])
    ensures UpstreamList(s) == []
  {
    var pieces := Split(s, ',');
    var trimmed := Map(pieces, Trim);
    forall j | 0 <= j < |pieces| ensures trimmed[j] == [] {
      forall k | 0 <= k < |pieces[j]| ensures IsWhitespace(pieces[j][k]) {
        SplitPieceChars(s, ',', j, k);
        assert pieces[j][k] != ',';
      }
      TrimEmpty(pieces[j]);
    }
    FilterNone(trimmed, NonEmpty());
  }

  /** `(UPSTREAMS || "http://127.0.0.1:8000/v1")` parsed as above. */
  function ParseUpstreams(raw: Option<string>): (r: seq<string>)
    ensures raw.Some? && raw.value != [] ==> r == UpstreamList(raw.value)
  {
    UpstreamList(OrDefault(raw, DefaultUpstream))
  }

  /** A comma-free value with no whitespace at either end is the one upstream it names. */
  lemma CleanSingleUpstream(d: string)
    requires ',' !in d && d != [] && !IsWhitespace(d[0]) && !IsWhitespace(d[|d| - 1])
    ensures UpstreamList(d) == [d]
  {
    UpstreamListSingle(d);
    TrimUnchanged(d);
  }

  /** An unset or empty `UPSTREAMS` gives the one local upstream. */
  lemma DefaultUpstreams(raw: Option<string>)
    requires raw.None? || raw.value == []
    ensures ParseUpstreams(raw) == [DefaultUpstream]
  {
    assert ',' !in DefaultUpstream by {
      assert forall i :: 0 <= i < |DefaultUpstream| ==> DefaultUpstream[i] != ',';
    }
    CleanSingleUpstream(DefaultUpstream);
  }

  /** A non-empty `UPSTREAMS` of commas and whitespace only gives no upstream: the default is not applied. */
  lemma NoDefaultForSeparators(s: string)
    requires s != []
    requires forall i :: 0 <= i < |s| ==> s[i] == ',' || IsWhitespace(s[i])
    ensures ParseUpstreams(Some(s)) == []
  {
    UpstreamListSeparatorsOnly(s);
  }

  /** `Number(PORT || 8787)`: the port, or the raw text whose `Number` reading is not modelled. */
  datatype Port = Port(n: nat) | NumberOf(raw: string)

  const DefaultPort: nat := 8787

  predicate AllDigits(s: string)
  {
    forall i :: 0 <= i < |s| ==> IsDigit(s[i])
  }

  function PortSetting(raw: Option<string>): (r: Port)
    ensures raw.None? || raw.value == [] ==> r == Port(DefaultPort)
    ensures raw.Some? && raw.value != [] && !AllDigits(raw.value) ==> r == NumberOf(raw.value)
  {
    match raw
    case None => Port(DefaultPort)
    case Some(s) =>
      if s == [] then Port(DefaultPort)
      else if AllDigits(s) then Port(DecimalValue(s))
      else NumberOf(s)
  }

  /** A port written in decimal reads back as that port. */
  lemma PortRoundTrip(n: nat)
    ensures PortSetting(Some(NatToDecimal(n))) == Port(n)
  {
    DecimalRoundTrip(n);
  }

  /** The `env` object. `SUPABASE_URL` and `SUPABASE_SERVICE_KEY` are taken as they are, possibly absent. */
  datatype Config = Config(
    port: Port,
    nodeEnv: string,
    supabaseUrl: Option<string>,
    supabaseServiceKey: Option<string>,
    upstreams: seq<string>,
    stripeSecretKey: string,
    upstreamHmacKey: string,
    corsOrigin: string)

  /** True when the variable is set to something other than the empty string. */
  predicate Given(env: Environment, name: Var)
  {
    name in env && env[name] != []
  }

  function Load(env: Environment): (c: Config)
    ensures c.nodeEnv == if Given(env, NODE_ENV) then env[NODE_ENV] else "development"
    ensures c.stripeSecretKey == if Given(env, STRIPE_SECRET_KEY) then env[STRIPE_SECRET_KEY] else ""
    ensures c.upstreamHmacKey == if Given(env, UPSTREAM_HMAC_KEY) then env[UPSTREAM_HMAC_KEY] else ""
    ensures c.corsOrigin == if Given(env, CORS_ORIGIN) then env[CORS_ORIGIN] else "*"
    ensures c.port == PortSetting(Lookup(env, PORT))
    ensures c.supabaseUrl == Lookup(env, SUPABASE_URL) && c.supabaseServiceKey == Lookup(env, SUPABASE_SERVICE_KEY)
    ensures c.supabaseUrl.Some? <==> SUPABASE_URL in env
    ensures c.supabaseServiceKey.Some? <==> SUPABASE_SERVICE_KEY in env
    ensures c.upstreams == ParseUpstreams(Lookup(env, UPSTREAMS))
    ensures Given(env, UPSTREAMS) ==> c.upstreams == UpstreamList(env[UPSTREAMS])
    ensures forall i :: 0 <= i < |c.upstreams| ==> c.upstreams[i] != []
  {
    Config(
      PortSetting(Lookup(env, PORT)),
      OrDefault(Lookup(env, NODE_ENV), "development"),
      Lookup(env, SUPABASE_URL),
      Lookup(env, SUPABASE_SERVICE_KEY),
      ParseUpstreams(Lookup(env, UPSTREAMS)),
      OrDefault(Lookup(env, STRIPE_SECRET_KEY), ""),
      OrDefault(Lookup(env, UPSTREAM_HMAC_KEY), ""),
      OrDefault(Lookup(env, CORS_ORIGIN), "*"))
  }

  /** With nothing set, every defaulted setting takes its default. */
  lemma LoadEmptyEnvironment()
    ensures Load(map[]) == Config(Port(DefaultPort), "development", None, None, [DefaultUpstream], "", "", "*")
  {
    DefaultUpstreams(None);
  }

  /** The variables read with `||`; the two Supabase settings are read with `!` instead. */
  predicate Defaulted(name: Var)
  {
    name != SUPABASE_URL && name != SUPABASE_SERVICE_KEY
  }

  /** Two environments that differ at most in the variable `name`. */
  predicate AgreeExcept(e1: Environment, e2: Environment, name: Var)
  {
    forall v :: v != name ==> Lookup(e1, v) == Lookup(e2, v)
  }

  /**
   * For the variables read with `||` other than `UPSTREAMS`, setting one to
   * the empty string is the same as leaving it unset.
   */
  lemma EmptyIsUnset(e1: Environment, e2: Environment, name: Var)
    requires Defaulted(name) && name != UPSTREAMS
    requires AgreeExcept(e1, e2, name) && Lookup(e1, name) == Some("") && Lookup(e2, name) == None
    ensures Load(e1) == Load(e2)
  {
    assert Lookup(e1, UPSTREAMS) == Lookup(e2, UPSTREAMS);
    assert Lookup(e1, SUPABASE_URL) == Lookup(e2, SUPABASE_URL);
    assert Lookup(e1, SUPABASE_SERVICE_KEY) == Lookup(e2, SUPABASE_SERVICE_KEY);
  }

  /** The same for `UPSTREAMS`: both give the default upstream. */
  lemma EmptyUpstreamsIsUnset(e1: Environment, e2: Environment)
    requires AgreeExcept(e1, e2, UPSTREAMS) && Lookup(e1, UPSTREAMS) == Some("") && Lookup(e2, UPSTREAMS) == None
    ensures Load(e1) == Load(e2)
  {
    DefaultUpstreams(Some(""));
  }

  /** `SUPABASE_URL` is not defaulted: set to the empty string it stays the empty string. */
  lemma SupabaseUrlNotDefaulted(env: Environment)
    ensures Load(env[SUPABASE_URL := ""]).supabaseUrl == Some("")
    ensures Load(env - {SUPABASE_URL}).supabaseUrl == None
  {
  }
}
