/** The datastore variables `BuildConfig` writes, the combinations it rejects, and which Secret
    key each endpoint variable reads. */
module DatastoreConfig {
  import opened Text
  import opened InstanceSpec
  import opened Identity

  datatype Source = Literal(text: string) | FromSecret(name: string, key: string)

  datatype EnvVar = EnvVar(name: string, source: Source)

  const DATABASE_URL := "DATABASE_URL"
  const DIRECT_URL := "DIRECT_URL"
  const DATABASE_URL_BASE := "DATABASE_URL_BASE"
  const DIRECT_URL_BASE := "DIRECT_URL_BASE"
  const CLICKHOUSE_URL := "CLICKHOUSE_URL"
  const CLICKHOUSE_MIGRATION_URL := "CLICKHOUSE_MIGRATION_URL"
  const CLICKHOUSE_CLUSTER_ENABLED := "CLICKHOUSE_CLUSTER_ENABLED"
  const CLICKHOUSE_DB := "CLICKHOUSE_DB"
  const CLICKHOUSE_USER := "CLICKHOUSE_USER"
  const CLICKHOUSE_PASSWORD := "CLICKHOUSE_PASSWORD"
  const CLICKHOUSE_MIGRATION_SSL := "CLICKHOUSE_MIGRATION_SSL"
  const REDIS := "REDIS_"

  const TRUSTED_CA_PATH := "/etc/langfuse/tls/trusted-ca/ca.crt"
  const POSTGRES_CA_PATH := "/etc/langfuse/tls/postgres-ca/ca.crt"
  const REDIS_CA_PATH := "/etc/langfuse/tls/redis-ca/ca.crt"
  const REDIS_CERT_PATH := "/etc/langfuse/tls/redis-client/tls.crt"
  const REDIS_KEY_PATH := "/etc/langfuse/tls/redis-client/tls.key"

  // ----- what a container sees -----

  type Secrets = (string, string) -> string

  /** `$(NAME)rest` as the name and the rest. */
  function LeadingReference(text: string): Option<(string, string)> {
    if "$(" <= text then
      var cut := Cut(text[2..], ')');
      if cut.2 then Some((cut.0, cut.1)) else None
    else None
  }

  /** The value a variable has: its last entry counts, and a reference is to the variables
      in front of that entry; an undefined one stays as it is written. */
  function Value(env: seq<EnvVar>, name: string, secrets: Secrets): Option<string>
    decreases |env|
  {
    if env == [] then None
    else
      var front, last := env[..|env| - 1], env[|env| - 1];
      if last.name != name then Value(front, name, secrets)
      else match last.source
        case FromSecret(s, k) => Some(secrets(s, k))
        case Literal(text) =>
          var ref := LeadingReference(text);
          if ref.None? then Some(text)
          else
            var v := Value(front, ref.value.0, secrets);
            Some(if v.Some? then v.value + ref.value.1 else text)
  }

  /** The (Secret, key) pair that value comes from, if it comes from one. */
  function Origin(env: seq<EnvVar>, name: string): Option<(string, string)>
    decreases |env|, 0
  {
    if env == [] then None else OriginLast(env[..|env| - 1], env[|env| - 1], name)
  }

  function OriginLast(front: seq<EnvVar>, last: EnvVar, name: string): Option<(string, string)>
    decreases |front|, 1
  {
    if last.name != name then Origin(front, name)
    else match last.source
      case FromSecret(s, k) => Some((s, k))
      case Literal(text) =>
        var ref := LeadingReference(text);
        if ref.None? then None else Origin(front, ref.value.0)
  }

  // ----- what the operator writes -----

  function SslMode(tls: DatabaseTLS): string {
    if tls.sslMode == "" then "require" else tls.sslMode
  }

  function TlsParams(tls: DatabaseTLS, trustedCAPath: string): seq<string> {
    var accept := if SslMode(tls) == "verify-ca" || SslMode(tls) == "verify-full" then "sslaccept=strict"
                  else "sslaccept=accept_invalid_certs";
    var caPath := if tls.caSecret then POSTGRES_CA_PATH else trustedCAPath;
    ["sslmode=require", accept] + if caPath != "" then ["sslcert=" + caPath] else []
  }

  function TlsQuery(tls: DatabaseTLS, trustedCAPath: string): string {
    if SslMode(tls) == "disable" then "?sslmode=disable" else "?" + Join(TlsParams(tls, trustedCAPath), '&')
  }

  function TrustedCAPath(spec: Spec): string {
    if spec.trustedCA then TRUSTED_CA_PATH else ""
  }

  /** The query composed onto the URLs of this database, if TLS is asked for. */
  function QueryOf(db: ExternalDatabase, trustedCAPath: string): Option<string> {
    if db.tls.Some? then Some(TlsQuery(db.tls.value, trustedCAPath)) else None
  }

  function Composed(base: string, query: string): string {
    "$(" + (base + [')'] + query)
  }

  function UrlEnv(name: string, base: string, secret: string, key: string, query: Option<string>): seq<EnvVar> {
    if query.None? then [EnvVar(name, FromSecret(secret, key))]
    else [EnvVar(base, FromSecret(secret, key)), EnvVar(name, Literal(Composed(base, query.value)))]
  }

  function DatabaseEnv(spec: Spec): seq<EnvVar> {
    if spec.database.None? || spec.database.value.managed then []
    else if spec.database.value.cloudNativePG.Some? then
      UrlEnv(DATABASE_URL, DATABASE_URL_BASE, spec.database.value.cloudNativePG.value + "-app", "uri", None)
    else if spec.database.value.external.Some? then
      var db := spec.database.value.external.value;
      var ref, query := db.secretRef, QueryOf(db, TrustedCAPath(spec));
      UrlEnv(DATABASE_URL, DATABASE_URL_BASE, ref.name, PostgresUrlKey(ref), query) +
      if ref.Key("directUrl") == "" then []
      else UrlEnv(DIRECT_URL, DIRECT_URL_BASE, ref.name, ref.Key("directUrl"), query)
    else []
  }

  function ClickHouseEndpoints(ch: ClickHouseSpec, instance: string): seq<EnvVar> {
    if ch.managed then
      [EnvVar(CLICKHOUSE_URL, Literal("http://" + instance + "-clickhouse:8123")),
       EnvVar(CLICKHOUSE_MIGRATION_URL, Literal("clickhouse://" + instance + "-clickhouse:9000"))]
    else if ch.external.Some? then
      var ref := ch.external.value;
      [EnvVar(CLICKHOUSE_URL, FromSecret(ref.name, ClickHouseUrlKey(ref)))] +
      if ref.Key("migrationUrl") == "" then []
      else [EnvVar(CLICKHOUSE_MIGRATION_URL, FromSecret(ref.name, ref.Key("migrationUrl")))]
    else []
  }

  function ClickHouseEnv(spec: Spec, instance: string): seq<EnvVar> {
    if spec.clickHouse.None? then []
    else
      var ch := spec.clickHouse.value;
      ClickHouseHead(ch, instance) + ClickHouseEndpoints(ch, instance) + ClickHouseTail(ch)
  }

  function GeneratedSecretName(instance: string): string {
    instance + "-generated-secrets"
  }

  /** A variable for an optional key of a Secret: only for a key that is mapped. */
  function OptionalEnv(name: string, ref: SecretRef, logical: string): seq<EnvVar> {
    if ref.Key(logical) == "" then [] else [EnvVar(name, FromSecret(ref.name, ref.Key(logical)))]
  }

  /** The managed node's credentials, referenced or generated, stand in front of its URLs. */
  function ManagedCredentials(ch: ClickHouseSpec, instance: string): seq<EnvVar> {
    if ch.auth.Some? then
      [EnvVar(CLICKHOUSE_USER, FromSecret(ch.auth.value.name, ch.auth.value.KeyOr("username", "username"))),
       EnvVar(CLICKHOUSE_PASSWORD, FromSecret(ch.auth.value.name, ch.auth.value.KeyOr("password", "password")))]
    else
      [EnvVar(CLICKHOUSE_USER, FromSecret(GeneratedSecretName(instance), "clickhouse-username")),
       EnvVar(CLICKHOUSE_PASSWORD, FromSecret(GeneratedSecretName(instance), "clickhouse-password"))]
  }

  function ClickHouseHead(ch: ClickHouseSpec, instance: string): seq<EnvVar> {
    [EnvVar(CLICKHOUSE_CLUSTER_ENABLED, Literal(BoolText(ch.clusterEnabled)))] +
    (if ch.database != "" then [EnvVar(CLICKHOUSE_DB, Literal(ch.database))] else []) +
    (if ch.managed then ManagedCredentials(ch, instance) else [])
  }

  /** The external store's credentials and SSL switch follow its URLs. */
  function ClickHouseTail(ch: ClickHouseSpec): seq<EnvVar> {
    if ch.managed || ch.external.None? then []
    else
      OptionalEnv(CLICKHOUSE_USER, ch.external.value, "username") +
      OptionalEnv(CLICKHOUSE_PASSWORD, ch.external.value, "password") +
      if ch.tls then [EnvVar(CLICKHOUSE_MIGRATION_SSL, Literal("true"))] else []
  }

  function RedisTLSEnv(tls: RedisTLS, trustedCAPath: string): seq<EnvVar> {
    if !tls.enabled then []
    else
      var caPath := if tls.caSecret then REDIS_CA_PATH else trustedCAPath;
      [EnvVar(REDIS + "TLS_ENABLED", Literal("true"))] +
      (if caPath != "" then [EnvVar(REDIS + "TLS_CA_PATH", Literal(caPath))] else []) +
      (if tls.clientCert then
         [EnvVar(REDIS + "TLS_CERT_PATH", Literal(REDIS_CERT_PATH)), EnvVar(REDIS + "TLS_KEY_PATH", Literal(REDIS_KEY_PATH))]
       else []) +
      (if tls.serverName != "" then [EnvVar(REDIS + "TLS_SERVERNAME", Literal(tls.serverName))] else [])
  }

  function RedisEnv(spec: Spec, instance: string): seq<EnvVar> {
    if spec.redis.None? then []
    else if spec.redis.value.managed then
      [EnvVar(REDIS + "HOST", Literal(instance + "-redis")), EnvVar(REDIS + "PORT", Literal("6379")),
       EnvVar(REDIS + "AUTH", FromSecret(GeneratedSecretName(instance), "redis-password"))]
    else if spec.redis.value.external.Some? then ExternalRedisEnv(spec.redis.value.external.value, TrustedCAPath(spec))
    else []
  }

  function ExternalRedisEnv(redis: ExternalRedis, trustedCAPath: string): seq<EnvVar> {
    var ref := redis.secretRef;
    [EnvVar(REDIS + "HOST", FromSecret(ref.name, ref.KeyOr("host", "host"))),
     EnvVar(REDIS + "PORT", FromSecret(ref.name, ref.KeyOr("port", "port")))] +
    OptionalEnv(REDIS + "AUTH", ref, "password") +
    if redis.tls.Some? then RedisTLSEnv(redis.tls.value, trustedCAPath) else OptionalEnv(REDIS + "TLS_ENABLED", ref, "tls")
  }

  function DatastoreEnv(spec: Spec, instance: string): seq<EnvVar> {
    DatabaseEnv(spec) + ClickHouseEnv(spec, instance) + RedisEnv(spec, instance)
  }

  // ----- the builder -----

  /** `Config`: the list its add functions append to. */
  class Config {
    var commonEnv: seq<EnvVar>

    constructor ()
      ensures commonEnv == []
    {
      commonEnv := [];
    }

    method AddUrl(name: string, base: string, secret: string, key: string, query: Option<string>)
      modifies this
      ensures commonEnv == old(commonEnv) + UrlEnv(name, base, secret, key, query)
    {
      if query.None? {
        commonEnv := commonEnv + [EnvVar(name, FromSecret(secret, key))];
        return;
      }
      commonEnv := commonEnv + [EnvVar(base, FromSecret(secret, key))];
      commonEnv := commonEnv + [EnvVar(name, Literal(Composed(base, query.value)))];
    }

    method Append(name: string, source: Source)
      modifies this
      ensures commonEnv == old(commonEnv) + [EnvVar(name, source)]
    {
      commonEnv := commonEnv + [EnvVar(name, source)];
    }

    method AppendOptional(name: string, ref: SecretRef, logical: string)
      modifies this
      ensures commonEnv == old(commonEnv) + OptionalEnv(name, ref, logical)
    {
      if ref.Key(logical) != "" {
        Append(name, FromSecret(ref.name, ref.Key(logical)));
      }
    }

    /** False where `addDatabaseEnv` returns an error; nothing is appended then. */
    method AddDatabaseEnv(spec: Spec) returns (ok: bool)
      modifies this
      ensures ok <==> !(spec.database.Some? && spec.database.value.managed)
      ensures commonEnv == old(commonEnv) + DatabaseEnv(spec)
    {
      ok := true;
      if spec.database.None? {
        return;
      }
      var db := spec.database.value;
      if db.managed {
        return false;
      }
      if db.cloudNativePG.Some? {
        AddUrl(DATABASE_URL, DATABASE_URL_BASE, db.cloudNativePG.value + "-app", "uri", None);
      } else if db.external.Some? {
        var ref := db.external.value.secretRef;
        var query := None;
        if db.external.value.tls.Some? {
          var text := PostgresTLSQuery(db.external.value.tls.value, TrustedCAPath(spec));
          query := Some(text);
        }
        AddUrl(DATABASE_URL, DATABASE_URL_BASE, ref.name, PostgresUrlKey(ref), query);
        if ref.Key("directUrl") != "" {
          AddUrl(DIRECT_URL, DIRECT_URL_BASE, ref.name, ref.Key("directUrl"), query);
        }
      }
    }

    method AddClickHouseEnv(spec: Spec, instance: string) returns (ok: bool)
      modifies this
      ensures ok <==> !(spec.clickHouse.Some? && spec.clickHouse.value.managed && spec.clickHouse.value.clusterEnabled)
      ensures commonEnv == old(commonEnv) + if ok then ClickHouseEnv(spec, instance) else []
    {
      ok := true;
      if spec.clickHouse.None? {
        return;
      }
      var ch := spec.clickHouse.value;
      if ch.managed && ch.clusterEnabled {
        return false;
      }
      AddClickHouseHead(ch, instance);
      AddClickHouseEndpoints(ch, instance);
      AddClickHouseTail(ch);
    }

    method AddClickHouseHead(ch: ClickHouseSpec, instance: string)
      modifies this
      ensures commonEnv == old(commonEnv) + ClickHouseHead(ch, instance)
    {
      Append(CLICKHOUSE_CLUSTER_ENABLED, Literal(BoolText(ch.clusterEnabled)));
      if ch.database != "" {
        Append(CLICKHOUSE_DB, Literal(ch.database));
      }
      if ch.managed {
        if ch.auth.Some? {
          Append(CLICKHOUSE_USER, FromSecret(ch.auth.value.name, ch.auth.value.KeyOr("username", "username")));
          Append(CLICKHOUSE_PASSWORD, FromSecret(ch.auth.value.name, ch.auth.value.KeyOr("password", "password")));
        } else {
          Append(CLICKHOUSE_USER, FromSecret(GeneratedSecretName(instance), "clickhouse-username"));
          Append(CLICKHOUSE_PASSWORD, FromSecret(GeneratedSecretName(instance), "clickhouse-password"));
        }
      }
    }

    method AddClickHouseTail(ch: ClickHouseSpec)
      modifies this
      ensures commonEnv == old(commonEnv) + ClickHouseTail(ch)
    {
      if !ch.managed && ch.external.Some? {
        AppendOptional(CLICKHOUSE_USER, ch.external.value, "username");
        AppendOptional(CLICKHOUSE_PASSWORD, ch.external.value, "password");
        if ch.tls {
          Append(CLICKHOUSE_MIGRATION_SSL, Literal("true"));
        }
      }
    }

    method AddClickHouseEndpoints(ch: ClickHouseSpec, instance: string)
      modifies this
      ensures commonEnv == old(commonEnv) + ClickHouseEndpoints(ch, instance)
    {
      if ch.managed {
        commonEnv := commonEnv + [EnvVar(CLICKHOUSE_URL, Literal("http://" + instance + "-clickhouse:8123"))];
        commonEnv := commonEnv +
          [EnvVar(CLICKHOUSE_MIGRATION_URL, Literal("clickhouse://" + instance + "-clickhouse:9000"))];
      } else if ch.external.Some? {
        var ref := ch.external.value;
        commonEnv := commonEnv + [EnvVar(CLICKHOUSE_URL, FromSecret(ref.name, ClickHouseUrlKey(ref)))];
        if ref.Key("migrationUrl") != "" {
          commonEnv := commonEnv + [EnvVar(CLICKHOUSE_MIGRATION_URL, FromSecret(ref.name, ref.Key("migrationUrl")))];
        }
      }
    }

    /** On an error the variables appended so far are discarded with the whole configuration. */
    method AddRedisEnv(spec: Spec, instance: string) returns (ok: bool)
      modifies this
      ensures ok <==> !(spec.redis.Some? && RedisRejected(spec.redis.value))
      ensures ok ==> commonEnv == old(commonEnv) + RedisEnv(spec, instance)
    {
      hide ExternalRedisEnv;
      ok := true;
      if spec.redis.None? {
        return;
      }
      if spec.redis.value.managed {
        Append(REDIS + "HOST", Literal(instance + "-redis"));
        Append(REDIS + "PORT", Literal("6379"));
        Append(REDIS + "AUTH", FromSecret(GeneratedSecretName(instance), "redis-password"));
      } else if spec.redis.value.external.Some? {
        ok := AddExternalRedis(spec.redis.value.external.value, TrustedCAPath(spec));
      }
    }

    method AddExternalRedis(redis: ExternalRedis, trustedCAPath: string) returns (ok: bool)
      modifies this
      ensures ok <==> !RedisRejected(RedisSpec(false, Some(redis)))
      ensures ok ==> commonEnv == old(commonEnv) + ExternalRedisEnv(redis, trustedCAPath)
    {
      hide OptionalEnv, RedisTLSEnv;
      var ref := redis.secretRef;
      Append(REDIS + "HOST", FromSecret(ref.name, ref.KeyOr("host", "host")));
      Append(REDIS + "PORT", FromSecret(ref.name, ref.KeyOr("port", "port")));
      AppendOptional(REDIS + "AUTH", ref, "password");
      ok := true;
      if redis.tls.Some? {
        ok := AddRedisTLSEnv(redis.tls.value, trustedCAPath);
      } else {
        AppendOptional(REDIS + "TLS_ENABLED", ref, "tls");
      }
    }

    method AddRedisTLSEnv(tls: RedisTLS, trustedCAPath: string) returns (ok: bool)
      modifies this
      ensures ok <==> tls.enabled || !(tls.caSecret || tls.clientCert)
      ensures commonEnv == old(commonEnv) + RedisTLSEnv(tls, trustedCAPath)
    {
      if !tls.enabled {
        return !tls.caSecret && !tls.clientCert;
      }
      Append(REDIS + "TLS_ENABLED", Literal("true"));
      var caPath := trustedCAPath;
      if tls.caSecret {
        caPath := REDIS_CA_PATH;
      }
      if caPath != "" {
        Append(REDIS + "TLS_CA_PATH", Literal(caPath));
      }
      if tls.clientCert {
        Append(REDIS + "TLS_CERT_PATH", Literal(REDIS_CERT_PATH));
        Append(REDIS + "TLS_KEY_PATH", Literal(REDIS_KEY_PATH));
      }
      if tls.serverName != "" {
        Append(REDIS + "TLS_SERVERNAME", Literal(tls.serverName));
      }
      return true;
    }

    /** The datastore part of `BuildConfig`: false exactly for the rejected combinations. */
    method AddDatastores(spec: Spec, instance: string) returns (ok: bool)
      modifies this
      ensures ok <==> !ConfigRejected(spec)
      ensures ok ==> commonEnv == old(commonEnv) + DatastoreEnv(spec, instance)
    {
      hide DatabaseEnv, ClickHouseEnv, RedisEnv, RedisRejected;
      ok := AddDatabaseEnv(spec);
      if ok {
        ok := AddClickHouseEnv(spec, instance);
      }
      if ok {
        ok := AddRedisEnv(spec, instance);
      }
    }
  }

  method PostgresTLSQuery(tls: DatabaseTLS, trustedCAPath: string) returns (query: string)
    ensures query == TlsQuery(tls, trustedCAPath)
  {
    var mode := tls.sslMode;
    if mode == "" {
      mode := "require";
    }
    if mode == "disable" {
      return "?sslmode=disable";
    }
    var params := ["sslmode=require"];
    if mode == "verify-ca" || mode == "verify-full" {
      params := params + ["sslaccept=strict"];
    } else {
      params := params + ["sslaccept=accept_invalid_certs"];
    }
    var caPath := trustedCAPath;
    if tls.caSecret {
      caPath := POSTGRES_CA_PATH;
    }
    if caPath != "" {
      params := params + ["sslcert=" + caPath];
    }
    assert params == TlsParams(tls, trustedCAPath);
    return "?" + Join(params, '&');
  }

  // ----- reading the list -----

  lemma NameLengths()
    ensures |DATABASE_URL| == 12 && |DIRECT_URL| == 10 && |DATABASE_URL_BASE| == 17 && |DIRECT_URL_BASE| == 15
    ensures |CLICKHOUSE_URL| == 14 && |CLICKHOUSE_MIGRATION_URL| == 24
    ensures |CLICKHOUSE_CLUSTER_ENABLED| == 26 && |CLICKHOUSE_DB| == 13
    ensures |CLICKHOUSE_USER| == 15 && CLICKHOUSE_USER[0] == 'C' && DIRECT_URL_BASE[0] == 'D'
    ensures |CLICKHOUSE_PASSWORD| == 19
    ensures |CLICKHOUSE_MIGRATION_SSL| == 24 && CLICKHOUSE_MIGRATION_SSL[21] == 'S' && CLICKHOUSE_MIGRATION_URL[21] == 'U'
  {
  }

  ghost predicate Silent(env: seq<EnvVar>, name: string) {
    forall k :: 0 <= k < |env| ==> env[k].name != name
  }

  lemma {:induction false} SilentSuffix(env: seq<EnvVar>, more: seq<EnvVar>, name: string, secrets: Secrets)
    requires Silent(more, name)
    ensures Origin(env + more, name) == Origin(env, name)
    ensures Value(env + more, name, secrets) == Value(env, name, secrets)
  {
    if more == [] {
      assert env + more == env;
    } else {
      var all, n := env + more, |more| - 1;
      assert all[..|all| - 1] == env + more[..n] && all[|all| - 1] == more[n];
      SilentSuffix(env, more[..n], name, secrets);
    }
  }

  lemma LastEntry(env: seq<EnvVar>, e: EnvVar, secrets: Secrets)
    requires e.source.FromSecret?
    ensures Origin(env + [e], e.name) == Some((e.source.name, e.source.key))
    ensures Value(env + [e], e.name, secrets) == Some(secrets(e.source.name, e.source.key))
  {
    assert (env + [e])[..|env|] == env;
  }

  lemma ComposedReference(base: string, query: string)
    requires Free(base, ')')
    ensures LeadingReference(Composed(base, query)) == Some((base, query))
  {
    var text := Composed(base, query);
    assert text[..2] == "$(" && text[2..] == base + [')'] + query;
    CutAt(base, ')', query);
  }

  /** The suffix the TLS query adds to the Secret's value. */
  function Suffix(query: Option<string>): string {
    OrEmpty(query)
  }

  /** A URL variable reads its Secret key, directly or through its base variable, and its
      value is that key's content with the query behind it. */
  lemma UrlEnvReads(env: seq<EnvVar>, name: string, base: string, secret: string, key: string,
                    query: Option<string>, secrets: Secrets)
    requires Free(base, ')')
    ensures var all := env + UrlEnv(name, base, secret, key, query);
      && Origin(all, name) == Some((secret, key))
      && Value(all, name, secrets) == Some(secrets(secret, key) + Suffix(query))
  {
    var e := EnvVar(if query.None? then name else base, FromSecret(secret, key));
    LastEntry(env, e, secrets);
    if query.Some? {
      ComposedReference(base, query.value);
      var link := EnvVar(name, Literal(Composed(base, query.value)));
      assert env + [e, link] == (env + [e]) + [link];
      assert ((env + [e]) + [link])[..|env| + 1] == env + [e];
    } else {
      assert secrets(secret, key) + "" == secrets(secret, key);
    }
  }

  lemma UrlEnvNames(name: string, base: string, secret: string, key: string, query: Option<string>, other: string)
    requires other != name && other != base
    ensures Silent(UrlEnv(name, base, secret, key, query), other)
  {
  }
}
