/** Every datastore variable of the pods, by its name: what its value is, for every spec, wherever
    in the list the datastore variables stand. */
module Variables {
  import opened Text
  import opened InstanceSpec
  import opened OldRecordings
  import opened DatastoreConfig
  import opened Endpoints

  // ----- the source of a variable -----

  /** The source of the last entry of that name. */
  function SourceOf(env: seq<EnvVar>, name: string): Option<Source> {
    if env == [] then None
    else if env[|env| - 1].name == name then Some(env[|env| - 1].source)
    else SourceOf(env[..|env| - 1], name)
  }

  function Later(a: Option<Source>, b: Option<Source>): Option<Source> {
    if b.Some? then b else a
  }

  lemma {:induction false} SourceConcat(a: seq<EnvVar>, b: seq<EnvVar>, name: string)
    ensures SourceOf(a + b, name) == Later(SourceOf(a, name), SourceOf(b, name))
  {
    if b == [] {
      assert a + b == a;
    } else {
      var n := |b| - 1;
      assert (a + b)[..|a + b| - 1] == a + b[..n] && (a + b)[|a + b| - 1] == b[n];
      SourceConcat(a, b[..n], name);
    }
  }

  lemma FewEntries(name: string, e1: EnvVar, e2: EnvVar)
    ensures SourceOf([], name) == None
    ensures SourceOf([e1], name) == if e1.name == name then Some(e1.source) else None
    ensures SourceOf([e1, e2], name) ==
      if e2.name == name then Some(e2.source) else if e1.name == name then Some(e1.source) else None
  {
    assert [e1][..0] == [] && [e1, e2][..1] == [e1];
  }

  lemma {:induction false} SilentHasNoSource(env: seq<EnvVar>, name: string)
    requires Silent(env, name)
    ensures SourceOf(env, name) == None
  {
    if env != [] {
      SilentHasNoSource(env[..|env| - 1], name);
    }
  }

  /** A text that refers to no other variable. */
  predicate Final(source: Source) {
    source.Literal? ==> LeadingReference(source.text) == None
  }

  function Content(source: Source, secrets: Secrets): string {
    match source
    case Literal(text) => text
    case FromSecret(name, key) => secrets(name, key)
  }

  /** The value of a variable is what its source holds. */
  lemma {:induction false} SourceIsValue(env: seq<EnvVar>, name: string, secrets: Secrets)
    requires SourceOf(env, name).Some? ==> Final(SourceOf(env, name).value)
    ensures Value(env, name, secrets) ==
      if SourceOf(env, name).None? then None else Some(Content(SourceOf(env, name).value, secrets))
  {
    if env != [] && env[|env| - 1].name != name {
      SourceIsValue(env[..|env| - 1], name, secrets);
    }
  }

  // ----- ClickHouse -----

  /** A mapped key, or nothing. */
  function Optional(ref: SecretRef, logical: string): Option<Source> {
    if Mapping(ref, logical) == "" then None else Some(FromSecret(ref.name, Mapping(ref, logical)))
  }

  /** Whose credentials the pods use: those named for the managed node, those generated for it, or
      the mapped keys of the external store. */
  function Credential(spec: Spec, instance: string, logical: string): Option<Source> {
    match spec.clickHouse
    case None => None
    case Some(ch) =>
      if ch.managed then
        match ch.auth
        case Some(ref) => Some(FromSecret(ref.name, MappedOr(ref, logical, logical)))
        case None => Some(FromSecret(instance + "-generated-secrets", "clickhouse-" + logical))
      else if ch.external.Some? then Optional(ch.external.value, logical)
      else None
  }

  function ClickHouseSource(spec: Spec, instance: string, name: string): Option<Source> {
    match spec.clickHouse
    case None => None
    case Some(ch) =>
      match name
      case "CLICKHOUSE_USER" => Credential(spec, instance, "username")
      case "CLICKHOUSE_PASSWORD" => Credential(spec, instance, "password")
      case "CLICKHOUSE_CLUSTER_ENABLED" => Some(Literal(if ch.clusterEnabled then "true" else "false"))
      case "CLICKHOUSE_DB" => if ch.database != "" then Some(Literal(ch.database)) else None
      case "CLICKHOUSE_MIGRATION_SSL" => if !ch.managed && ch.external.Some? && ch.tls then Some(Literal("true")) else None
      case "CLICKHOUSE_URL" =>
        if ch.managed then Some(Literal("http://" + instance + "-clickhouse:8123"))
        else if ch.external.Some? then Some(FromSecret(ch.external.value.name, MappedOr(ch.external.value, "url", "url")))
        else None
      case "CLICKHOUSE_MIGRATION_URL" =>
        if ch.managed then Some(Literal("clickhouse://" + instance + "-clickhouse:9000"))
        else if ch.external.Some? then Optional(ch.external.value, "migrationUrl")
        else None
      case _ => None
  }

  lemma EntriesOfOptional(variable: string, ref: SecretRef, logical: string, name: string)
    ensures SourceOf(OptionalEnv(variable, ref, logical), name) == if variable == name then Optional(ref, logical) else None
  {
    FewEntries(name, EnvVar(variable, FromSecret(ref.name, ref.Key(logical))), EnvVar("", Literal("")));
  }

  lemma CredentialWords()
    ensures "clickhouse-" + "username" == "clickhouse-username" && "clickhouse-" + "password" == "clickhouse-password"
  {
  }

  lemma HeadSource(ch: ClickHouseSpec, spec: Spec, instance: string, name: string)
    requires spec.clickHouse == Some(ch)
    ensures SourceOf(ClickHouseHead(ch, instance), name) ==
      if name in {"CLICKHOUSE_CLUSTER_ENABLED", "CLICKHOUSE_DB"} || (ch.managed && name in {"CLICKHOUSE_USER", "CLICKHOUSE_PASSWORD"})
      then ClickHouseSource(spec, instance, name) else None
  {
    hide SourceOf;
    var mode := EnvVar(CLICKHOUSE_CLUSTER_ENABLED, Literal(if ch.clusterEnabled then "true" else "false"));
    var db := EnvVar(CLICKHOUSE_DB, Literal(ch.database));
    var dbs := if ch.database != "" then [db] else [];
    var creds := if ch.managed then ManagedCredentials(ch, instance) else [];
    NameLengths();
    CredentialWords();
    SourceConcat([mode] + dbs, creds, name);
    SourceConcat([mode], dbs, name);
    FewEntries(name, mode, mode);
    FewEntries(name, db, db);
    if ch.managed { FewEntries(name, creds[0], creds[1]); }
  }

  lemma TailSource(ch: ClickHouseSpec, spec: Spec, instance: string, name: string)
    requires spec.clickHouse == Some(ch)
    ensures SourceOf(ClickHouseTail(ch), name) ==
      if !ch.managed && name in {"CLICKHOUSE_USER", "CLICKHOUSE_PASSWORD", "CLICKHOUSE_MIGRATION_SSL"}
      then ClickHouseSource(spec, instance, name) else None
  {
    hide SourceOf, OptionalEnv;
    NameLengths();
    var ssl := EnvVar(CLICKHOUSE_MIGRATION_SSL, Literal("true"));
    FewEntries(name, ssl, ssl);
    if !ch.managed && ch.external.Some? {
      var ref := ch.external.value;
      var user, pass := OptionalEnv(CLICKHOUSE_USER, ref, "username"), OptionalEnv(CLICKHOUSE_PASSWORD, ref, "password");
      SourceConcat(user + pass, if ch.tls then [ssl] else [], name);
      SourceConcat(user, pass, name);
      EntriesOfOptional(CLICKHOUSE_USER, ref, "username", name);
      EntriesOfOptional(CLICKHOUSE_PASSWORD, ref, "password", name);
    }
  }

  lemma EndpointSource(ch: ClickHouseSpec, spec: Spec, instance: string, name: string)
    requires spec.clickHouse == Some(ch)
    ensures SourceOf(ClickHouseEndpoints(ch, instance), name) ==
      if name in {"CLICKHOUSE_URL", "CLICKHOUSE_MIGRATION_URL"} then ClickHouseSource(spec, instance, name) else None
  {
    hide SourceOf;
    NameLengths();
    var ends := ClickHouseEndpoints(ch, instance);
    if |ends| == 0 {
      FewEntries(name, EnvVar("", Literal("")), EnvVar("", Literal("")));
    } else if |ends| == 1 {
      FewEntries(name, ends[0], ends[0]);
      assert ends == [ends[0]];
    } else {
      FewEntries(name, ends[0], ends[1]);
      assert ends == [ends[0], ends[1]];
    }
  }

  lemma ClickHouseSources(spec: Spec, instance: string, name: string)
    ensures SourceOf(ClickHouseEnv(spec, instance), name) == ClickHouseSource(spec, instance, name)
  {
    hide ClickHouseHead, ClickHouseEndpoints, ClickHouseTail;
    if spec.clickHouse.Some? {
      var ch := spec.clickHouse.value;
      SourceConcat(ClickHouseHead(ch, instance) + ClickHouseEndpoints(ch, instance), ClickHouseTail(ch), name);
      SourceConcat(ClickHouseHead(ch, instance), ClickHouseEndpoints(ch, instance), name);
      HeadSource(ch, spec, instance, name);
      EndpointSource(ch, spec, instance, name);
      TailSource(ch, spec, instance, name);
    }
  }

  // ----- Redis -----

  /** The certificate Redis connections trust: their own, or the instance's. */
  function RedisCA(tls: RedisTLS, trustedCA: bool): Option<Source> {
    if tls.caSecret then Some(Literal("/etc/langfuse/tls/redis-ca/ca.crt"))
    else if trustedCA then Some(Literal("/etc/langfuse/tls/trusted-ca/ca.crt"))
    else None
  }

  function RedisTlsSource(tls: RedisTLS, trustedCA: bool, name: string): Option<Source> {
    if !tls.enabled then None
    else
      match name
      case "REDIS_TLS_ENABLED" => Some(Literal("true"))
      case "REDIS_TLS_CA_PATH" => RedisCA(tls, trustedCA)
      case "REDIS_TLS_CERT_PATH" => if tls.clientCert then Some(Literal("/etc/langfuse/tls/redis-client/tls.crt")) else None
      case "REDIS_TLS_KEY_PATH" => if tls.clientCert then Some(Literal("/etc/langfuse/tls/redis-client/tls.key")) else None
      case "REDIS_TLS_SERVERNAME" => if tls.serverName != "" then Some(Literal(tls.serverName)) else None
      case _ => None
  }

  /** With a TLS block it alone decides; without one a mapped "tls" key does. */
  function ExternalRedisSource(redis: ExternalRedis, trustedCA: bool, name: string): Option<Source> {
    match name
    case "REDIS_HOST" => Some(FromSecret(redis.secretRef.name, MappedOr(redis.secretRef, "host", "host")))
    case "REDIS_PORT" => Some(FromSecret(redis.secretRef.name, MappedOr(redis.secretRef, "port", "port")))
    case "REDIS_AUTH" => Optional(redis.secretRef, "password")
    case _ =>
      match redis.tls
      case Some(tls) => RedisTlsSource(tls, trustedCA, name)
      case None => if name == "REDIS_TLS_ENABLED" then Optional(redis.secretRef, "tls") else None
  }

  function RedisSource(spec: Spec, instance: string, name: string): Option<Source> {
    match spec.redis
    case None => None
    case Some(r) =>
      if r.managed then
        match name
        case "REDIS_HOST" => Some(Literal(instance + "-redis"))
        case "REDIS_PORT" => Some(Literal("6379"))
        case "REDIS_AUTH" => Some(FromSecret(instance + "-generated-secrets", "redis-password"))
        case _ => None
      else if r.external.Some? then ExternalRedisSource(r.external.value, spec.trustedCA, name)
      else None
  }

  lemma RedisNames()
    ensures REDIS + "HOST" == "REDIS_HOST" && REDIS + "PORT" == "REDIS_PORT" && REDIS + "AUTH" == "REDIS_AUTH"
    ensures REDIS + "TLS_ENABLED" == "REDIS_TLS_ENABLED" && REDIS + "TLS_CA_PATH" == "REDIS_TLS_CA_PATH"
    ensures REDIS + "TLS_CERT_PATH" == "REDIS_TLS_CERT_PATH" && REDIS + "TLS_KEY_PATH" == "REDIS_TLS_KEY_PATH"
    ensures REDIS + "TLS_SERVERNAME" == "REDIS_TLS_SERVERNAME"
  {
  }

  lemma RedisNamesDiffer()
    ensures "REDIS_HOST"[6] == 'H' && "REDIS_PORT"[6] == 'P' && "REDIS_AUTH"[6] == 'A'
    ensures "REDIS_TLS_ENABLED"[10] == 'E' && "REDIS_TLS_CA_PATH"[10] == 'C'
    ensures |"REDIS_TLS_CERT_PATH"| == 19 && |"REDIS_TLS_KEY_PATH"| == 18 && |"REDIS_TLS_SERVERNAME"| == 20
  {
  }

  lemma RedisTlsSources(tls: RedisTLS, trustedCA: bool, name: string)
    ensures SourceOf(RedisTLSEnv(tls, if trustedCA then TRUSTED_CA_PATH else ""), name) == RedisTlsSource(tls, trustedCA, name)
  {
    hide SourceOf;
    RedisNames();
    RedisNamesDiffer();
    var path := if trustedCA then TRUSTED_CA_PATH else "";
    var caPath := if tls.caSecret then REDIS_CA_PATH else path;
    var on, ca := EnvVar(REDIS + "TLS_ENABLED", Literal("true")), EnvVar(REDIS + "TLS_CA_PATH", Literal(caPath));
    var cert, key := EnvVar(REDIS + "TLS_CERT_PATH", Literal(REDIS_CERT_PATH)), EnvVar(REDIS + "TLS_KEY_PATH", Literal(REDIS_KEY_PATH));
    var server := EnvVar(REDIS + "TLS_SERVERNAME", Literal(tls.serverName));
    var cas, certs := if caPath != "" then [ca] else [], if tls.clientCert then [cert, key] else [];
    var servers := if tls.serverName != "" then [server] else [];
    SourceConcat([on] + cas + certs, servers, name);
    SourceConcat([on] + cas, certs, name);
    SourceConcat([on], cas, name);
    FewEntries(name, on, ca);
    FewEntries(name, ca, ca);
    FewEntries(name, cert, key);
    FewEntries(name, server, server);
  }

  lemma ExternalRedisSources(redis: ExternalRedis, trustedCA: bool, name: string)
    ensures SourceOf(ExternalRedisEnv(redis, if trustedCA then TRUSTED_CA_PATH else ""), name) == ExternalRedisSource(redis, trustedCA, name)
  {
    hide SourceOf, OptionalEnv, RedisTLSEnv;
    RedisNames();
    RedisNamesDiffer();
    var path := if trustedCA then TRUSTED_CA_PATH else "";
    var ref := redis.secretRef;
    var host, port := EnvVar(REDIS + "HOST", FromSecret(ref.name, ref.KeyOr("host", "host"))), EnvVar(REDIS + "PORT", FromSecret(ref.name, ref.KeyOr("port", "port")));
    var auth := OptionalEnv(REDIS + "AUTH", ref, "password");
    var tls := if redis.tls.Some? then RedisTLSEnv(redis.tls.value, path) else OptionalEnv(REDIS + "TLS_ENABLED", ref, "tls");
    SourceConcat([host, port] + auth, tls, name);
    SourceConcat([host, port], auth, name);
    FewEntries(name, host, port);
    EntriesOfOptional(REDIS + "AUTH", ref, "password", name);
    EntriesOfOptional(REDIS + "TLS_ENABLED", ref, "tls", name);
    if redis.tls.Some? { RedisTlsSources(redis.tls.value, trustedCA, name); }
  }

  lemma RedisSources(spec: Spec, instance: string, name: string)
    ensures SourceOf(RedisEnv(spec, instance), name) == RedisSource(spec, instance, name)
  {
    hide ExternalRedisEnv, ExternalRedisSource;
    RedisNames();
    RedisNamesDiffer();
    if spec.redis.Some? && spec.redis.value.managed {
      var env := RedisEnv(spec, instance);
      assert env == [env[0], env[1]] + [env[2]];
      SourceConcat([env[0], env[1]], [env[2]], name);
      FewEntries(name, env[0], env[1]);
      FewEntries(name, env[2], env[2]);
    } else if spec.redis.Some? && spec.redis.value.external.Some? {
      ExternalRedisSources(spec.redis.value.external.value, spec.trustedCA, name);
    }
  }

  // ----- the whole list -----

  predicate OfClickHouse(name: string) {
    name in {"CLICKHOUSE_USER", "CLICKHOUSE_PASSWORD", "CLICKHOUSE_CLUSTER_ENABLED", "CLICKHOUSE_DB",
             "CLICKHOUSE_MIGRATION_SSL", "CLICKHOUSE_URL", "CLICKHOUSE_MIGRATION_URL"}
  }

  predicate OfRedis(name: string) {
    name in {"REDIS_HOST", "REDIS_PORT", "REDIS_AUTH", "REDIS_TLS_ENABLED", "REDIS_TLS_CA_PATH",
             "REDIS_TLS_CERT_PATH", "REDIS_TLS_KEY_PATH", "REDIS_TLS_SERVERNAME"}
  }

  /** What a variable of either store has in the pods: the literal text, or the Secret's content. */
  lemma VariablesOfTheStores(spec: Spec, instance: string, before: seq<EnvVar>, after: seq<EnvVar>, name: string, secrets: Secrets)
    requires OfClickHouse(name) || OfRedis(name)
    requires Silent(before, name) && Silent(after, name)
    ensures var source := if OfClickHouse(name) then ClickHouseSource(spec, instance, name) else RedisSource(spec, instance, name);
      (source.Some? ==> Final(source.value)) ==>
        Value(before + DatastoreEnv(spec, instance) + after, name, secrets) ==
          if source.None? then None else Some(Content(source.value, secrets))
  {
    hide SourceOf, DatabaseEnv, ClickHouseEnv, RedisEnv, Final, ClickHouseSource, RedisSource, Value;
    var db, ch, redis := DatabaseEnv(spec), ClickHouseEnv(spec, instance), RedisEnv(spec, instance);
    var all := before + DatastoreEnv(spec, instance) + after;
    assert all == before + (db + ch + redis) + after;
    SourceConcat(before + (db + ch + redis), after, name);
    SourceConcat(before, db + ch + redis, name);
    SourceConcat(db + ch, redis, name);
    SourceConcat(db, ch, name);
    SilentHasNoSource(before, name);
    SilentHasNoSource(after, name);
    ClickHouseSources(spec, instance, name);
    RedisSources(spec, instance, name);
    StoresApart(spec, instance, name);
    if SourceOf(all, name).Some? ==> Final(SourceOf(all, name).value) {
      SourceIsValue(all, name, secrets);
    }
  }

  lemma StoresApart(spec: Spec, instance: string, name: string)
    requires OfClickHouse(name) || OfRedis(name)
    ensures SourceOf(DatabaseEnv(spec), name) == None
    ensures OfClickHouse(name) ==> !OfRedis(name) && RedisSource(spec, instance, name) == None
    ensures OfRedis(name) ==> ClickHouseSource(spec, instance, name) == None
  {
    hide DatabaseEnv, SourceOf;
    assert name[0] == 'C' || name[0] == 'R';
    assert DATABASE_URL[0] == DATABASE_URL_BASE[0] == DIRECT_URL[0] == DIRECT_URL_BASE[0] == 'D';
    DatabaseEnvSilent(spec, name);
    SilentHasNoSource(DatabaseEnv(spec), name);
    assert OfClickHouse(name) <==> name[0] == 'C';
  }

  // ----- the TLS query -----

  /** The certificate the query names: the database's own, or the instance's. */
  function CertificateParam(tls: DatabaseTLS, trustedCA: bool): string {
    if tls.caSecret then "&" + "sslcert=" + "/etc/langfuse/tls/postgres-ca/ca.crt"
    else if trustedCA then "&" + "sslcert=" + "/etc/langfuse/tls/trusted-ca/ca.crt"
    else ""
  }

  /** Per mode: "disable" turns TLS off, the two verifying modes check the certificate, every other
      mode, the default among them, accepts any. */
  lemma QueryPerMode(tls: DatabaseTLS, trustedCA: bool)
    ensures TlsQuery(tls, if trustedCA then "/etc/langfuse/tls/trusted-ca/ca.crt" else "") ==
      match tls.sslMode
      case "disable" => "?sslmode=disable"
      case "verify-ca" => "?" + "sslmode=require" + "&" + "sslaccept=strict" + CertificateParam(tls, trustedCA)
      case "verify-full" => "?" + "sslmode=require" + "&" + "sslaccept=strict" + CertificateParam(tls, trustedCA)
      case _ => "?" + "sslmode=require" + "&" + "sslaccept=accept_invalid_certs" + CertificateParam(tls, trustedCA)
  {
    hide Join;
    var path := if trustedCA then TRUSTED_CA_PATH else "";
    var caPath := if tls.caSecret then POSTGRES_CA_PATH else path;
    var params := TlsParams(tls, path);
    assert "disable"[0] == 'd' && "verify-ca"[0] == 'v' && "verify-full"[0] == 'v' && "require"[0] == 'r';
    if SslMode(tls) != "disable" {
      TwoParams(params[0], params[1]);
      if caPath != "" {
        ThreeParams(params[0], params[1], "sslcert=", caPath);
        assert params == [params[0], params[1], "sslcert=" + caPath];
      } else {
        assert params == [params[0], params[1]];
      }
    }
  }

  lemma TwoParams(a: string, b: string)
    ensures "?" + Join([a, b], '&') == "?" + a + "&" + b
  {
    assert [a, b][1..] == [b];
    assert "&" == ['&'];
  }

  lemma ThreeParams(a: string, b: string, key: string, path: string)
    ensures "?" + Join([a, b, key + path], '&') == "?" + a + "&" + b + ("&" + key + path)
  {
    hide Join;
    assert [a, b] + [key + path] == [a, b, key + path];
    JoinLast([a, b], key + path, '&');
    TwoParams(a, b);
    assert "&" == ['&'];
    assert "?" + (Join([a, b], '&') + ['&'] + (key + path)) == ("?" + Join([a, b], '&')) + (['&'] + key + path);
  }

  // ----- the database URLs -----

  /** What the TLS block of an external database appends to its URLs. */
  function UrlSuffix(db: ExternalDatabase, trustedCA: bool): string {
    match db.tls
    case None => ""
    case Some(tls) => TlsQuery(tls, if trustedCA then "/etc/langfuse/tls/trusted-ca/ca.crt" else "")
  }

  /** The URL the pods connect with, and the direct one that bypasses a pooler: each is the content
      of its own Secret key, with the same query behind it. */
  function DatabaseUrlValue(spec: Spec, direct: bool, secrets: Secrets): Option<string> {
    match spec.database
    case Some(DatabaseSpec(_, Some(cluster), _, _)) => if direct then None else Some(secrets(cluster + "-app", "uri"))
    case Some(DatabaseSpec(_, None, Some(db), _)) =>
      var key := if direct then Mapping(db.secretRef, "directUrl") else MappedOr(db.secretRef, "url", "database_url");
      if key == "" then None else Some(secrets(db.secretRef.name, key) + UrlSuffix(db, spec.trustedCA))
    case _ => None
  }

  lemma DatabaseUrls(spec: Spec, instance: string, before: seq<EnvVar>, after: seq<EnvVar>, secrets: Secrets)
    requires !ConfigRejected(spec) && Unrelated(before) && Unrelated(after)
    ensures var all := before + DatastoreEnv(spec, instance) + after;
      && Value(all, "DATABASE_URL", secrets) == DatabaseUrlValue(spec, false, secrets)
      && Value(all, "DIRECT_URL", secrets) == DatabaseUrlValue(spec, true, secrets)
  {
    hide Value, DatabaseEnv, ClickHouseEnv, RedisEnv, DatabaseUrlValue;
    var db, ch := DatabaseEnv(spec), ClickHouseEnv(spec, instance);
    assert VarName(DatabaseUrl) == "DATABASE_URL" && VarName(DirectUrl) == "DIRECT_URL";
    AroundIsSilent(spec, instance, before, after, "DATABASE_URL", secrets);
    AroundIsSilent(spec, instance, before, after, "DIRECT_URL", secrets);
    ClickHouseEnvSilent(spec, instance, "DATABASE_URL");
    ClickHouseEnvSilent(spec, instance, "DIRECT_URL");
    SilentSuffix(before + db, ch, "DATABASE_URL", secrets);
    SilentSuffix(before + db, ch, "DIRECT_URL", secrets);
    DatabaseValues(spec, before, secrets);
  }

  lemma DatabaseValues(spec: Spec, before: seq<EnvVar>, secrets: Secrets)
    requires !ConfigRejected(spec) && Unrelated(before)
    ensures Value(before + DatabaseEnv(spec), DATABASE_URL, secrets) == DatabaseUrlValue(spec, false, secrets)
    ensures Value(before + DatabaseEnv(spec), DIRECT_URL, secrets) == DatabaseUrlValue(spec, true, secrets)
  {
    hide Value, UrlEnv;
    NameLengths();
    assert VarName(DatabaseUrl) == DATABASE_URL && VarName(DirectUrl) == DIRECT_URL;
    SilentHasNoOrigin(before, DATABASE_URL, secrets);
    SilentHasNoOrigin(before, DIRECT_URL, secrets);
    BasesAreFree();
    if spec.database.Some? && spec.database.value.cloudNativePG.Some? {
      var cluster := spec.database.value.cloudNativePG.value;
      UrlEnvReads(before, DATABASE_URL, DATABASE_URL_BASE, cluster + "-app", "uri", None, secrets);
      UrlEnvNames(DATABASE_URL, DATABASE_URL_BASE, cluster + "-app", "uri", None, DIRECT_URL);
      SilentSuffix(before, DatabaseEnv(spec), DIRECT_URL, secrets);
      assert secrets(cluster + "-app", "uri") + "" == secrets(cluster + "-app", "uri");
    } else if External(spec) {
      ExternalValues(spec, before, secrets);
    } else {
      assert before + DatabaseEnv(spec) == before;
    }
  }

  lemma ExternalValues(spec: Spec, before: seq<EnvVar>, secrets: Secrets)
    requires !ConfigRejected(spec) && Unrelated(before) && External(spec)
    ensures Value(before + DatabaseEnv(spec), DATABASE_URL, secrets) == DatabaseUrlValue(spec, false, secrets)
    ensures Value(before + DatabaseEnv(spec), DIRECT_URL, secrets) == DatabaseUrlValue(spec, true, secrets)
  {
    hide Value, UrlEnv, TlsQuery;
    var db := spec.database.value.external.value;
    var ref, query := db.secretRef, QueryOf(db, TrustedCAPath(spec));
    var direct := ref.Key("directUrl");
    var first := UrlEnv(DATABASE_URL, DATABASE_URL_BASE, ref.name, PostgresUrlKey(ref), query);
    var second := if direct == "" then [] else UrlEnv(DIRECT_URL, DIRECT_URL_BASE, ref.name, direct, query);
    assert before + DatabaseEnv(spec) == (before + first) + second;
    assert VarName(DirectUrl) == DIRECT_URL && VarName(DatabaseUrl) == DATABASE_URL;
    NameLengths();
    BasesAreFree();
    UrlEnvReads(before, DATABASE_URL, DATABASE_URL_BASE, ref.name, PostgresUrlKey(ref), query, secrets);
    UrlEnvNames(DIRECT_URL, DIRECT_URL_BASE, ref.name, direct, query, DATABASE_URL);
    SilentSuffix(before + first, second, DATABASE_URL, secrets);
    if direct == "" {
      SilentHasNoOrigin(before, DIRECT_URL, secrets);
      UrlEnvNames(DATABASE_URL, DATABASE_URL_BASE, ref.name, PostgresUrlKey(ref), query, DIRECT_URL);
      SilentSuffix(before, first, DIRECT_URL, secrets);
      assert (before + first) + second == before + first;
    } else {
      UrlEnvReads(before + first, DIRECT_URL, DIRECT_URL_BASE, ref.name, direct, query, secrets);
    }
  }
}
