/** What the migration identity says about the endpoints: it determines the (Secret, key) pair each
    endpoint variable reads, the refusal to retarget is exact about them, and the probe and the
    migration Job look at the same one. */
module Endpoints {
  import opened Text
  import opened InstanceSpec
  import opened Identity
  import opened IdentityLaws
  import opened DatastoreConfig
  import JobDial
  import UrlParsers

  // ----- the endpoints an identity records -----

  datatype Variable = DatabaseUrl | DirectUrl | ClickHouseUrl | ClickHouseMigrationUrl

  function VarName(v: Variable): string {
    match v
    case DatabaseUrl => DATABASE_URL
    case DirectUrl => DIRECT_URL
    case ClickHouseUrl => CLICKHOUSE_URL
    case ClickHouseMigrationUrl => CLICKHOUSE_MIGRATION_URL
  }

  /** Reads an endpoint off a split reference alone. */
  function ReferenceEndpoint(ref: Reference, logical: string): Option<(string, string)> {
    if "cnpg/" <= ref.name then (if logical == "url" then Some((ref.name[5..] + "-app", "uri")) else None)
    else if "secret/" <= ref.name && logical in ref.keys && ref.keys[logical] != "" then
      Some((ref.name[7..], ref.keys[logical]))
    else None
  }

  function Endpoint(v: Variable, p: Parts): Option<(string, string)> {
    match v
    case DatabaseUrl => ReferenceEndpoint(p.postgres, "url")
    case DirectUrl => ReferenceEndpoint(p.postgres, "directUrl")
    case ClickHouseUrl => ReferenceEndpoint(p.clickHouse, "url")
    case ClickHouseMigrationUrl => ReferenceEndpoint(p.clickHouse, "migrationUrl")
  }

  lemma NamePrefixes(n: string)
    ensures "cnpg/" <= "cnpg/" + n && ("cnpg/" + n)[5..] == n
    ensures !("cnpg/" <= "secret/" + n) && "secret/" <= "secret/" + n && ("secret/" + n)[7..] == n
    ensures !("cnpg/" <= "managed") && !("secret/" <= "managed")
  {
    assert ("secret/" + n)[0] == 's' && "cnpg/"[0] == 'c' && "managed"[0] == 'm' && "secret/"[0] == 's';
  }

  /** The variables of the endpoints and their bases are set by nothing else. */
  ghost predicate Unrelated(env: seq<EnvVar>) {
    && (forall v: Variable :: Silent(env, VarName(v)))
    && Silent(env, DATABASE_URL_BASE) && Silent(env, DIRECT_URL_BASE)
  }

  lemma {:induction false} SilentHasNoOrigin(env: seq<EnvVar>, name: string, secrets: Secrets)
    requires Silent(env, name)
    ensures Origin(env, name) == None && Value(env, name, secrets) == None
  {
    SilentSuffix([], env, name, secrets);
    assert [] + env == env;
  }

  lemma DatabaseOrigins(spec: Spec, before: seq<EnvVar>, v: Variable, secrets: Secrets)
    requires Unrelated(before) && !ConfigRejected(spec) && (v.DatabaseUrl? || v.DirectUrl?)
    ensures Origin(before + DatabaseEnv(spec), VarName(v)) == Endpoint(v, PartsOf(spec))
  {
    NameLengths();
    SilentHasNoOrigin(before, VarName(v), secrets);
    if spec.database.None? {
      assert before + DatabaseEnv(spec) == before;
    } else if spec.database.value.cloudNativePG.Some? {
      var cluster := spec.database.value.cloudNativePG.value;
      NamePrefixes(cluster);
      UrlEnvReads(before, DATABASE_URL, DATABASE_URL_BASE, cluster + "-app", "uri", None, secrets);
      if v.DirectUrl? { SilentSuffix(before, DatabaseEnv(spec), DIRECT_URL, secrets); }
    } else if spec.database.value.external.Some? {
      ExternalOrigins(spec, before, v, secrets);
    } else {
      assert before + DatabaseEnv(spec) == before;
    }
  }

  lemma BasesAreFree()
    ensures Free(DATABASE_URL_BASE, ')') && Free(DIRECT_URL_BASE, ')')
  {
  }

  predicate External(spec: Spec) {
    spec.database.Some? && spec.database.value.cloudNativePG.None? && spec.database.value.external.Some?
  }

  function ExternalRef(spec: Spec): SecretRef
    requires External(spec)
  {
    spec.database.value.external.value.secretRef
  }

  lemma ExternalOrigins(spec: Spec, before: seq<EnvVar>, v: Variable, secrets: Secrets)
    requires Unrelated(before) && !ConfigRejected(spec) && (v.DatabaseUrl? || v.DirectUrl?) && External(spec)
    ensures Origin(before + DatabaseEnv(spec), VarName(v)) == Endpoint(v, PartsOf(spec))
    ensures v.DatabaseUrl? ==>
      Value(before + DatabaseEnv(spec), DATABASE_URL, secrets) ==
        Some(secrets(ExternalRef(spec).name, PostgresUrlKey(ExternalRef(spec))) +
             Suffix(QueryOf(spec.database.value.external.value, TrustedCAPath(spec))))
  {
    hide LeadingReference, UrlEnv;
    var db := spec.database.value.external.value;
    var ref, query := db.secretRef, QueryOf(db, TrustedCAPath(spec));
    var direct := ref.Key("directUrl");
    var first := UrlEnv(DATABASE_URL, DATABASE_URL_BASE, ref.name, PostgresUrlKey(ref), query);
    var second := if direct == "" then [] else UrlEnv(DIRECT_URL, DIRECT_URL_BASE, ref.name, direct, query);
    assert before + DatabaseEnv(spec) == (before + first) + second;
    NameLengths();
    NamePrefixes(ref.name);
    BasesAreFree();
    SilentHasNoOrigin(before, VarName(v), secrets);
    if v.DatabaseUrl? {
      UrlEnvReads(before, DATABASE_URL, DATABASE_URL_BASE, ref.name, PostgresUrlKey(ref), query, secrets);
      UrlEnvNames(DIRECT_URL, DIRECT_URL_BASE, ref.name, direct, query, DATABASE_URL);
      SilentSuffix(before + first, second, DATABASE_URL, secrets);
    } else if direct == "" {
      UrlEnvNames(DATABASE_URL, DATABASE_URL_BASE, ref.name, PostgresUrlKey(ref), query, DIRECT_URL);
      SilentSuffix(before, first, DIRECT_URL, secrets);
      assert (before + first) + second == before + first;
    } else {
      UrlEnvReads(before + first, DIRECT_URL, DIRECT_URL_BASE, ref.name, direct, query, secrets);
    }
  }

  lemma DatabaseEnvSilent(spec: Spec, name: string)
    requires name !in {DATABASE_URL, DATABASE_URL_BASE, DIRECT_URL, DIRECT_URL_BASE}
    ensures Silent(DatabaseEnv(spec), name)
  {
  }

  lemma ClickHouseEnvSilent(spec: Spec, instance: string, name: string)
    requires name in {DATABASE_URL, DIRECT_URL}
    ensures Silent(ClickHouseEnv(spec, instance), name)
  {
    hide ClickHouseHead, ClickHouseTail;
    NameLengths();
    if spec.clickHouse.Some? {
      HeadAndTailSilent(spec.clickHouse.value, instance, name);
    }
  }

  lemma HeadAndTailSilent(ch: ClickHouseSpec, instance: string, name: string)
    requires name in {DATABASE_URL, DIRECT_URL, CLICKHOUSE_URL, CLICKHOUSE_MIGRATION_URL}
    ensures Silent(ClickHouseHead(ch, instance), name) && Silent(ClickHouseTail(ch), name)
  {
    NameLengths();
  }

  ghost predicate RedisNamed(env: seq<EnvVar>) {
    forall k :: 0 <= k < |env| ==> REDIS <= env[k].name
  }

  lemma RedisTLSNamed(tls: RedisTLS, trustedCAPath: string)
    ensures RedisNamed(RedisTLSEnv(tls, trustedCAPath))
  {
  }

  lemma ExternalRedisNamed(redis: ExternalRedis, trustedCAPath: string)
    ensures RedisNamed(ExternalRedisEnv(redis, trustedCAPath))
  {
    hide RedisTLSEnv;
    if redis.tls.Some? { RedisTLSNamed(redis.tls.value, trustedCAPath); }
  }

  lemma RedisEnvSilent(spec: Spec, instance: string, name: string)
    requires name in {DATABASE_URL, DIRECT_URL, CLICKHOUSE_URL, CLICKHOUSE_MIGRATION_URL}
    ensures Silent(RedisEnv(spec, instance), name)
  {
    hide ExternalRedisEnv;
    if spec.redis.Some? && spec.redis.value.external.Some? {
      ExternalRedisNamed(spec.redis.value.external.value, TrustedCAPath(spec));
    }
    assert RedisNamed(RedisEnv(spec, instance));
    assert REDIS[0] == 'R' && name[0] != 'R';
  }

  lemma FixedUrlsHaveNoReference(instance: string)
    ensures LeadingReference("http://" + instance + "-clickhouse:8123") == None
    ensures LeadingReference("clickhouse://" + instance + "-clickhouse:9000") == None
  {
    assert ("http://" + instance + "-clickhouse:8123")[0] == 'h';
    assert ("clickhouse://" + instance + "-clickhouse:9000")[0] == 'c';
    assert "$("[0] == '$';
  }

  lemma ClickHouseOrigins(spec: Spec, instance: string, before: seq<EnvVar>, v: Variable, secrets: Secrets)
    requires Silent(before, VarName(v)) && !ConfigRejected(spec) && (v.ClickHouseUrl? || v.ClickHouseMigrationUrl?)
    ensures Origin(before + ClickHouseEnv(spec, instance), VarName(v)) == Endpoint(v, PartsOf(spec))
  {
    hide ClickHouseEndpoints, ClickHousePair, Origin, ClickHouseHead, ClickHouseTail;
    NameLengths();
    if spec.clickHouse.None? {
      SilentHasNoOrigin(before, VarName(v), secrets);
      assert before + ClickHouseEnv(spec, instance) == before;
    } else {
      var ch := spec.clickHouse.value;
      var head, ends, tail := ClickHouseHead(ch, instance), ClickHouseEndpoints(ch, instance), ClickHouseTail(ch);
      HeadAndTailSilent(ch, instance, VarName(v));
      assert before + ClickHouseEnv(spec, instance) == ((before + head) + ends) + tail;
      SilentSuffix((before + head) + ends, tail, VarName(v), secrets);
      ClickHouseEnds(ch, instance, before + head, v, secrets);
      ClickHouseEndpointOf(spec, v);
    }
  }

  lemma ClickHouseEndpointOf(spec: Spec, v: Variable)
    requires spec.clickHouse.Some? && (v.ClickHouseUrl? || v.ClickHouseMigrationUrl?)
    ensures Endpoint(v, PartsOf(spec)) == ClickHousePair(spec.clickHouse.value, v)
  {
    var ch := spec.clickHouse.value;
    if ch.external.Some? { NamePrefixes(ch.external.value.name); }
    NamePrefixes("");
  }

  /** The pair the ClickHouse variable reads, in terms of the spec. */
  function ClickHousePair(ch: ClickHouseSpec, v: Variable): Option<(string, string)> {
    if ch.managed || ch.external.None? then None
    else if v.ClickHouseUrl? then Some((ch.external.value.name, ClickHouseUrlKey(ch.external.value)))
    else KeyPair(ch.external.value, ch.external.value.Key("migrationUrl"))
  }

  lemma ClickHouseEnds(ch: ClickHouseSpec, instance: string, before: seq<EnvVar>, v: Variable, secrets: Secrets)
    requires Silent(before, VarName(v)) && (v.ClickHouseUrl? || v.ClickHouseMigrationUrl?)
    ensures Origin(before + ClickHouseEndpoints(ch, instance), VarName(v)) == ClickHousePair(ch, v)
  {
    hide LeadingReference;
    NameLengths();
    SilentHasNoOrigin(before, VarName(v), secrets);
    FixedUrlsHaveNoReference(instance);
    var ends := ClickHouseEndpoints(ch, instance);
    LastTwo(before, ends, VarName(v));
  }

  /** The origin in a list that ends in at most two given entries. */
  lemma LastTwo(before: seq<EnvVar>, ends: seq<EnvVar>, name: string)
    requires |ends| <= 2
    ensures ends == [] ==> Origin(before + ends, name) == Origin(before, name)
    ensures |ends| == 1 ==> Origin(before + ends, name) == OriginLast(before, ends[0], name)
    ensures |ends| == 2 ==> Origin(before + ends, name) == OriginLast(before + [ends[0]], ends[1], name)
    ensures |ends| == 2 ==> Origin(before + [ends[0]], name) == OriginLast(before, ends[0], name)
  {
    hide LeadingReference;
    if ends == [] {
      assert before + ends == before;
    } else {
      var one := before + [ends[0]];
      assert one[..|before|] == before;
      if |ends| == 1 {
        assert before + ends == one;
      } else {
        assert before + ends == one + [ends[1]];
        assert (one + [ends[1]])[..|one|] == one;
      }
    }
  }

  /** What follows the ClickHouse variables sets no endpoint. */
  lemma AroundIsSilent(spec: Spec, instance: string, before: seq<EnvVar>, after: seq<EnvVar>, name: string, secrets: Secrets)
    requires Silent(after, name)
    requires name in {DATABASE_URL, DIRECT_URL, CLICKHOUSE_URL, CLICKHOUSE_MIGRATION_URL}
    ensures var all, stores := before + DatastoreEnv(spec, instance) + after, (before + DatabaseEnv(spec)) + ClickHouseEnv(spec, instance);
      Origin(all, name) == Origin(stores, name) && Value(all, name, secrets) == Value(stores, name, secrets)
  {
    hide DatabaseEnv, ClickHouseEnv, RedisEnv, Origin, Value;
    var stores, redis := (before + DatabaseEnv(spec)) + ClickHouseEnv(spec, instance), RedisEnv(spec, instance);
    assert before + DatastoreEnv(spec, instance) == stores + redis;
    RedisEnvSilent(spec, instance, name);
    SilentSuffix(stores, redis, name, secrets);
    SilentSuffix(stores + redis, after, name, secrets);
  }

  /** Each endpoint variable of the pods reads exactly the (Secret, key) pair that can be
      parsed back out of the migration identity - wherever in the list the datastore
      variables stand, and with TLS through the `_BASE` variable. */
  lemma EndpointsAreRecorded(spec: Spec, instance: string, before: seq<EnvVar>, after: seq<EnvVar>, v: Variable)
    requires WellFormed(spec) && !ConfigRejected(spec) && Unrelated(before) && Unrelated(after)
    ensures Origin(before + DatastoreEnv(spec, instance) + after, VarName(v)) ==
            Endpoint(v, Recovered(MigrationIdentity(spec)))
  {
    hide DatabaseEnv, ClickHouseEnv, RedisEnv, Endpoint, Recovered, PartsOf, MigrationIdentity;
    var secrets: Secrets := (n, k) => "";
    var db, ch := DatabaseEnv(spec), ClickHouseEnv(spec, instance);
    RoundTrip(spec);
    NameLengths();
    AroundIsSilent(spec, instance, before, after, VarName(v), secrets);
    if v.DatabaseUrl? || v.DirectUrl? {
      DatabaseOrigins(spec, before, v, secrets);
      ClickHouseEnvSilent(spec, instance, VarName(v));
      SilentSuffix(before + db, ch, VarName(v), secrets);
    } else {
      DatabaseEnvSilent(spec, VarName(v));
      ClickHouseOrigins(spec, instance, before + db, v, secrets);
    }
  }

  /** Equal identities read every endpoint from the same (Secret, key); and two specs that
      read some endpoint from different pairs are always refused as a retarget. */
  lemma IdentityDecidesEndpoints(s1: Spec, s2: Spec, instance: string, before: seq<EnvVar>, after: seq<EnvVar>, v: Variable)
    requires WellFormed(s1) && !ConfigRejected(s1) && WellFormed(s2) && !ConfigRejected(s2)
    requires Unrelated(before) && Unrelated(after)
    requires SameTarget(MigrationIdentity(s1), MigrationIdentity(s2))
    ensures Origin(before + DatastoreEnv(s1, instance) + after, VarName(v)) ==
            Origin(before + DatastoreEnv(s2, instance) + after, VarName(v))
  {
    hide Endpoint, DatastoreEnv;
    EndpointsAreRecorded(s1, instance, before, after, v);
    EndpointsAreRecorded(s2, instance, before, after, v);
    RoundTrip(s1);
    RoundTrip(s2);
    RenderedTargetsAgree(s1, s2);
    EndpointIgnoresVersion(v, PartsOf(s1));
    EndpointIgnoresVersion(v, PartsOf(s2));
  }

  lemma EndpointIgnoresVersion(v: Variable, p: Parts)
    ensures Endpoint(v, p) == Endpoint(v, p.(version := ""))
  {
  }

  datatype Mode = NoStore | Cluster | ManagedNode | ExternalStore

  function PostgresMode(spec: Spec): Mode {
    if spec.database.None? then NoStore
    else if spec.database.value.cloudNativePG.Some? then Cluster
    else if spec.database.value.external.Some? then ExternalStore
    else NoStore
  }

  function ClickHouseMode(spec: Spec): Mode {
    if spec.clickHouse.None? then NoStore
    else if spec.clickHouse.value.managed then ManagedNode
    else if spec.clickHouse.value.external.Some? then ExternalStore
    else NoStore
  }

  /** Both stores are of the same mode and every endpoint variable reads the same pair. */
  ghost predicate SameEndpoints(s1: Spec, s2: Spec) {
    && PostgresMode(s1) == PostgresMode(s2) && ClickHouseMode(s1) == ClickHouseMode(s2)
    && forall v: Variable :: Endpoint(v, PartsOf(s1)) == Endpoint(v, PartsOf(s2))
  }

  /** The refusal is exact: nothing is refused exactly when both stores keep their mode, all
      four endpoints are read from the same pairs, into the same database, clustered alike. */
  lemma RefusalIsExact(s1: Spec, s2: Spec)
    requires WellFormed(s1) && WellFormed(s2)
    ensures SameTarget(MigrationIdentity(s1), MigrationIdentity(s2)) <==>
            && SameEndpoints(s1, s2)
            && Clustered(s1) == Clustered(s2)
            && ClickHouseDatabase(s1) == ClickHouseDatabase(s2)
  {
    hide MigrationIdentity, SameTarget, PostgresReference, ClickHouseReference, ClickHouseDatabase, SameEndpoints;
    RenderedTargetsAgree(s1, s2);
    SameEndpointsSameReferences(s1, s2);
    assert BoolText(true)[0] == 't' && BoolText(false)[0] == 'f';
  }

  lemma SameEndpointsSameReferences(s1: Spec, s2: Spec)
    ensures SameEndpoints(s1, s2) <==>
            PostgresReference(s1) == PostgresReference(s2) && ClickHouseReference(s1) == ClickHouseReference(s2)
  {
    hide ReferenceEndpoint, PostgresReference, ClickHouseReference;
    SamePostgres(s1, s2);
    SameClickHouse(s1, s2);
    if SameEndpoints(s1, s2) {
      assert Endpoint(DatabaseUrl, PartsOf(s1)) == Endpoint(DatabaseUrl, PartsOf(s2));
      assert Endpoint(DirectUrl, PartsOf(s1)) == Endpoint(DirectUrl, PartsOf(s2));
      assert Endpoint(ClickHouseUrl, PartsOf(s1)) == Endpoint(ClickHouseUrl, PartsOf(s2));
      assert Endpoint(ClickHouseMigrationUrl, PartsOf(s1)) == Endpoint(ClickHouseMigrationUrl, PartsOf(s2));
    }
  }

  lemma SamePostgres(s1: Spec, s2: Spec)
    ensures PostgresReference(s1) == PostgresReference(s2) <==>
            && PostgresMode(s1) == PostgresMode(s2)
            && Endpoint(DatabaseUrl, PartsOf(s1)) == Endpoint(DatabaseUrl, PartsOf(s2))
            && Endpoint(DirectUrl, PartsOf(s1)) == Endpoint(DirectUrl, PartsOf(s2))
  {
    hide PostgresReference, ReferenceEndpoint;
    PostgresEndpoints(s1);
    PostgresEndpoints(s2);
    if PostgresMode(s1) == Cluster == PostgresMode(s2) {
      var c1, c2 := s1.database.value.cloudNativePG.value, s2.database.value.cloudNativePG.value;
      assert (c1 + "-app")[..|c1 + "-app"| - 4] == c1 && (c2 + "-app")[..|c2 + "-app"| - 4] == c2;
    }
  }

  /** What the PostgreSQL reference holds, by mode, and that it tells the mode. */
  lemma PostgresEndpoints(spec: Spec)
    ensures match PostgresMode(spec)
      case ExternalStore =>
        var ref := ExternalRef(spec);
        && PostgresReference(spec) == StoreReference(ref.name, PostgresUrlKey(ref), "directUrl", ref.Key("directUrl"))
        && Endpoint(DatabaseUrl, PartsOf(spec)) == Some((ref.name, PostgresUrlKey(ref)))
        && Endpoint(DirectUrl, PartsOf(spec)) == KeyPair(ref, ref.Key("directUrl"))
      case Cluster =>
        var c := spec.database.value.cloudNativePG.value;
        && PostgresReference(spec) == Reference("cnpg/" + c, map[])
        && Endpoint(DatabaseUrl, PartsOf(spec)) == Some((c + "-app", "uri")) && Endpoint(DirectUrl, PartsOf(spec)) == None
      case _ =>
        && PostgresReference(spec) == Reference("", map[])
        && Endpoint(DatabaseUrl, PartsOf(spec)) == None == Endpoint(DirectUrl, PartsOf(spec))
    ensures PostgresMode(spec) == ModeOf(PostgresReference(spec))
  {
    if PostgresMode(spec) == ExternalStore { NamePrefixes(ExternalRef(spec).name); }
    if PostgresMode(spec) == Cluster { NamePrefixes(spec.database.value.cloudNativePG.value); }
  }

  function StoreReference(name: string, url: string, second: string, value: string): Reference {
    Reference("secret/" + name, map["url" := url][second := value])
  }

  function ModeOf(ref: Reference): Mode {
    if ref.name == "" then NoStore
    else if ref.name == "managed" then ManagedNode
    else if "cnpg/" <= ref.name then Cluster
    else ExternalStore
  }

  lemma SameClickHouse(s1: Spec, s2: Spec)
    ensures ClickHouseReference(s1) == ClickHouseReference(s2) <==>
            && ClickHouseMode(s1) == ClickHouseMode(s2)
            && Endpoint(ClickHouseUrl, PartsOf(s1)) == Endpoint(ClickHouseUrl, PartsOf(s2))
            && Endpoint(ClickHouseMigrationUrl, PartsOf(s1)) == Endpoint(ClickHouseMigrationUrl, PartsOf(s2))
  {
    hide ClickHouseReference, ReferenceEndpoint;
    ClickHousePairs(s1);
    ClickHousePairs(s2);
  }

  lemma ClickHousePairs(spec: Spec)
    ensures match ClickHouseMode(spec)
      case ExternalStore =>
        var ref := spec.clickHouse.value.external.value;
        && ClickHouseReference(spec) == StoreReference(ref.name, ClickHouseUrlKey(ref), "migrationUrl", ref.Key("migrationUrl"))
        && Endpoint(ClickHouseUrl, PartsOf(spec)) == Some((ref.name, ClickHouseUrlKey(ref)))
        && Endpoint(ClickHouseMigrationUrl, PartsOf(spec)) == KeyPair(ref, ref.Key("migrationUrl"))
      case mode =>
        && ClickHouseReference(spec) == Reference(if mode == ManagedNode then "managed" else "", map[])
        && Endpoint(ClickHouseUrl, PartsOf(spec)) == None == Endpoint(ClickHouseMigrationUrl, PartsOf(spec))
    ensures ClickHouseMode(spec) == ModeOf(ClickHouseReference(spec))
  {
    if ClickHouseMode(spec) == ExternalStore { NamePrefixes(spec.clickHouse.value.external.value.name); }
    NamePrefixes("");
  }

  function KeyPair(ref: SecretRef, key: string): Option<(string, string)> {
    if key == "" then None else Some((ref.name, key))
  }

  predicate ExternalStores(spec: Spec) {
    PostgresMode(spec) == ExternalStore == ClickHouseMode(spec)
  }

  /** Between external stores the pairs alone decide. */
  lemma ExternalRefusalIsExact(s1: Spec, s2: Spec)
    requires WellFormed(s1) && ExternalStores(s1) && WellFormed(s2) && ExternalStores(s2)
    ensures SameTarget(MigrationIdentity(s1), MigrationIdentity(s2)) <==>
            && (forall v: Variable :: Endpoint(v, PartsOf(s1)) == Endpoint(v, PartsOf(s2)))
            && Clustered(s1) == Clustered(s2)
            && ClickHouseDatabase(s1) == ClickHouseDatabase(s2)
  {
    hide Endpoint, MigrationIdentity, SameTarget, PartsOf;
    RefusalIsExact(s1, s2);
  }

  /** The same spec, naming the cluster's own Secret instead of the cluster. */
  function Alias(spec: Spec, cluster: string): Spec
    requires spec.database.Some?
  {
    var ref := SecretRef(cluster + "-app", map["url" := "uri"]);
    spec.(database := Some(spec.database.value.(cloudNativePG := None, external := Some(ExternalDatabase(ref, None)))))
  }

  /** The mode counts: naming a CNPG cluster's own Secret instead of the cluster keeps every
      endpoint and is refused nonetheless. */
  lemma AliasIsRefused(spec: Spec, cluster: string)
    requires WellFormed(spec) && Plain(cluster)
    requires spec.database.Some? && spec.database.value.cloudNativePG == Some(cluster)
    ensures WellFormed(Alias(spec, cluster))
    ensures forall v: Variable :: Endpoint(v, PartsOf(spec)) == Endpoint(v, PartsOf(Alias(spec, cluster)))
    ensures !SameTarget(MigrationIdentity(spec), MigrationIdentity(Alias(spec, cluster)))
  {
    hide MigrationIdentity, SameTarget, Endpoint;
    assert Plain(cluster + "-app") && Plain("uri");
    AliasEndpoints(spec, cluster);
    RefusalIsExact(spec, Alias(spec, cluster));
  }

  lemma AliasEndpoints(spec: Spec, cluster: string)
    requires spec.database.Some? && spec.database.value.cloudNativePG == Some(cluster)
    ensures forall v: Variable :: Endpoint(v, PartsOf(spec)) == Endpoint(v, PartsOf(Alias(spec, cluster)))
  {
    NamePrefixes(cluster);
    NamePrefixes(cluster + "-app");
  }

  // ----- the probe and the Job look at one endpoint -----

  /** Printable, and none of the characters the URL readers stop or split at. */
  predicate QueryChar(c: char) {
    '!' <= c <= '~' && c != '@' && c != ':'
  }

  ghost predicate QueryChars(s: string) {
    forall k :: 0 <= k < |s| ==> QueryChar(s[k])
  }

  lemma QueryPieces()
    ensures QueryChars("sslmode=require") && QueryChars("sslaccept=strict")
    ensures QueryChars("sslaccept=accept_invalid_certs") && QueryChars("?sslmode=disable")
    ensures QueryChars("sslcert=")
  {
  }

  lemma CAPaths()
    ensures QueryChars(TRUSTED_CA_PATH) && QueryChars(POSTGRES_CA_PATH)
  {
  }

  lemma {:induction false} JoinedQueryChars(parts: seq<string>)
    requires parts != [] && forall k :: 0 <= k < |parts| ==> QueryChars(parts[k])
    ensures QueryChars(Join(parts, '&'))
  {
    if |parts| > 1 {
      JoinedQueryChars(parts[1..]);
    }
  }

  /** The composed query is one that neither URL reader can notice. */
  lemma TlsQueryText(tls: DatabaseTLS, trustedCA: bool)
    ensures UrlParsers.QueryText(TlsQuery(tls, if trustedCA then TRUSTED_CA_PATH else ""))
  {
    var path := if trustedCA then TRUSTED_CA_PATH else "";
    var q, params := TlsQuery(tls, path), TlsParams(tls, path);
    QueryPieces();
    CAPaths();
    forall k | 0 <= k < |params| ensures QueryChars(params[k]) {
    }
    JoinedQueryChars(params);
    assert QueryChars(q);
  }

  /** With an external database, the value of the variable the Job parses, as the Job reads it. */
  lemma JobReadsSecret(spec: Spec, instance: string, before: seq<EnvVar>, after: seq<EnvVar>, secrets: Secrets)
    returns (job: string)
    requires !ConfigRejected(spec) && External(spec) && Unrelated(before) && Unrelated(after)
    ensures Value(before + DatastoreEnv(spec, instance) + after, DATABASE_URL, secrets) == Some(job)
    ensures UrlParsers.ShellParse(job, UrlParsers.POSTGRES_PORT) ==
            UrlParsers.ShellParse(secrets(ExternalRef(spec).name, PostgresUrlKey(ExternalRef(spec))), UrlParsers.POSTGRES_PORT)
  {
    hide DatabaseEnv, ClickHouseEnv, RedisEnv, UrlParsers.ShellParse, TlsQuery, UrlParsers.QueryText;
    var db, ch := DatabaseEnv(spec), ClickHouseEnv(spec, instance);
    assert VarName(DatabaseUrl) == DATABASE_URL;
    AroundIsSilent(spec, instance, before, after, DATABASE_URL, secrets);
    ClickHouseEnvSilent(spec, instance, DATABASE_URL);
    SilentSuffix(before + db, ch, DATABASE_URL, secrets);
    ExternalOrigins(spec, before, DatabaseUrl, secrets);
    var external := spec.database.value.external.value;
    var raw := secrets(ExternalRef(spec).name, PostgresUrlKey(ExternalRef(spec)));
    var query := QueryOf(external, TrustedCAPath(spec));
    job := raw + Suffix(query);
    if query.Some? {
      TlsQueryText(external.tls.value, spec.trustedCA);
      UrlParsers.JobIgnoresTlsQuery(raw, query.value, UrlParsers.POSTGRES_PORT);
    } else {
      assert raw + "" == raw;
    }
  }

  /** With an external database, what the Job waits for is what the probe dials: for every
      content of the Secret with no '@' behind its authority, white space around it included,
      with or without TLS, exactly when the authority is one on which they dial alike - and, read
      as the two parsers read a framed one, exactly when it is agreeable. */
  lemma ProbeAndJobShareEndpoint(spec: Spec, instance: string, before: seq<EnvVar>, after: seq<EnvVar>, secrets: Secrets)
    returns (job: string)
    requires !ConfigRejected(spec) && External(spec) && Unrelated(before) && Unrelated(after)
    ensures Value(before + DatastoreEnv(spec, instance) + after, DATABASE_URL, secrets) == Some(job)
    ensures var raw := secrets(ExternalRef(spec).name, PostgresUrlKey(ExternalRef(spec)));
      var rest := UrlParsers.AfterScheme(UrlParsers.Trim(raw, UrlParsers.IsSpace));
      UrlParsers.PlainTail(rest) ==>
        && (JobDial.Splittable(raw) ==>
              (UrlParsers.ParsePostgres(raw) == UrlParsers.Ok(JobDial.Dial(job, UrlParsers.POSTGRES_PORT)) <==>
               JobDial.DialAgreeable(UrlParsers.Authority(rest),
                 UrlParsers.ShellAuthority(UrlParsers.AfterScheme(raw)) != UrlParsers.Authority(rest))))
        && (UrlParsers.Framed(raw) ==>
              (UrlParsers.ParsePostgres(raw) == UrlParsers.Ok(UrlParsers.ShellParse(job, UrlParsers.POSTGRES_PORT)) <==>
               UrlParsers.Agreeable(UrlParsers.Authority(rest))))
  {
    hide UrlParsers.ParsePostgres, UrlParsers.ShellParse, UrlParsers.Agreeable, UrlParsers.ShellAuthority,
      UrlParsers.Authority, UrlParsers.AfterScheme, UrlParsers.PlainTail, UrlParsers.Framed, UrlParsers.Trim,
      JobDial.DialAgreeable, JobDial.Splittable, JobDial.Words;
    job := JobReadsSecret(spec, instance, before, after, secrets);
    var raw := secrets(ExternalRef(spec).name, PostgresUrlKey(ExternalRef(spec)));
    if UrlParsers.PlainTail(UrlParsers.AfterScheme(UrlParsers.Trim(raw, UrlParsers.IsSpace))) {
      if JobDial.Splittable(raw) { JobDial.DialsAlike(raw); }
      if UrlParsers.Framed(raw) { UrlParsers.ParsersAgree(raw); }
    }
  }
}
