/** The part of `LangfuseInstance.spec` that decides what a migration produces and where it
    lands. Everything else a user can edit is the number `rest`. */
module InstanceSpec {
  import opened Text

  datatype SecretRef = SecretRef(name: string, keys: map<string, string>) {
    /** A Go map lookup: the empty string when the mapping is absent. */
    function Key(logical: string): string {
      if logical in keys then keys[logical] else ""
    }

    function KeyOr(logical: string, default: string): string {
      if Key(logical) != "" then Key(logical) else default
    }
  }

  datatype DatabaseTLS = DatabaseTLS(sslMode: string, caSecret: bool)

  datatype ExternalDatabase = ExternalDatabase(secretRef: SecretRef, tls: Option<DatabaseTLS>)

  datatype DatabaseSpec = DatabaseSpec(
    managed: bool,
    cloudNativePG: Option<string>,
    external: Option<ExternalDatabase>,
    runOnDeploy: Option<bool>)

  /** `auth` are the managed node's credentials, `tls` the external store's native protocol. */
  datatype ClickHouseSpec = ClickHouseSpec(
    managed: bool,
    external: Option<SecretRef>,
    database: string,
    clusterEnabled: bool,
    auth: Option<SecretRef>,
    tls: bool)

  datatype RedisTLS = RedisTLS(enabled: bool, caSecret: bool, clientCert: bool, serverName: string)

  datatype ExternalRedis = ExternalRedis(secretRef: SecretRef, tls: Option<RedisTLS>)

  datatype RedisSpec = RedisSpec(managed: bool, external: Option<ExternalRedis>)

  datatype Spec = Spec(
    tag: string,
    publicUrl: string,
    database: Option<DatabaseSpec>,
    clickHouse: Option<ClickHouseSpec>,
    redis: Option<RedisSpec>,
    trustedCA: bool,
    rest: nat)

  /** Free of the separators the identity is written with; true of image tags, Kubernetes
      object names and Secret keys. */
  ghost predicate Plain(s: string) {
    Free(s, '|') && Free(s, '#') && Free(s, ',') && Free(s, '=')
  }

  ghost predicate PlainRef(ref: SecretRef) {
    Plain(ref.name) && forall k :: k in ref.keys ==> Plain(ref.keys[k])
  }

  /** Nothing is asked of the ClickHouse database name. */
  ghost predicate WellFormed(spec: Spec) {
    && Plain(spec.tag)
    && (spec.database.Some? ==>
          && (spec.database.value.cloudNativePG.Some? ==> Plain(spec.database.value.cloudNativePG.value))
          && (spec.database.value.external.Some? ==> PlainRef(spec.database.value.external.value.secretRef)))
    && (spec.clickHouse.Some? && spec.clickHouse.value.external.Some? ==>
          PlainRef(spec.clickHouse.value.external.value))
  }

  function PostgresUrlKey(ref: SecretRef): string {
    ref.KeyOr("url", "database_url")
  }

  function ClickHouseUrlKey(ref: SecretRef): string {
    ref.KeyOr("url", "url")
  }

  function Clustered(spec: Spec): bool {
    spec.clickHouse.Some? && spec.clickHouse.value.clusterEnabled
  }

  function ClickHouseDatabase(spec: Spec): string {
    if spec.clickHouse.Some? && spec.clickHouse.value.database != "" then spec.clickHouse.value.database
    else "default"
  }

  /** `Some(false)` is the only value that switches migrations off. */
  predicate MigrationsDisabled(spec: Spec) {
    spec.database.Some? && spec.database.value.runOnDeploy == Some(false)
  }

  /** Certificates for a TLS connection that is not switched on. */
  predicate RedisRejected(redis: RedisSpec) {
    !redis.managed && redis.external.Some? && redis.external.value.tls.Some? &&
    var tls := redis.external.value.tls.value;
    !tls.enabled && (tls.caSecret || tls.clientCert)
  }

  /** The three combinations `BuildConfig` rejects. */
  predicate ConfigRejected(spec: Spec) {
    || (spec.database.Some? && spec.database.value.managed)
    || (spec.clickHouse.Some? && spec.clickHouse.value.managed && spec.clickHouse.value.clusterEnabled)
    || (spec.redis.Some? && RedisRejected(spec.redis.value))
  }

  /** Some key the ClickHouse migration step requires is unmapped or mapped to "". */
  predicate MissingMigrationKeys(spec: Spec) {
    spec.clickHouse.Some? && spec.clickHouse.value.external.Some? &&
    var ref := spec.clickHouse.value.external.value;
    ref.Key("migrationUrl") == "" || ref.Key("username") == "" || ref.Key("password") == ""
  }
}
