/** The migration identity: a printer, its parsers, and the two comparisons made on recorded
    strings - the gate (`UpToDate`) and the refusal (`RetargetedComponents`). */
module Identity {
  import opened Text
  import opened InstanceSpec

  const POSTGRES_KEY := "postgres-ref="
  const CLICKHOUSE_KEY := "clickhouse-ref="
  const CLUSTER_KEY := "clickhouse-cluster="
  const DATABASE_KEY := "clickhouse-db="

  datatype Target = Target(
    version: string,
    postgresRef: string,
    clickHouseRef: string,
    database: string,
    clustered: bool)

  function NormalizeVersion(tag: string): string {
    if tag != "" && tag[0] == 'v' then tag[1..] else tag
  }

  function MappingText(key: string, value: string): string {
    key + ['='] + value
  }

  /** "name#url=key,second=key". */
  function SecretText(name: string, url: string, second: string, value: string): string {
    name + ['#'] + (MappingText("url", url) + [','] + MappingText(second, value))
  }

  function PostgresRefName(spec: Spec): string {
    if spec.database.None? then ""
    else if spec.database.value.cloudNativePG.Some? then "cnpg/" + spec.database.value.cloudNativePG.value
    else if spec.database.value.external.Some? then
      var ref := spec.database.value.external.value.secretRef;
      SecretText("secret/" + ref.name, PostgresUrlKey(ref), "directUrl", ref.Key("directUrl"))
    else ""
  }

  function ClickHouseRefName(spec: Spec): string {
    if spec.clickHouse.None? then ""
    else if spec.clickHouse.value.managed then "managed"
    else if spec.clickHouse.value.external.Some? then
      var ref := spec.clickHouse.value.external.value;
      SecretText("secret/" + ref.name, ClickHouseUrlKey(ref), "migrationUrl", ref.Key("migrationUrl"))
    else ""
  }

  function BoolText(b: bool): string {
    if b then "true" else "false"
  }

  function Components(t: Target): seq<string> {
    [NormalizeVersion(t.version), POSTGRES_KEY + t.postgresRef, CLICKHOUSE_KEY + t.clickHouseRef,
     CLUSTER_KEY + BoolText(t.clustered), DATABASE_KEY + t.database]
  }

  function BuildIdentity(t: Target): string {
    Join(Components(t), '|')
  }

  function TargetOf(spec: Spec): Target {
    Target(spec.tag, PostgresRefName(spec), ClickHouseRefName(spec), ClickHouseDatabase(spec), Clustered(spec))
  }

  function MigrationIdentity(spec: Spec): string {
    BuildIdentity(TargetOf(spec))
  }

  /** What operators without an applied identity recorded: version, unclustered, "default". */
  function LegacyIdentity(version: string): string {
    Join([NormalizeVersion(version), CLUSTER_KEY + BoolText(false), DATABASE_KEY + "default"], '|')
  }

  /** The identity of the last successful migration, back-filled from a bare version for
      instances migrated before identities were recorded. */
  function RecordedIdentity(appliedIdentity: string, migratedVersion: string): string {
    if appliedIdentity != "" then appliedIdentity
    else if migratedVersion != "" then LegacyIdentity(migratedVersion)
    else ""
  }

  // ----- parsers -----

  function IdentityVersion(identity: string): string {
    Cut(identity, '|').0
  }

  function FirstWithPrefix(parts: seq<string>, key: string): Option<string> {
    if parts == [] then None
    else if key <= parts[0] then Some(parts[0][|key|..])
    else FirstWithPrefix(parts[1..], key)
  }

  function IdentityComponent(identity: string, key: string): Option<string> {
    FirstWithPrefix(Split(identity, '|'), key)
  }

  function IdentityDatabase(identity: string): Option<string> {
    AfterMarker(identity, '|', DATABASE_KEY)
  }

  datatype Reference = Reference(name: string, keys: map<string, string>)

  /** The endpoint mappings of a reference; a repeated key keeps its last value. */
  function Mappings(parts: seq<string>): map<string, string> {
    if parts == [] then map[]
    else
      var m := Cut(parts[|parts| - 1], '=');
      Mappings(parts[..|parts| - 1])[m.0 := m.1]
  }

  function SplitRef(ref: string): Reference {
    var cut := Cut(ref, '#');
    Reference(cut.0, if cut.2 then Mappings(Split(cut.1, ',')) else map[])
  }

  /** Every mapping the recording carries is still there; mappings it lacks are not compared. */
  predicate RefsAgree(applied: string, desired: string) {
    var a, d := SplitRef(applied), SplitRef(desired);
    a.name == d.name && forall k :: k in a.keys ==> k in d.keys && a.keys[k] == d.keys[k]
  }

  // ----- the two comparisons -----

  datatype Field = Postgres | ClickHouse | Clustering | Database
  datatype Change = Change(field: Field, was: string, want: string)

  const FIELDS: seq<Field> := [Postgres, ClickHouse, Clustering, Database]

  function Lookup(f: Field, identity: string): Option<string> {
    match f
    case Postgres => IdentityComponent(identity, POSTGRES_KEY)
    case ClickHouse => IdentityComponent(identity, CLICKHOUSE_KEY)
    case Clustering => IdentityComponent(identity, CLUSTER_KEY)
    case Database => IdentityDatabase(identity)
  }

  predicate Agree(f: Field, was: string, want: string) {
    if f == Postgres || f == ClickHouse then RefsAgree(was, want) else was == want
  }

  /** A recorded component that the desired identity contradicts. */
  predicate Moved(f: Field, applied: string, desired: string) {
    var was := Lookup(f, applied);
    was.Some? && !Agree(f, was.value, OrEmpty(Lookup(f, desired)))
  }

  function Changes(fields: seq<Field>, applied: string, desired: string): (c: seq<Change>)
    ensures c == [] <==> forall f :: f in fields ==> !Moved(f, applied, desired)
  {
    if fields == [] then []
    else
      var f := fields[|fields| - 1];
      Changes(fields[..|fields| - 1], applied, desired) +
      if Moved(f, applied, desired) then
        [Change(f, OrEmpty(Lookup(f, applied)), OrEmpty(Lookup(f, desired)))]
      else []
  }

  function RetargetedComponents(applied: string, desired: string): seq<Change> {
    if applied == "" then [] else Changes(FIELDS, applied, desired)
  }

  /** The same datastores as far as `applied` recorded them. */
  predicate SameTarget(applied: string, desired: string) {
    RetargetedComponents(applied, desired) == []
  }

  predicate UpToDate(applied: string, desired: string) {
    && applied != ""
    && IdentityVersion(applied) == IdentityVersion(desired)
    && !Moved(Postgres, applied, desired)
    && !Moved(ClickHouse, applied, desired)
    && !Moved(Clustering, applied, desired)
    && !Moved(Database, applied, desired)
  }

  // ----- the operator's loops, against those functions -----

  method ParseRef(ref: string) returns (name: string, keys: map<string, string>)
    ensures Reference(name, keys) == SplitRef(ref)
  {
    var cut := Cut(ref, '#');
    name, keys := cut.0, map[];
    if !cut.2 {
      return;
    }
    var parts := Split(cut.1, ',');
    for i := 0 to |parts|
      invariant keys == Mappings(parts[..i])
    {
      assert parts[..i + 1][..i] == parts[..i];
      var m := Cut(parts[i], '=');
      keys := keys[m.0 := m.1];
    }
    assert parts[..|parts|] == parts;
  }

  method CompareRefs(applied: string, desired: string) returns (agree: bool)
    ensures agree == RefsAgree(applied, desired)
  {
    var appliedName, appliedKeys := ParseRef(applied);
    var desiredName, desiredKeys := ParseRef(desired);
    assert Reference(appliedName, appliedKeys) == SplitRef(applied);
    assert Reference(desiredName, desiredKeys) == SplitRef(desired);
    if appliedName != desiredName {
      return false;
    }
    var left := appliedKeys.Keys;
    while left != {}
      invariant left <= appliedKeys.Keys
      invariant forall k :: k in appliedKeys && k !in left ==> k in desiredKeys && appliedKeys[k] == desiredKeys[k]
      decreases left
    {
      var key :| key in left;
      if key !in desiredKeys || appliedKeys[key] != desiredKeys[key] {
        return false;
      }
      left := left - {key};
    }
    return true;
  }

  method ListRetargeted(applied: string, desired: string) returns (changed: seq<Change>)
    ensures changed == RetargetedComponents(applied, desired)
  {
    changed := [];
    if applied == "" {
      return;
    }
    for i := 0 to |FIELDS|
      invariant changed == Changes(FIELDS[..i], applied, desired)
    {
      assert FIELDS[..i + 1][..i] == FIELDS[..i];
      var f := FIELDS[i];
      var was := Lookup(f, applied);
      if was.Some? {
        var want := OrEmpty(Lookup(f, desired));
        var agree := was.value == want;
        if f == Postgres || f == ClickHouse {
          agree := CompareRefs(was.value, want);
        }
        if !agree {
          changed := changed + [Change(f, was.value, want)];
        }
      }
    }
    assert FIELDS[..|FIELDS|] == FIELDS;
  }

  method CheckUpToDate(applied: string, desired: string) returns (ok: bool)
    ensures ok == UpToDate(applied, desired)
  {
    hide RefsAgree, Lookup, IdentityVersion;
    if applied == "" || IdentityVersion(applied) != IdentityVersion(desired) {
      return false;
    }
    var references: seq<Field> := [Postgres, ClickHouse];
    for i := 0 to |references|
      invariant forall k :: 0 <= k < i ==> !Moved(references[k], applied, desired)
    {
      var was := Lookup(references[i], applied);
      if was.Some? {
        var agree := CompareRefs(was.value, OrEmpty(Lookup(references[i], desired)));
        if !agree {
          return false;
        }
      }
    }
    assert references[0] == Postgres && references[1] == ClickHouse;
    var mode, database := Lookup(Clustering, applied), Lookup(Database, applied);
    if mode.Some? && mode.value != OrEmpty(Lookup(Clustering, desired)) {
      return false;
    }
    return !(database.Some? && database.value != OrEmpty(Lookup(Database, desired)));
  }
}
