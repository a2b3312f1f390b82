/** Recordings in their own text, those of older operators among them: the gate and the refusal
    compare exactly what a recording carries, and nothing else. */
module OldRecordings {
  import opened Text
  import opened InstanceSpec
  import opened Identity
  import opened IdentityLaws

  /** A reference as some operator wrote it: the bare name; with the key of the URL; or with the
      keys of both URLs. */
  datatype OldRef = Name(name: string) | WithUrl(name: string, url: string) | WithBoth(name: string, url: string, second: string)

  function RefLiteral(r: OldRef, second: string): string {
    match r
    case Name(name) => name
    case WithUrl(name, url) => name + "#" + "url=" + url
    case WithBoth(name, url, value) => name + "#" + "url=" + url + "," + second + "=" + value
  }

  datatype Recording = Recording(version: string, postgres: OldRef, clickHouse: OldRef, clustered: bool, database: string)

  function Literal(r: Recording): string {
    r.version + "|postgres-ref=" + RefLiteral(r.postgres, "directUrl")
      + "|clickhouse-ref=" + RefLiteral(r.clickHouse, "migrationUrl")
      + "|clickhouse-cluster=" + (if r.clustered then "true" else "false")
      + "|clickhouse-db=" + r.database
  }

  ghost predicate PlainOld(r: OldRef) {
    Plain(r.name) && (!r.Name? ==> Plain(r.url)) && (r.WithBoth? ==> Plain(r.second))
  }

  ghost predicate PlainRecording(r: Recording) {
    Plain(r.version) && PlainOld(r.postgres) && PlainOld(r.clickHouse)
  }

  /** The Secret key a logical one is mapped to, or a default when it is unmapped or mapped to "". */
  function MappedOr(ref: SecretRef, logical: string, default: string): string {
    if logical in ref.keys && ref.keys[logical] != "" then ref.keys[logical] else default
  }

  function Mapping(ref: SecretRef, logical: string): string {
    if logical in ref.keys then ref.keys[logical] else ""
  }

  function PostgresNow(spec: Spec): OldRef {
    match spec.database
    case Some(DatabaseSpec(_, Some(cluster), _, _)) => Name("cnpg/" + cluster)
    case Some(DatabaseSpec(_, None, Some(e), _)) =>
      WithBoth("secret/" + e.secretRef.name, MappedOr(e.secretRef, "url", "database_url"), Mapping(e.secretRef, "directUrl"))
    case _ => Name("")
  }

  function ClickHouseNow(spec: Spec): OldRef {
    match spec.clickHouse
    case Some(c) =>
      if c.managed then Name("managed")
      else if c.external.None? then Name("")
      else WithBoth("secret/" + c.external.value.name, MappedOr(c.external.value, "url", "url"), Mapping(c.external.value, "migrationUrl"))
    case None => Name("")
  }

  /** What today's operator records for a spec whose tag is `version` or "v" + `version`. */
  function Now(spec: Spec, version: string): Recording {
    Recording(version, PostgresNow(spec), ClickHouseNow(spec),
      spec.clickHouse.Some? && spec.clickHouse.value.clusterEnabled,
      if spec.clickHouse.Some? && spec.clickHouse.value.database != "" then spec.clickHouse.value.database else "default")
  }

  predicate Tagged(tag: string, version: string) {
    tag == "v" + version || (tag == version && (version == "" || version[0] != 'v'))
  }

  // ----- it is the text the parsers are written for -----

  lemma RefLiteralSplits(r: OldRef, second: string)
    requires PlainOld(r) && Plain(second)
    ensures SplitRef(RefLiteral(r, second)).name == r.name
    ensures SplitRef(RefLiteral(r, second)).keys ==
      match r
      case Name(_) => map[]
      case WithUrl(_, url) => map["url" := url]
      case WithBoth(_, url, value) => map["url" := url][second := value]
    ensures Free(RefLiteral(r, second), '|')
  {
    match r
    case Name(name) => SplitPlainRef(name);
    case WithUrl(name, url) => UrlOnlySplits(name, url);
    case WithBoth(name, url, value) => BothSplit(name, url, second, value);
  }

  lemma UrlOnlySplits(name: string, url: string)
    requires Plain(name) && Plain(url)
    ensures SplitRef(name + "#" + "url=" + url) == Reference(name, map["url" := url])
    ensures Free(name + "#" + "url=" + url, '|')
  {
    hide Split, Cut, Mappings;
    var m := MappingText("url", url);
    assert "url=" == "url" + ['='] && "#" == ['#'];
    assert name + "#" + "url=" + url == name + ['#'] + m;
    assert Free(m, ',') && Free(m, '|');
    CutAt(name, '#', m);
    SplitNone(m, ',');
    OneMapping("url", url);
  }

  lemma OneMapping(k: string, v: string)
    requires Free(k, '=')
    ensures Mappings([MappingText(k, v)]) == map[k := v]
  {
    CutAt(k, '=', v);
    var parts := [MappingText(k, v)];
    assert parts[..0] == [];
  }

  lemma BothSplit(name: string, url: string, second: string, value: string)
    requires Plain(name) && Plain(url) && Plain(second) && Plain(value)
    ensures var text := name + "#" + "url=" + url + "," + second + "=" + value;
      SplitRef(text) == Reference(name, map["url" := url][second := value]) && Free(text, '|')
  {
    hide SplitRef;
    BothIsSecretText(name, url, second, value);
    SplitSecretText(name, url, second, value);
    SecretTextFree(name, url, second, value);
  }

  lemma BothIsSecretText(name: string, url: string, second: string, value: string)
    ensures name + "#" + "url=" + url + "," + second + "=" + value == SecretText(name, url, second, value)
  {
    assert "url=" == "url" + ['='] && "#" == ['#'] && "," == [','] && "=" == ['='];
    var m1, m2 := MappingText("url", url), MappingText(second, value);
    assert name + "#" + "url=" + url == name + ['#'] + m1;
    assert (name + ['#'] + m1) + "," + second + "=" + value == name + ['#'] + (m1 + [','] + m2);
  }

  function TargetOfRecording(r: Recording): Target {
    Target("v" + r.version, RefLiteral(r.postgres, "directUrl"), RefLiteral(r.clickHouse, "migrationUrl"), r.database, r.clustered)
  }

  lemma Unprefixed(version: string)
    ensures NormalizeVersion("v" + version) == version
  {
    assert ("v" + version)[1..] == version;
  }

  lemma LiteralIsBuilt(r: Recording)
    ensures Literal(r) == BuildIdentity(TargetOfRecording(r))
  {
    hide RefLiteral, Join, NormalizeVersion;
    var pg, ch := RefLiteral(r.postgres, "directUrl"), RefLiteral(r.clickHouse, "migrationUrl");
    var parts := Components(TargetOfRecording(r));
    Unprefixed(r.version);
    MarkerTexts();
    AppendPart(parts[..1], POSTGRES_KEY, pg, "|postgres-ref=");
    AppendPart(parts[..2], CLICKHOUSE_KEY, ch, "|clickhouse-ref=");
    AppendPart(parts[..3], CLUSTER_KEY, BoolText(r.clustered), "|clickhouse-cluster=");
    AppendPart(parts[..4], DATABASE_KEY, r.database, "|clickhouse-db=");
    Prefixes(parts);
    OnePart(r.version);
  }

  lemma Prefixes(parts: seq<string>)
    requires |parts| == 5
    ensures parts[..1] == [parts[0]] && parts[..5] == parts
    ensures forall i :: 0 <= i < 5 ==> parts[..i] + [parts[i]] == parts[..i + 1]
  {
  }

  lemma OnePart(v: string)
    ensures Join([v], '|') == v
  {
  }

  lemma MarkerTexts()
    ensures "|postgres-ref=" == ['|'] + POSTGRES_KEY
    ensures "|clickhouse-ref=" == ['|'] + CLICKHOUSE_KEY
    ensures "|clickhouse-cluster=" == ['|'] + CLUSTER_KEY
    ensures "|clickhouse-db=" == ['|'] + DATABASE_KEY
  {
  }

  lemma AppendPart(front: seq<string>, key: string, value: string, marker: string)
    requires front != [] && marker == ['|'] + key
    ensures Join(front + [key + value], '|') == Join(front, '|') + marker + value
  {
    hide Join;
    JoinLast(front, key + value, '|');
    AppendKeyed(Join(front, '|'), key, value);
  }

  lemma AppendKeyed(a: string, key: string, value: string)
    ensures a + (['|'] + key) + value == a + ['|'] + (key + value)
  {
  }

  lemma RefNamesNow(spec: Spec)
    ensures RefLiteral(PostgresNow(spec), "directUrl") == PostgresRefName(spec)
    ensures RefLiteral(ClickHouseNow(spec), "migrationUrl") == ClickHouseRefName(spec)
  {
    hide SecretText;
    if spec.database.Some? && spec.database.value.external.Some? {
      var ref := spec.database.value.external.value.secretRef;
      BothIsSecretText("secret/" + ref.name, MappedOr(ref, "url", "database_url"), "directUrl", Mapping(ref, "directUrl"));
    }
    if spec.clickHouse.Some? && spec.clickHouse.value.external.Some? {
      var ref := spec.clickHouse.value.external.value;
      BothIsSecretText("secret/" + ref.name, MappedOr(ref, "url", "url"), "migrationUrl", Mapping(ref, "migrationUrl"));
    }
  }

  /** The identity of every spec, in its own text. */
  lemma IdentityText(spec: Spec, version: string)
    requires Tagged(spec.tag, version)
    ensures MigrationIdentity(spec) == Literal(Now(spec, version))
  {
    hide Literal, BuildIdentity, RefLiteral, PostgresRefName, ClickHouseRefName, PostgresNow, ClickHouseNow;
    Unprefixed(version);
    RefNamesNow(spec);
    LiteralIsBuilt(Now(spec, version));
    assert TargetOf(spec).(version := "v" + version) == TargetOfRecording(Now(spec, version));
    OnlyNormalizedVersion(TargetOf(spec), "v" + version);
  }

  /** The identity depends on a tag through its normalised form alone. */
  lemma OnlyNormalizedVersion(t: Target, version: string)
    requires NormalizeVersion(t.version) == NormalizeVersion(version)
    ensures BuildIdentity(t) == BuildIdentity(t.(version := version))
  {
    assert Components(t) == Components(t.(version := version));
  }

  // ----- what a recording is compared on -----

  /** A recorded reference differs from `now`: in the name, or in a key that was recorded. */
  predicate Differs(r: OldRef, now: OldRef) {
    || r.name != now.name
    || (!r.Name? && (now.Name? || now.url != r.url))
    || (r.WithBoth? && (!now.WithBoth? || now.second != r.second))
  }

  lemma RefsDiffer(r: OldRef, now: OldRef, second: string)
    requires PlainOld(r) && PlainOld(now) && Plain(second) && second != "url"
    ensures RefsAgree(RefLiteral(r, second), RefLiteral(now, second)) <==> !Differs(r, now)
  {
    hide SplitRef, RefLiteral;
    RefLiteralSplits(r, second);
    RefLiteralSplits(now, second);
    var keys := SplitRef(RefLiteral(r, second)).keys;
    match r
    case Name(_) =>
    case WithUrl(_, url) =>
      assert "url" in keys;
    case WithBoth(_, url, value) =>
      assert "url" in keys && second in keys;
  }

  lemma RecordedParts(r: Recording)
    requires PlainRecording(r)
    ensures IdentityVersion(Literal(r)) == r.version && Literal(r) != ""
    ensures Lookup(Postgres, Literal(r)) == Some(RefLiteral(r.postgres, "directUrl"))
    ensures Lookup(ClickHouse, Literal(r)) == Some(RefLiteral(r.clickHouse, "migrationUrl"))
    ensures Lookup(Clustering, Literal(r)) == Some(BoolText(r.clustered))
    ensures Lookup(Database, Literal(r)) == Some(r.database)
  {
    hide RefLiteral, BuildIdentity, Lookup, IdentityVersion, NormalizeVersion;
    Unprefixed(r.version);
    LiteralIsBuilt(r);
    PlainSeconds();
    RefLiteralSplits(r.postgres, "directUrl");
    RefLiteralSplits(r.clickHouse, "migrationUrl");
    ComponentsRecovered(TargetOfRecording(r));
    DatabaseRecovered(TargetOfRecording(r));
    BuiltNonEmpty(TargetOfRecording(r));
  }

  lemma BuiltNonEmpty(t: Target)
    ensures BuildIdentity(t) != ""
  {
    assert |BuildIdentity(t)| >= 1;
  }

  lemma PlainSeconds()
    ensures Plain("directUrl") && Plain("migrationUrl") && "directUrl" != "url" && "migrationUrl" != "url"
  {
    assert "directUrl"[0] == 'd' && "migrationUrl"[0] == 'm' && "url"[0] == 'u';
  }

  function Entry(moved: bool, c: Change): seq<Change> {
    if moved then [c] else []
  }

  /** The refusal between any two recordings, of whatever operators: listed are exactly the parts
      the first one carries that differ in the second - the names, the keys it recorded, the
      clustering and the database - in order and with both texts. */
  lemma RefusalIsExact(r: Recording, now: Recording)
    requires PlainRecording(r) && PlainRecording(now)
    ensures RetargetedComponents(Literal(r), Literal(now)) ==
      Entry(Differs(r.postgres, now.postgres),
            Change(Postgres, RefLiteral(r.postgres, "directUrl"), RefLiteral(now.postgres, "directUrl"))) +
      Entry(Differs(r.clickHouse, now.clickHouse),
            Change(ClickHouse, RefLiteral(r.clickHouse, "migrationUrl"), RefLiteral(now.clickHouse, "migrationUrl"))) +
      Entry(r.clustered != now.clustered, Change(Clustering, BoolText(r.clustered), BoolText(now.clustered))) +
      Entry(r.database != now.database, Change(Database, r.database, now.database))
  {
    hide RefLiteral, Literal, Lookup, Differs, Moved;
    RecordedParts(r);
    RecordedParts(now);
    PartsMoved(r, now);
    FourChanges(Literal(r), Literal(now));
  }

  lemma PartsMoved(r: Recording, now: Recording)
    requires PlainRecording(r) && PlainRecording(now)
    ensures var a, d := Literal(r), Literal(now);
      && (Moved(Postgres, a, d) <==> Differs(r.postgres, now.postgres))
      && (Moved(ClickHouse, a, d) <==> Differs(r.clickHouse, now.clickHouse))
      && (Moved(Clustering, a, d) <==> r.clustered != now.clustered)
      && (Moved(Database, a, d) <==> r.database != now.database)
  {
    hide RefLiteral, Literal, Lookup, Differs, RefsAgree;
    RecordedParts(r);
    RecordedParts(now);
    PlainSeconds();
    RefsDiffer(r.postgres, now.postgres, "directUrl");
    RefsDiffer(r.clickHouse, now.clickHouse, "migrationUrl");
    assert BoolText(true)[0] == 't' && BoolText(false)[0] == 'f';
  }

  function ChangeIn(f: Field, a: string, d: string): seq<Change> {
    Entry(Moved(f, a, d), Change(f, OrEmpty(Lookup(f, a)), OrEmpty(Lookup(f, d))))
  }

  lemma OneChange(fields: seq<Field>, f: Field, a: string, d: string)
    ensures Changes(fields + [f], a, d) == Changes(fields, a, d) + ChangeIn(f, a, d)
  {
    hide Moved, Lookup;
    assert (fields + [f])[..|fields|] == fields;
  }

  lemma FourChanges(a: string, d: string)
    requires a != ""
    ensures RetargetedComponents(a, d) ==
      ChangeIn(Postgres, a, d) + ChangeIn(ClickHouse, a, d) + ChangeIn(Clustering, a, d) + ChangeIn(Database, a, d)
  {
    hide Moved, Lookup, Changes, ChangeIn;
    OneChange([], Postgres, a, d);
    OneChange([Postgres], ClickHouse, a, d);
    OneChange([Postgres, ClickHouse], Clustering, a, d);
    OneChange([Postgres, ClickHouse, Clustering], Database, a, d);
    NoChanges(a, d);
    assert [] + [Postgres] == [Postgres] && [Postgres] + [ClickHouse] == [Postgres, ClickHouse];
    assert [Postgres, ClickHouse] + [Clustering] == [Postgres, ClickHouse, Clustering];
    assert [Postgres, ClickHouse, Clustering] + [Database] == FIELDS;
  }

  lemma NoChanges(a: string, d: string)
    ensures Changes([], a, d) == []
  {
  }

  /** A recording and the present say the same as far as the recording goes. */
  predicate SamePlace(r: Recording, now: Recording) {
    && !Differs(r.postgres, now.postgres) && !Differs(r.clickHouse, now.clickHouse)
    && r.clustered == now.clustered && r.database == now.database
  }

  /** The gate and the freeze between any two recordings: the freeze lets through exactly what
      differs in nothing that was recorded, the gate closes when the version is the same too. */
  lemma GateIsExact(r: Recording, now: Recording)
    requires PlainRecording(r) && PlainRecording(now)
    ensures SameTarget(Literal(r), Literal(now)) <==> SamePlace(r, now)
    ensures UpToDate(Literal(r), Literal(now)) <==> SamePlace(r, now) && r.version == now.version
  {
    hide RefLiteral, Literal, Lookup, Differs, Moved, SameTarget;
    RecordedParts(r);
    RecordedParts(now);
    PartsMoved(r, now);
    SameTargetByField(Literal(r), Literal(now));
  }

  lemma NowIsPlain(spec: Spec, version: string)
    requires WellFormed(spec) && Tagged(spec.tag, version)
    ensures PlainRecording(Now(spec, version))
  {
    hide Plain, PostgresNow, ClickHouseNow;
    PlainVersion(spec.tag, version);
    PostgresNowIsPlain(spec);
    ClickHouseNowIsPlain(spec);
  }

  lemma PlainVersion(tag: string, version: string)
    requires Plain(tag) && Tagged(tag, version)
    ensures Plain(version)
  {
    if tag == "v" + version {
      assert tag[1..] == version;
    }
  }

  lemma PlainJoined(a: string, b: string)
    requires Plain(a) && Plain(b)
    ensures Plain(a + b)
  {
  }

  lemma PlainWords()
    ensures Plain("") && Plain("managed") && Plain("url") && Plain("database_url") && Plain("secret/") && Plain("cnpg/")
  {
  }

  lemma PostgresNowIsPlain(spec: Spec)
    requires WellFormed(spec)
    ensures PlainOld(PostgresNow(spec))
  {
    hide Plain;
    PlainWords();
    if spec.database.Some? && spec.database.value.cloudNativePG.Some? {
      PlainJoined("cnpg/", spec.database.value.cloudNativePG.value);
    } else if spec.database.Some? && spec.database.value.external.Some? {
      PlainJoined("secret/", spec.database.value.external.value.secretRef.name);
    }
  }

  lemma ClickHouseNowIsPlain(spec: Spec)
    requires WellFormed(spec)
    ensures PlainOld(ClickHouseNow(spec))
  {
    hide Plain;
    PlainWords();
    if spec.clickHouse.Some? && spec.clickHouse.value.external.Some? {
      PlainJoined("secret/", spec.clickHouse.value.external.value.name);
    }
  }

  /** An upgraded operator on a recording without keys, or with the first key alone: it is
      refused exactly for what was recorded, whatever keys it would record today. */
  lemma OlderRecording(r: Recording, spec: Spec, version: string)
    requires PlainRecording(r) && WellFormed(spec) && Tagged(spec.tag, version)
    ensures SameTarget(Literal(r), MigrationIdentity(spec)) <==> SamePlace(r, Now(spec, version))
    ensures UpToDate(Literal(r), MigrationIdentity(spec)) <==> SamePlace(r, Now(spec, version)) && r.version == version
  {
    hide SameTarget, UpToDate, Literal, PostgresNow, ClickHouseNow, MigrationIdentity, SamePlace;
    NowIsPlain(spec, version);
    IdentityText(spec, version);
    GateIsExact(r, Now(spec, version));
  }
}
