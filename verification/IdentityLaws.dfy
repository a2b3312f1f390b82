/** What the identity encoding guarantees: it round-trips, two targets render equal exactly
    when their normalised parts are equal, and the gate and the refusal read a recording the
    same way. */
module IdentityLaws {
  import opened Text
  import opened InstanceSpec
  import opened Identity

  // ----- round trip -----

  /** The normalised parts of a target, in the terms the parsers return. */
  datatype Parts = Parts(
    version: string,
    postgres: Reference,
    clickHouse: Reference,
    clustered: string,
    database: string)

  /** The parts as the operator's own parsers read them off a string. */
  function Recovered(identity: string): Parts {
    Parts(
      IdentityVersion(identity),
      SplitRef(OrEmpty(Lookup(Postgres, identity))),
      SplitRef(OrEmpty(Lookup(ClickHouse, identity))),
      OrEmpty(Lookup(Clustering, identity)),
      OrEmpty(Lookup(Database, identity)))
  }

  function PostgresReference(spec: Spec): Reference {
    if spec.database.None? then Reference("", map[])
    else if spec.database.value.cloudNativePG.Some? then
      Reference("cnpg/" + spec.database.value.cloudNativePG.value, map[])
    else if spec.database.value.external.Some? then
      var ref := spec.database.value.external.value.secretRef;
      Reference("secret/" + ref.name, map["url" := PostgresUrlKey(ref), "directUrl" := ref.Key("directUrl")])
    else Reference("", map[])
  }

  function ClickHouseReference(spec: Spec): Reference {
    if spec.clickHouse.None? then Reference("", map[])
    else if spec.clickHouse.value.managed then Reference("managed", map[])
    else if spec.clickHouse.value.external.Some? then
      var ref := spec.clickHouse.value.external.value;
      Reference("secret/" + ref.name, map["url" := ClickHouseUrlKey(ref), "migrationUrl" := ref.Key("migrationUrl")])
    else Reference("", map[])
  }

  function PartsOf(spec: Spec): Parts {
    Parts(
      NormalizeVersion(spec.tag),
      PostgresReference(spec),
      ClickHouseReference(spec),
      BoolText(Clustered(spec)),
      ClickHouseDatabase(spec))
  }

  /** How a reference is written: the name, and its two mappings when it is a Secret. */
  function RefText(ref: Reference, second: string): string {
    if "url" in ref.keys && second in ref.keys then
      SecretText(ref.name, ref.keys["url"], second, ref.keys[second])
    else ref.name
  }

  lemma RefNamesAreRefTexts(spec: Spec)
    ensures PostgresRefName(spec) == RefText(PostgresReference(spec), "directUrl")
    ensures ClickHouseRefName(spec) == RefText(ClickHouseReference(spec), "migrationUrl")
  {
  }

  /** A two-mapping reference splits back into its name and its two mappings. */
  lemma SplitSecretText(name: string, url: string, second: string, value: string)
    requires Free(name, '#') && Free(url, ',') && Free(value, ',')
    requires Free(second, ',') && Free(second, '=')
    ensures SplitRef(SecretText(name, url, second, value)) == Reference(name, map["url" := url][second := value])
  {
    hide Split, Cut, Mappings;
    var m1, m2 := MappingText("url", url), MappingText(second, value);
    CutAt(name, '#', m1 + [','] + m2);
    SplitAt(m1, ',', m2);
    SplitNone(m2, ',');
    TwoMappings("url", url, second, value);
  }

  lemma TwoMappings(k1: string, v1: string, k2: string, v2: string)
    requires Free(k1, '=') && Free(k2, '=')
    ensures Mappings([MappingText(k1, v1)] + [MappingText(k2, v2)]) == map[k1 := v1][k2 := v2]
  {
    var m1, m2 := MappingText(k1, v1), MappingText(k2, v2);
    CutAt(k1, '=', v1);
    CutAt(k2, '=', v2);
    var parts := [m1] + [m2];
    assert parts[..1] == [m1] && [m1][..0] == [];
    assert Mappings([m1]) == Mappings([m1][..0])[k1 := v1] == map[k1 := v1];
  }

  lemma SecretTextFree(name: string, url: string, second: string, value: string)
    requires Free(name, '|') && Free(url, '|') && Free(second, '|') && Free(value, '|')
    ensures Free(SecretText(name, url, second, value), '|')
  {
    var m1, m2 := MappingText("url", url), MappingText(second, value);
    assert Free(m1, '|') && Free(m2, '|');
    assert Free(m1 + [','] + m2, '|');
  }

  lemma SplitPlainRef(name: string)
    requires Free(name, '#')
    ensures SplitRef(name) == Reference(name, map[])
  {
    CutNone(name, '#');
  }

  lemma ReferencesSplit(spec: Spec)
    requires WellFormed(spec)
    ensures SplitRef(PostgresRefName(spec)) == PostgresReference(spec)
    ensures SplitRef(ClickHouseRefName(spec)) == ClickHouseReference(spec)
    ensures Free(PostgresRefName(spec), '|') && Free(ClickHouseRefName(spec), '|')
  {
    PostgresSplits(spec);
    ClickHouseSplits(spec);
  }

  lemma PostgresSplits(spec: Spec)
    requires WellFormed(spec)
    ensures SplitRef(PostgresRefName(spec)) == PostgresReference(spec)
    ensures Free(PostgresRefName(spec), '|')
  {
    if spec.database.Some? && spec.database.value.cloudNativePG.None? && spec.database.value.external.Some? {
      var ref := spec.database.value.external.value.secretRef;
      SecretSplits(ref, PostgresUrlKey(ref), "directUrl");
    } else {
      SplitPlainRef(PostgresRefName(spec));
    }
  }

  lemma ClickHouseSplits(spec: Spec)
    requires WellFormed(spec)
    ensures SplitRef(ClickHouseRefName(spec)) == ClickHouseReference(spec)
    ensures Free(ClickHouseRefName(spec), '|')
  {
    if spec.clickHouse.Some? && !spec.clickHouse.value.managed && spec.clickHouse.value.external.Some? {
      var ref := spec.clickHouse.value.external.value;
      SecretSplits(ref, ClickHouseUrlKey(ref), "migrationUrl");
    } else {
      SplitPlainRef(ClickHouseRefName(spec));
    }
  }

  lemma SecretSplits(ref: SecretRef, url: string, second: string)
    requires PlainRef(ref) && Plain(second)
    requires url in ref.keys.Values || Plain(url)
    ensures SplitRef(SecretText("secret/" + ref.name, url, second, ref.Key(second))) ==
            Reference("secret/" + ref.name, map["url" := url][second := ref.Key(second)])
    ensures Free(SecretText("secret/" + ref.name, url, second, ref.Key(second)), '|')
  {
    assert Plain(url) && Plain(ref.Key(second));
    SplitSecretText("secret/" + ref.name, url, second, ref.Key(second));
    SecretTextFree("secret/" + ref.name, url, second, ref.Key(second));
  }

  /** The component markers are told apart by one character each. */
  lemma Markers()
    ensures Free(POSTGRES_KEY, '|') && Free(CLICKHOUSE_KEY, '|') && Free(CLUSTER_KEY, '|') && Free(DATABASE_KEY, '|')
    ensures |POSTGRES_KEY| == 13 && |CLICKHOUSE_KEY| == 15 && |CLUSTER_KEY| == 19 && |DATABASE_KEY| == 14
    ensures POSTGRES_KEY[0] == 'p' && POSTGRES_KEY[12] == '='
    ensures CLICKHOUSE_KEY[0] == 'c' && CLICKHOUSE_KEY[11] == 'r' && CLICKHOUSE_KEY[14] == '='
    ensures CLUSTER_KEY[0] == 'c' && CLUSTER_KEY[11] == 'c' && CLUSTER_KEY[18] == '='
    ensures DATABASE_KEY[0] == 'c' && DATABASE_KEY[11] == 'd' && DATABASE_KEY[13] == '='
  {
  }

  lemma KeyedPart(key: string, value: string, other: string, i: nat)
    requires i < |key| && i < |other| && key[i] != other[i]
    ensures !(other <= key + value)
    ensures key <= key + value && (key + value)[|key|..] == value
  {
    assert (key + value)[i] == key[i];
  }

  lemma UnkeyedPart(v: string, key: string, i: nat)
    requires Free(v, '=') && i < |key| && key[i] == '='
    ensures !(key <= v)
  {
  }

  /** Which of the first four parts answers which lookup. */
  lemma FirstOfFive(v: string, p: string, c: string, b: string, d: seq<string>)
    requires Free(v, '=')
    ensures var parts := [v, POSTGRES_KEY + p, CLICKHOUSE_KEY + c, CLUSTER_KEY + b] + d;
      && FirstWithPrefix(parts, POSTGRES_KEY) == Some(p)
      && FirstWithPrefix(parts, CLICKHOUSE_KEY) == Some(c)
      && FirstWithPrefix(parts, CLUSTER_KEY) == Some(b)
  {
    Markers();
    var parts := [v, POSTGRES_KEY + p, CLICKHOUSE_KEY + c, CLUSTER_KEY + b] + d;
    UnkeyedPart(v, POSTGRES_KEY, 12);
    UnkeyedPart(v, CLICKHOUSE_KEY, 14);
    UnkeyedPart(v, CLUSTER_KEY, 18);
    KeyedPart(POSTGRES_KEY, p, CLICKHOUSE_KEY, 0);
    KeyedPart(POSTGRES_KEY, p, CLUSTER_KEY, 0);
    KeyedPart(CLICKHOUSE_KEY, c, CLUSTER_KEY, 11);
    KeyedPart(CLUSTER_KEY, b, CLICKHOUSE_KEY, 11);
    FirstAt(parts, POSTGRES_KEY, 1);
    FirstAt(parts, CLICKHOUSE_KEY, 2);
    FirstAt(parts, CLUSTER_KEY, 3);
  }

  lemma {:induction false} FirstAt(parts: seq<string>, key: string, i: nat)
    requires i < |parts| && key <= parts[i] && forall k :: 0 <= k < i ==> !(key <= parts[k])
    ensures FirstWithPrefix(parts, key) == Some(parts[i][|key|..])
  {
    if i > 0 {
      FirstAt(parts[1..], key, i - 1);
    }
  }

  lemma {:induction false} NoneFirst(parts: seq<string>, key: string)
    requires forall k :: 0 <= k < |parts| ==> !(key <= parts[k])
    ensures FirstWithPrefix(parts, key) == None
  {
    if parts != [] {
      NoneFirst(parts[1..], key);
    }
  }

  /** The three bar-separated components come back out of a rendered identity. */
  lemma ComponentsRecovered(t: Target)
    requires Plain(NormalizeVersion(t.version)) && Free(t.postgresRef, '|') && Free(t.clickHouseRef, '|')
    ensures IdentityVersion(BuildIdentity(t)) == NormalizeVersion(t.version)
    ensures Lookup(Postgres, BuildIdentity(t)) == Some(t.postgresRef)
    ensures Lookup(ClickHouse, BuildIdentity(t)) == Some(t.clickHouseRef)
    ensures Lookup(Clustering, BuildIdentity(t)) == Some(BoolText(t.clustered))
  {
    var parts := Components(t);
    ComponentsFree(t);
    CutJoin(parts, '|');
    var front := [parts[0], parts[1], parts[2], parts[3]];
    assert parts == front + [parts[4]];
    SplitJoin(front, parts[4], '|');
    FirstOfFive(parts[0], t.postgresRef, t.clickHouseRef, BoolText(t.clustered), Split(parts[4], '|'));
  }

  lemma ComponentsFree(t: Target)
    requires Plain(NormalizeVersion(t.version)) && Free(t.postgresRef, '|') && Free(t.clickHouseRef, '|')
    ensures forall k :: 0 <= k < 4 ==> Free(Components(t)[k], '|')
  {
    Markers();
    assert Free(BoolText(t.clustered), '|');
  }

  /** The first database marker is the printed one, whatever the database is called. */
  lemma DatabaseRecovered(t: Target)
    requires Plain(NormalizeVersion(t.version)) && Free(t.postgresRef, '|') && Free(t.clickHouseRef, '|')
    ensures Lookup(Database, BuildIdentity(t)) == Some(t.database)
  {
    Markers();
    ComponentsFree(t);
    var parts := Components(t);
    var tail4 := parts[1..][1..][1..][1..];
    assert tail4 == [parts[4]];
    assert Join(tail4, '|') == parts[4] == DATABASE_KEY + t.database;
    var j3, j2 := Join(parts[1..][1..][1..], '|'), Join(parts[1..][1..], '|');
    var j1 := Join(parts[1..], '|');
    assert j3 == parts[3] + ['|'] + parts[4] && j2 == parts[2] + ['|'] + j3 && j1 == parts[1] + ['|'] + j2;
    assert BuildIdentity(t) == parts[0] + ['|'] + j1;
    assert j1[0] == 'p' && j2[11] == 'r' && j3[11] == 'c';
    MarkerSkipped(parts[0], '|', DATABASE_KEY, j1);
    MarkerSkipped(parts[1], '|', DATABASE_KEY, j2);
    MarkerSkipped(parts[2], '|', DATABASE_KEY, j3);
    MarkerFound(parts[3], '|', DATABASE_KEY, parts[4]);
  }

  lemma NormalizedStaysPlain(tag: string)
    requires Plain(tag)
    ensures Plain(NormalizeVersion(tag))
  {
  }

  /** Round trip: every part of a well-formed target is recovered from its identity. */
  lemma RoundTrip(spec: Spec)
    requires WellFormed(spec)
    ensures forall f :: f in FIELDS ==> Lookup(f, MigrationIdentity(spec)).Some?
    ensures Recovered(MigrationIdentity(spec)) == PartsOf(spec)
  {
    NormalizedStaysPlain(spec.tag);
    ReferencesSplit(spec);
    ComponentsRecovered(TargetOf(spec));
    DatabaseRecovered(TargetOf(spec));
  }

  /** Two well-formed targets render equal exactly when their normalised parts are equal. */
  lemma Injective(s1: Spec, s2: Spec)
    requires WellFormed(s1) && WellFormed(s2)
    ensures MigrationIdentity(s1) == MigrationIdentity(s2) <==> PartsOf(s1) == PartsOf(s2)
  {
    if PartsOf(s1) == PartsOf(s2) {
      RefNamesAreRefTexts(s1);
      RefNamesAreRefTexts(s2);
      assert Clustered(s1) == Clustered(s2) by {
        assert BoolText(true)[0] == 't' && BoolText(false)[0] == 'f';
      }
    }
    RoundTrip(s1);
    RoundTrip(s2);
  }

  // ----- the gate and the refusal -----

  lemma FieldsAreAll(f: Field)
    ensures f in FIELDS
  {
    assert FIELDS[0] == Postgres && FIELDS[1] == ClickHouse && FIELDS[2] == Clustering && FIELDS[3] == Database;
  }

  lemma SameTargetByField(applied: string, desired: string)
    requires applied != ""
    ensures SameTarget(applied, desired) <==>
            && !Moved(Postgres, applied, desired)
            && !Moved(ClickHouse, applied, desired)
            && !Moved(Clustering, applied, desired)
            && !Moved(Database, applied, desired)
  {
    forall f: Field ensures f in FIELDS { FieldsAreAll(f); }
  }

  /** On any recording and any desired string, the gate is closed exactly when the versions
      match and nothing is refused as a retarget. */
  lemma GateMatchesRefusal(applied: string, desired: string)
    requires applied != ""
    ensures UpToDate(applied, desired) <==>
            IdentityVersion(applied) == IdentityVersion(desired) && SameTarget(applied, desired)
  {
    SameTargetByField(applied, desired);
  }

  /** Between identities of the current builder the componentwise gate is string equality. */
  lemma RenderedGateIsEquality(s1: Spec, s2: Spec)
    requires WellFormed(s1) && WellFormed(s2)
    ensures UpToDate(MigrationIdentity(s1), MigrationIdentity(s2)) <==>
            MigrationIdentity(s1) == MigrationIdentity(s2)
  {
    BuiltIsComplete(s1);
    VersionRecovered(s1);
    VersionRecovered(s2);
    GateMatchesRefusal(MigrationIdentity(s1), MigrationIdentity(s2));
    RenderedTargetsAgree(s1, s2);
    Injective(s1, s2);
  }

  lemma VersionRecovered(spec: Spec)
    requires WellFormed(spec)
    ensures IdentityVersion(MigrationIdentity(spec)) == PartsOf(spec).version
  {
    RoundTrip(spec);
  }

  /** Between identities of the current builder, nothing is refused exactly when all parts
      but the version are equal. */
  lemma RenderedTargetsAgree(s1: Spec, s2: Spec)
    requires WellFormed(s1) && WellFormed(s2)
    ensures SameTarget(MigrationIdentity(s1), MigrationIdentity(s2)) <==>
            PartsOf(s1).(version := "") == PartsOf(s2).(version := "")
  {
    hide MigrationIdentity, Lookup, SameTarget, SplitRef, RefsAgree,
      PostgresRefName, ClickHouseRefName, PostgresReference, ClickHouseReference;
    BuiltIsComplete(s1);
    SameTargetByField(MigrationIdentity(s1), MigrationIdentity(s2));
    LookupsOf(s1);
    LookupsOf(s2);
    SameKeys(s1, s2);
    KeyedAgreement(PostgresRefName(s1), PostgresRefName(s2));
    KeyedAgreement(ClickHouseRefName(s1), ClickHouseRefName(s2));
  }

  lemma LookupsOf(spec: Spec)
    requires WellFormed(spec)
    ensures Lookup(Postgres, MigrationIdentity(spec)) == Some(PostgresRefName(spec))
    ensures Lookup(ClickHouse, MigrationIdentity(spec)) == Some(ClickHouseRefName(spec))
    ensures Lookup(Clustering, MigrationIdentity(spec)) == Some(PartsOf(spec).clustered)
    ensures Lookup(Database, MigrationIdentity(spec)) == Some(PartsOf(spec).database)
    ensures SplitRef(PostgresRefName(spec)) == PartsOf(spec).postgres
    ensures SplitRef(ClickHouseRefName(spec)) == PartsOf(spec).clickHouse
  {
    NormalizedStaysPlain(spec.tag);
    ReferencesSplit(spec);
    ComponentsRecovered(TargetOf(spec));
    DatabaseRecovered(TargetOf(spec));
  }

  /** Agreement looks one way only; with equal key sets it is equality. */
  lemma KeyedAgreement(r1: string, r2: string)
    requires SplitRef(r1).name == SplitRef(r2).name ==> SplitRef(r1).keys.Keys == SplitRef(r2).keys.Keys
    ensures RefsAgree(r1, r2) <==> SplitRef(r1) == SplitRef(r2)
  {
    var a, d := SplitRef(r1), SplitRef(r2);
    if RefsAgree(r1, r2) {
      assert a.keys == d.keys;
    }
  }

  /** References with one name carry the same key set, so one-way agreement is equality. */
  lemma SameKeys(s1: Spec, s2: Spec)
    ensures PostgresReference(s1).name == PostgresReference(s2).name ==>
              PostgresReference(s1).keys.Keys == PostgresReference(s2).keys.Keys
    ensures ClickHouseReference(s1).name == ClickHouseReference(s2).name ==>
              ClickHouseReference(s1).keys.Keys == ClickHouseReference(s2).keys.Keys
  {
    assert forall n: string :: ("cnpg/" + n)[0] == 'c';
    assert forall n: string :: ("secret/" + n)[0] == 's';
    assert "managed"[0] == 'm';
  }

  lemma SameTargetReflexive(identity: string)
    ensures SameTarget(identity, identity)
  {
  }

  /** Every component is present; true of whatever the current builder writes. */
  predicate Complete(identity: string) {
    identity != "" && forall f :: f in FIELDS ==> Lookup(f, identity).Some?
  }

  lemma {:induction false} PrefixFound(parts: seq<string>, key: string, i: nat)
    requires i < |parts| && key <= parts[i]
    ensures FirstWithPrefix(parts, key).Some?
  {
    if i > 0 {
      PrefixFound(parts[1..], key, i - 1);
    }
  }

  lemma KeyedPartFirst(key: string, value: string)
    requires Free(key, '|')
    ensures key <= Split(key + value, '|')[0]
  {
    var text := key + value;
    assert forall k :: 0 <= k < |key| ==> text[k] == key[k];
    var i := Find(text, '|');
    assert |key| <= i;
    assert text[..i][..|key|] == key;
  }

  /** A keyed part of a join is found among the split parts, however many separators the
      parts themselves contain. */
  lemma {:induction false} ComponentPresent(parts: seq<string>, key: string, value: string, i: nat)
    requires i < |parts| && Free(key, '|') && parts[i] == key + value
    ensures IdentityComponent(Join(parts, '|'), key).Some?
  {
    var all := Split(Join(parts, '|'), '|');
    KeyedPartFirst(key, value);
    if |parts| == 1 {
      PrefixFound(all, key, 0);
    } else {
      var rest := parts[1..];
      var front, back := Split(parts[0], '|'), Split(Join(rest, '|'), '|');
      SplitConcat(parts[0], '|', Join(rest, '|'));
      assert all == front + back;
      if i == 0 {
        assert all[0] == front[0];
        PrefixFound(all, key, 0);
      } else {
        ComponentPresent(rest, key, value, i - 1);
        PrefixStays(front, back, key);
      }
    }
  }

  lemma {:induction false} PrefixStays(front: seq<string>, back: seq<string>, key: string)
    requires FirstWithPrefix(back, key).Some?
    ensures FirstWithPrefix(front + back, key).Some?
  {
    if front == [] {
      assert front + back == back;
    } else {
      assert (front + back)[0] == front[0] && (front + back)[1..] == front[1..] + back;
      PrefixStays(front[1..], back, key);
    }
  }

  /** Completeness needs no assumption on the spec: separators inside a tag or a name can
      garble a component but not make one disappear. */
  lemma BuiltIsComplete(spec: Spec)
    ensures Complete(MigrationIdentity(spec))
  {
    Markers();
    var t := TargetOf(spec);
    var parts := Components(t);
    ComponentPresent(parts, POSTGRES_KEY, t.postgresRef, 1);
    ComponentPresent(parts, CLICKHOUSE_KEY, t.clickHouseRef, 2);
    ComponentPresent(parts, CLUSTER_KEY, BoolText(t.clustered), 3);
    DatabasePresent(parts);
    assert FIELDS == [Postgres, ClickHouse, Clustering, Database];
  }

  lemma DatabasePresent(parts: seq<string>)
    requires |parts| == 5 && DATABASE_KEY <= parts[4]
    ensures Join(parts, '|') != "" && IdentityDatabase(Join(parts, '|')).Some?
  {
    hide Join;
    var n := 4;
    assert parts == parts[..n] + [parts[4]];
    JoinLast(parts[..n], parts[4], '|');
    MarkerSomewhere(Join(parts[..n], '|'), '|', DATABASE_KEY, parts[4]);
  }

  lemma RefsAgreeTransitive(a: string, b: string, c: string)
    requires RefsAgree(a, b) && RefsAgree(b, c)
    ensures RefsAgree(a, c)
  {
  }

  /** Agreement carries over a complete recording, even when the older one tracked fewer
      components and fewer endpoint keys. */
  lemma SameTargetTransitive(a: string, b: string, c: string)
    requires Complete(b) && SameTarget(a, b) && SameTarget(b, c)
    ensures SameTarget(a, c)
  {
    forall f: Field ensures f in FIELDS { FieldsAreAll(f); }
    if a != "" {
      forall f | f in FIELDS ensures !Moved(f, a, c) {
        assert !Moved(f, a, b) && !Moved(f, b, c);
      }
    }
  }

  /** Completeness of the middle recording is what it takes: over one that lost a component
      agreement does not carry. */
  lemma IncompleteRecordingBreaksTransitivity()
    ensures exists a, b, c :: SameTarget(a, b) && SameTarget(b, c) && !SameTarget(a, c)
  {
    Markers();
    var p1, p2 := CLUSTER_KEY + "", CLUSTER_KEY + "true";
    var a, b, c := Join(["1", p1], '|'), "1", Join(["1", p2], '|');
    LoneComponent(p1, "");
    LoneComponent(p2, "true");
    SplitNone(b, '|');
    MarkerNone(b, '|', DATABASE_KEY);
    NoneFirst(["1"], POSTGRES_KEY);
    NoneFirst(["1"], CLICKHOUSE_KEY);
    NoneFirst(["1"], CLUSTER_KEY);
    assert SameTarget(a, b) && SameTarget(b, c);
    FieldsAreAll(Clustering);
    assert Moved(Clustering, a, c);
    assert a != "" by { assert a[1] == '|'; }
  }

  lemma LoneComponent(part: string, mode: string)
    requires part == CLUSTER_KEY + mode && Free(mode, '|')
    ensures forall f :: f in FIELDS ==> Lookup(f, Join(["1", part], '|')) == if f == Clustering then Some(mode) else None
  {
    Markers();
    var parts := ["1", part];
    assert ["1"] + [part] == parts;
    SplitJoin(["1"], part, '|');
    SplitNone(part, '|');
    KeyedPart(CLUSTER_KEY, mode, POSTGRES_KEY, 0);
    KeyedPart(CLUSTER_KEY, mode, CLICKHOUSE_KEY, 11);
    KeyedPart(CLUSTER_KEY, mode, DATABASE_KEY, 11);
    NoneFirst(parts, POSTGRES_KEY);
    NoneFirst(parts, CLICKHOUSE_KEY);
    FirstAt(parts, CLUSTER_KEY, 1);
    assert parts[1..] == [part];
    MarkerSkipped("1", '|', DATABASE_KEY, part);
    MarkerNone(part, '|', DATABASE_KEY);
  }

  /** A legacy recording closes the gate exactly for the same version, unclustered, on
      the "default" database - whatever the references are. */
  lemma LegacyGate(version: string, spec: Spec)
    requires WellFormed(spec) && Plain(version)
    ensures UpToDate(LegacyIdentity(version), MigrationIdentity(spec)) <==>
            && NormalizeVersion(version) == NormalizeVersion(spec.tag)
            && !Clustered(spec)
            && ClickHouseDatabase(spec) == "default"
  {
    NormalizedStaysPlain(version);
    NormalizedStaysPlain(spec.tag);
    ReferencesSplit(spec);
    ComponentsRecovered(TargetOf(spec));
    DatabaseRecovered(TargetOf(spec));
    LegacyLookups(version);
    assert BoolText(true)[0] == 't' && BoolText(false)[0] == 'f';
  }

  lemma LegacyLookups(version: string)
    requires Plain(NormalizeVersion(version))
    ensures LegacyIdentity(version) != "" && IdentityVersion(LegacyIdentity(version)) == NormalizeVersion(version)
    ensures Lookup(Postgres, LegacyIdentity(version)) == None == Lookup(ClickHouse, LegacyIdentity(version))
    ensures Lookup(Clustering, LegacyIdentity(version)) == Some(BoolText(false))
    ensures Lookup(Database, LegacyIdentity(version)) == Some("default")
  {
    Markers();
    var v, b, d := NormalizeVersion(version), CLUSTER_KEY + BoolText(false), DATABASE_KEY + "default";
    assert Free(BoolText(false), '|') && Free("default", '|');
    CutJoin([v, b, d], '|');
    assert [v, b] + [d] == [v, b, d];
    SplitJoin([v, b], d, '|');
    SplitNone(d, '|');
    LegacyComponents(v, BoolText(false), "default");
    LegacyDatabase(v, b, d);
    assert d[|DATABASE_KEY|..] == "default";
  }

  lemma LegacyComponents(v: string, mode: string, database: string)
    requires Free(v, '=')
    ensures var parts := [v, CLUSTER_KEY + mode, DATABASE_KEY + database];
      && FirstWithPrefix(parts, POSTGRES_KEY) == None
      && FirstWithPrefix(parts, CLICKHOUSE_KEY) == None
      && FirstWithPrefix(parts, CLUSTER_KEY) == Some(mode)
    ensures |CLUSTER_KEY + mode| > 11 && (CLUSTER_KEY + mode)[11] != DATABASE_KEY[11]
  {
    Markers();
    var parts := [v, CLUSTER_KEY + mode, DATABASE_KEY + database];
    UnkeyedPart(v, POSTGRES_KEY, 12);
    UnkeyedPart(v, CLICKHOUSE_KEY, 14);
    UnkeyedPart(v, CLUSTER_KEY, 18);
    KeyedPart(CLUSTER_KEY, mode, POSTGRES_KEY, 0);
    KeyedPart(CLUSTER_KEY, mode, CLICKHOUSE_KEY, 11);
    KeyedPart(DATABASE_KEY, database, POSTGRES_KEY, 0);
    KeyedPart(DATABASE_KEY, database, CLICKHOUSE_KEY, 11);
    NoneFirst(parts, POSTGRES_KEY);
    NoneFirst(parts, CLICKHOUSE_KEY);
    FirstAt(parts, CLUSTER_KEY, 1);
  }

  lemma LegacyDatabase(v: string, b: string, d: string)
    requires Free(v, '|') && Free(b, '|') && |b| > 11 && b[11] != DATABASE_KEY[11] && DATABASE_KEY <= d
    ensures Join([v, b, d], '|') != ""
    ensures IdentityDatabase(Join([v, b, d], '|')) == Some(d[|DATABASE_KEY|..])
  {
    var tail := Join([b, d], '|');
    JoinCons(b, [d], '|');
    JoinCons(v, [b, d], '|');
    assert tail[11] == b[11];
    MarkerSkipped(v, '|', DATABASE_KEY, tail);
    MarkerFound(b, '|', DATABASE_KEY, d);
  }
}
