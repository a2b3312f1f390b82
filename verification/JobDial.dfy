/** What the Job waits for in the end: the two words `set -- $(parse_hostport ...)` splits off, and
    when they are what the probe dials - for URLs with white space anywhere around them. */
module JobDial {
  import opened Text
  import opened UrlParsers

  /** The characters the shell splits words at. */
  const IFS := {' ', '\t', '\n'}

  predicate IsIfs(c: char) {
    c in IFS
  }

  function Skip(s: string): string {
    if s != "" && s[0] in IFS then Skip(s[1..]) else s
  }

  function Word(s: string): string {
    Skip(s)[..FindAny(Skip(s), IFS)]
  }

  function AfterWord(s: string): string {
    Skip(s)[FindAny(Skip(s), IFS)..]
  }

  /** `$1` and `$2` of the words in "host port". */
  function Words(hp: HostPort): HostPort {
    var line := hp.host + [' '] + hp.port;
    HostPort(Word(line), Word(AfterWord(line)))
  }

  function Dial(url: string, default: string): HostPort {
    Words(ShellParse(url, default))
  }

  // ----- splitting -----

  ghost predicate NoIfs(s: string) {
    NoneOf(s, IFS)
  }

  ghost predicate AllIfs(s: string) {
    forall k :: 0 <= k < |s| ==> s[k] in IFS
  }

  lemma {:induction false} SkipOver(m: string, x: string)
    requires AllIfs(m) && (x == "" || x[0] !in IFS)
    ensures Skip(m + x) == x
  {
    if m == "" {
      assert m + x == x;
    } else {
      assert (m + x)[1..] == m[1..] + x;
      SkipOver(m[1..], x);
    }
  }

  lemma WordAt(m: string, x: string, rest: string)
    requires AllIfs(m) && x != "" && NoIfs(x) && (rest == "" || rest[0] in IFS)
    ensures Word(m + (x + rest)) == x && AfterWord(m + (x + rest)) == rest
  {
    var t := x + rest;
    SkipOver(m, t);
    assert forall k :: 0 <= k < |x| ==> t[k] == x[k];
    if rest != "" { assert t[|x|] == rest[0]; }
    assert FindAny(t, IFS) == |x| && t[..|x|] == x && t[|x|..] == rest;
  }

  lemma TwoWords(lead: string, x: string, mid: string, y: string, trail: string)
    requires AllIfs(lead) && AllIfs(mid) && AllIfs(trail) && mid != ""
    requires x != "" && NoIfs(x) && y != "" && NoIfs(y)
    ensures var line := lead + (x + (mid + (y + trail))); Word(line) == x && Word(AfterWord(line)) == y
  {
    WordAt(lead, x, mid + (y + trail));
    WordAt(mid, y, trail);
  }

  lemma WordHasNoIfs(s: string)
    ensures NoIfs(Word(s))
  {
  }

  // ----- the text the Job takes -----

  lemma ColonFree(s: string)
    requires AllIfs(s)
    ensures Free(s, ':')
  {
  }

  /** Padding an authority moves only its ends. */
  lemma PaddedCuts(lead: string, a: string, trail: string)
    requires AllIfs(lead) && AllIfs(trail)
    ensures var s := lead + a + trail;
      if Free(a, ':') then BeforeFirst(s, ':') == s == AfterLast(s, ':')
      else BeforeFirst(s, ':') == lead + BeforeFirst(a, ':') && AfterLast(s, ':') == AfterLast(a, ':') + trail
  {
    var s, n := lead + a + trail, |lead|;
    ColonFree(lead);
    ColonFree(trail);
    if Free(a, ':') {
      PaddedFree(lead, a, trail);
      BareHost(s);
      assert s[..|s|] == s && s[0..] == s;
    } else {
      PaddedPositions(lead, a, trail);
      var i, j := Find(a, ':'), FindLast(a, ':');
      assert s[..n + i] == lead + a[..i];
      assert s[n + j + 1..] == a[j + 1..] + trail;
    }
  }

  lemma PaddedFree(lead: string, a: string, trail: string)
    requires Free(lead, ':') && Free(a, ':') && Free(trail, ':')
    ensures Free(lead + a + trail, ':')
  {
    assert Free(lead + a, ':');
  }

  lemma PaddedPositions(lead: string, a: string, trail: string)
    requires Free(lead, ':') && Free(trail, ':') && !Free(a, ':')
    ensures var s := lead + a + trail;
      Find(a, ':') < |a| && Find(s, ':') == |lead| + Find(a, ':') && FindLast(a, ':') >= 0 && FindLast(s, ':') == |lead| + FindLast(a, ':')
  {
    PaddedFirst(lead, a, trail);
    PaddedLast(lead, a, trail);
  }

  lemma PaddedFirst(lead: string, a: string, trail: string)
    requires Free(lead, ':') && !Free(a, ':')
    ensures Find(a, ':') < |a| && Find(lead + a + trail, ':') == |lead| + Find(a, ':')
  {
    var s, n, i := lead + a + trail, |lead|, Find(a, ':');
    assert forall k :: 0 <= k < n ==> s[k] == lead[k];
    assert forall k :: 0 <= k < |a| ==> s[n + k] == a[k];
    assert s[n + i] == ':';
    forall k | 0 <= k < n + i ensures s[k] != ':' {
      if k >= n { assert s[n + (k - n)] == a[k - n]; }
    }
  }

  lemma PaddedLast(lead: string, a: string, trail: string)
    requires Free(trail, ':') && !Free(a, ':')
    ensures FindLast(a, ':') >= 0 && FindLast(lead + a + trail, ':') == |lead| + FindLast(a, ':')
  {
    var s, n := lead + a + trail, |lead + a|;
    assert forall k :: n <= k < |s| ==> s[k] == trail[k - n];
    LastOfPrefix(s, n, ':');
    assert s[..n] == lead + a;
    LastBehind(lead, a, ':');
  }

  /** The words split off a padded host with no port. */
  lemma BareWords(lead: string, a: string, trail: string)
    requires AllIfs(lead) && AllIfs(trail) && a != "" && NoIfs(a) && Free(a, ':')
    ensures Words(ShellRead(lead + a + trail, POSTGRES_PORT)) == HostPort(a, POSTGRES_PORT)
  {
    PaddedCuts(lead, a, trail);
    var line := (lead + a + trail) + [' '] + POSTGRES_PORT;
    assert line == lead + (a + ((trail + [' ']) + (POSTGRES_PORT + "")));
    TwoWords(lead, a, trail + [' '], POSTGRES_PORT, "");
  }

  /** The words split off a padded host and port. The shell's test for "no port" compares the
      padded texts, so padding takes away its blind spot. */
  lemma PortWords(lead: string, a: string, trail: string)
    requires AllIfs(lead) && AllIfs(trail) && NoIfs(a) && !Free(a, ':')
    requires BeforeFirst(a, ':') != "" && AfterLast(a, ':') != ""
    ensures var h, p := BeforeFirst(a, ':'), AfterLast(a, ':');
      Words(ShellRead(lead + a + trail, POSTGRES_PORT)) ==
        HostPort(h, if lead + a + trail == a && p == h then POSTGRES_PORT else p)
  {
    hide Find, FindLast, Words, BeforeFirst, AfterLast;
    var h, p := BeforeFirst(a, ':'), AfterLast(a, ':');
    PaddedCuts(lead, a, trail);
    PiecesHaveNoIfs(a);
    PaddedDiffers(lead, h, p, trail);
    PaddedSelf(lead, a, trail);
    assert p + trail != "";
    if p + trail == lead + h {
      PaddedWords(lead, h, POSTGRES_PORT, "");
      assert POSTGRES_PORT + "" == POSTGRES_PORT;
    } else {
      PaddedWords(lead, h, p, trail);
    }
  }

  lemma PiecesHaveNoIfs(a: string)
    requires NoIfs(a)
    ensures NoIfs(BeforeFirst(a, ':')) && NoIfs(AfterLast(a, ':'))
  {
  }

  lemma PaddedSelf(lead: string, a: string, trail: string)
    ensures lead + a + trail == a <==> lead == "" && trail == ""
  {
    if lead == "" && trail == "" {
      assert lead + a + trail == a;
    } else {
      assert |lead + a + trail| > |a|;
    }
  }

  lemma PaddedWords(lead: string, h: string, p: string, trail: string)
    requires AllIfs(lead) && AllIfs(trail) && NoIfs(h) && NoIfs(p) && h != "" && p != ""
    ensures Words(HostPort(lead + h, p + trail)) == HostPort(h, p)
  {
    hide Word, AfterWord;
    assert (lead + h) + [' '] + (p + trail) == lead + (h + ([' '] + (p + trail)));
    TwoWords(lead, h, [' '], p, trail);
  }

  lemma PaddedDiffers(lead: string, h: string, p: string, trail: string)
    requires AllIfs(lead) && AllIfs(trail) && NoIfs(h) && NoIfs(p) && h != "" && p != ""
    ensures p + trail == lead + h <==> lead == "" && trail == "" && p == h
  {
    assert lead == "" ==> lead + h == h;
    assert trail == "" ==> p + trail == p;
    if lead != "" {
      assert (lead + h)[0] == lead[0] && (p + trail)[0] == p[0];
    } else if trail != "" {
      assert (p + trail)[|p|] == trail[0];
      assert |h| == |p + trail| ==> h[|p|] !in IFS;
    }
  }

  // ----- agreement -----

  /** `Agreeable`, for the text as the Job splits it: no white space inside; and a port equal to
      the host is only missed when nothing pads the text. */
  ghost predicate DialAgreeable(a: string, padded: bool) {
    && NoIfs(a) && a != ""
    && if Free(a, ':') then !IsBracket(a[0]) && !IsBracket(a[|a| - 1])
       else OnePort(a) && (padded || AfterLast(a, ':') != BeforeFirst(a, ':') || AfterLast(a, ':') == "5432")
  }

  lemma BareReading(a: string)
    requires a != "" && Free(a, ':')
    ensures ReadAuthority(a) == Ok(HostPort(a, POSTGRES_PORT)) <==> !IsBracket(a[0]) && !IsBracket(a[|a| - 1])
  {
    BareHost(a);
    DefaultPortIsNumeric();
  }

  /** What the probe reads is in the authority: with no white space in it there was none. */
  lemma ReadingCovers(a: string)
    requires ReadAuthority(a).Ok? && NoIfs(ReadAuthority(a).hp.host) && NoIfs(ReadAuthority(a).hp.port)
    ensures NoIfs(a)
  {
    hide Atoi, Trim, SplitHostPort, NoneOf;
    if SplitHostPort(a).None? {
      TrimCovers(a);
    } else {
      SplitCovers(a);
    }
  }

  lemma TrimCovers(a: string)
    requires NoIfs(Trim(a, IsBracket))
    ensures NoIfs(a)
  {
    hide Trim;
    forall k | 0 <= k < |a| ensures a[k] !in IFS {
      assert a[k] in a;
      assert !IsBracket(a[k]) ==> a[k] in Trim(a, IsBracket);
    }
  }

  lemma SplitCovers(a: string)
    requires SplitHostPort(a).Some? && NoIfs(SplitHostPort(a).value.host) && NoIfs(SplitHostPort(a).value.port)
    ensures NoIfs(a)
  {
    hide FindLast, Find;
    var hp, colon := SplitHostPort(a).value, FindLast(a, ':');
    assert forall k :: colon < k < |a| ==> a[k] == hp.port[k - colon - 1];
    if a[0] == '[' {
      assert forall k :: 1 <= k < Find(a, ']') ==> a[k] == hp.host[k - 1];
    } else {
      assert forall k :: 0 <= k < colon ==> a[k] == hp.host[k];
    }
  }

  /** The probe's reading of an authority and the Job's words from the padded text. */
  lemma PaddedReadingsAgree(lead: string, a: string, trail: string)
    requires AllIfs(lead) && AllIfs(trail)
    ensures ReadAuthority(a) == Ok(Words(ShellRead(lead + a + trail, POSTGRES_PORT))) <==>
            DialAgreeable(a, lead + a + trail != a)
  {
    hide ReadAuthority, ShellRead, Words;
    var dialed := Words(ShellRead(lead + a + trail, POSTGRES_PORT));
    if !NoIfs(a) {
      WordsHaveNoIfs(ShellRead(lead + a + trail, POSTGRES_PORT));
      if ReadAuthority(a) == Ok(dialed) {
        ReadingCovers(a);
      }
    } else if a == "" {
      EmptyIsNoHost();
    } else if Free(a, ':') {
      BareWords(lead, a, trail);
      BareReading(a);
    } else if BeforeFirst(a, ':') == "" || AfterLast(a, ':') == "" {
      HalfEmpty(lead, a, trail);
    } else {
      PortWords(lead, a, trail);
      ColonReading(a, dialed.port);
    }
  }

  lemma EmptyIsNoHost()
    ensures ReadAuthority("") == NoHost
  {
  }

  lemma WordsHaveNoIfs(hp: HostPort)
    ensures NoIfs(Words(hp).host) && NoIfs(Words(hp).port)
  {
    var line := hp.host + [' '] + hp.port;
    WordHasNoIfs(line);
    WordHasNoIfs(AfterWord(line));
  }

  /** A colon at either end is an authority neither can use. */
  lemma HalfEmpty(lead: string, a: string, trail: string)
    requires AllIfs(lead) && AllIfs(trail) && NoIfs(a) && !Free(a, ':')
    requires BeforeFirst(a, ':') == "" || AfterLast(a, ':') == ""
    ensures ReadAuthority(a) != Ok(Words(ShellRead(lead + a + trail, POSTGRES_PORT))) && !OnePort(a)
  {
    hide ReadAuthority, ShellRead, Words, Atoi;
    var dialed := Words(ShellRead(lead + a + trail, POSTGRES_PORT));
    HalfEmptyReading(a);
    FirstWordHasNoColon(lead, a, trail);
    if ReadAuthority(a).Ok? {
      assert ':' in ReadAuthority(a).hp.host;
    }
  }

  lemma HalfEmptyReading(a: string)
    requires !Free(a, ':') && (BeforeFirst(a, ':') == "" || AfterLast(a, ':') == "")
    ensures ReadAuthority(a).Ok? ==> ':' in ReadAuthority(a).hp.host
    ensures !OnePort(a)
  {
    var i := FindLast(a, ':');
    EmptyIsNoNumber();
    if SplitHostPort(a).None? {
      assert ':' in a && !IsBracket(':');
      assert ':' in Trim(a, IsBracket);
    } else if AfterLast(a, ':') == "" {
      assert SplitHostPort(a).value.port == "";
    } else {
      assert Find(a, ':') == 0 && a[0] == ':';
    }
  }

  lemma EmptyIsNoNumber()
    ensures !Atoi("")
  {
  }

  lemma FirstWordHasNoColon(lead: string, a: string, trail: string)
    requires AllIfs(lead) && AllIfs(trail) && !Free(a, ':')
    ensures ':' !in Words(ShellRead(lead + a + trail, POSTGRES_PORT)).host
  {
    hide Word;
    var s := lead + a + trail;
    var hp := ShellRead(s, POSTGRES_PORT);
    assert Free(hp.host, ':');
    assert Free(hp.port, ':');
    var line := hp.host + [' '] + hp.port;
    assert Free(line, ':');
    WordOf(line);
  }

  lemma {:induction false} SkipKeeps(s: string)
    ensures forall c :: c in Skip(s) ==> c in s
  {
    if s != "" && s[0] in IFS { SkipKeeps(s[1..]); }
  }

  lemma WordOf(s: string)
    ensures forall c :: c in Word(s) ==> c in s
  {
    SkipKeeps(s);
  }

  // ----- from the URL to that text -----

  /** What the Job takes from a URL is what it takes from the trimmed one, padded with some of
      what was trimmed off. */
  lemma TakenIsPadded(raw: string) returns (lead: string, trail: string)
    ensures var taken := ShellAuthority(AfterScheme(raw));
      taken == lead + ShellAuthority(AfterScheme(Trim(raw, IsSpace))) + trail
    ensures Spaces(lead) && Spaces(trail)
    ensures Trim(raw, IsSpace) == Trim(raw, IsIfs) ==> AllIfs(lead) && AllIfs(trail)
    ensures Framed(raw) ==> lead == "" == trail
  {
    hide Trim, AfterScheme, ShellAuthority, FindText, Framed;
    var url := Trim(raw, IsSpace);
    if Framed(raw) {
      lead, trail := "", "";
      FramedAuthority(raw);
      assert "" + ShellAuthority(AfterScheme(url)) + "" == ShellAuthority(AfterScheme(url));
    } else {
      var front, back := SplitOff(raw);
      SpaceIsPlain(front);
      SpaceIsPlain(back);
      var first := PaddedScheme(front, url, back);
      var l, t := PaddedAuthority(first, AfterScheme(url), back);
      lead, trail := l, t;
    }
  }

  /** What trimming takes off; shell white space if that is all there is. */
  lemma SplitOff(raw: string) returns (front: string, back: string)
    ensures raw == front + Trim(raw, IsSpace) + back && Spaces(front) && Spaces(back)
    ensures Trim(raw, IsSpace) == Trim(raw, IsIfs) ==> AllIfs(front) && AllIfs(back)
  {
    if Trim(raw, IsSpace) == Trim(raw, IsIfs) {
      front, back := TrimTakesOff(raw, IsIfs);
      assert forall c :: IsIfs(c) ==> IsSpace(c);
    } else {
      front, back := TrimTakesOff(raw, IsSpace);
    }
  }

  /** None of the characters a URL is cut at. */
  ghost predicate PlainSpace(s: string) {
    NoneOf(s, {':', '/', '?', '@'})
  }

  lemma SpaceIsPlain(s: string)
    requires Spaces(s)
    ensures PlainSpace(s)
  {
  }

  lemma PaddedScheme(front: string, url: string, back: string) returns (lead: string)
    requires PlainSpace(front) && PlainSpace(back)
    ensures AfterScheme(front + url + back) == lead + AfterScheme(url) + back && (lead == front || lead == "")
  {
    hide FindText;
    assert front + url + back == front + (url + back);
    BackStays(url, back);
    lead := FrontStays(front, url + back);
    assert lead + AfterScheme(url + back) == lead + AfterScheme(url) + back;
  }

  lemma BackStays(url: string, back: string)
    requires PlainSpace(back)
    ensures AfterScheme(url + back) == AfterScheme(url) + back
  {
    if back == "" {
      assert url + back == url && AfterScheme(url) + back == AfterScheme(url);
    } else {
      SchemeSurvives(url, back);
    }
  }

  lemma FrontStays(front: string, url: string) returns (lead: string)
    requires PlainSpace(front)
    ensures AfterScheme(front + url) == lead + AfterScheme(url) && (lead == front || lead == "")
  {
    var raw, i := front + url, FindText(url, SCHEME_END);
    NoSchemeInFront(front, url);
    FindBehind(front, url, SCHEME_END);
    if i >= 0 {
      lead := "";
      assert raw[|front| + i + 3..] == url[i + 3..];
    } else {
      lead := front;
    }
  }

  lemma PaddedAuthority(front: string, rest: string, back: string) returns (lead: string, trail: string)
    requires PlainSpace(front) && PlainSpace(back)
    ensures ShellAuthority(front + rest + back) == lead + ShellAuthority(rest) + trail
    ensures (lead == front || lead == "") && (trail == back || trail == "")
  {
    hide FindAny, FindLast;
    var after := AfterLast(rest, '@');
    lead := PaddedAfterLast(front, rest, back);
    CutsCombine(after);
    CutsCombine(lead + after + back);
    trail := PaddedEnd(lead, after, back);
  }

  lemma PaddedAfterLast(front: string, rest: string, back: string) returns (lead: string)
    requires PlainSpace(front) && PlainSpace(back)
    ensures AfterLast(front + rest + back, '@') == lead + AfterLast(rest, '@') + back && (lead == front || lead == "")
  {
    var all := front + rest;
    LastAtSurvives(all, back);
    if Free(rest, '@') {
      lead := front;
      NoLastAt(all);
      NoLastAt(rest);
    } else {
      lead := "";
      LastInSuffix(front, rest, '@');
      assert "" + AfterLast(rest, '@') == AfterLast(rest, '@');
    }
  }

  lemma NoLastAt(s: string)
    requires Free(s, '@')
    ensures AfterLast(s, '@') == s
  {
    assert FindLast(s, '@') == -1 && s[0..] == s;
  }

  lemma PaddedEnd(lead: string, after: string, back: string) returns (trail: string)
    requires PlainSpace(lead) && PlainSpace(back)
    ensures var s := lead + after + back;
      s[..FindAny(s, AUTHORITY_END)] == lead + after[..FindAny(after, AUTHORITY_END)] + trail
    ensures trail == back || trail == ""
  {
    var s, n, i := lead + after + back, |lead|, FindAny(after, AUTHORITY_END);
    assert forall k :: 0 <= k < n ==> s[k] == lead[k];
    assert forall k :: 0 <= k < |after| ==> s[n + k] == after[k];
    assert forall k :: n + |after| <= k < |s| ==> s[k] == back[k - n - |after|];
    var j := FindAny(s, AUTHORITY_END);
    if i < |after| {
      assert s[n + i] in AUTHORITY_END;
      assert j == n + i;
      trail := "";
      assert s[..j] == lead + after[..i];
      assert lead + after[..i] + "" == lead + after[..i];
    } else {
      assert j == |s|;
      trail := back;
      assert s[..j] == s && after[..i] == after;
    }
  }

  /** The white space around the URL is of the kinds the shell splits words at, or such as the
      Job does not come across. */
  predicate Splittable(raw: string) {
    Trim(raw, IsSpace) == Trim(raw, IsIfs) || Framed(raw)
  }

  /** The probe and the Job dial alike, exactly: for every such URL with no '@' behind the
      authority, whatever the credentials, path and query. */
  lemma DialsAlike(raw: string)
    requires Splittable(raw)
    requires PlainTail(AfterScheme(Trim(raw, IsSpace)))
    ensures var a := Authority(AfterScheme(Trim(raw, IsSpace)));
      ParsePostgres(raw) == Ok(Dial(raw, POSTGRES_PORT)) <==>
      DialAgreeable(a, ShellAuthority(AfterScheme(raw)) != a)
  {
    hide Trim, Framed, Authority, ShellAuthority, AfterScheme, ReadAuthority, ShellRead, DialAgreeable, PlainTail, Words;
    var rest := AfterScheme(Trim(raw, IsSpace));
    SameAuthority(rest);
    var lead, trail := TakenIsPadded(raw);
    PaddedReadingsAgree(lead, Authority(rest), trail);
  }
}
