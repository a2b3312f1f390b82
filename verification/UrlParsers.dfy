/** Two readers of one connection URL: the health probe's `parsePostgresURL` and the migration
    Job's shell `parse_hostport`. Both take the authority of RFC 3986 section 3.2 and split its
    user information at the last '@'. */
module UrlParsers {
  import opened Text

  datatype HostPort = HostPort(host: string, port: string)

  datatype Parsed = Ok(hp: HostPort) | NoHost | BadPort(port: string)

  const POSTGRES_PORT := "5432"
  const SCHEME_END := "://"
  const AUTHORITY_END := {'/', '?'}

  // ----- library calls -----

  /** Unicode white space, as `strings.TrimSpace` sees it. */
  predicate IsSpace(c: char) {
    || ('\t' <= c <= '\r') || c == ' ' || c == '\U{85}' || c == '\U{A0}' || c == '\U{1680}'
    || ('\U{2000}' <= c <= '\U{200A}') || c == '\U{2028}' || c == '\U{2029}'
    || c == '\U{202F}' || c == '\U{205F}' || c == '\U{3000}'
  }

  predicate IsBracket(c: char) {
    c == '[' || c == ']'
  }

  function Trim(s: string, drop: char -> bool): (r: string)
    ensures |r| <= |s|
    ensures r != "" ==> !drop(r[0]) && !drop(r[|r| - 1])
    ensures r == s <==> s == "" || (!drop(s[0]) && !drop(s[|s| - 1]))
    ensures forall c :: c in s && !drop(c) ==> c in r
  {
    if s == "" then ""
    else if drop(s[0]) then Trim(s[1..], drop)
    else if drop(s[|s| - 1]) then Trim(s[..|s| - 1], drop)
    else s
  }

  predicate IsDigit(c: char) {
    '0' <= c <= '9'
  }

  function DigitValue(c: char): nat
    requires IsDigit(c)
  {
    c as int - '0' as int
  }

  function Decimal(s: string): nat
    requires forall k :: 0 <= k < |s| ==> IsDigit(s[k])
  {
    if s == "" then 0 else 10 * Decimal(s[..|s| - 1]) + DigitValue(s[|s| - 1])
  }

  /** `strconv.Atoi` accepts: an optional sign and decimal digits within 64 bits. */
  predicate Atoi(s: string) {
    var digits := if s != "" && (s[0] == '+' || s[0] == '-') then s[1..] else s;
    && digits != ""
    && (forall k :: 0 <= k < |digits| ==> IsDigit(digits[k]))
    && Decimal(digits) < 0x8000_0000_0000_0000 + if s[0] == '-' then 1 else 0
  }

  /** `net.SplitHostPort`; `None` where it returns an error. */
  function SplitHostPort(hp: string): Option<HostPort> {
    var colon := FindLast(hp, ':');
    if colon < 0 then None
    else if hp[0] == '[' then
      var end := Find(hp, ']');
      if end == |hp| || end + 1 == |hp| || end + 1 != colon then None
      else if '[' in hp[1..] || ']' in hp[end + 1..] then None
      else Some(HostPort(hp[1..end], hp[colon + 1..]))
    else if ':' in hp[..colon] || '[' in hp || ']' in hp then None
    else Some(HostPort(hp[..colon], hp[colon + 1..]))
  }

  // ----- the probe's parser -----

  function AfterScheme(url: string): string {
    var i := FindText(url, SCHEME_END);
    if i >= 0 then url[i + |SCHEME_END|..] else url
  }

  /** The authority without its user information. */
  function Authority(rest: string): string {
    var authority := rest[..FindAny(rest, AUTHORITY_END)];
    authority[FindLast(authority, '@') + 1..]
  }

  function ReadAuthority(authority: string): Parsed {
    if authority == "" then NoHost
    else
      var split := SplitHostPort(authority);
      var hp := if split.Some? then split.value else HostPort(Trim(authority, IsBracket), POSTGRES_PORT);
      if hp.host == "" then NoHost
      else if !Atoi(hp.port) then BadPort(hp.port)
      else Ok(hp)
  }

  function ParsePostgres(raw: string): Parsed {
    ReadAuthority(Authority(AfterScheme(Trim(raw, IsSpace))))
  }

  method ParsePostgresURL(raw: string) returns (r: Parsed)
    ensures r == ParsePostgres(raw)
  {
    hide Atoi, SplitHostPort, FindText, FindAny, FindLast, Trim;
    var authority := CutAuthority(raw);
    if authority == "" {
      return NoHost;
    }
    var host, port := Trim(authority, IsBracket), POSTGRES_PORT;
    var split := SplitHostPort(authority);
    if split.Some? {
      host, port := split.value.host, split.value.port;
    }
    if host == "" {
      return NoHost;
    }
    if !Atoi(port) {
      return BadPort(port);
    }
    return Ok(HostPort(host, port));
  }

  /** The first half of `parsePostgresURL`: scheme, path and credentials removed in turn. */
  method CutAuthority(raw: string) returns (authority: string)
    ensures authority == Authority(AfterScheme(Trim(raw, IsSpace)))
  {
    hide FindText, FindAny, FindLast, Trim;
    var rest := Trim(raw, IsSpace);
    var i := FindText(rest, SCHEME_END);
    if i >= 0 {
      rest := rest[i + |SCHEME_END|..];
    }
    assert rest == AfterScheme(Trim(raw, IsSpace));
    authority := rest;
    i := FindAny(authority, AUTHORITY_END);
    if i < |authority| {
      authority := authority[..i];
    }
    assert authority == rest[..FindAny(rest, AUTHORITY_END)];
    i := FindLast(authority, '@');
    if i >= 0 {
      authority := authority[i + 1..];
    }
    assert authority == Authority(rest);
  }

  // ----- the Job's parser -----

  /** `${s##*c}`: after the last `c`, or everything. */
  function AfterLast(s: string, c: char): string {
    s[FindLast(s, c) + 1..]
  }

  /** `${s%%c*}`: before the first `c`, or everything. */
  function BeforeFirst(s: string, c: char): string {
    s[..Find(s, c)]
  }

  function ShellAuthority(rest: string): string {
    BeforeFirst(BeforeFirst(AfterLast(rest, '@'), '/'), '?')
  }

  function ShellRead(hostport: string, default: string): HostPort {
    var h, p := BeforeFirst(hostport, ':'), AfterLast(hostport, ':');
    HostPort(h, if p == h || p == "" then default else p)
  }

  function ShellParse(url: string, default: string): HostPort {
    ShellRead(ShellAuthority(AfterScheme(url)), default)
  }

  method ParseHostport(url: string, default: string) returns (hp: HostPort)
    ensures hp == ShellParse(url, default)
  {
    var rest := AfterScheme(url);
    rest := AfterLast(rest, '@');
    var hostport := BeforeFirst(rest, '/');
    hostport := BeforeFirst(hostport, '?');
    var h := BeforeFirst(hostport, ':');
    var p := AfterLast(hostport, ':');
    if p == h || p == "" {
      p := default;
    }
    return HostPort(h, p);
  }

  // ----- where the two agree -----

  /** Cutting at the first slash and then at the first question mark is cutting at whichever
      comes first. */
  lemma CutsCombine(s: string)
    ensures BeforeFirst(BeforeFirst(s, '/'), '?') == s[..FindAny(s, AUTHORITY_END)]
  {
    var t := s[..Find(s, '/')];
    var i, j := FindAny(s, AUTHORITY_END), Find(t, '?');
    assert forall k :: 0 <= k < |t| ==> t[k] == s[k];
    assert i == j;
    assert t[..j] == s[..i];
  }

  lemma {:induction false} LastOfPrefix(s: string, n: nat, c: char)
    requires n <= |s| && forall k :: n <= k < |s| ==> s[k] != c
    ensures FindLast(s, c) == FindLast(s[..n], c)
  {
    var i, j := FindLast(s, c), FindLast(s[..n], c);
    assert i < n;
    if i >= 0 { assert s[..n][i] == c; }
    if j >= 0 { assert s[j] == c; }
  }

  /** No '@' in the path or query. */
  ghost predicate PlainTail(rest: string) {
    Free(rest[FindAny(rest, AUTHORITY_END)..], '@')
  }

  /** With no '@' behind the authority both take the same text for it, whatever the
      credentials hold. */
  lemma SameAuthority(rest: string)
    requires PlainTail(rest)
    ensures ShellAuthority(rest) == Authority(rest)
  {
    var n := FindAny(rest, AUTHORITY_END);
    var tail := rest[n..];
    assert forall k :: n <= k < |rest| ==> rest[k] == tail[k - n];
    LastOfPrefix(rest, n, '@');
    CutsCombine(AfterLast(rest, '@'));
    EndAfter(rest, FindLast(rest, '@') + 1);
  }

  /** Dropping characters in front of the end of the authority moves that end along. */
  lemma EndAfter(s: string, from: nat)
    requires from <= FindAny(s, AUTHORITY_END)
    ensures s[from..][..FindAny(s[from..], AUTHORITY_END)] == s[..FindAny(s, AUTHORITY_END)][from..]
  {
    var n, t := FindAny(s, AUTHORITY_END), s[from..];
    assert forall k :: 0 <= k < |t| ==> t[k] == s[from + k];
    var m := FindAny(t, AUTHORITY_END);
    assert m == n - from;
    assert t[..m] == s[..n][from..];
  }

  /** The authority texts on which the two readings agree: a bare host that neither begins nor
      ends with a bracket; or a host and a port around the only colon, without brackets, the
      port a number that is not also the host - or is the default anyway. */
  predicate Agreeable(a: string) {
    var i := FindLast(a, ':');
    && a != ""
    && if i < 0 then !IsBracket(a[0]) && !IsBracket(a[|a| - 1])
       else OnePort(a) && (a[i + 1..] != a[..i] || a[i + 1..] == "5432")
  }

  lemma BareHost(a: string)
    requires Free(a, ':')
    ensures Find(a, ':') == |a| && FindLast(a, ':') == -1
  {
  }

  lemma DefaultPortIsNumeric()
    ensures Atoi(POSTGRES_PORT)
  {
    var s := POSTGRES_PORT;
    assert s[..3] == "543" && "543"[..2] == "54" && "54"[..1] == "5" && "5"[..0] == "";
    assert Decimal("5") == 5 && Decimal("54") == 54 && Decimal("543") == 543 && Decimal(s) == 5432;
  }

  lemma ReadingsAgree(a: string)
    ensures ReadAuthority(a) == Ok(ShellRead(a, POSTGRES_PORT)) <==> Agreeable(a)
  {
    DefaultPortIsNumeric();
    if a == "" {
    } else if FindLast(a, ':') < 0 {
      BareHost(a);
      assert a[..|a|] == a && a[0..] == a;
    } else {
      ColonReading(a, ShellRead(a, POSTGRES_PORT).port);
      if OnePort(a) { assert a[FindLast(a, ':') + 1..] != ""; }
    }
  }

  /** A host and a port around the only colon, without brackets, the port a number. */
  predicate OnePort(a: string) {
    var i := FindLast(a, ':');
    && i > 0 && Find(a, ':') == i
    && '[' !in a && ']' !in a
    && Atoi(a[i + 1..])
  }

  /** With a colon the probe reads what stands before the first one, and a port `q`, exactly
      when there is one port and it is `q`. */
  lemma ColonReading(a: string, q: string)
    requires a != "" && FindLast(a, ':') >= 0
    ensures ReadAuthority(a) == Ok(HostPort(BeforeFirst(a, ':'), q)) <==> OnePort(a) && q == AfterLast(a, ':')
  {
    var i, first := FindLast(a, ':'), Find(a, ':');
    assert a[i] == ':' && first <= i;
    assert ':' !in a[..first];
    var split := SplitHostPort(a);
    if split.None? {
      assert ':' in Trim(a, IsBracket);
    } else if a[0] == '[' {
      assert a[..first] == "" || a[..first][0] == '[';
      assert '[' !in split.value.host by {
        assert forall c :: c in split.value.host ==> c in a[1..];
      }
    } else {
      assert ':' !in a[..i];
      assert forall k :: 0 <= k < i ==> a[..i][k] == a[k];
    }
  }

  // ----- what the probe makes of an authority -----

  /** The two texts that split into host and port: around the only colon, without brackets; or
      behind a bracketed host, which may hold colons. */
  ghost predicate SplitsInto(a: string, hp: HostPort) {
    || (a == hp.host + [':'] + hp.port && NoneOf(hp.host, {':', '[', ']'}) && NoneOf(hp.port, {':', '[', ']'}))
    || (a == ['['] + hp.host + [']', ':'] + hp.port && NoneOf(hp.host, {'[', ']'}) && NoneOf(hp.port, {':', '[', ']'}))
  }

  lemma SplitsExactly(a: string, hp: HostPort)
    ensures SplitHostPort(a) == Some(hp) <==> SplitsInto(a, hp)
  {
    hide SplitHostPort;
    if SplitHostPort(a).Some? {
      SplitParts(a);
    }
    if a == hp.host + [':'] + hp.port && NoneOf(hp.host, {':', '[', ']'}) && NoneOf(hp.port, {':', '[', ']'}) {
      PlainSplits(hp.host, hp.port);
    }
    if a == ['['] + hp.host + [']', ':'] + hp.port && NoneOf(hp.host, {'[', ']'}) && NoneOf(hp.port, {':', '[', ']'}) {
      BracketsSplit(hp.host, hp.port);
    }
  }

  /** Whatever splits is put together again. */
  lemma SplitParts(a: string)
    requires SplitHostPort(a).Some?
    ensures SplitsInto(a, SplitHostPort(a).value)
  {
    hide FindLast, Find, SplitsInto;
    if a[0] == '[' {
      BracketedParts(a, SplitHostPort(a).value);
    } else {
      PlainParts(a, SplitHostPort(a).value);
    }
  }

  lemma BracketedParts(a: string, hp: HostPort)
    requires a != "" && a[0] == '[' && SplitHostPort(a) == Some(hp)
    ensures SplitsInto(a, hp)
  {
    hide FindLast, Find;
    var end, colon := Find(a, ']'), FindLast(a, ':');
    NoneIn(a[1..], '[');
    NoneIn(a[end + 1..], ']');
    BetweenBrackets(a, end, hp);
  }

  lemma BetweenBrackets(a: string, end: nat, hp: HostPort)
    requires 0 < end < |a| - 1 && a[0] == '[' && a[end] == ']' && a[end + 1] == ':'
    requires hp == HostPort(a[1..end], a[end + 2..])
    requires Free(a[1..], '[') && Free(a[end + 1..], ']')
    requires (forall k :: 0 <= k < end ==> a[k] != ']') && (forall k :: end + 1 < k < |a| ==> a[k] != ':')
    ensures SplitsInto(a, hp)
  {
    assert a == ['['] + hp.host + [']', ':'] + hp.port;
    forall k | 0 <= k < |hp.host| ensures hp.host[k] !in {'[', ']'} {
      assert hp.host[k] == a[1 + k] == a[1..][k];
    }
    forall k | 0 <= k < |hp.port| ensures hp.port[k] !in {':', '[', ']'} {
      assert hp.port[k] == a[end + 2 + k] == a[1..][end + 1 + k];
      assert hp.port[k] == a[end + 1..][1 + k];
    }
  }

  lemma NoneIn(s: string, c: char)
    ensures c !in s ==> Free(s, c)
  {
  }

  lemma PlainParts(a: string, hp: HostPort)
    requires a != "" && a[0] != '[' && SplitHostPort(a) == Some(hp)
    ensures SplitsInto(a, hp)
  {
    hide FindLast, Find;
    var colon := FindLast(a, ':');
    assert a == hp.host + [':'] + hp.port;
    NoneIn(a[..colon], ':');
    assert forall k :: 0 <= k < |hp.host| ==> hp.host[k] == a[k] && hp.host[k] == a[..colon][k];
    assert forall k :: 0 <= k < |hp.port| ==> hp.port[k] == a[colon + 1 + k];
  }

  lemma PlainSplits(host: string, port: string)
    requires NoneOf(host, {':', '[', ']'}) && NoneOf(port, {':', '[', ']'})
    ensures SplitHostPort(host + [':'] + port) == Some(HostPort(host, port))
  {
    hide FindLast;
    var a := host + [':'] + port;
    assert a[|host|] == ':';
    assert forall k :: 0 <= k < |host| ==> a[k] == host[k];
    assert forall k :: |host| < k < |a| ==> a[k] == port[k - |host| - 1];
    assert FindLast(a, ':') == |host|;
    assert a[..|host|] == host && a[|host| + 1..] == port;
  }

  lemma BracketsSplit(host: string, port: string)
    requires NoneOf(host, {'[', ']'}) && NoneOf(port, {':', '[', ']'})
    ensures SplitHostPort(['['] + host + [']', ':'] + port) == Some(HostPort(host, port))
  {
    hide FindLast, Find;
    var a := ['['] + host + [']', ':'] + port;
    var end := |host| + 1;
    assert a[0] == '[' && a[end] == ']' && a[end + 1] == ':';
    InBrackets(host, port, a);
    assert Find(a, ']') == end;
    assert FindLast(a, ':') == end + 1;
    assert a[1..end] == host && a[end + 2..] == port;
    assert a[1..] == host + [']', ':'] + port;
    assert a[end + 1..] == [':'] + port;
  }

  lemma InBrackets(host: string, port: string, a: string)
    requires a == ['['] + host + [']', ':'] + port
    ensures forall k :: 0 < k <= |host| ==> a[k] == host[k - 1]
    ensures forall k :: |host| + 2 < k < |a| ==> a[k] == port[k - |host| - 3]
  {
  }

  /** What the probe makes of every authority: of one that splits, its parts, unless the host is
      empty or the port no number; of any other, the text without brackets at its ends, and the
      default port. */
  lemma EveryAuthority(a: string, hp: HostPort)
    ensures SplitsInto(a, hp) ==>
      ReadAuthority(a) == if hp.host == "" then NoHost else if !Atoi(hp.port) then BadPort(hp.port) else Ok(hp)
    ensures (forall other :: !SplitsInto(a, other)) ==>
      ReadAuthority(a) == if Trim(a, IsBracket) == "" then NoHost else Ok(HostPort(Trim(a, IsBracket), "5432"))
  {
    hide Atoi, SplitHostPort, Trim;
    DefaultPortIsNumeric();
    SplitsExactly(a, hp);
    if SplitHostPort(a).Some? {
      SplitsExactly(a, SplitHostPort(a).value);
    }
  }

  /** So a bracketed host alone is read without its brackets. */
  lemma BareBrackets(host: string)
    requires NoneOf(host, {'[', ']'}) && host != ""
    ensures ReadAuthority(['['] + host + [']']) == Ok(HostPort(host, "5432"))
  {
    hide Atoi, SplitHostPort, ReadAuthority, Trim;
    var bare := ['['] + host + [']'];
    forall other ensures !SplitsInto(bare, other) {
      EndsInBracket(host, other);
    }
    EveryAuthority(bare, HostPort("", ""));
    assert bare[1..] == host + [']'];
    TrimOnce(bare, IsBracket);
    TrimBack(host, ']', IsBracket);
  }

  lemma EndsInBracket(host: string, other: HostPort)
    requires NoneOf(host, {'[', ']'})
    ensures !SplitsInto(['['] + host + [']'], other)
  {
    var bare := ['['] + host + [']'];
    assert bare[|bare| - 1] == ']' && bare[0] == '[';
    if bare == other.host + [':'] + other.port {
      assert bare[|bare| - 1] == if other.port == "" then ':' else other.port[|other.port| - 1];
    }
    if bare == ['['] + other.host + [']', ':'] + other.port {
      assert bare[|bare| - 1] == if other.port == "" then ':' else other.port[|other.port| - 1];
    }
  }

  lemma TrimOnce(s: string, drop: char -> bool)
    requires s != "" && drop(s[0])
    ensures Trim(s, drop) == Trim(s[1..], drop)
  {
  }

  lemma TrimBack(s: string, c: char, drop: char -> bool)
    requires s != "" && !drop(s[0]) && !drop(s[|s| - 1]) && drop(c)
    ensures Trim(s + [c], drop) == s
  {
    assert (s + [c])[..|s|] == s;
  }

  /** Ports are decimal numbers, a sign allowed: up to eighteen digits always, anything else in
      them never. */
  lemma PortNumbers(digits: string, text: string)
    ensures digits != "" && |digits| <= 18 && (forall k :: 0 <= k < |digits| ==> '0' <= digits[k] <= '9') ==>
      Atoi(digits) && Atoi("+" + digits) && Atoi("-" + digits)
    ensures Atoi(text) ==> text != "" && NumberText(text)
  {
    if digits != "" && |digits| <= 18 && (forall k :: 0 <= k < |digits| ==> IsDigit(digits[k])) {
      EighteenDigits(digits);
      assert ("+" + digits)[1..] == digits && ("-" + digits)[1..] == digits;
    }
    if Atoi(text) {
      OnlyNumbers(text);
    }
  }

  lemma OnlyNumbers(text: string)
    requires Atoi(text)
    ensures text != "" && NumberText(text)
  {
    var rest := if text[0] == '+' || text[0] == '-' then text[1..] else text;
    var sign := |text| - |rest|;
    forall k | sign <= k < |text| ensures '0' <= text[k] <= '9' {
      assert text[k] == rest[k - sign];
      assert IsDigit(rest[k - sign]);
    }
  }

  /** An optional sign, and digits. */
  predicate NumberText(s: string)
    requires s != ""
  {
    (s[0] == '+' || s[0] == '-' || '0' <= s[0] <= '9') && forall k :: 1 <= k < |s| ==> '0' <= s[k] <= '9'
  }

  function Power(n: nat): nat {
    if n == 0 then 1 else 10 * Power(n - 1)
  }

  lemma {:induction false} DigitsBound(s: string)
    requires forall k :: 0 <= k < |s| ==> IsDigit(s[k])
    ensures Decimal(s) < Power(|s|)
  {
    if s != "" { DigitsBound(s[..|s| - 1]); }
  }

  lemma {:induction false} PowersGrow(i: nat, j: nat)
    requires i <= j
    ensures Power(i) <= Power(j)
  {
    if i < j { PowersGrow(i, j - 1); }
  }

  lemma EighteenDigits(s: string)
    requires |s| <= 18 && forall k :: 0 <= k < |s| ==> IsDigit(s[k])
    ensures Decimal(s) < 0x8000_0000_0000_0000
  {
    DigitsBound(s);
    PowersGrow(|s|, 18);
    assert Power(6) == 1000000;
    assert Power(12) == 1000000000000;
    assert Power(18) == 1000000000000000000;
  }

  // ----- what the Job makes of it -----

  /** The Job reads what stands before the first colon, and behind the last one - or the default,
      when nothing stands there or the same as the host. */
  lemma JobReadsEnds(host: string, mid: string, port: string, default: string)
    requires Free(host, ':') && Free(port, ':')
    ensures ShellRead(host, default) == HostPort(host, default)
    ensures ShellRead(host + [':'] + port, default) == HostPort(host, if port == "" || port == host then default else port)
    ensures ShellRead(host + [':'] + mid + [':'] + port, default) == HostPort(host, if port == "" || port == host then default else port)
  {
    hide Find, FindLast;
    EndsOfColons(host, "", [':'] + port, port);
    assert host + [':'] + port == host + ([':'] + port);
    BareHost(host);
    assert host[..|host|] == host && host[0..] == host;
    EndsOfColons(host, [':'] + mid, [':'] + mid + [':'] + port, port);
    assert host + [':'] + mid + [':'] + port == host + ([':'] + mid + [':'] + port);
  }

  lemma EndsOfColons(host: string, mid: string, rest: string, port: string)
    requires Free(host, ':') && Free(port, ':') && rest == mid + [':'] + port && rest[0] == ':'
    ensures BeforeFirst(host + rest, ':') == host && AfterLast(host + rest, ':') == port
  {
    var a, n := host + rest, |host| + |mid|;
    assert a[|host|] == ':' && forall k :: 0 <= k < |host| ==> a[k] == host[k];
    assert a[n] == ':' && forall k :: n < k < |a| ==> a[k] == port[k - n - 1];
    assert Find(a, ':') == |host| && FindLast(a, ':') == n;
    assert a[..|host|] == host && a[n + 1..] == port;
  }

  /** With an '@' behind the authority the Job reads the tail alone: neither the credentials
      nor the host in front of it matter. */
  lemma TailDecidesJob(rest: string)
    requires !PlainTail(rest)
    ensures ShellAuthority(rest) == ShellAuthority(rest[FindAny(rest, AUTHORITY_END)..])
  {
    hide FindAny, FindLast;
    var n := FindAny(rest, AUTHORITY_END);
    assert rest == rest[..n] + rest[n..];
    LastInSuffix(rest[..n], rest[n..], '@');
  }

  lemma LastInSuffix(a: string, b: string, c: char)
    requires !Free(b, c)
    ensures AfterLast(a + b, c) == AfterLast(b, c)
  {
    LastBehind(a, b, c);
    assert (a + b)[|a| + FindLast(b, c) + 1..] == b[FindLast(b, c) + 1..];
  }

  lemma LastBehind(a: string, b: string, c: char)
    requires !Free(b, c)
    ensures FindLast(b, c) >= 0 && FindLast(a + b, c) == |a| + FindLast(b, c)
  {
    var s, i, j := a + b, FindLast(a + b, c), FindLast(b, c);
    assert forall m :: 0 <= m < |b| ==> s[|a| + m] == b[m];
    assert j >= 0 && s[|a| + j] == c;
    assert i >= |a| + j && s[i] == b[i - |a|];
  }

  /** White space around the URL that the Job, which does not trim, does not come across:
      behind a path or query, or in front of a scheme. */
  predicate Framed(raw: string) {
    var url := Trim(raw, IsSpace);
    && (raw != "" && IsSpace(raw[0]) ==> FindText(url, SCHEME_END) >= 0)
    && (raw != "" && IsSpace(raw[|raw| - 1]) ==>
          FindAny(AfterLast(AfterScheme(url), '@'), AUTHORITY_END) < |AfterLast(AfterScheme(url), '@')|)
  }

  /** The probe and the Job, for every URL so framed. With no '@' behind the authority they read
      the same host and port exactly when its text is agreeable; and for an agreeable one,
      whatever is behind it, exactly when the text the Job takes reads as the authority does. */
  lemma ParsersAgree(raw: string)
    requires Framed(raw)
    ensures var rest := AfterScheme(Trim(raw, IsSpace));
      var a, agree := Authority(rest), ParsePostgres(raw) == Ok(ShellParse(raw, POSTGRES_PORT));
      && (PlainTail(rest) ==> (agree <==> Agreeable(a)))
      && (Agreeable(a) ==>
            (agree <==> ShellRead(ShellAuthority(rest), POSTGRES_PORT) == ShellRead(a, POSTGRES_PORT)))
  {
    hide Trim, Framed, Authority, ShellAuthority, AfterScheme, ReadAuthority, ShellRead, Agreeable, PlainTail;
    var rest := AfterScheme(Trim(raw, IsSpace));
    FrameIsInvisible(raw, POSTGRES_PORT);
    ReadingsAgree(Authority(rest));
    if PlainTail(rest) {
      SameAuthority(rest);
    }
  }

  /** A URL in its parts. */
  function Url(scheme: string, creds: Option<string>, host: string, port: Option<string>, tail: string): string {
    scheme + SCHEME_END + (Login(creds) + (Endpoint(host, port) + tail))
  }

  function Login(creds: Option<string>): string {
    if creds.Some? then creds.value + ['@'] else ""
  }

  function Endpoint(host: string, port: Option<string>): string {
    if port.Some? then host + [':'] + port.value else host
  }

  ghost predicate NoneOf(s: string, cs: set<char>) {
    forall k :: 0 <= k < |s| ==> s[k] !in cs
  }

  lemma SchemeEnds(scheme: string, rest: string)
    requires Free(scheme, ':')
    ensures AfterScheme(scheme + SCHEME_END + rest) == rest
  {
    var url := scheme + SCHEME_END + rest;
    assert url[|scheme|..|scheme| + 3] == SCHEME_END;
    assert OccursAt(url, SCHEME_END, |scheme|);
    forall k | 0 <= k < |scheme| ensures !OccursAt(url, SCHEME_END, k) {
      assert url[k] == scheme[k] && SCHEME_END[0] == ':';
      assert k + 3 <= |url| ==> url[k..k + 3][0] == url[k];
    }
    assert FindText(url, SCHEME_END) == |scheme|;
    assert url[|scheme| + 3..] == rest;
  }

  lemma AuthorityOfParts(creds: Option<string>, endpoint: string, tail: string)
    requires creds.Some? ==> NoneOf(creds.value, AUTHORITY_END)
    requires NoneOf(endpoint, {'/', '?', '@'})
    requires tail == "" || tail[0] in AUTHORITY_END
    ensures var rest := Login(creds) + (endpoint + tail);
      Authority(rest) == endpoint && rest[FindAny(rest, AUTHORITY_END)..] == tail
  {
    hide FindLast, FindAny;
    var login := Login(creds);
    var rest, full := login + (endpoint + tail), login + endpoint;
    assert rest == full + tail;
    EndsWhereTailBegins(full, tail);
    LoginIsCut(creds, endpoint);
  }

  lemma EndsWhereTailBegins(full: string, tail: string)
    requires NoneOf(full, AUTHORITY_END) && (tail == "" || tail[0] in AUTHORITY_END)
    ensures var rest := full + tail;
      FindAny(rest, AUTHORITY_END) == |full| && rest[..|full|] == full && rest[|full|..] == tail
  {
    var rest := full + tail;
    assert forall k :: 0 <= k < |full| ==> rest[k] == full[k];
    if tail != "" { assert rest[|full|] == tail[0]; }
  }

  lemma LoginIsCut(creds: Option<string>, endpoint: string)
    requires Free(endpoint, '@')
    ensures var full := Login(creds) + endpoint; full[FindLast(full, '@') + 1..] == endpoint
  {
    var login := Login(creds);
    var full := login + endpoint;
    var at := FindLast(full, '@');
    assert forall k :: |login| <= k < |full| ==> full[k] == endpoint[k - |login|];
    if creds.Some? { assert full[|login| - 1] == '@'; }
    assert at == |login| - 1;
  }

  /** In terms of the URL's parts: both read the host, and the port when there is one - the
      Job except when the port text is also the host. Credentials may hold any '@' or ':'. */
  lemma PartsAreRead(scheme: string, creds: Option<string>, host: string, port: Option<string>, tail: string)
    requires Free(scheme, ':')
    requires creds.Some? ==> NoneOf(creds.value, AUTHORITY_END)
    requires host != "" && NoneOf(host, {'/', '?', '@', ':', '[', ']'})
    requires port.Some? ==> Atoi(port.value)
    requires (tail == "" || tail[0] in AUTHORITY_END) && Free(tail, '@')
    requires var url := Url(scheme, creds, host, port, tail); Trim(url, IsSpace) == url
    ensures var url := Url(scheme, creds, host, port, tail);
      && ParsePostgres(url) == Ok(HostPort(host, if port.Some? then port.value else "5432"))
      && ShellParse(url, POSTGRES_PORT) ==
           HostPort(host, if port.Some? && port.value != host then port.value else "5432")
  {
    var endpoint := Endpoint(host, port);
    var rest := Login(creds) + (endpoint + tail);
    SchemeEnds(scheme, rest);
    EndpointIsPlain(host, port);
    AuthorityOfParts(creds, endpoint, tail);
    SameAuthority(rest);
    EndpointIsRead(host, port);
  }

  lemma AtoiChars(port: string)
    requires Atoi(port)
    ensures port != "" && NoneOf(port, {'/', '?', '@', ':', '[', ']'})
  {
    var digits := if port[0] == '+' || port[0] == '-' then port[1..] else port;
    var sign := |port| - |digits|;
    forall k | 0 <= k < |port| ensures port[k] !in {'/', '?', '@', ':', '[', ']'} {
      if k >= sign {
        assert port[k] == digits[k - sign];
        assert IsDigit(digits[k - sign]);
      }
    }
  }

  lemma EndpointIsPlain(host: string, port: Option<string>)
    requires NoneOf(host, {'/', '?', '@', ':', '[', ']'}) && (port.Some? ==> Atoi(port.value))
    ensures NoneOf(Endpoint(host, port), {'/', '?', '@', '[', ']'})
  {
    if port.Some? { AtoiChars(port.value); }
  }

  lemma EndpointIsRead(host: string, port: Option<string>)
    requires host != "" && NoneOf(host, {'/', '?', '@', ':', '[', ']'}) && (port.Some? ==> Atoi(port.value))
    ensures ReadAuthority(Endpoint(host, port)) == Ok(HostPort(host, if port.Some? then port.value else POSTGRES_PORT))
    ensures ShellRead(Endpoint(host, port), POSTGRES_PORT) ==
              HostPort(host, if port.Some? && port.value != host then port.value else POSTGRES_PORT)
  {
    hide Atoi;
    if port.Some? {
      WithPort(host, port.value);
    } else {
      DefaultPortIsNumeric();
      BareHost(host);
      assert host[..|host|] == host && host[0..] == host;
    }
  }

  lemma WithPort(host: string, port: string)
    requires host != "" && NoneOf(host, {'/', '?', '@', ':', '[', ']'}) && Atoi(port)
    ensures ReadAuthority(host + [':'] + port) == Ok(HostPort(host, port))
    ensures ShellRead(host + [':'] + port, POSTGRES_PORT) == HostPort(host, if port != host then port else POSTGRES_PORT)
  {
    hide Atoi, Trim, ReadAuthority;
    AtoiChars(port);
    PortIsLast(host, port);
    ColonReading(host + [':'] + port, port);
  }

  lemma PortIsLast(host: string, port: string)
    requires host != "" && NoneOf(host, {'/', '?', '@', ':', '[', ']'}) && NoneOf(port, {'/', '?', '@', ':', '[', ']'})
    requires Atoi(port)
    ensures var a := host + [':'] + port;
      Find(a, ':') == |host| == FindLast(a, ':') && BeforeFirst(a, ':') == host && AfterLast(a, ':') == port && OnePort(a)
  {
    hide Atoi;
    var a := host + [':'] + port;
    assert a[|host|] == ':';
    assert forall k :: 0 <= k < |host| ==> a[k] == host[k];
    assert forall k :: |host| < k < |a| ==> a[k] == port[k - |host| - 1];
    assert a[..|host|] == host && a[|host| + 1..] == port;
  }

  /** An '@' behind the authority does separate them: the probe still reads the host, the Job
      reads the tail. */
  lemma TailAtSignSeparates() returns (url: string)
    ensures Trim(url, IsSpace) == url && ParsePostgres(url).Ok?
    ensures ParsePostgres(url).hp.host != ShellParse(url, POSTGRES_PORT).host
  {
    hide Atoi, FindText, SplitHostPort, Trim, Authority, ShellAuthority, ShellRead, ReadAuthority, AfterScheme;
    url := "pg" + SCHEME_END + ("db" + "/a@b");
    SchemeEnds("pg", "db" + "/a@b");
    TrimmedExample("pg" + SCHEME_END, "db", "/a@b");
    DatabaseExample();
    ReadsOneCharacter("db" + "/a@b");
  }

  lemma TrimmedExample(front: string, host: string, tail: string)
    requires front != "" && front[0] == 'p' && tail != "" && tail[|tail| - 1] == 'b'
    ensures Trim(front + (host + tail), IsSpace) == front + (host + tail)
  {
    var url := front + (host + tail);
    assert url[0] == 'p' && url[|url| - 1] == 'b';
  }

  lemma DatabaseExample()
    ensures ReadAuthority(Authority("db" + "/a@b")) == Ok(HostPort("db", POSTGRES_PORT))
  {
    hide Atoi, SplitHostPort, Trim, Authority, ReadAuthority;
    var rest := "db" + "/a@b";
    assert Login(None) + rest == rest;
    AuthorityOfParts(None, "db", "/a@b");
    EndpointIsRead("db", None);
  }

  lemma ReadsOneCharacter(rest: string)
    requires |rest| > 1 && rest[|rest| - 2] == '@'
    ensures |ShellRead(ShellAuthority(rest), POSTGRES_PORT).host| <= 1
  {
    assert FindLast(rest, '@') >= |rest| - 2;
    var after := AfterLast(rest, '@');
    assert |after| <= 1;
  }

  // ----- appending the TLS query -----

  /** What the operator appends: it starts at '?', and holds no '@', no ':' and no space. */
  ghost predicate QueryText(q: string) {
    q != "" && q[0] == '?' && NoneOf(q, {'@', ':'}) && forall k :: 0 <= k < |q| ==> !IsSpace(q[k])
  }

  /** Text that cannot continue a scheme end or hold a new '@'. */
  ghost predicate Appendix(q: string) {
    q != "" && q[0] != '/' && NoneOf(q, {'@', ':'})
  }

  lemma SchemeSurvives(base: string, q: string)
    requires Appendix(q)
    ensures AfterScheme(base + q) == AfterScheme(base) + q
  {
    var url := base + q;
    forall k | 0 <= k ensures OccursAt(url, SCHEME_END, k) <==> OccursAt(base, SCHEME_END, k) {
      if k + 3 <= |base| {
        assert url[k..k + 3] == base[k..k + 3];
      } else if k + 3 <= |url| && url[k..k + 3] == SCHEME_END {
        QueryBreaksScheme(base, q, k);
      }
    }
    var i := FindText(base, SCHEME_END);
    assert FindText(url, SCHEME_END) == i;
    if i >= 0 { assert url[i + 3..] == base[i + 3..] + q; }
  }

  lemma QueryBreaksScheme(base: string, q: string, k: nat)
    requires Appendix(q) && |base| < k + 3 <= |base| + |q|
    ensures (base + q)[k..k + 3] != SCHEME_END
  {
    var url := base + q;
    var t := url[k..k + 3];
    assert SCHEME_END[0] == ':' && SCHEME_END[1] == '/' && SCHEME_END[2] == '/';
    if k >= |base| {
      assert t[0] == url[k] == q[k - |base|];
    } else {
      assert t[|base| - k] == url[|base|] == q[0];
    }
  }

  /** Composing the TLS query onto a base URL changes neither reading - for every base, with
      whatever path, query or credentials. */
  lemma TlsQueryIsInvisible(base: string, q: string, default: string)
    requires QueryText(q) && Trim(base, IsSpace) == base
    ensures ParsePostgres(base + q) == ParsePostgres(base)
    ensures ShellParse(base + q, default) == ShellParse(base, default)
  {
    var url, rest := base + q, AfterScheme(base);
    SchemeSurvives(base, q);
    assert url[|url| - 1] == q[|q| - 1] && url[0] == if base == "" then q[0] else base[0];
    assert Trim(url, IsSpace) == url;
    AuthoritySurvives(rest, q);
    JobIgnoresTlsQuery(base, q, default);
  }

  /** The Job's half holds for untrimmed bases too. */
  lemma JobIgnoresTlsQuery(base: string, q: string, default: string)
    requires QueryText(q)
    ensures ShellParse(base + q, default) == ShellParse(base, default)
  {
    hide AfterScheme, ShellAuthority, ShellRead;
    SchemeSurvives(base, q);
    ShellAuthoritySurvives(AfterScheme(base), q);
  }

  lemma EndSurvives(s: string, q: string)
    requires QueryText(q)
    ensures FindAny(s + q, AUTHORITY_END) == FindAny(s, AUTHORITY_END)
  {
    var n := FindAny(s, AUTHORITY_END);
    assert (s + q)[n] in AUTHORITY_END;
    assert forall k :: 0 <= k < n ==> (s + q)[k] == s[k];
  }

  lemma AuthoritySurvives(rest: string, q: string)
    requires QueryText(q)
    ensures Authority(rest + q) == Authority(rest)
  {
    EndSurvives(rest, q);
    var n := FindAny(rest, AUTHORITY_END);
    assert (rest + q)[..n] == rest[..n];
  }

  lemma ShellAuthoritySurvives(rest: string, q: string)
    requires QueryText(q)
    ensures ShellAuthority(rest + q) == ShellAuthority(rest)
  {
    LastAtSurvives(rest, q);
    var after := AfterLast(rest, '@');
    CutsCombine(after);
    CutsCombine(after + q);
    AuthorityTextSurvives(after, q);
  }

  lemma AuthorityTextSurvives(s: string, q: string)
    requires QueryText(q)
    ensures (s + q)[..FindAny(s + q, AUTHORITY_END)] == s[..FindAny(s, AUTHORITY_END)]
  {
    EndSurvives(s, q);
    var n := FindAny(s, AUTHORITY_END);
    assert (s + q)[..n] == s[..n];
  }

  lemma LastAtSurvives(rest: string, q: string)
    requires NoneOf(q, {'@', ':'})
    ensures AfterLast(rest + q, '@') == AfterLast(rest, '@') + q
  {
    var all := rest + q;
    assert forall k :: |rest| <= k < |all| ==> all[k] == q[k - |rest|];
    LastOfPrefix(all, |rest|, '@');
    assert all[..|rest|] == rest;
    var at := FindLast(rest, '@');
    assert all[at + 1..] == rest[at + 1..] + q;
  }

  // ----- white space around a URL -----

  /** Trimming takes off a front and a back of dropped characters. */
  lemma {:induction false} TrimTakesOff(s: string, drop: char -> bool) returns (lead: string, trail: string)
    ensures s == lead + Trim(s, drop) + trail
    ensures forall k :: 0 <= k < |lead| ==> drop(lead[k])
    ensures forall k :: 0 <= k < |trail| ==> drop(trail[k])
    ensures s != "" && !drop(s[0]) ==> lead == ""
    ensures s != "" && !drop(s[|s| - 1]) ==> trail == ""
    decreases |s|
  {
    lead, trail := "", "";
    if s != "" && drop(s[0]) {
      lead, trail := TrimTakesOff(s[1..], drop);
      LeadGrows(s, lead, Trim(s[1..], drop), trail);
      lead := AddLead(s[0], lead, drop);
    } else if s != "" && drop(s[|s| - 1]) {
      lead, trail := TrimTakesOff(s[..|s| - 1], drop);
      TrailGrows(s, lead, Trim(s[..|s| - 1], drop), trail);
      trail := AddTrail(trail, s[|s| - 1], drop);
    }
  }

  lemma AddLead(c: char, lead: string, drop: char -> bool) returns (more: string)
    requires drop(c) && forall k :: 0 <= k < |lead| ==> drop(lead[k])
    ensures more == [c] + lead && forall k :: 0 <= k < |more| ==> drop(more[k])
  {
    more := [c] + lead;
  }

  lemma AddTrail(trail: string, c: char, drop: char -> bool) returns (more: string)
    requires drop(c) && forall k :: 0 <= k < |trail| ==> drop(trail[k])
    ensures more == trail + [c] && forall k :: 0 <= k < |more| ==> drop(more[k])
  {
    more := trail + [c];
  }

  lemma TrailGrows(s: string, lead: string, mid: string, trail: string)
    requires s != "" && s[..|s| - 1] == lead + mid + trail
    ensures s == lead + mid + (trail + [s[|s| - 1]])
  {
    assert s == s[..|s| - 1] + [s[|s| - 1]];
  }

  lemma LeadGrows(s: string, lead: string, mid: string, trail: string)
    requires s != "" && s[1..] == lead + mid + trail
    ensures s == ([s[0]] + lead) + mid + trail
  {
    assert s == [s[0]] + s[1..];
  }

  ghost predicate Spaces(s: string) {
    forall k :: 0 <= k < |s| ==> IsSpace(s[k])
  }

  lemma NoSchemeInFront(front: string, url: string)
    requires Free(front, ':')
    ensures forall k :: 0 <= k < |front| ==> !OccursAt(front + url, SCHEME_END, k)
  {
    var raw := front + url;
    forall k | 0 <= k < |front| ensures !OccursAt(raw, SCHEME_END, k) {
      assert raw[k] == front[k] && SCHEME_END[0] == ':';
      assert k + 3 <= |raw| ==> raw[k..k + 3][0] == raw[k];
    }
  }

  lemma LeadIsSkipped(lead: string, url: string)
    requires Spaces(lead) && (lead != "" ==> FindText(url, SCHEME_END) >= 0)
    ensures AfterScheme(lead + url) == AfterScheme(url)
  {
    var raw, i := lead + url, FindText(url, SCHEME_END);
    if lead == "" {
      assert raw == url;
    } else {
      assert Free(lead, ':');
      NoSchemeInFront(lead, url);
      FindBehind(lead, url, SCHEME_END);
      assert raw[|lead| + i + 3..] == url[i + 3..];
    }
  }

  lemma SpacesAppend(trail: string)
    requires Spaces(trail) && trail != ""
    ensures Appendix(trail)
  {
    forall k | 0 <= k < |trail| ensures trail[k] !in {'@', ':', '/'} {
      assert IsSpace(trail[k]);
    }
  }

  lemma TrailIsBehind(rest: string, trail: string)
    requires Appendix(trail)
    requires var after := AfterLast(rest, '@'); FindAny(after, AUTHORITY_END) < |after|
    ensures ShellAuthority(rest + trail) == ShellAuthority(rest)
  {
    hide FindAny;
    LastAtSurvives(rest, trail);
    var after := AfterLast(rest, '@');
    CutsCombine(after);
    CutsCombine(after + trail);
    EndStays(after, trail);
  }

  lemma EndStays(s: string, more: string)
    requires FindAny(s, AUTHORITY_END) < |s|
    ensures (s + more)[..FindAny(s + more, AUTHORITY_END)] == s[..FindAny(s, AUTHORITY_END)]
  {
    var n := FindAny(s, AUTHORITY_END);
    assert (s + more)[n] == s[n] && forall k :: 0 <= k < n ==> (s + more)[k] == s[k];
    assert (s + more)[..n] == s[..n];
  }

  /** The Job takes the same authority from a framed URL as from the trimmed one. */
  lemma FramedAuthority(raw: string)
    requires Framed(raw)
    ensures ShellAuthority(AfterScheme(raw)) == ShellAuthority(AfterScheme(Trim(raw, IsSpace)))
  {
    hide Trim, AfterScheme, ShellAuthority, FindText, FindAny, AfterLast;
    var url := Trim(raw, IsSpace);
    var lead, trail := TrimTakesOff(raw, IsSpace);
    assert Spaces(lead) && Spaces(trail);
    if trail == "" {
      assert raw == lead + url;
      LeadIsSkipped(lead, url);
    } else {
      assert raw == lead + (url + trail);
      assert IsSpace(raw[|raw| - 1]);
      SpacesAppend(trail);
      SchemeSurvives(url, trail);
      SchemeStays(url, trail);
      LeadIsSkipped(lead, url + trail);
      TrailIsBehind(AfterScheme(url), trail);
    }
  }

  /** So it reads it as it reads the trimmed one. */
  lemma FrameIsInvisible(raw: string, default: string)
    requires Framed(raw)
    ensures ShellParse(raw, default) == ShellParse(Trim(raw, IsSpace), default)
  {
    hide Trim, AfterScheme, ShellAuthority, ShellRead, Framed;
    FramedAuthority(raw);
  }

  lemma SchemeStays(url: string, trail: string)
    ensures FindText(url, SCHEME_END) >= 0 ==> FindText(url + trail, SCHEME_END) >= 0
  {
    var i := FindText(url, SCHEME_END);
    if i >= 0 {
      assert (url + trail)[i..i + 3] == url[i..i + 3];
      assert OccursAt(url + trail, SCHEME_END, i);
    }
  }
}
