/**
 Proxy lines and their bulk import (proxy-manager.ts, the import route of controller.ts, and
 `createProxy` of the in-memory store).
 */
module ProxyManager {
  import opened Common
  import opened Text

  datatype Parsed = Parsed(host: string, port: int, username: Option<string>, password: Option<string>)

  /**
   `Number(text)` where it is an integer, None otherwise. Of JavaScript's reading of numbers only
   this is used: the decimal print of a port reads back as that port.
   */
  type NumberReader = string -> Option<int>

  ghost predicate ReadsPorts(number: NumberReader) {
    forall n: nat :: 1 <= n <= 65535 ==> number(Decimal(n)) == Some(n)
  }

  function DigitChar(d: nat): char
    requires d < 10
  {
    '0' + d as char
  }

  /** The decimal print of a number. */
  function Decimal(n: nat): (r: string)
    ensures r != "" && forall i :: 0 <= i < |r| ==> '0' <= r[i] <= '9'
  {
    if n < 10 then [DigitChar(n)] else Decimal(n / 10) + [DigitChar(n % 10)]
  }

  function FirstIndex(s: string, c: char): (r: Option<nat>)
    ensures r.None? <==> c !in s
    ensures r.Some? ==> r.value < |s| && s[r.value] == c && c !in s[..r.value]
  {
    if s == "" then None
    else if s[0] == c then Some(0)
    else match FirstIndex(s[1..], c)
      case None => None
      case Some(i) => Some(i + 1)
  }

  /** `lastIndexOf` */
  function LastIndex(s: string, c: char): (r: Option<nat>)
    ensures r.None? <==> c !in s
    ensures r.Some? ==> r.value < |s| && s[r.value] == c && c !in s[r.value + 1..]
  {
    if s == "" then None
    else if s[|s| - 1] == c then Some(|s| - 1)
    else LastIndex(s[..|s| - 1], c)
  }

  /** `split` on one character */
  function Split(s: string, c: char): (r: seq<string>)
    ensures |r| > 0
    decreases |s|
  {
    match FirstIndex(s, c)
    case None => [s]
    case Some(i) => [s[..i]] + Split(s[i + 1..], c)
  }

  predicate HostChar(c: char) {
    'a' <= c <= 'z' || 'A' <= c <= 'Z' || '0' <= c <= '9' || c == '.' || c == '_' || c == ':' || c == '-'
  }

  /** HOST_PATTERN */
  predicate IsHost(s: string) { s != "" && forall i :: 0 <= i < |s| ==> HostChar(s[i]) }

  predicate OneLine(s: string) { '\n' !in s && '\r' !in s }

  datatype Credentials = Credentials(username: string, password: string, rest: string)

  /** What the pattern ^([^:@\s]+):([^@\s]*)@(.+)$ accepts, and with which groups. */
  predicate Matches(value: string, m: Credentials) {
    && value == m.username + ":" + m.password + "@" + m.rest
    && m.username != "" && ':' !in m.username && '@' !in m.username && NoBlank(m.username)
    && '@' !in m.password && NoBlank(m.password)
    && m.rest != "" && OneLine(m.rest)
  }

  /** The match of a user name and the text behind its colon, found by the first `@` in that text. */
  function MatchBehind(username: string, tail: string): Option<Credentials> {
    match FirstIndex(tail, '@')
    case None => None
    case Some(at) =>
      if NoBlank(tail[..at]) && tail[at + 1..] != "" && OneLine(tail[at + 1..])
      then Some(Credentials(username, tail[..at], tail[at + 1..])) else None
  }

  /** The match, found by the first colon and the first `@` behind it. */
  function CredentialMatch(value: string): Option<Credentials> {
    match FirstIndex(value, ':')
    case None => None
    case Some(colon) =>
      var username := value[..colon];
      if username != "" && '@' !in username && NoBlank(username) then MatchBehind(username, value[colon + 1..])
      else None
  }

  function ParseHostPort(number: NumberReader, value: string, username: Option<string>, password: Option<string>)
    : Option<Parsed>
  {
    match LastIndex(value, ':')
    case None => None
    case Some(separator) =>
      var host := Trim(value[..separator]);
      var port := number(value[separator + 1..]);
      if separator > 0 && IsHost(host) && port.Some? && 1 <= port.value <= 65535
      then Some(Parsed(host, port.value, username, password)) else None
  }

  predicate IsComment(line: string) { Trim(line) == "" || Trim(line)[0] == '#' }

  function ParseProxyLine(number: NumberReader, line: string): Option<Parsed> {
    var value := Trim(line);
    if IsComment(line) then None
    else
      var m := CredentialMatch(value);
      if m.Some? then ParseHostPort(number, m.value.rest, Some(m.value.username), Some(m.value.password))
      else
        var parts := Split(value, ':');
        if |parts| == 4 then ParseHostPort(number, parts[0] + ":" + parts[1], Some(parts[2]), Some(parts[3]))
        else if |parts| == 2 then ParseHostPort(number, value, None, None)
        else None
  }

  // ---------- The pattern ----------

  lemma {:induction false} LastIndexAt(s: string, c: char, i: nat)
    requires i < |s| && s[i] == c && forall j :: i < j < |s| ==> s[j] != c
    ensures LastIndex(s, c) == Some(i)
    decreases |s|
  {
    if i < |s| - 1 { LastIndexAt(s[..|s| - 1], c, i); }
  }

  lemma {:induction false} FirstBehind(a: string, b: string, c: char)
    requires c !in a && c in b
    ensures FirstIndex(a + b, c) == Some(|a| + FirstIndex(b, c).value)
    decreases |a|
  {
    if a == "" {
      assert a + b == b;
    } else {
      assert (a + b)[0] == a[0] && (a + b)[1..] == a[1..] + b;
      FirstBehind(a[1..], b, c);
    }
  }

  lemma ColonBehind(username: string, tail: string)
    requires ':' !in username
    ensures var value := username + ":" + tail;
            && FirstIndex(value, ':') == Some(|username|)
            && value[..|username|] == username && value[|username| + 1..] == tail
  {
    FirstBehind(username, ":" + tail, ':');
    Join(username, ":", tail);
    CutAt(username, ":", tail);
  }

  lemma MatchAfterColon(username: string, tail: string)
    requires username != "" && ':' !in username && '@' !in username && NoBlank(username)
    ensures CredentialMatch(username + ":" + tail) == MatchBehind(username, tail)
  {
    ColonBehind(username, tail);
  }

  lemma Join(a: string, b: string, c: string)
    ensures a + (b + c) == a + b + c
  {
  }

  lemma CutAt(a: string, b: string, c: string)
    requires |b| == 1
    ensures (a + b + c)[..|a|] == a && (a + b + c)[|a| + 1..] == c
  {
  }

  lemma MatchIsFound(m: Credentials)
    requires Matches(m.username + ":" + m.password + "@" + m.rest, m)
    ensures CredentialMatch(m.username + ":" + m.password + "@" + m.rest) == Some(m)
  {
    Glue(m.username, m.password, m.rest);
    MatchAfterColon(m.username, m.password + "@" + m.rest);
    MatchAtAt(m);
  }

  lemma MatchAtAt(m: Credentials)
    requires '@' !in m.password && NoBlank(m.password) && m.rest != "" && OneLine(m.rest)
    ensures MatchBehind(m.username, m.password + "@" + m.rest) == Some(m)
  {
    FirstBehind(m.password, "@" + m.rest, '@');
    Join(m.password, "@", m.rest);
    CutAt(m.password, "@", m.rest);
  }

  lemma Glue(username: string, password: string, rest: string)
    ensures username + ":" + (password + "@" + rest) == username + ":" + password + "@" + rest
  {
  }

  lemma Around(s: string, i: nat, c: char)
    requires i < |s| && s[i] == c
    ensures s == s[..i] + [c] + s[i + 1..]
  {
  }

  lemma FoundIsMatch(value: string)
    requires CredentialMatch(value).Some?
    ensures Matches(value, CredentialMatch(value).value)
  {
    var m := CredentialMatch(value).value;
    var colon := FirstIndex(value, ':').value;
    var tail := value[colon + 1..];
    var at := FirstIndex(tail, '@').value;
    Around(value, colon, ':');
    Around(tail, at, '@');
    Glue(m.username, m.password, m.rest);
  }

  /** The search finds exactly the match of the pattern; there is at most one. */
  lemma CredentialMatchIsExact(value: string, m: Credentials)
    ensures CredentialMatch(value) == Some(m) <==> Matches(value, m)
  {
    if Matches(value, m) { MatchIsFound(m); }
    if CredentialMatch(value).Some? { FoundIsMatch(value); }
  }

  // ---------- The three formats ----------

  function Plain(host: string, port: nat): string { host + ":" + Decimal(port) }

  function WithLogin(username: string, password: string, host: string, port: nat): string {
    username + ":" + password + "@" + Plain(host, port)
  }

  function FourPart(host: string, port: nat, username: string, password: string): string {
    Plain(host, port) + ":" + username + ":" + password
  }

  lemma PlainParses(number: NumberReader, host: string, port: nat, username: Option<string>, password: Option<string>)
    requires ReadsPorts(number) && IsHost(host) && 1 <= port <= 65535
    ensures ParseHostPort(number, Plain(host, port), username, password) == Some(Parsed(host, port, username, password))
  {
    var value := Plain(host, port);
    assert value[..|host|] == host && value[|host|] == ':' && value[|host| + 1..] == Decimal(port);
    LastIndexAt(value, ':', |host|);
    assert HostChar(host[0]) && HostChar(host[|host| - 1]);
    TrimmedIsFixed(host);
  }

  lemma NoAtNoMatch(value: string)
    requires '@' !in value
    ensures CredentialMatch(value) == None
  {
  }

  lemma SplitAt(a: string, rest: string, c: char)
    requires c !in a
    ensures Split(a + [c] + rest, c) == [a] + Split(rest, c)
  {
    FirstBehind(a, [c] + rest, c);
    Join(a, [c], rest);
    CutAt(a, [c], rest);
  }

  lemma SplitNone(a: string, c: char)
    requires c !in a
    ensures Split(a, c) == [a]
  {
  }

  /** The parts with a colon between them. */
  function Colons(parts: seq<string>): string {
    if parts == [] then ""
    else if |parts| == 1 then parts[0]
    else parts[0] + ":" + Colons(parts[1..])
  }

  lemma {:induction false} SplitColons(parts: seq<string>)
    requires parts != [] && forall i :: 0 <= i < |parts| ==> ':' !in parts[i]
    ensures Split(Colons(parts), ':') == parts
    decreases |parts|
  {
    if |parts| == 1 {
      SplitNone(parts[0], ':');
    } else {
      SplitColons(parts[1..]);
      SplitAt(parts[0], Colons(parts[1..]), ':');
      assert [parts[0]] + parts[1..] == parts;
    }
  }

  lemma SplitTwo(a: string, b: string)
    requires ':' !in a && ':' !in b
    ensures Split(a + ":" + b, ':') == [a, b]
  {
    assert [a, b][1..] == [b];
    SplitColons([a, b]);
  }

  lemma Regroup(a: string, b: string, c: string, d: string)
    ensures a + ":" + b + ":" + c + ":" + d == a + ":" + (b + ":" + (c + ":" + d))
  {
  }

  lemma FourColons(a: string, b: string, c: string, d: string)
    ensures Colons([a, b, c, d]) == a + ":" + (b + ":" + (c + ":" + d))
  {
    assert [a, b, c, d][1..] == [b, c, d] && [b, c, d][1..] == [c, d] && [c, d][1..] == [d];
    assert Colons([c, d]) == c + ":" + d;
    assert Colons([b, c, d]) == b + ":" + Colons([c, d]);
  }

  lemma SplitFour(a: string, b: string, c: string, d: string)
    requires ':' !in a && ':' !in b && ':' !in c && ':' !in d
    ensures Split(a + ":" + b + ":" + c + ":" + d, ':') == [a, b, c, d]
  {
    Regroup(a, b, c, d);
    FourColons(a, b, c, d);
    SplitColons([a, b, c, d]);
  }

  lemma PlainText(host: string, port: nat)
    requires IsHost(host)
    ensures var value := Plain(host, port); Trim(value) == value && !IsComment(value) && '@' !in value
  {
    var value := Plain(host, port);
    HostIsPlain(host);
    DigitsArePlain(Decimal(port));
    assert value[0] == host[0] && value[|value| - 1] == Decimal(port)[|Decimal(port)| - 1];
    TrimmedIsFixed(value);
  }

  lemma DigitsHaveNoColon(digits: string)
    requires forall i :: 0 <= i < |digits| ==> '0' <= digits[i] <= '9'
    ensures ':' !in digits
  {
  }

  /** `host:port`, with a host free of colons. */
  lemma PlainRoundTrip(number: NumberReader, host: string, port: nat)
    requires ReadsPorts(number) && IsHost(host) && ':' !in host && 1 <= port <= 65535
    ensures ParseProxyLine(number, Plain(host, port)) == Some(Parsed(host, port, None, None))
  {
    PlainText(host, port);
    NoAtNoMatch(Plain(host, port));
    DigitsHaveNoColon(Decimal(port));
    SplitTwo(host, Decimal(port));
    PlainParses(number, host, port, None, None);
  }

  /** `user:pass@host:port`: colons may occur in the host and in the password, and the password may be empty. */
  lemma LoginRoundTrip(number: NumberReader, username: string, password: string, host: string, port: nat)
    requires ReadsPorts(number) && IsHost(host) && 1 <= port <= 65535
    requires username != "" && username[0] != '#' && ':' !in username && '@' !in username && NoBlank(username)
    requires '@' !in password && NoBlank(password)
    ensures ParseProxyLine(number, WithLogin(username, password, host, port)) ==
            Some(Parsed(host, port, Some(username), Some(password)))
  {
    var value := WithLogin(username, password, host, port);
    var rest := Plain(host, port);
    assert value[0] == username[0] && value[|value| - 1] == Decimal(port)[|Decimal(port)| - 1];
    TrimmedIsFixed(value);
    assert OneLine(rest) by { assert forall i :: 0 <= i < |host| ==> HostChar(host[i]); }
    CredentialMatchIsExact(value, Credentials(username, password, rest));
    PlainParses(number, host, port, Some(username), Some(password));
  }

  /** The text behind the port has an `@` that makes the line match the login pattern. */
  predicate LooksLikeLogin(username: string, password: string) {
    var tail := username + ":" + password;
    match FirstIndex(tail, '@')
    case None => false
    case Some(at) => NoBlank(tail[..at]) && tail[at + 1..] != "" && OneLine(tail[at + 1..])
  }

  lemma HostIsPlain(host: string)
    requires IsHost(host)
    ensures '@' !in host && NoBlank(host) && OneLine(host) && host[0] != '#'
  {
    assert forall i :: 0 <= i < |host| ==> HostChar(host[i]);
  }

  lemma NoAtBehind(digits: string, tail: string)
    requires '@' !in digits && '@' !in tail
    ensures '@' !in digits + ":" + tail
  {
  }

  lemma CutBehind(front: string, tail: string, at: nat)
    requires at < |tail|
    ensures (front + tail)[..|front| + at] == front + tail[..at] && (front + tail)[|front| + at + 1..] == tail[at + 1..]
  {
  }

  /** Two texts with the same ending behind their first `@` match alike if what is before it is blank-free alike. */
  lemma SameMatch(host: string, x: string, i: nat, y: string, j: nat)
    requires FirstIndex(x, '@') == Some(i) && FirstIndex(y, '@') == Some(j)
    requires x[i + 1..] == y[j + 1..] && (NoBlank(x[..i]) <==> NoBlank(y[..j]))
    ensures MatchBehind(host, x).Some? <==> MatchBehind(host, y).Some?
    ensures MatchBehind(host, x).Some? ==> MatchBehind(host, x).value.password == x[..i]
  {
  }

  lemma AtBehind(front: string, tail: string, at: nat)
    requires '@' !in front && NoBlank(front) && FirstIndex(tail, '@') == Some(at)
    ensures var rest, i := front + tail, |front| + at;
            && FirstIndex(rest, '@') == Some(i) && rest[..i] == front + tail[..at] && rest[i + 1..] == tail[at + 1..]
            && (NoBlank(rest[..i]) <==> NoBlank(tail[..at]))
  {
    FirstBehind(front, tail, '@');
    CutBehind(front, tail, at);
    BlanksBehind(front, tail[..at]);
  }

  lemma BlanksBehind(front: string, text: string)
    requires NoBlank(front)
    ensures NoBlank(front + text) <==> NoBlank(text)
  {
    if NoBlank(front + text) {
      forall i | 0 <= i < |text| ensures !IsBlank(text[i]) { assert (front + text)[|front| + i] == text[i]; }
    }
  }

  lemma ColonInside(digits: string, text: string)
    ensures ':' in digits + ":" + text
  {
    assert (digits + ":" + text)[|digits|] == ':';
  }

  /** Digits and a colon before the text do not change whether there is a match. */
  lemma MatchBehindDigits(host: string, digits: string, tail: string)
    requires '@' !in digits && NoBlank(digits)
    ensures MatchBehind(host, digits + ":" + tail).Some? <==> MatchBehind(host, tail).Some?
    ensures MatchBehind(host, tail).Some? ==> ':' in MatchBehind(host, digits + ":" + tail).value.password
  {
    if '@' in tail {
      var front, at := digits + ":", FirstIndex(tail, '@').value;
      AtBehind(front, tail, at);
      SameMatch(host, front + tail, |front| + at, tail, at);
      ColonInside(digits, tail[..at]);
    } else {
      NoAtBehind(digits, tail);
    }
  }

  lemma DigitsArePlain(digits: string)
    requires forall i :: 0 <= i < |digits| ==> '0' <= digits[i] <= '9'
    ensures '@' !in digits && NoBlank(digits)
  {
  }

  /**
   A four-part line matches the login pattern exactly when its last two parts say so, and then with
   a colon in the password.
   */
  lemma FourPartMatch(host: string, port: nat, username: string, password: string)
    requires IsHost(host) && ':' !in host
    ensures CredentialMatch(FourPart(host, port, username, password)).Some? <==> LooksLikeLogin(username, password)
    ensures LooksLikeLogin(username, password) ==>
              ':' in CredentialMatch(FourPart(host, port, username, password)).value.password
  {
    HostIsPlain(host);
    var digits, tail := Decimal(port), username + ":" + password;
    DigitsArePlain(digits);
    Regroup(host, digits, username, password);
    MatchAfterColon(host, digits + ":" + tail);
    MatchBehindDigits(host, digits, tail);
  }

  lemma BlanksOf(digits: string, text: string)
    requires NoBlank(digits)
    ensures NoBlank(digits + ":" + text) <==> NoBlank(text)
  {
    BlanksBehind(digits + ":", text);
  }

  /**
   `host:port:user:pass`, with no colon in any part and no blank at the end, reads back as itself
   exactly when its user and password do not make it look like the login format.
   */
  lemma FourPartRoundTrip(number: NumberReader, host: string, port: nat, username: string, password: string)
    requires ReadsPorts(number) && IsHost(host) && ':' !in host && 1 <= port <= 65535
    requires ':' !in username && ':' !in password && (password != "" ==> !IsBlank(password[|password| - 1]))
    ensures ParseProxyLine(number, FourPart(host, port, username, password)) ==
            Some(Parsed(host, port, Some(username), Some(password)))
            <==> !LooksLikeLogin(username, password)
  {
    var value := FourPart(host, port, username, password);
    FourPartTrimmed(host, port, username, password);
    FourPartMatch(host, port, username, password);
    SplitFour(host, Decimal(port), username, password);
    if LooksLikeLogin(username, password) {
      ReadByMatch(number, value);
    } else {
      ReadByParts(number, value, host, Decimal(port), username, password);
      PlainParses(number, host, port, Some(username), Some(password));
    }
  }

  lemma ReadByMatch(number: NumberReader, value: string)
    requires Trim(value) == value && !IsComment(value) && CredentialMatch(value).Some?
    ensures var line := ParseProxyLine(number, value);
            line.Some? ==> line.value.password == Some(CredentialMatch(value).value.password)
  {
  }

  lemma ReadByParts(number: NumberReader, value: string, a: string, b: string, c: string, d: string)
    requires Trim(value) == value && !IsComment(value) && CredentialMatch(value) == None && Split(value, ':') ==
             [a, b, c, d]
    ensures ParseProxyLine(number, value) == ParseHostPort(number, a + ":" + b, Some(c), Some(d))
  {
  }

  /**
   Misread lines: `host:port:user@host2:port2` with a numeric password is another proxy's line, whose
   user is the host and whose password begins with the port.
   */
  lemma FourPartMisread(number: NumberReader, host: string, port: nat, user: string, host2: string, port2: nat)
    requires ReadsPorts(number) && IsHost(host) && ':' !in host && IsHost(host2) && 1 <= port2 <= 65535
    requires '@' !in user && NoBlank(user)
    ensures ParseProxyLine(number, FourPart(host, port, user + "@" + host2, Decimal(port2))) ==
            Some(Parsed(host2, port2, Some(host), Some(Decimal(port) + ":" + user)))
  {
    HostIsPlain(host);
    DigitsArePlain(Decimal(port));
    BlanksOf(Decimal(port), user);
    LoginRoundTrip(number, host, Decimal(port) + ":" + user, host2, port2);
    SameText(host, Decimal(port), user, host2, Decimal(port2));
  }

  lemma SameText(a: string, b: string, c: string, d: string, e: string)
    ensures a + ":" + b + ":" + (c + "@" + d) + ":" + e == a + ":" + (b + ":" + c) + "@" + (d + ":" + e)
  {
  }

  /** Refused lines: a password with an `@` and no colon behind it leaves no port. */
  lemma FourPartRefused(number: NumberReader, host: string, port: nat, user: string, front: string, back: string)
    requires IsHost(host) && ':' !in host && '@' !in user && NoBlank(user) && '@' !in front && NoBlank(front)
    requires back != "" && OneLine(back) && ':' !in back && !IsBlank(back[|back| - 1])
    ensures ParseProxyLine(number, FourPart(host, port, user, front + "@" + back)) == None
  {
    var value := FourPart(host, port, user, front + "@" + back);
    var password := Decimal(port) + ":" + (user + ":" + front);
    HostIsPlain(host);
    DigitsArePlain(Decimal(port));
    PlainPassword(Decimal(port), user, front);
    FourPartTrimmed(host, port, user, front + "@" + back);
    LoginText(host, Decimal(port), user, front, back);
    CredentialMatchIsExact(value, Credentials(host, password, back));
  }

  lemma PlainPassword(digits: string, user: string, front: string)
    requires '@' !in digits && NoBlank(digits) && '@' !in user && NoBlank(user) && '@' !in front && NoBlank(front)
    ensures var password := digits + ":" + (user + ":" + front); '@' !in password && NoBlank(password)
  {
    NoAtBehind(user, front);
    BlanksOf(user, front);
    NoAtBehind(digits, user + ":" + front);
    BlanksOf(digits, user + ":" + front);
  }

  lemma LoginText(a: string, b: string, c: string, d: string, e: string)
    ensures a + ":" + b + ":" + c + ":" + (d + "@" + e) == a + ":" + (b + ":" + (c + ":" + d)) + "@" + e
  {
  }

  lemma ExampleTexts(n: nat, m: nat)
    requires n == 80 && m == 90
    ensures FourPart("h", n, "u" + "@" + "y", Decimal(m)) == "h:80:u@y:90"
    ensures FourPart("h", n, "u", "p" + "@" + "x") == "h:80:u:p@x"
    ensures Decimal(n) + ":" + "u" == "80:u"
  {
    TwoDigits(n);
    TwoDigits(m);
  }

  lemma ExampleParts(host: string, user: string, host2: string, front: string, back: string)
    requires host == "h" && user == "u" && host2 == "y" && front == "p" && back == "x"
    ensures IsHost(host) && IsHost(host2) && ':' !in host
    ensures '@' !in user && NoBlank(user) && '@' !in front && NoBlank(front)
    ensures OneLine(back) && ':' !in back && !IsBlank(back[|back| - 1])
  {
  }

  /** A misread line, all its parts being in the format's own character domain. */
  lemma MisreadExample(number: NumberReader, host: string, n: nat, user: string, host2: string, m: nat)
    requires ReadsPorts(number) && host == "h" && n == 80 && user == "u" && host2 == "y" && m == 90
    ensures FourPart(host, n, user + "@" + host2, Decimal(m)) == "h:80:u@y:90" && Decimal(n) + ":" + user == "80:u"
    ensures ParseProxyLine(number, FourPart(host, n, user + "@" + host2, Decimal(m))) ==
            Some(Parsed(host2, m, Some(host), Some(Decimal(n) + ":" + user)))
  {
    ExampleTexts(n, m);
    ExampleParts(host, user, host2, "p", "x");
    FourPartMisread(number, host, n, user, host2, m);
  }

  /** And a refused one. */
  lemma RefusedExample(number: NumberReader, host: string, n: nat, user: string, front: string, back: string)
    requires host == "h" && n == 80 && user == "u" && front == "p" && back == "x"
    ensures FourPart(host, n, user, front + "@" + back) == "h:80:u:p@x"
    ensures ParseProxyLine(number, FourPart(host, n, user, front + "@" + back)) == None
  {
    ExampleTexts(n, 90);
    ExampleParts(host, user, "y", front, back);
    FourPartRefused(number, host, n, user, front, back);
  }

  lemma TwoDigits(n: nat)
    requires 10 <= n < 100
    ensures Decimal(n) == [DigitChar(n / 10), DigitChar(n % 10)]
  {
  }

  lemma FourPartTrimmed(host: string, port: nat, username: string, password: string)
    requires IsHost(host) && (password != "" ==> !IsBlank(password[|password| - 1]))
    ensures Trim(FourPart(host, port, username, password)) == FourPart(host, port, username, password)
    ensures !IsComment(FourPart(host, port, username, password))
  {
    var value := FourPart(host, port, username, password);
    HostIsPlain(host);
    assert value[0] == host[0] && !IsBlank(value[|value| - 1]);
    TrimmedIsFixed(value);
  }

  /** Blanks around a line do not matter. */
  lemma BlanksAroundLine(number: NumberReader, line: string)
    ensures ParseProxyLine(number, line) == ParseProxyLine(number, Trim(line))
  {
    TrimIsTrimmed(line);
  }

  /** The value is a host, perhaps with blanks around it, the last colon, and a port. */
  predicate IsHostPort(number: NumberReader, value: string, front: string, back: string, host: string, port: int) {
    && value == front + ":" + back && front != "" && ':' !in back
    && Trim(front) == host && IsHost(host) && number(back) == Some(port) && 1 <= port <= 65535
  }

  lemma HostPortReads(number: NumberReader, value: string, front: string, back: string, p: Parsed)
    requires IsHostPort(number, value, front, back, p.host, p.port)
    ensures ParseHostPort(number, value, p.username, p.password) == Some(p)
  {
    CutAt(front, ":", back);
    assert value[|front|] == ':';
    forall j | |front| < j < |value| ensures value[j] != ':' { assert value[j] == back[j - |front| - 1]; }
    LastIndexAt(value, ':', |front|);
  }

  /** Exactly what is read as host and port, and as which: the credentials are passed on. */
  lemma HostPortIs(number: NumberReader, value: string, username: Option<string>, password: Option<string>, p: Parsed)
    ensures ParseHostPort(number, value, username, password) == Some(p) <==>
            && p.username == username && p.password == password
            && exists front, back :: IsHostPort(number, value, front, back, p.host, p.port)
  {
    if ParseHostPort(number, value, username, password) == Some(p) {
      var i := LastIndex(value, ':').value;
      Around(value, i, ':');
      assert IsHostPort(number, value, value[..i], value[i + 1..], p.host, p.port);
    }
    if p.username == username && p.password == password {
      forall front, back | IsHostPort(number, value, front, back, p.host, p.port)
        ensures ParseHostPort(number, value, username, password) == Some(p)
      {
        HostPortReads(number, value, front, back, p);
      }
    }
  }

  /** Whatever is accepted names a well-formed host and a port in range. */
  lemma AcceptedIsWellFormed(number: NumberReader, line: string)
    requires ParseProxyLine(number, line).Some?
    ensures var p := ParseProxyLine(number, line).value; IsHost(p.host) && 1 <= p.port <= 65535
  {
  }

  // ---------- Bulk import ----------

  datatype Protocol = SOCKS5 | HTTP | HTTPS

  datatype Key = Key(host: string, port: int, protocol: Protocol)

  datatype Proxy = Proxy(key: Key, username: Option<string>, password: Option<string>)

  function RecordOf(p: Parsed, protocol: Protocol): Proxy {
    Proxy(Key(p.host, p.port, protocol), p.username, p.password)
  }

  function Keys(proxies: seq<Proxy>): set<Key> { set i | 0 <= i < |proxies| :: proxies[i].key }

  predicate UniqueKeys(proxies: seq<Proxy>) {
    forall i, j :: 0 <= i < j < |proxies| ==> proxies[i].key != proxies[j].key
  }

  /** What one line says. */
  datatype Reading = Comment | Unreadable | Record(proxy: Proxy)

  function Read(number: NumberReader, line: string, protocol: Protocol): Reading {
    match ParseProxyLine(number, line)
    case Some(p) => Record(RecordOf(p, protocol))
    case None => if IsComment(line) then Comment else Unreadable
  }

  function ReadAll(number: NumberReader, lines: seq<string>, protocol: Protocol): (r: seq<Reading>)
    ensures |r| == |lines| && forall i :: 0 <= i < |lines| ==> r[i] == Read(number, lines[i], protocol)
  {
    seq(|lines|, i requires 0 <= i < |lines| => Read(number, lines[i], protocol))
  }

  /** What becomes of a line: its record is new only if neither the store nor an earlier line has its key. */
  datatype Verdict = Skipped | Invalid | Known | New

  /** Some line among the first `i` has this key. */
  predicate ReadBefore(readings: seq<Reading>, i: nat, key: Key)
    requires i <= |readings|
  {
    exists j :: 0 <= j < i && readings[j].Record? && readings[j].proxy.key == key
  }

  function Judge(known: set<Key>, readings: seq<Reading>, i: nat): Verdict
    requires i < |readings|
  {
    match readings[i]
    case Comment => Skipped
    case Unreadable => Invalid
    case Record(proxy) => if proxy.key in known || ReadBefore(readings, i, proxy.key) then Known else New
  }

  /** How many of the first `n` lines get this verdict. */
  function Count(known: set<Key>, readings: seq<Reading>, v: Verdict, n: nat): nat
    requires n <= |readings|
  {
    if n == 0 then 0 else Count(known, readings, v, n - 1) + (if Judge(known, readings, n - 1) == v then 1 else 0)
  }

  /** The records of the new lines, in order. */
  function NewProxies(known: set<Key>, readings: seq<Reading>, n: nat): seq<Proxy>
    requires n <= |readings|
  {
    if n == 0 then []
    else
      NewProxies(known, readings, n - 1) +
      if Judge(known, readings, n - 1) == New then [readings[n - 1].proxy] else []
  }

  function SplitLines(text: string): (r: seq<string>)
    ensures |r| > 0
    decreases |text|
  {
    match FirstIndex(text, '\n')
    case None => [text]
    case Some(i) => [if i > 0 && text[i - 1] == '\r' then text[..i - 1] else text[..i]] + SplitLines(text[i + 1..])
  }

  /** The import of a whole text: the store afterwards and the two numbers reported. */
  datatype Report = Report(proxies: seq<Proxy>, created: nat, invalid: nat)

  /** The report after the first `n` lines. */
  function Upto(before: seq<Proxy>, readings: seq<Reading>, n: nat): Report
    requires n <= |readings|
  {
    var known := Keys(before);
    Report(before + NewProxies(known, readings, n), Count(known, readings, New, n), Count(known, readings, Invalid, n))
  }

  /** One line's effect on the report. */
  function Line(now: Report, reading: Reading): Report {
    match reading
    case Comment => now
    case Unreadable => now.(invalid := now.invalid + 1)
    case Record(proxy) =>
      if proxy.key in Keys(now.proxies) then now
      else Report(now.proxies + [proxy], now.created + 1, now.invalid)
  }

  function Import(number: NumberReader, before: seq<Proxy>, text: string, protocol: Protocol): Report {
    var readings := ReadAll(number, SplitLines(text), protocol);
    Upto(before, readings, |readings|)
  }

  class ProxyStore {
    var proxies: seq<Proxy>

    constructor ()
      ensures proxies == []
    {
      proxies := [];
    }

    /** `createProxy`; false is the thrown PROXY_EXISTS. */
    method CreateProxy(proxy: Proxy) returns (ok: bool)
      modifies this
      ensures ok <==> proxy.key !in Keys(old(proxies))
      ensures proxies == if ok then old(proxies) + [proxy] else old(proxies)
    {
      ok := !(exists i :: 0 <= i < |proxies| && proxies[i].key == proxy.key);
      if ok { proxies := proxies + [proxy]; }
    }

    /** One line of an import, with the counters before and after it. */
    method ImportLine(number: NumberReader, line: string, protocol: Protocol, created0: nat, invalid0: nat,
                      ghost reading: Reading)
      returns (created: nat, invalid: nat)
      requires reading == Read(number, line, protocol)
      modifies this
      ensures Report(proxies, created, invalid) == Line(Report(old(proxies), created0, invalid0), reading)
    {
      created, invalid := created0, invalid0;
      var item := ParseProxyLine(number, line);
      if item.None? {
        if !IsComment(line) { invalid := invalid + 1; }
      } else {
        var ok := CreateProxy(RecordOf(item.value, protocol));
        if ok { created := created + 1; }
      }
    }

    /** POST /api/proxies/import */
    method ImportText(number: NumberReader, text: string, protocol: Protocol) returns (created: nat, invalid: nat)
      modifies this
      ensures Report(proxies, created, invalid) == Import(number, old(proxies), text, protocol)
    {
      var lines := SplitLines(text);
      ghost var readings := ReadAll(number, lines, protocol);
      created, invalid := 0, 0;
      assert proxies + [] == proxies;
      for i := 0 to |lines|
        invariant Report(proxies, created, invalid) == Upto(old(proxies), readings, i)
      {
        UptoNext(old(proxies), readings, i);
        created, invalid := ImportLine(number, lines[i], protocol, created, invalid, readings[i]);
      }
    }
  }

  lemma KeysConcat(xs: seq<Proxy>, ys: seq<Proxy>)
    ensures Keys(xs + ys) == Keys(xs) + Keys(ys)
  {
    forall k | k in Keys(ys) ensures k in Keys(xs + ys) {
      var i :| 0 <= i < |ys| && ys[i].key == k;
      assert (xs + ys)[|xs| + i].key == k;
    }
    forall k | k in Keys(xs) ensures k in Keys(xs + ys) {
      var i :| 0 <= i < |xs| && xs[i].key == k;
      assert (xs + ys)[i].key == k;
    }
  }

  /** The store's keys grow by the key of a new line. */
  lemma KeysStep(before: seq<Proxy>, readings: seq<Reading>, n: nat)
    requires n < |readings|
    ensures var known := Keys(before);
            Keys(before + NewProxies(known, readings, n + 1)) ==
            Keys(before + NewProxies(known, readings, n)) +
                (if Judge(known, readings, n) == New then {readings[n].proxy.key} else {})
  {
    var known := Keys(before);
    var now, next := before + NewProxies(known, readings, n), before + NewProxies(known, readings, n + 1);
    if Judge(known, readings, n) == New {
      var added := readings[n].proxy;
      assert next == now + [added];
      KeysConcat(now, [added]);
      assert [added][0].key in Keys([added]);
    } else {
      assert next == now;
    }
  }

  /** After `n` lines the store's keys are the old ones and those read so far. */
  lemma {:induction false} KeysAfter(before: seq<Proxy>, readings: seq<Reading>, n: nat)
    requires n <= |readings|
    ensures forall k :: k in Keys(before + NewProxies(Keys(before), readings, n)) <==>
            k in Keys(before) || ReadBefore(readings, n, k)
    decreases n
  {
    if n == 0 {
      assert before + [] == before;
    } else {
      KeysAfter(before, readings, n - 1);
      KeysStep(before, readings, n - 1);
    }
  }

  lemma UptoNext(before: seq<Proxy>, readings: seq<Reading>, i: nat)
    requires i < |readings|
    ensures Upto(before, readings, i + 1) == Line(Upto(before, readings, i), readings[i])
  {
    KeysAfter(before, readings, i);
    var found := NewProxies(Keys(before), readings, i);
    if Judge(Keys(before), readings, i) == New {
      assert before + (found + [readings[i].proxy]) == before + found + [readings[i].proxy];
    } else {
      assert found + [] == found;
    }
  }

  lemma {:induction false} CountsAddUp(known: set<Key>, readings: seq<Reading>, n: nat)
    requires n <= |readings|
    ensures n == Count(known, readings, New, n) + Count(known, readings, Invalid, n) +
            Count(known, readings, Known, n) + Count(known, readings, Skipped, n)
    decreases n
  {
    if n > 0 { CountsAddUp(known, readings, n - 1); }
  }

  lemma {:induction false} KeysStayUnique(before: seq<Proxy>, readings: seq<Reading>, n: nat)
    requires n <= |readings| && UniqueKeys(before)
    ensures UniqueKeys(before + NewProxies(Keys(before), readings, n))
    decreases n
  {
    var known := Keys(before);
    if n == 0 {
      assert before + [] == before;
    } else {
      KeysStayUnique(before, readings, n - 1);
      KeysAfter(before, readings, n - 1);
      var now := before + NewProxies(known, readings, n - 1);
      if Judge(known, readings, n - 1) == New {
        var added := readings[n - 1].proxy;
        assert before + NewProxies(known, readings, n) == now + [added];
        assert added.key !in Keys(now);
        assert forall i :: 0 <= i < |now| ==> now[i].key in Keys(now);
      } else {
        assert before + NewProxies(known, readings, n) == now;
      }
    }
  }

  /** The keys of the lines that parse. */
  function KeysRead(readings: seq<Reading>): set<Key> {
    set i | 0 <= i < |readings| && readings[i].Record? :: readings[i].proxy.key
  }

  /**
   A bulk import: every line is created, invalid, already there, or blank or a comment; the store
   grows by the created ones; keys stay unique; the keys afterwards are those before and those of
   the lines that parse.
   */
  lemma BulkImport(number: NumberReader, before: seq<Proxy>, text: string, protocol: Protocol)
    ensures var report := Import(number, before, text, protocol);
            var readings := ReadAll(number, SplitLines(text), protocol);
            var n := |SplitLines(text)|;
            && n == report.created + report.invalid +
                    Count(Keys(before), readings, Known, n) + Count(Keys(before), readings, Skipped, n)
            && |report.proxies| == |before| + report.created
            && (UniqueKeys(before) ==> UniqueKeys(report.proxies))
            && Keys(report.proxies) == Keys(before) + KeysRead(readings)
  {
    var readings := ReadAll(number, SplitLines(text), protocol);
    CountsAddUp(Keys(before), readings, |readings|);
    NewCount(Keys(before), readings, |readings|);
    if UniqueKeys(before) { KeysStayUnique(before, readings, |readings|); }
    KeysInAll(before, readings);
  }

  lemma KeysInAll(before: seq<Proxy>, readings: seq<Reading>)
    ensures Keys(before + NewProxies(Keys(before), readings, |readings|)) == Keys(before) + KeysRead(readings)
  {
    KeysAfter(before, readings, |readings|);
  }

  lemma {:induction false} NewCount(known: set<Key>, readings: seq<Reading>, n: nat)
    requires n <= |readings|
    ensures |NewProxies(known, readings, n)| == Count(known, readings, New, n)
    decreases n
  {
    if n > 0 { NewCount(known, readings, n - 1); }
  }

  lemma {:induction false} NothingNew(known: set<Key>, more: set<Key>, readings: seq<Reading>, n: nat)
    requires n <= |readings| && KeysRead(readings) <= more
    ensures Count(more, readings, New, n) == 0 && NewProxies(more, readings, n) == []
    ensures Count(more, readings, Invalid, n) == Count(known, readings, Invalid, n)
    decreases n
  {
    if n > 0 {
      NothingNew(known, more, readings, n - 1);
      assert readings[n - 1].Record? ==> readings[n - 1].proxy.key in KeysRead(readings);
    }
  }

  /**
   Importing the same text again creates nothing, reports the same number of invalid lines and
   leaves the store as it is.
   */
  lemma ImportIsIdempotent(number: NumberReader, before: seq<Proxy>, text: string, protocol: Protocol)
    ensures var first := Import(number, before, text, protocol);
            Import(number, first.proxies, text, protocol) == Report(first.proxies, 0, first.invalid)
  {
    var first := Import(number, before, text, protocol);
    var readings := ReadAll(number, SplitLines(text), protocol);
    BulkImport(number, before, text, protocol);
    NothingNew(Keys(before), Keys(first.proxies), readings, |readings|);
  }
}
