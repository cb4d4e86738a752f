/**
 What a bulk import does with a text, in the text's own terms: which lines it has, which of them are
 counted, and which records they leave in the store.
 */
module ProxyImport {
  import opened Common
  import opened Text
  import opened ProxyManager

  // ---------- Lines ----------

  /** The lines joined by line ends; `feeds[i]` says whether a carriage return stands before the i-th. */
  function Joined(lines: seq<string>, feeds: seq<bool>): string
    requires |lines| == |feeds| + 1
  {
    if |lines| == 1 then lines[0]
    else lines[0] + LineEnd(feeds[0]) + Joined(lines[1..], feeds[1..])
  }

  /** What may stand before a line end: no line feed, and no carriage return that would belong to the line end. */
  predicate IsLine(line: string, cr: bool) { '\n' !in line && (!cr && line != "" ==> line[|line| - 1] != '\r') }

  predicate AreLines(lines: seq<string>, feeds: seq<bool>) {
    && |lines| == |feeds| + 1
    && (forall i :: 0 <= i < |feeds| ==> IsLine(lines[i], feeds[i]))
    && '\n' !in lines[|lines| - 1]
  }

  function LineEnd(cr: bool): string { if cr then "\r\n" else "\n" }

  /** What stands before the line feed at `n`, without the carriage return that belongs to it. */
  function LineAt(text: string, n: nat): string
    requires n < |text|
  {
    if n > 0 && text[n - 1] == '\r' then text[..n - 1] else text[..n]
  }

  lemma SplitAtFeed(text: string, n: nat)
    requires FirstIndex(text, '\n') == Some(n)
    ensures SplitLines(text) == [LineAt(text, n)] + SplitLines(text[n + 1..])
  {
  }

  lemma FeedAt(front: string, rest: string)
    requires '\n' !in front
    ensures var text := front + "\n" + rest;
            && FirstIndex(text, '\n') == Some(|front|)
            && text[..|front|] == front && text[|front| + 1..] == rest
  {
    FirstBehind(front, "\n" + rest, '\n');
    Join(front, "\n", rest);
    CutAt(front, "\n", rest);
  }

  lemma LineOfFront(text: string, front: string, line: string, cr: bool)
    requires |front| < |text| && text[..|front|] == front && IsLine(line, cr)
    requires front == if cr then line + "\r" else line
    ensures LineAt(text, |front|) == line
  {
    assert front != "" ==> text[|front| - 1] == front[|front| - 1];
    if cr { assert text[..|front| - 1] == front[..|front| - 1] == line; }
  }

  lemma EndText(line: string, cr: bool, rest: string)
    ensures line + LineEnd(cr) + rest == (if cr then line + "\r" else line) + "\n" + rest
  {
  }

  /** A line and its end, cut off the text. */
  lemma CutLine(line: string, cr: bool, rest: string)
    requires IsLine(line, cr)
    ensures SplitLines(line + LineEnd(cr) + rest) == [line] + SplitLines(rest)
  {
    var front := if cr then line + "\r" else line;
    var text := front + "\n" + rest;
    EndText(line, cr, rest);
    FeedAt(front, rest);
    LineOfFront(text, front, line, cr);
    SplitAtFeed(text, |front|);
  }

  lemma OnlyLine(line: string)
    requires '\n' !in line
    ensures SplitLines(line) == [line]
  {
  }

  /** Joining lines and splitting the text gives the lines back. */
  lemma {:induction false} SplitJoined(lines: seq<string>, feeds: seq<bool>)
    requires AreLines(lines, feeds)
    ensures SplitLines(Joined(lines, feeds)) == lines
    decreases |lines|
  {
    if |lines| > 1 {
      var rest := Joined(lines[1..], feeds[1..]);
      SplitJoined(lines[1..], feeds[1..]);
      CutLine(lines[0], feeds[0], rest);
      assert [lines[0]] + lines[1..] == lines;
    } else {
      OnlyLine(lines[0]);
    }
  }

  lemma OneLineEnd(text: string, n: nat) returns (line: string, cr: bool)
    requires FirstIndex(text, '\n') == Some(n)
    ensures line == LineAt(text, n) && IsLine(line, cr) && text == line + LineEnd(cr) + text[n + 1..]
  {
    line, cr := LineAt(text, n), n > 0 && text[n - 1] == '\r';
    Around(text, n, '\n');
    if cr { assert text[..n] == line + "\r"; }
    EndText(line, cr, text[n + 1..]);
  }

  lemma LinesBefore(line: string, cr: bool, lines: seq<string>, feeds: seq<bool>)
    requires AreLines(lines, feeds) && IsLine(line, cr)
    ensures AreLines([line] + lines, [cr] + feeds)
    ensures Joined([line] + lines, [cr] + feeds) == line + LineEnd(cr) + Joined(lines, feeds)
  {
    assert ([line] + lines)[1..] == lines && ([cr] + feeds)[1..] == feeds;
  }

  /** Every text is its lines joined by line ends. */
  lemma {:induction false} JoinedSplit(text: string) returns (feeds: seq<bool>)
    ensures AreLines(SplitLines(text), feeds) && Joined(SplitLines(text), feeds) == text
    decreases |text|
  {
    match FirstIndex(text, '\n')
    case None =>
      feeds := [];
    case Some(n) =>
      var line, cr := OneLineEnd(text, n);
      var rest := text[n + 1..];
      SplitAtFeed(text, n);
      var more := JoinedSplit(rest);
      LinesBefore(line, cr, SplitLines(rest), more);
      feeds := [cr] + more;
  }

  /** These are a text's lines exactly if the text is they, joined by line ends. */
  lemma LinesAre(text: string, lines: seq<string>)
    ensures SplitLines(text) == lines <==> exists feeds :: AreLines(lines, feeds) && Joined(lines, feeds) == text
  {
    var own := JoinedSplit(text);
    forall feeds | AreLines(lines, feeds) && Joined(lines, feeds) == text ensures SplitLines(text) == lines {
      SplitJoined(lines, feeds);
    }
  }

  // ---------- Counts and records ----------

  predicate IsBad(number: NumberReader, line: string) {
    ParseProxyLine(number, line) == None && Trim(line) != "" && Trim(line)[0] != '#'
  }

  /** The lines that are neither blank, nor a comment, nor a proxy. */
  function BadLines(number: NumberReader, lines: seq<string>): set<nat> { set i: nat | i < |lines| &&
      IsBad(number, lines[i]) }

  function Unreadables(readings: seq<Reading>, n: nat): set<nat> { set i: nat | i < n && i < |readings| &&
      readings[i].Unreadable? }

  lemma {:induction false} InvalidIsUnreadable(known: set<Key>, readings: seq<Reading>, n: nat)
    requires n <= |readings|
    ensures Count(known, readings, Invalid, n) == |Unreadables(readings, n)|
    decreases n
  {
    if n == 0 {
      assert Unreadables(readings, 0) == {};
    } else {
      InvalidIsUnreadable(known, readings, n - 1);
      assert Unreadables(readings, n) ==
             Unreadables(readings, n - 1) + (if readings[n - 1].Unreadable? then {n - 1} else {});
    }
  }

  lemma ReadingIsBad(number: NumberReader, line: string, protocol: Protocol)
    ensures Read(number, line, protocol).Unreadable? <==> IsBad(number, line)
  {
  }

  lemma BadIsUnreadable(number: NumberReader, lines: seq<string>, protocol: Protocol)
    ensures Unreadables(ReadAll(number, lines, protocol), |lines|) == BadLines(number, lines)
  {
    forall i: nat | i < |lines| ensures ReadAll(number, lines, protocol)[i].Unreadable? <==> IsBad(number, lines[i]) {
      ReadingIsBad(number, lines[i], protocol);
    }
  }

  /** Reading `i` is a record with a key that is neither in the store nor in an earlier reading. */
  ghost predicate FirstRecord(before: seq<Proxy>, readings: seq<Reading>, i: nat, proxy: Proxy)
    requires i < |readings|
  {
    && readings[i] == Record(proxy)
    && (forall p :: p in before ==> p.key != proxy.key)
    && (forall j :: 0 <= j < i && readings[j].Record? ==> readings[j].proxy.key != proxy.key)
  }

  lemma NewIsFirst(before: seq<Proxy>, readings: seq<Reading>, i: nat)
    requires i < |readings| && Judge(Keys(before), readings, i) == New
    ensures FirstRecord(before, readings, i, readings[i].proxy)
  {
    forall p | p in before ensures p.key != readings[i].proxy.key {
      var k :| 0 <= k < |before| && before[k] == p;
      assert before[k].key in Keys(before);
    }
  }

  lemma {:induction false} NewComeFrom(before: seq<Proxy>, readings: seq<Reading>, n: nat, k: nat) returns (i: nat)
    requires n <= |readings| && k < |NewProxies(Keys(before), readings, n)|
    ensures i < n && FirstRecord(before, readings, i, NewProxies(Keys(before), readings, n)[k])
    decreases n
  {
    if k < |NewProxies(Keys(before), readings, n - 1)| {
      i := NewComeFrom(before, readings, n - 1, k);
    } else {
      i := n - 1;
      NewIsFirst(before, readings, i);
    }
  }

  /** The record comes from this line: its parts are the line's, in their places, with the protocol asked for. */
  predicate ComesFrom(number: NumberReader, proxy: Proxy, line: string, protocol: Protocol) {
    && ParseProxyLine(number, line) == Some(Parsed(proxy.key.host, proxy.key.port, proxy.username, proxy.password))
    && proxy.key.protocol == protocol
  }

  lemma ReadingComesFrom(number: NumberReader, line: string, protocol: Protocol, proxy: Proxy)
    ensures Read(number, line, protocol) == Record(proxy) <==> ComesFrom(number, proxy, line, protocol)
  {
  }

  /** This is the first line with the record's key, and there was no record with it before. */
  ghost predicate FirstOfKey(number: NumberReader, before: seq<Proxy>, lines: seq<string>, protocol: Protocol,
      i: nat, proxy: Proxy) {
    && i < |lines| && ComesFrom(number, proxy, lines[i], protocol)
    && (forall p :: p in before ==> p.key != proxy.key)
    && (forall j, other :: 0 <= j < i && ComesFrom(number, other, lines[j], protocol) ==> other.key != proxy.key)
  }

  lemma FirstIsFirst(number: NumberReader, before: seq<Proxy>, lines: seq<string>, protocol: Protocol, i: nat,
      proxy: Proxy)
    requires i < |lines| && FirstRecord(before, ReadAll(number, lines, protocol), i, proxy)
    ensures FirstOfKey(number, before, lines, protocol, i, proxy)
  {
    ReadingComesFrom(number, lines[i], protocol, proxy);
    forall j, other | 0 <= j < i && ComesFrom(number, other, lines[j], protocol) ensures other.key != proxy.key {
      ReadingComesFrom(number, lines[j], protocol, other);
    }
  }

  ghost predicate FromSomeLine(number: NumberReader, before: seq<Proxy>, lines: seq<string>, protocol: Protocol,
      proxy: Proxy) {
    exists i :: FirstOfKey(number, before, lines, protocol, i, proxy)
  }

  lemma AddedRecord(number: NumberReader, before: seq<Proxy>, lines: seq<string>, protocol: Protocol, k: nat)
    requires k < |NewProxies(Keys(before), ReadAll(number, lines, protocol), |lines|)|
    ensures FromSomeLine(number, before, lines, protocol,
            NewProxies(Keys(before), ReadAll(number, lines, protocol), |lines|)[k])
  {
    var readings := ReadAll(number, lines, protocol);
    var i := NewComeFrom(before, readings, |lines|, k);
    FirstIsFirst(number, before, lines, protocol, i, NewProxies(Keys(before), readings, |lines|)[k]);
  }

  lemma Behind<T>(xs: seq<T>, ys: seq<T>)
    ensures xs <= xs + ys && (xs + ys)[|xs|..] == ys
  {
  }

  lemma AddedAll(number: NumberReader, before: seq<Proxy>, lines: seq<string>, protocol: Protocol, added: seq<Proxy>)
    requires added == NewProxies(Keys(before), ReadAll(number, lines, protocol), |lines|)
    ensures forall k :: 0 <= k < |added| ==> FromSomeLine(number, before, lines, protocol, added[k])
  {
    forall k | 0 <= k < |added| ensures FromSomeLine(number, before, lines, protocol, added[k]) {
      AddedRecord(number, before, lines, protocol, k);
    }
  }

  lemma InvalidIsBad(number: NumberReader, before: seq<Proxy>, lines: seq<string>, protocol: Protocol)
    ensures Count(Keys(before), ReadAll(number, lines, protocol), Invalid, |lines|) == |BadLines(number, lines)|
  {
    InvalidIsUnreadable(Keys(before), ReadAll(number, lines, protocol), |lines|);
    BadIsUnreadable(number, lines, protocol);
  }

  /**
   What an import adds: behind the records there were, each added one comes from the first line with its
   key, with that line's host, port, user name and password; and `invalid` counts the lines that are
   neither blank, nor a comment, nor a proxy.
   */
  lemma AddedRecords(number: NumberReader, before: seq<Proxy>, text: string, protocol: Protocol)
    ensures var report := Import(number, before, text, protocol); var lines := SplitLines(text);
            && before <= report.proxies
            && (var added := report.proxies[|before|..];
                forall k :: 0 <= k < |added| ==> FromSomeLine(number, before, lines, protocol, added[k]))
            && report.invalid == |BadLines(number, lines)|
  {
    var lines := SplitLines(text);
    var added := NewProxies(Keys(before), ReadAll(number, lines, protocol), |lines|);
    Behind(before, added);
    AddedAll(number, before, lines, protocol, added);
    InvalidIsBad(number, before, lines, protocol);
  }

  // ---------- Characters of a host ----------

  lemma HostCharIs(c: char)
    ensures HostChar(c) <==>
            c in "ABCDEFGHIJKLMNOPQRSTUVWXYZ" || c in "abcdefghijklmnopqrstuvwxyz" || c in "0123456789._:-"
  {
  }

  // ---------- Numbers ----------

  function ValueOf(digits: string): int
    requires forall i :: 0 <= i < |digits| ==> '0' <= digits[i] <= '9'
  {
    if digits == "" then 0 else 10 * ValueOf(digits[..|digits| - 1]) + (digits[|digits| - 1] as int - '0' as int)
  }

  /** A decimal print has the value it prints, without a leading zero. */
  lemma {:induction false} DecimalValue(n: nat)
    ensures ValueOf(Decimal(n)) == n && (n > 0 ==> Decimal(n)[0] != '0')
    decreases n
  {
    if n < 10 {
      assert [DigitChar(n)][..0] == "";
    } else {
      DecimalValue(n / 10);
      assert (Decimal(n / 10) + [DigitChar(n % 10)])[..|Decimal(n / 10)|] == Decimal(n / 10);
    }
  }

  /** Reading digits by their value is one way to read ports. */
  function ByValue(): NumberReader {
    (s: string) => if forall i :: 0 <= i < |s| ==> '0' <= s[i] <= '9' then Some(ValueOf(s)) else None
  }

  lemma ByValueReadsPorts()
    ensures ReadsPorts(ByValue())
  {
    forall n: nat | 1 <= n <= 65535 ensures ByValue()(Decimal(n)) == Some(n) { DecimalValue(n); }
  }
}
