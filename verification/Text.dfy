/** String operations of the program's language, on ASCII text. */
module Text {
  /** Characters that `trim` and `\s` treat as blank. */
  predicate IsBlank(c: char) { c == ' ' || '\t' <= c <= '\r' }

  lemma BlanksAre(c: char)
    ensures IsBlank(c) <==> c as int in {9, 10, 11, 12, 13, 32}
  {
  }

  predicate AllBlank(s: string) { forall i :: 0 <= i < |s| ==> IsBlank(s[i]) }

  predicate NoBlank(s: string) { forall i :: 0 <= i < |s| ==> !IsBlank(s[i]) }

  function TrimLeft(s: string): string {
    if s != "" && IsBlank(s[0]) then TrimLeft(s[1..]) else s
  }

  function TrimRight(s: string): string {
    if s != "" && IsBlank(s[|s| - 1]) then TrimRight(s[..|s| - 1]) else s
  }

  function Trim(s: string): string { TrimRight(TrimLeft(s)) }

  /** Neither end is blank. */
  predicate Trimmed(s: string) { s == "" || (!IsBlank(s[0]) && !IsBlank(s[|s| - 1])) }

  lemma {:induction false} TrimRightShape(s: string)
    ensures TrimRight(s) == "" || !IsBlank(TrimRight(s)[|TrimRight(s)| - 1])
    ensures |TrimRight(s)| <= |s| && TrimRight(s) == s[..|TrimRight(s)|]
    ensures s != "" && !IsBlank(s[0]) ==> TrimRight(s) != ""
    decreases |s|
  {
    if s != "" && IsBlank(s[|s| - 1]) { TrimRightShape(s[..|s| - 1]); }
  }

  lemma {:induction false} TrimLeftShape(s: string)
    ensures TrimLeft(s) == "" || !IsBlank(TrimLeft(s)[0])
    ensures |TrimLeft(s)| <= |s| && TrimLeft(s) == s[|s| - |TrimLeft(s)|..]
    decreases |s|
  {
    if s != "" && IsBlank(s[0]) { TrimLeftShape(s[1..]); }
  }

  /** Trimming leaves no blank end, keeps a piece of the text, and changes nothing the second time. */
  lemma TrimIsTrimmed(s: string)
    ensures Trimmed(Trim(s))
    ensures forall c :: c in Trim(s) ==> c in s
    ensures Trim(Trim(s)) == Trim(s)
  {
    TrimLeftShape(s);
    TrimRightShape(TrimLeft(s));
    TrimmedIsFixed(Trim(s));
  }

  lemma TrimmedIsFixed(s: string)
    requires Trimmed(s)
    ensures Trim(s) == s
  {
  }

  /** `t` stands in `s` at position `i`, with nothing but blanks around it. */
  predicate Surrounded(s: string, i: nat, t: string) {
    i + |t| <= |s| && s[i..i + |t|] == t && AllBlank(s[..i]) && AllBlank(s[i + |t|..])
  }

  lemma {:induction false} TrimLeftAt(s: string, i: nat)
    requires i <= |s| && AllBlank(s[..i]) && (i == |s| || !IsBlank(s[i]))
    ensures TrimLeft(s) == s[i..]
    decreases |s|
  {
    if i > 0 {
      assert IsBlank(s[..i][0]) && s[1..][..i - 1] == s[..i][1..];
      TrimLeftAt(s[1..], i - 1);
    }
  }

  lemma {:induction false} TrimRightAt(s: string, n: nat)
    requires n <= |s| && AllBlank(s[n..]) && (n == 0 || !IsBlank(s[n - 1]))
    ensures TrimRight(s) == s[..n]
    decreases |s|
  {
    if n < |s| {
      assert IsBlank(s[n..][|s| - n - 1]) && s[..|s| - 1][n..] == s[n..][..|s| - n - 1];
      TrimRightAt(s[..|s| - 1], n);
    }
  }

  lemma BlankEnds(s: string) returns (i: nat, n: nat)
    ensures i <= n <= |s| && AllBlank(s[..i]) && AllBlank(s[n..]) && Trimmed(s[i..n])
  {
    i, n := 0, |s|;
    while i < n && IsBlank(s[i])
      invariant i <= n <= |s| && AllBlank(s[..i])
    {
      i := i + 1;
    }
    while i < n && IsBlank(s[n - 1])
      invariant i <= n <= |s| && AllBlank(s[n..])
      invariant i < n ==> !IsBlank(s[i])
    {
      n := n - 1;
    }
  }

  lemma SurroundedIsTrim(s: string, i: nat, t: string)
    requires Trimmed(t) && Surrounded(s, i, t)
    ensures Trim(s) == t
  {
    if t == "" {
      forall k | 0 <= k < |s| ensures IsBlank(s[k]) { assert s[k] == if k < i then s[..i][k] else s[i..][k - i]; }
      TrimLeftAt(s, |s|);
    } else {
      assert s[i] == t[0];
      TrimLeftAt(s, i);
      assert s[i..][|t|..] == s[i + |t|..] && s[i..][..|t|] == t;
      TrimRightAt(s[i..], |t|);
    }
  }

  /** The one piece of a text that has no blank ends and nothing but blanks around it. */
  lemma TrimIs(s: string, t: string)
    ensures Trim(s) == t <==> Trimmed(t) && exists i :: Surrounded(s, i, t)
  {
    var i, n := BlankEnds(s);
    assert Surrounded(s, i, s[i..n]);
    SurroundedIsTrim(s, i, s[i..n]);
    forall k: nat | Trimmed(t) && Surrounded(s, k, t) ensures Trim(s) == t { SurroundedIsTrim(s, k, t); }
  }

  function UpperChar(c: char): char { if 'a' <= c <= 'z' then c - 'a' + 'A' else c }
  function LowerChar(c: char): char { if 'A' <= c <= 'Z' then c - 'A' + 'a' else c }

  /** Each changes the letters of the other case, to each other's, and nothing else. */
  lemma CasesOfChar(c: char)
    ensures 'A' <= c <= 'Z' <==> LowerChar(c) != c
    ensures 'a' <= c <= 'z' <==> UpperChar(c) != c
    ensures 'A' <= c <= 'Z' ==> LowerChar(c) as int == c as int + 32
    ensures 'a' <= c <= 'z' ==> UpperChar(c) as int == c as int - 32
  {
  }

  function Upper(s: string): (r: string)
    ensures |r| == |s| && forall i :: 0 <= i < |s| ==> r[i] == UpperChar(s[i])
  {
    seq(|s|, i requires 0 <= i < |s| => UpperChar(s[i]))
  }

  function Lower(s: string): (r: string)
    ensures |r| == |s| && forall i :: 0 <= i < |s| ==> r[i] == LowerChar(s[i])
  {
    seq(|s|, i requires 0 <= i < |s| => LowerChar(s[i]))
  }

  predicate PartAt(s: string, i: int, part: string) {
    0 <= i <= |s| - |part| && s[i..i + |part|] == part
  }

  /** `includes` */
  predicate Contains(s: string, part: string) { exists i | 0 <= i <= |s| :: PartAt(s, i, part) }
}
