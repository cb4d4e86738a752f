/**
 What a header cell stands for (`header` of invitation-import.ts): the lower-case form of its trimmed
 text with every run of blanks replaced by one underscore, told by the words and gaps of the text.
 */
module InvitationHeaders {
  import opened Common
  import opened Text
  import opened InvitationImport

  /** Words without blanks, and a gap of blanks behind every word but the last. */
  predicate IsSpacing(words: seq<string>, gaps: seq<string>) {
    && (forall i :: 0 <= i < |words| ==> words[i] != "" && NoBlank(words[i]))
    && (forall i :: 0 <= i < |gaps| ==> gaps[i] != "" && AllBlank(gaps[i]))
    && |gaps| == if words == [] then 0 else |words| - 1
  }

  /** The text with these words and gaps. */
  function Spaced(words: seq<string>, gaps: seq<string>): string
    requires |gaps| == if words == [] then 0 else |words| - 1
  {
    if words == [] then ""
    else if |words| == 1 then words[0]
    else words[0] + gaps[0] + Spaced(words[1..], gaps[1..])
  }

  /** The words with one underscore between them. */
  function Underlined(words: seq<string>): string {
    if words == [] then ""
    else if |words| == 1 then words[0]
    else words[0] + "_" + Underlined(words[1..])
  }

  // ---------- The header of words ----------

  lemma {:induction false} OverWord(w: string, r: string, inRun: bool)
    requires w != "" && NoBlank(w)
    ensures Underscored(w + r, inRun) == w + Underscored(r, false)
    decreases |w|
  {
    assert (w + r)[1..] == w[1..] + r;
    if |w| > 1 {
      OverWord(w[1..], r, false);
      assert w + Underscored(r, false) == [w[0]] + (w[1..] + Underscored(r, false));
    } else {
      assert w[1..] + r == r && w == [w[0]];
    }
  }

  lemma {:induction false} OverGap(g: string, r: string)
    requires AllBlank(g)
    ensures Underscored(g + r, true) == Underscored(r, true)
    decreases |g|
  {
    if g == "" {
      assert g + r == r;
    } else {
      assert (g + r)[1..] == g[1..] + r;
      OverGap(g[1..], r);
      assert "" + Underscored(r, true) == Underscored(r, true);
    }
  }

  lemma GapBecomesUnderscore(g: string, r: string)
    requires g != "" && AllBlank(g) && r != "" && !IsBlank(r[0])
    ensures Underscored(g + r, false) == "_" + Underscored(r, false)
  {
    assert (g + r)[1..] == g[1..] + r;
    OverGap(g[1..], r);
  }

  lemma SpacedBegins(words: seq<string>, gaps: seq<string>)
    requires IsSpacing(words, gaps) && words != []
    ensures Spaced(words, gaps) != "" && !IsBlank(Spaced(words, gaps)[0])
  {
    assert Spaced(words, gaps)[0] == words[0][0];
  }

  lemma {:induction false} SpacedIsUnderlined(words: seq<string>, gaps: seq<string>)
    requires IsSpacing(words, gaps)
    ensures Underscored(Spaced(words, gaps), false) == Underlined(words)
    decreases |words|
  {
    if |words| == 1 {
      assert words[0] + "" == words[0];
      OverWord(words[0], "", false);
    } else if |words| > 1 {
      var rest := Spaced(words[1..], gaps[1..]);
      SpacedIsUnderlined(words[1..], gaps[1..]);
      SpacedBegins(words[1..], gaps[1..]);
      assert words[0] + gaps[0] + rest == words[0] + (gaps[0] + rest);
      OverWord(words[0], gaps[0] + rest, false);
      GapBecomesUnderscore(gaps[0], rest);
      assert words[0] + ("_" + Underlined(words[1..])) == words[0] + "_" + Underlined(words[1..]);
    }
  }

  /** Lower case and underscores do not disturb each other. */
  lemma {:induction false} UnderscoredLower(s: string, inRun: bool)
    ensures Underscored(Lower(s), inRun) == Lower(Underscored(s, inRun))
    decreases |s|
  {
    if s != "" {
      var tail := Underscored(s[1..], IsBlank(s[0]));
      UnderscoredLower(s[1..], IsBlank(s[0]));
      assert Lower(s)[1..] == Lower(s[1..]) && IsBlank(Lower(s)[0]) == IsBlank(s[0]);
      LowerConcat(if IsBlank(s[0]) then (if inRun then "" else "_") else [s[0]], tail);
      assert Lower("_") == "_" && Lower("") == "" && Lower([s[0]]) == [LowerChar(s[0])];
    }
  }

  lemma LowerConcat(a: string, b: string)
    ensures Lower(a + b) == Lower(a) + Lower(b)
  {
  }

  // ---------- Every text has its words ----------

  /** How many characters at the front are blank, or how many are not. */
  function Run(s: string, blank: bool): (n: nat)
    ensures n <= |s| && (forall i :: 0 <= i < n ==> IsBlank(s[i]) == blank)
    ensures n < |s| ==> IsBlank(s[n]) != blank
  {
    if s == "" || IsBlank(s[0]) != blank then 0 else 1 + Run(s[1..], blank)
  }

  lemma SpacedCons(word: string, gap: string, words: seq<string>, gaps: seq<string>)
    requires IsSpacing(words, gaps) && words != []
    requires word != "" && NoBlank(word) && gap != "" && AllBlank(gap)
    ensures IsSpacing([word] + words, [gap] + gaps)
    ensures Spaced([word] + words, [gap] + gaps) == word + gap + Spaced(words, gaps)
  {
    assert ([word] + words)[1..] == words && ([gap] + gaps)[1..] == gaps;
  }

  /** The first word of a text and the gap behind it, if it is not the only one. */
  lemma FirstWord(s: string) returns (word: string, gap: string, rest: string)
    requires Trimmed(s) && !NoBlank(s)
    ensures s == word + gap + rest && word != "" && NoBlank(word) && gap != "" && AllBlank(gap)
    ensures rest != "" && Trimmed(rest) && |rest| < |s|
  {
    var n := Run(s, false);
    var behind := s[n..];
    var g := Run(behind, true);
    word, gap, rest := s[..n], behind[..g], behind[g..];
    assert behind[|behind| - 1] == s[|s| - 1];
    assert rest[0] == behind[g] && rest[|rest| - 1] == s[|s| - 1];
  }

  lemma {:induction false} HasSpacing(s: string) returns (words: seq<string>, gaps: seq<string>)
    requires Trimmed(s)
    ensures IsSpacing(words, gaps) && Spaced(words, gaps) == s
    ensures s != "" ==> words != []
    decreases |s|
  {
    if s == "" {
      words, gaps := [], [];
    } else if NoBlank(s) {
      words, gaps := [s], [];
    } else {
      var word, gap, rest := FirstWord(s);
      var moreWords, moreGaps := HasSpacing(rest);
      SpacedCons(word, gap, moreWords, moreGaps);
      words, gaps := [word] + moreWords, [gap] + moreGaps;
    }
  }

  // ---------- Main results ----------

  /** The text consists of these words and gaps, and the name is the words in lower case with underscores between. */
  predicate NamedByWords(text: string, words: seq<string>, gaps: seq<string>, name: string) {
    IsSpacing(words, gaps) && Spaced(words, gaps) == text && name == Lower(Underlined(words))
  }

  /** `defval: ""` and cells that are not text stand for the empty text. */
  function TextOf(c: Cell): string {
    match c
    case Text(s) => Trim(s)
    case Number(s) => Trim(s)
    case Other => ""
  }

  lemma HeaderText(c: Cell)
    ensures Header(c) == Underscored(Lower(TextOf(c)), false) && Trimmed(TextOf(c))
  {
    match c
    case Text(s) => TrimIsTrimmed(s);
    case Number(s) => TrimIsTrimmed(s);
    case Other =>
  }

  lemma NamedIsHeader(c: Cell, words: seq<string>, gaps: seq<string>, name: string)
    requires NamedByWords(TextOf(c), words, gaps, name)
    ensures Header(c) == name
  {
    HeaderText(c);
    UnderscoredLower(TextOf(c), false);
    SpacedIsUnderlined(words, gaps);
  }

  /**
   A name is a cell's header if and only if it is the cell's trimmed text with its words in lower case
   and every gap between them one underscore.
   */
  lemma HeaderIs(c: Cell, name: string)
    ensures Header(c) == name <==> exists words, gaps :: NamedByWords(TextOf(c), words, gaps, name)
  {
    HeaderText(c);
    var words, gaps := HasSpacing(TextOf(c));
    assert NamedByWords(TextOf(c), words, gaps, Lower(Underlined(words)));
    NamedIsHeader(c, words, gaps, Lower(Underlined(words)));
    forall ws, gs | NamedByWords(TextOf(c), ws, gs, name) ensures Header(c) == name { NamedIsHeader(c, ws, gs, name); }
  }

  /** A header of one word is that word in lower case, whatever blanks are around it. */
  lemma OneWord(c: Cell)
    requires TextOf(c) != "" && NoBlank(TextOf(c))
    ensures Header(c) == Lower(TextOf(c))
  {
    var words, gaps: seq<string> := [TextOf(c)], [];
    assert NamedByWords(TextOf(c), words, gaps, Lower(TextOf(c)));
    NamedIsHeader(c, words, gaps, Lower(TextOf(c)));
  }

  lemma WordsWithUnderscore(words: seq<string>)
    requires |words| > 1
    ensures '_' in Lower(Underlined(words))
  {
    assert Underlined(words)[|words[0]|] == '_';
    assert Lower(Underlined(words))[|words[0]|] == LowerChar('_');
  }

  /** For a name without an underscore only a single word will do: the name itself, in any case. */
  lemma PlainHeader(c: Cell, name: string)
    requires name != "" && NoBlank(name) && '_' !in name
    ensures Header(c) == name <==> Lower(TextOf(c)) == name
  {
    if Lower(TextOf(c)) == name {
      forall i | 0 <= i < |TextOf(c)| ensures !IsBlank(TextOf(c)[i]) { assert Lower(TextOf(c))[i] == name[i]; }
      OneWord(c);
    }
    if Header(c) == name {
      HeaderIs(c, name);
      var words, gaps :| NamedByWords(TextOf(c), words, gaps, name);
      if |words| > 1 { WordsWithUnderscore(words); }
    }
  }

  /**
   The sheet is refused exactly if no cell of its first row is "username", in any case and with any
   blanks around it.
   */
  lemma RefusedWithoutUsername(matrix: seq<Cells>)
    ensures Parse(matrix) == None <==>
            matrix == [] || forall i :: 0 <= i < |matrix[0]| ==> Lower(TextOf(matrix[0][i])) != "username"
  {
    var name := "username";
    if matrix != [] {
      var headers := Headers(matrix[0]);
      forall i | 0 <= i < |matrix[0]| ensures headers[i] == name <==> Lower(TextOf(matrix[0][i])) == name {
        PlainHeader(matrix[0][i], name);
      }
      assert Parse(matrix) == None <==> name !in headers;
    }
  }

  lemma {:induction false} LowerUpper(s: string)
    requires Lower(s) == s
    ensures Lower(Upper(s)) == s
  {
    forall i | 0 <= i < |s| ensures Lower(Upper(s))[i] == s[i] { assert Lower(s)[i] == s[i]; }
  }

  /** So the columns may be headed in capitals. */
  lemma ColumnsInCapitals(k: nat, name: string)
    requires k < |COLUMNS| && name == COLUMNS[k]
    ensures Header(Cell.Text(Upper(name))) == name
  {
    ColumnText(k, name);
    LowerUpper(name);
    forall i | 0 <= i < |name| ensures !IsBlank(Upper(name)[i]) { assert !IsBlank(name[i]); }
    TrimmedIsFixed(Upper(name));
    OneWord(Cell.Text(Upper(name)));
  }

  predicate PlainLetters(s: string) { forall i :: 0 <= i < |s| ==> 'a' <= s[i] <= 'z' || s[i] == '_' }

  lemma PlainText(name: string)
    requires name != "" && PlainLetters(name)
    ensures name != "" && NoBlank(name) && Lower(name) == name
  {
    forall i | 0 <= i < |name| ensures Lower(name)[i] == name[i] {}
  }

  lemma ColumnText(k: nat, name: string)
    requires k < |COLUMNS| && name == COLUMNS[k]
    ensures name != "" && NoBlank(name) && Lower(name) == name
  {
    if k == 0 { PlainText("username"); }
    else if k == 1 { PlainText("telegram_id"); }
    else if k == 2 { PlainText("access_hash"); }
    else if k == 3 { PlainText("first_name"); }
    else if k == 4 { PlainText("last_name"); }
    else if k == 5 { PlainText("note"); }
    else if k == 6 { PlainText("tag"); }
    else { PlainText("source"); }
  }
}
