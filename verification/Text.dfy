/**
 The string operations the chunker relies on, character by character: stripping, joining, and
 splitting at white space, sentence ends and line breaks. All of them preserve one thing, the
 characters that are not white space.
 */
module Text {
  import opened Collections

  predicate IsSpace(c: char) {
    var n := c as int;
    || 9 <= n <= 13 || 28 <= n <= 32 || n == 0x85 || n == 0xA0 || n == 0x1680
    || 0x2000 <= n <= 0x200A || n == 0x2028 || n == 0x2029 || n == 0x202F || n == 0x205F || n == 0x3000
  }

  predicate IsLineBreak(c: char) {
    var n := c as int;
    10 <= n <= 13 || 28 <= n <= 30 || n == 0x85 || n == 0x2028 || n == 0x2029
  }

  predicate EndsSentence(s: string) {
    s != "" && s[|s| - 1] in {'.', '!', '?'}
  }

  /** The characters that count as white space, and those that end a line. */
  const WHITE_SPACE :=
    "\t\n\U{B}\U{C}\r\U{1C}\U{1D}\U{1E}\U{1F} \U{85}\U{A0}\U{1680}\U{2000}\U{2001}\U{2002}\U{2003}\U{2004}" +
    "\U{2005}\U{2006}\U{2007}\U{2008}\U{2009}\U{200A}\U{2028}\U{2029}\U{202F}\U{205F}\U{3000}"
  const LINE_BREAKS := "\n\r\U{B}\U{C}\U{1C}\U{1D}\U{1E}\U{85}\U{2028}\U{2029}"

  lemma SpacesListed(c: char)
    ensures IsSpace(c) <==> c in WHITE_SPACE
    ensures IsLineBreak(c) <==> c in LINE_BREAKS
  {
  }

  /** The characters of `s` that are not white space. */
  function Ink(s: string): string {
    if s == "" then ""
    else if IsSpace(s[0]) then Ink(s[1..])
    else [s[0]] + Ink(s[1..])
  }

  predicate Blank(s: string) {
    Ink(s) == ""
  }

  function InkOfAll(parts: seq<string>): string {
    if parts == [] then "" else Ink(parts[0]) + InkOfAll(parts[1..])
  }

  lemma {:induction false} InkConcat(a: string, b: string)
    ensures Ink(a + b) == Ink(a) + Ink(b)
  {
    if a == "" {
      assert a + b == b;
    } else {
      assert (a + b)[0] == a[0] && (a + b)[1..] == a[1..] + b;
      InkConcat(a[1..], b);
      Assoc([a[0]], Ink(a[1..]), Ink(b));
    }
  }

  lemma {:induction false} InkOfAllConcat(a: seq<string>, b: seq<string>)
    ensures InkOfAll(a + b) == InkOfAll(a) + InkOfAll(b)
  {
    if a == [] {
      assert a + b == b;
    } else {
      assert (a + b)[1..] == a[1..] + b;
      assert (a + b)[0] == a[0];
      InkOfAllConcat(a[1..], b);
      Assoc(Ink(a[0]), InkOfAll(a[1..]), InkOfAll(b));
    }
  }

  lemma InkOfOne(part: string)
    ensures InkOfAll([part]) == Ink(part)
  {
    assert [part][1..] == [];
  }

  lemma InkSnoc(s: string, c: char)
    ensures Ink(s + [c]) == if IsSpace(c) then Ink(s) else Ink(s) + [c]
  {
    InkConcat(s, [c]);
  }

  // ------------------------------------------------------------------- strip

  function DropSpaces(s: string): (r: string)
    ensures |r| <= |s| && Ink(r) == Ink(s)
    ensures s != "" && IsSpace(s[0]) ==> |r| < |s|
    ensures r != "" ==> !IsSpace(r[0])
  {
    if s != "" && IsSpace(s[0]) then DropSpaces(s[1..]) else s
  }

  function DropTrailing(s: string): string {
    if s != "" && IsSpace(s[|s| - 1]) then DropTrailing(s[..|s| - 1]) else s
  }

  function Strip(s: string): string {
    DropTrailing(DropSpaces(s))
  }

  lemma {:induction false} InkDropTrailing(s: string)
    ensures Ink(DropTrailing(s)) == Ink(s) && |DropTrailing(s)| <= |s|
  {
    if s != "" && IsSpace(s[|s| - 1]) {
      InkSnoc(s[..|s| - 1], s[|s| - 1]);
      assert s == s[..|s| - 1] + [s[|s| - 1]];
      InkDropTrailing(s[..|s| - 1]);
    }
  }

  /** Stripping loses no ink, never lengthens, and leaves nothing exactly when all was blank. */
  lemma StripKeepsInk(s: string)
    ensures Ink(Strip(s)) == Ink(s) && |Strip(s)| <= |s|
    ensures Strip(s) == "" <==> Blank(s)
  {
    var t := DropSpaces(s);
    InkDropTrailing(t);
    if t == "" {
      assert Ink(s) == Ink(t) == "";
    } else {
      assert Ink(t)[0] == t[0];
    }
  }

  // -------------------------------------------------------------------- join

  function Join(parts: seq<string>, sep: string): string {
    if parts == [] then ""
    else if |parts| == 1 then parts[0]
    else parts[0] + sep + Join(parts[1..], sep)
  }

  function TotalLength(parts: seq<string>): nat {
    if parts == [] then 0 else |parts[0]| + TotalLength(parts[1..])
  }

  lemma {:induction false} JoinKeepsInk(parts: seq<string>, sep: string)
    requires Blank(sep)
    ensures Ink(Join(parts, sep)) == InkOfAll(parts)
  {
    if |parts| == 1 {
      assert parts[1..] == [];
    } else if |parts| > 1 {
      InkConcat(parts[0] + sep, Join(parts[1..], sep));
      InkConcat(parts[0], sep);
      JoinKeepsInk(parts[1..], sep);
    }
  }

  lemma {:induction false} JoinLength(parts: seq<string>, sep: string)
    requires parts != [] && |sep| == 1
    ensures |Join(parts, sep)| == TotalLength(parts) + |parts| - 1
  {
    if |parts| > 1 {
      JoinLength(parts[1..], sep);
    } else {
      assert parts[1..] == [];
    }
  }

  // ------------------------------------------------------------------- split

  /** `[w] if w else []`. */
  function NonEmpty(w: string): seq<string> {
    if w == "" then [] else [w]
  }

  /** `text.split()`: the runs without white space; `run` is the one being read. */
  function WordsFrom(s: string, run: string): seq<string> {
    if s == "" then NonEmpty(run)
    else if IsSpace(s[0]) then NonEmpty(run) + WordsFrom(s[1..], "")
    else WordsFrom(s[1..], run + [s[0]])
  }

  function Words(s: string): seq<string> {
    WordsFrom(s, "")
  }

  lemma {:induction false} WordsKeepInk(s: string, run: string)
    ensures InkOfAll(WordsFrom(s, run)) == Ink(run) + Ink(s)
  {
    if s != "" {
      if IsSpace(s[0]) {
        WordsKeepInk(s[1..], "");
        InkOfAllConcat(NonEmpty(run), WordsFrom(s[1..], ""));
      } else {
        WordsKeepInk(s[1..], run + [s[0]]);
        InkSnoc(run, s[0]);
      }
    }
  }

  /** `re.split(r"(?<=[.!?])\s+", text)`: `sentence` is the one being read. */
  function SentencesFrom(s: string, sentence: string): (r: seq<string>)
    ensures r != []
    decreases |s|
  {
    if s == "" then [sentence]
    else if IsSpace(s[0]) && EndsSentence(sentence) then [sentence] + SentencesFrom(DropSpaces(s), "")
    else SentencesFrom(s[1..], sentence + [s[0]])
  }

  function Sentences(s: string): (r: seq<string>)
    ensures r != []
  {
    SentencesFrom(s, "")
  }

  lemma {:induction false} SentencesKeepInk(s: string, sentence: string)
    ensures InkOfAll(SentencesFrom(s, sentence)) == Ink(sentence) + Ink(s)
    decreases |s|
  {
    if s == "" {
      InkOfOne(sentence);
    } else if IsSpace(s[0]) && EndsSentence(sentence) {
      SentencesKeepInk(DropSpaces(s), "");
      assert ([sentence] + SentencesFrom(DropSpaces(s), ""))[1..] == SentencesFrom(DropSpaces(s), "");
    } else {
      SentencesKeepInk(s[1..], sentence + [s[0]]);
      InkSnoc(sentence, s[0]);
    }
  }

  function NonBlank(row: string): seq<string> {
    if Blank(row) then [] else [row]
  }

  /** `[row for row in text.splitlines() if row.strip()]`: `row` is the one being read. */
  function RowsFrom(s: string, row: string): (r: seq<string>)
    ensures forall x <- r :: !Blank(x)
  {
    if s == "" then NonBlank(row)
    else if IsLineBreak(s[0]) then NonBlank(row) + RowsFrom(s[1..], "")
    else RowsFrom(s[1..], row + [s[0]])
  }

  function Rows(s: string): (r: seq<string>)
    ensures forall x <- r :: !Blank(x)
  {
    RowsFrom(s, "")
  }

  lemma InkHead(s: string, before: string)
    requires s != ""
    ensures !IsSpace(s[0]) ==> Ink(before + [s[0]]) + Ink(s[1..]) == Ink(before) + Ink(s)
    ensures IsSpace(s[0]) ==> Ink(s[1..]) == Ink(s)
  {
    InkSnoc(before, s[0]);
    Assoc(Ink(before), [s[0]], Ink(s[1..]));
  }

  /** The rows hold all the text, but for line breaks and blank lines. */
  lemma {:induction false} RowsKeepInk(s: string, row: string)
    ensures InkOfAll(RowsFrom(s, row)) == Ink(row) + Ink(s)
  {
    if s == "" {
      NonBlankInk(row);
    } else if IsLineBreak(s[0]) {
      LineBreakIsSpace(s[0]);
      InkHead(s, row);
      RowsKeepInk(s[1..], "");
      NonBlankInk(row);
      InkOfAllConcat(NonBlank(row), RowsFrom(s[1..], ""));
    } else {
      RowsKeepInk(s[1..], row + [s[0]]);
      NotBreaking(s, row);
    }
  }

  lemma NotBreaking(s: string, row: string)
    requires s != "" && !IsLineBreak(s[0])
    ensures Ink(row + [s[0]]) + Ink(s[1..]) == Ink(row) + Ink(s)
  {
    InkHead(s, row);
    InkSnoc(row, s[0]);
  }

  lemma NonBlankInk(row: string)
    ensures InkOfAll(NonBlank(row)) == Ink(row)
  {
    InkOfOne(row);
  }

  lemma LineBreakIsSpace(c: char)
    ensures IsLineBreak(c) ==> IsSpace(c)
  {
  }

  // ------------------------------------------------ text with nothing to strip

  function Letters(n: nat): (r: string)
    ensures |r| == n && forall c <- r :: c == 'a'
  {
    seq(n, i => 'a')
  }

  /** Neither end is white space. */
  predicate Trimmed(s: string) {
    s != "" && !IsSpace(s[0]) && !IsSpace(s[|s| - 1])
  }

  lemma {:induction false} JoinTrimmed(parts: seq<string>, sep: string)
    requires parts != [] && forall part <- parts :: Trimmed(part)
    ensures Trimmed(Join(parts, sep))
  {
    assert Trimmed(parts[0]);
    if |parts| > 1 {
      JoinTrimmed(parts[1..], sep);
    }
  }

  lemma TrimmedStaysWhole(s: string)
    requires Trimmed(s)
    ensures Strip(s) == s
  {
  }

  lemma LettersTrimmed(n: nat)
    requires n > 0
    ensures Trimmed(Letters(n))
  {
    assert Letters(n)[0] in Letters(n) && Letters(n)[n - 1] in Letters(n);
  }

  lemma LettersStrip(n: nat)
    ensures Strip(Letters(n)) == Letters(n)
  {
    if n > 0 {
      LettersTrimmed(n);
      TrimmedStaysWhole(Letters(n));
    }
  }

  lemma LettersNotBlank(n: nat)
    requires n > 0
    ensures !Blank(Letters(n))
  {
    LettersStrip(n);
    StripKeepsInk(Letters(n));
  }
}
