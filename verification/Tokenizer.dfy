/** Splitting a command line into words. */
module Tokenizer {
  import opened StringArrays

  const INITIAL_TOKENS_CAPACITY := 4

  /** `isspace` in the C locale: blank, tab, newline, vertical tab, form feed, carriage return. */
  predicate IsSpace(c: char) {
    c == ' ' || '\t' <= c <= '\r'
  }

  predicate NoSpace(line: string, i: int, j: int)
    requires 0 <= i && j <= |line|
  {
    forall k | i <= k < j :: !IsSpace(line[k])
  }

  /** A nonempty text without whitespace. */
  predicate IsWord(w: string) {
    w != "" && NoSpace(w, 0, |w|)
  }

  // ---------- What tokenizing means ----------

  /** `line[i..j]` is a whole word: nothing but non-whitespace, with whitespace or an end on both sides. */
  predicate WordAt(line: string, i: int, j: int) {
    && 0 <= i < j <= |line|
    && NoSpace(line, i, j)
    && (i == 0 || IsSpace(line[i - 1]))
    && (j == |line| || IsSpace(line[j]))
  }

  /** How far the text before `pos` reaches back without whitespace. */
  function Unfinished(line: string, pos: nat): (n: nat)
    requires pos <= |line|
    ensures n <= pos && NoSpace(line, pos - n, pos)
    ensures n < pos ==> IsSpace(line[pos - n - 1])
  {
    if pos == 0 || IsSpace(line[pos - 1]) then 0 else 1 + Unfinished(line, pos - 1)
  }

  /** The character at `pos` is the whitespace right after a word. */
  predicate EndsWord(line: string, pos: nat)
    requires pos < |line|
  {
    IsSpace(line[pos]) && Unfinished(line, pos) > 0
  }

  /** The words before `pos` that whitespace has ended, as positions. */
  function Spans(line: string, pos: nat): seq<(int, int)>
    requires pos <= |line|
  {
    if pos == 0 then []
    else if EndsWord(line, pos - 1) then
      Spans(line, pos - 1) + [(pos - 1 - Unfinished(line, pos - 1), pos - 1)]
    else Spans(line, pos - 1)
  }

  /** The same words as texts. */
  function WordsBefore(line: string, pos: nat): seq<string>
    requires pos <= |line|
  {
    if pos == 0 then []
    else if EndsWord(line, pos - 1) then
      WordsBefore(line, pos - 1) + [line[pos - 1 - Unfinished(line, pos - 1)..pos - 1]]
    else WordsBefore(line, pos - 1)
  }

  function Words(line: string): seq<string> {
    WordsBefore(line, |line|)
  }

  lemma {:induction false} SpansBeforeUnfinished(line: string, pos: nat)
    requires pos <= |line|
    ensures forall s | s in Spans(line, pos) :: s.1 < pos - Unfinished(line, pos)
  {
    if pos > 0 {
      SpansBeforeUnfinished(line, pos - 1);
    }
  }

  lemma {:induction false} SpansAreApart(line: string, pos: nat)
    requires pos <= |line|
    ensures forall a, b | 0 <= a < b < |Spans(line, pos)| :: Spans(line, pos)[a].1 < Spans(line, pos)[b].0
    decreases pos
  {
    if pos > 0 {
      SpansAreApart(line, pos - 1);
      SpansBeforeUnfinished(line, pos - 1);
      var before := Spans(line, pos - 1);
      assert forall a | 0 <= a < |before| :: before[a] in before;
    }
  }

  lemma {:induction false} SpansAreWhole(line: string, pos: nat)
    requires pos <= |line|
    ensures forall s | s in Spans(line, pos) :: WordAt(line, s.0, s.1) && s.1 < pos
    decreases pos
  {
    if pos > 0 {
      SpansAreWhole(line, pos - 1);
      if EndsWord(line, pos - 1) {
        assert WordAt(line, pos - 1 - Unfinished(line, pos - 1), pos - 1);
      }
    }
  }

  /** The spans are whole words ended by whitespace, in order and apart. */
  lemma SpansAreWords(line: string, pos: nat)
    requires pos <= |line|
    ensures forall s | s in Spans(line, pos) :: WordAt(line, s.0, s.1) && s.1 < pos
    ensures forall a, b | 0 <= a < b < |Spans(line, pos)| :: Spans(line, pos)[a].1 < Spans(line, pos)[b].0
  {
    SpansAreWhole(line, pos);
    SpansAreApart(line, pos);
  }

  /** Every whole word that whitespace before `pos` has ended is among the spans. */
  lemma {:induction false} WordsAreSpanned(line: string, pos: nat, i: int, j: int)
    requires pos <= |line| && WordAt(line, i, j) && j < pos
    ensures (i, j) in Spans(line, pos)
  {
    if j < pos - 1 {
      WordsAreSpanned(line, pos - 1, i, j);
    } else {
      assert Unfinished(line, j) == j - i;
    }
  }

  /** The words are the texts at the spans. */
  lemma {:induction false} WordsAtSpans(line: string, pos: nat)
    requires pos <= |line|
    ensures |WordsBefore(line, pos)| == |Spans(line, pos)|
    ensures forall k | 0 <= k < |Spans(line, pos)| ::
              var (i, j) := Spans(line, pos)[k];
              0 <= i <= j <= pos && WordsBefore(line, pos)[k] == line[i..j]
  {
    if pos > 0 {
      WordsAtSpans(line, pos - 1);
    }
  }

  /**
   * The documentation promises all whitespace-separated words. That holds exactly for lines that are
   * empty or end in whitespace: a word with nothing after it is dropped.
   */
  lemma {:induction false} AllWordsFound(line: string)
    ensures (forall i, j | WordAt(line, i, j) :: (i, j) in Spans(line, |line|))
            <==> line == "" || IsSpace(line[|line| - 1])
  {
    if line == "" || IsSpace(line[|line| - 1]) {
      forall i, j | WordAt(line, i, j) ensures (i, j) in Spans(line, |line|) {
        WordsAreSpanned(line, |line|, i, j);
      }
    } else {
      SpansAreWords(line, |line|);
      assert WordAt(line, |line| - Unfinished(line, |line|), |line|);
    }
  }

  /** A last line without a newline, as `getline` gives it at the end of the input: the word is dropped. */
  lemma LastWordCanBeDropped()
    ensures WordAt("quit", 0, 4) && Words("quit") == []
  {
  }

  // ---------- The loop ----------

  /** What one more character does. */
  lemma {:induction false} OneMore(line: string, pos: nat)
    requires pos < |line|
    ensures Unfinished(line, pos + 1) == if IsSpace(line[pos]) then 0 else Unfinished(line, pos) + 1
    ensures if EndsWord(line, pos)
            then WordsBefore(line, pos + 1) == WordsBefore(line, pos) + [line[pos - Unfinished(line, pos)..pos]]
            else WordsBefore(line, pos + 1) == WordsBefore(line, pos)
  {
  }

  /** Appends a copy of `line[start..end]`. */
  method AddToken(tokens: StringArray, line: string, start: nat, end: nat)
    requires tokens.Valid() && start <= end <= |line| && NUL !in line
    modifies tokens, tokens.strings
    ensures tokens.Valid() && (tokens.strings == old(tokens.strings) || fresh(tokens.strings))
    ensures tokens.contents == old(tokens.contents) + [line[start..end]]
    ensures old(tokens.OnlyAppended()) ==> tokens.OnlyAppended()
  {
    assert line[start..][..end - start] == line[start..end];
    CStringEnds(line[start..], end - start, end - start);
    tokens.AddString(line[start..], end - start);
  }

  /** `tokenize_line`. The argument is the text before the terminating NUL. */
  method TokenizeLine(line: string) returns (tokens: StringArray)
    requires NUL !in line
    ensures fresh(tokens) && fresh(tokens.strings) && tokens.Valid()
    ensures tokens.contents == Words(line)
    ensures tokens.size == |Words(line)| && tokens.size < tokens.strings.Length
    ensures forall i | 0 <= i < tokens.size :: tokens.strings[i] == Text(Words(line)[i])
    ensures tokens.strings[tokens.size] == Null
    ensures tokens.capacity == CapacityAfter(4, tokens.size)
    ensures tokens.size > 0 ==> tokens.copied < 2 * tokens.size
  {
    tokens := new StringArray(INITIAL_TOKENS_CAPACITY);
    var tokenStart, tokenSize := 0, 0;
    for pos := 0 to |line|
      invariant fresh(tokens) && fresh(tokens.strings) && tokens.Valid() && tokens.OnlyAppended()
      invariant tokenSize == Unfinished(line, pos)
      invariant tokenSize > 0 ==> tokenStart == pos - tokenSize
      invariant tokens.contents == WordsBefore(line, pos)
    {
      OneMore(line, pos);
      assert EndsWord(line, pos) <==> IsSpace(line[pos]) && tokenSize != 0;
      if IsSpace(line[pos]) {
        if tokenSize != 0 {
          assert line[tokenStart..tokenStart + tokenSize] == line[pos - Unfinished(line, pos)..pos];
          AddToken(tokens, line, tokenStart, tokenStart + tokenSize);
          tokenSize := 0;
        }
      } else {
        if tokenSize == 0 {
          tokenStart := pos;
        }
        tokenSize := tokenSize + 1;
      }
    }
    if tokens.size > 0 {
      AppendsMoveFewStrings(tokens.start, tokens.size);
    }
  }

  // ---------- The same words, read from the left ----------

  /** The words of `line` when the text just before it, back to the last whitespace, is `cur`. */
  function WordsFrom(line: string, cur: string): seq<string> {
    if line == "" then []
    else if !IsSpace(line[0]) then WordsFrom(line[1..], cur + [line[0]])
    else if cur == "" then WordsFrom(line[1..], "")
    else [cur] + WordsFrom(line[1..], "")
  }

  /** The unfinished text before `pos`. */
  function Current(line: string, pos: nat): string
    requires pos <= |line|
  {
    line[pos - Unfinished(line, pos)..pos]
  }

  lemma {:induction false} CurrentGrows(line: string, pos: nat)
    requires pos < |line|
    ensures Current(line, pos + 1) == if IsSpace(line[pos]) then "" else Current(line, pos) + [line[pos]]
    ensures EndsWord(line, pos) <==> IsSpace(line[pos]) && Current(line, pos) != ""
    ensures EndsWord(line, pos) ==> WordsBefore(line, pos + 1) == WordsBefore(line, pos) + [Current(line, pos)]
    ensures !EndsWord(line, pos) ==> WordsBefore(line, pos + 1) == WordsBefore(line, pos)
  {
    OneMore(line, pos);
  }

  /** One character more on the left of the split, one less on the right. */
  lemma {:induction false} ReadOne(line: string, pos: nat)
    requires pos < |line|
    ensures WordsBefore(line, pos) + WordsFrom(line[pos..], Current(line, pos))
         == WordsBefore(line, pos + 1) + WordsFrom(line[pos + 1..], Current(line, pos + 1))
  {
    CurrentGrows(line, pos);
    var cur, tail := Current(line, pos), line[pos..];
    assert tail[0] == line[pos] && tail[1..] == line[pos + 1..];
    if EndsWord(line, pos) {
      var rest := WordsFrom(tail[1..], "");
      assert WordsFrom(tail, cur) == [cur] + rest;
      assert WordsBefore(line, pos) + ([cur] + rest) == (WordsBefore(line, pos) + [cur]) + rest;
    } else {
      assert WordsFrom(tail, cur) == WordsFrom(tail[1..], Current(line, pos + 1));
    }
  }

  lemma {:induction false} ReadUpTo(line: string, pos: nat)
    requires pos <= |line|
    ensures WordsFrom(line, "") == WordsBefore(line, pos) + WordsFrom(line[pos..], Current(line, pos))
  {
    if pos == 0 {
      assert line[0..] == line;
    } else {
      ReadUpTo(line, pos - 1);
      ReadOne(line, pos - 1);
    }
  }

  /** Reading from the left gives the same words. */
  lemma {:induction false} WordsFromLeft(line: string)
    ensures Words(line) == WordsFrom(line, "")
  {
    ReadUpTo(line, |line|);
    assert line[|line|..] == "";
  }

  // ---------- Round trip ----------

  /** What separates words, by its character code. */
  lemma SpaceCodes(c: char)
    ensures IsSpace(c) <==> c as int in {9, 10, 11, 12, 13, 32}
  {
  }

  /** A nonempty text of whitespace. */
  predicate IsGap(g: string) {
    g != "" && forall k | 0 <= k < |g| :: IsSpace(g[k])
  }

  /** Each word with the gap that follows it. */
  function Written(words: seq<string>, gaps: seq<string>): string
    requires |words| == |gaps|
  {
    if words == [] then "" else words[0] + (gaps[0] + Written(words[1..], gaps[1..]))
  }

  /** Text without whitespace is gathered. */
  lemma {:induction false} TextIsRead(w: string, rest: string, cur: string)
    requires NoSpace(w, 0, |w|)
    ensures WordsFrom(w + rest, cur) == WordsFrom(rest, cur + w)
    decreases |w|
  {
    if w == "" {
      assert w + rest == rest && cur + w == cur;
    } else {
      assert (w + rest)[1..] == w[1..] + rest;
      assert cur + [w[0]] + w[1..] == cur + w;
      TextIsRead(w[1..], rest, cur + [w[0]]);
    }
  }

  /** Whitespace with nothing before it is skipped. */
  lemma {:induction false} GapIsSkipped(g: string, rest: string)
    requires forall k | 0 <= k < |g| :: IsSpace(g[k])
    ensures WordsFrom(g + rest, "") == WordsFrom(rest, "")
    decreases |g|
  {
    if g == "" {
      assert g + rest == rest;
    } else {
      assert (g + rest)[1..] == g[1..] + rest;
      GapIsSkipped(g[1..], rest);
    }
  }

  /** A word and the gap after it. */
  lemma {:induction false} WordIsRead(w: string, g: string, rest: string)
    requires IsWord(w) && IsGap(g)
    ensures WordsFrom(w + (g + rest), "") == [w] + WordsFrom(rest, "")
  {
    TextIsRead(w, g + rest, "");
    assert "" + w == w;
    assert (g + rest)[0] == g[0] && (g + rest)[1..] == g[1..] + rest;
    GapIsSkipped(g[1..], rest);
  }

  /** Words, and gaps after them. */
  predicate AllWords(words: seq<string>, gaps: seq<string>)
    requires |words| == |gaps|
  {
    words == [] || (IsWord(words[0]) && IsGap(gaps[0]) && AllWords(words[1..], gaps[1..]))
  }

  lemma {:induction false} WordsAndGaps(words: seq<string>, gaps: seq<string>)
    requires |words| == |gaps| && (forall w | w in words :: IsWord(w)) && forall g | g in gaps :: IsGap(g)
    ensures AllWords(words, gaps)
  {
    if words != [] {
      WordsAndGaps(words[1..], gaps[1..]);
    }
  }

  lemma {:induction false} WrittenWordsAreRead(words: seq<string>, gaps: seq<string>)
    requires |words| == |gaps| && AllWords(words, gaps)
    ensures WordsFrom(Written(words, gaps), "") == words
    decreases |words|
  {
    if words != [] {
      WordIsRead(words[0], gaps[0], Written(words[1..], gaps[1..]));
      WrittenWordsAreRead(words[1..], gaps[1..]);
      assert [words[0]] + words[1..] == words;
    }
  }

  /**
   * Any words written with any gaps are given back: words of characters other than blank, tab, newline,
   * vertical tab, form feed and carriage return, and gaps of at least one of these six. The text may
   * begin with a gap, and ends with one.
   */
  lemma {:induction false} RoundTrip(lead: string, words: seq<string>, gaps: seq<string>)
    requires |words| == |gaps|
    requires forall k | 0 <= k < |lead| :: lead[k] as int in {9, 10, 11, 12, 13, 32}
    requires forall w | w in words :: w != "" && forall k | 0 <= k < |w| :: w[k] as int !in {9, 10, 11, 12, 13, 32}
    requires forall g | g in gaps :: g != "" && forall k | 0 <= k < |g| :: g[k] as int in {9, 10, 11, 12, 13, 32}
    ensures Words(lead + Written(words, gaps)) == words
  {
    forall c: char ensures IsSpace(c) <==> c as int in {9, 10, 11, 12, 13, 32} {
      SpaceCodes(c);
    }
    WordsAndGaps(words, gaps);
    WordsFromLeft(lead + Written(words, gaps));
    GapIsSkipped(lead, Written(words, gaps));
    WrittenWordsAreRead(words, gaps);
  }

  lemma {:induction false} WrittenTwo(x: string, y: string, g: string, h: string)
    ensures "" + Written([x, y], [g, h]) == x + g + y + h
  {
    assert [x, y][1..] == [y] && [g, h][1..] == [h];
    assert [y][1..] == [] && [h][1..] == [];
    assert h + "" == h;
    assert Written([y], [h]) == y + h;
    assert x + (g + (y + h)) == x + g + y + h;
  }

  lemma {:induction false} TwoWords(x: string, c: char, y: string)
    requires x != "" && forall k | 0 <= k < |x| :: x[k] as int !in {9, 10, 11, 12, 13, 32}
    requires y != "" && forall k | 0 <= k < |y| :: y[k] as int !in {9, 10, 11, 12, 13, 32}
    requires c as int in {9, 10, 11, 12, 13, 32}
    ensures Words(x + [c] + y + "\n") == [x, y]
  {
    WrittenTwo(x, y, [c], "\n");
    RoundTrip("", [x, y], [[c], "\n"]);
  }

  lemma {:induction false} OneWord(x: string)
    requires x != "" && forall k | 0 <= k < |x| :: x[k] as int !in {9, 10, 11, 12, 13, 32}
    ensures Words(x + "\n") == [x]
  {
    RoundTrip("", [x], ["\n"]);
    assert [x][1..] == [];
    assert "" + Written([x], ["\n"]) == x + "\n";
  }

  /** A character separates two words exactly when it is one of the six. */
  lemma {:induction false} SeparatesExactlyWhen(x: string, c: char, y: string)
    requires x != "" && forall k | 0 <= k < |x| :: x[k] as int !in {9, 10, 11, 12, 13, 32}
    requires y != "" && forall k | 0 <= k < |y| :: y[k] as int !in {9, 10, 11, 12, 13, 32}
    ensures Words(x + [c] + y + "\n") == if c as int in {9, 10, 11, 12, 13, 32} then [x, y] else [x + [c] + y]
  {
    if c as int in {9, 10, 11, 12, 13, 32} {
      TwoWords(x, c, y);
    } else {
      OneWord(x + [c] + y);
    }
  }
}
