/**
 Splitting a command line into tokens, with single and double quotes.
 */
module Tokenizer {
  import opened Common
  import opened Text

  predicate IsQuote(c: char) {
    c == '"' || c == '\''
  }

  /** What the loop carries from one character to the next. */
  datatype Scan = Scan(tokens: seq<string>, current: string, quote: Option<char>, hasToken: bool)

  const START := Scan([], "", None, false)

  function Next(s: Scan, c: char): Scan {
    if s.quote.Some? then
      s.(quote := if c == s.quote.value then None else s.quote,
         current := if c == s.quote.value then s.current else s.current + [c],
         hasToken := true)
    else if IsQuote(c) then s.(quote := Some(c), hasToken := true)
    else if IsWebSpace(c) then
      if s.hasToken then Scan(s.tokens + [s.current], "", None, false) else s
    else s.(current := s.current + [c], hasToken := true)
  }

  function ScanAll(s: Scan, input: string): Scan
    decreases |input|
  {
    if input == "" then s else ScanAll(Next(s, input[0]), input[1..])
  }

  function End(s: Scan): seq<string> {
    if s.hasToken then s.tokens + [s.current] else s.tokens
  }

  function Tokenize(input: string): seq<string> {
    End(ScanAll(START, input))
  }

  method TokenizeCommand(input: string) returns (tokens: seq<string>)
    ensures tokens == Tokenize(input)
  {
    tokens := [];
    var current, quote, hasToken := "", None, false;
    var i := 0;
    while i < |input|
      invariant i <= |input|
      invariant Tokenize(input) == End(ScanAll(Scan(tokens, current, quote, hasToken), input[i..]))
    {
      var ch := input[i];
      assert input[i..][0] == ch && input[i..][1..] == input[i + 1..];
      if quote.Some? {
        if ch == quote.value {
          quote := None;
        } else {
          current := current + [ch];
        }
        hasToken := true;
      } else if ch == '"' || ch == '\'' {
        quote, hasToken := Some(ch), true;
      } else if IsWebSpace(ch) {
        if hasToken {
          tokens, current, hasToken := tokens + [current], "", false;
        }
      } else {
        current, hasToken := current + [ch], true;
      }
      i := i + 1;
    }
    if hasToken {
      tokens := tokens + [current];
    }
  }

  // ---- quoting is undone ----

  /** A way to write part of a token: between quotes it does not contain, or one plain character. */
  datatype Piece = Quoted(q: char, text: string) | Plain(c: char)

  predicate PieceOk(p: Piece) {
    match p
    case Quoted(q, text) => IsQuote(q) && q !in text
    case Plain(c) => !IsQuote(c) && !IsWebSpace(c)
  }

  function Spelling(p: Piece): string {
    match p
    case Quoted(q, text) => [q] + text + [q]
    case Plain(c) => [c]
  }

  function Meaning(p: Piece): string {
    match p
    case Quoted(_, text) => text
    case Plain(c) => [c]
  }

  /** A token is written as one or more pieces side by side. */
  type Word = seq<Piece>

  predicate WordOk(w: Word) {
    w != [] && PiecesOk(w)
  }

  function WordSpelling(w: Word): string {
    if w == [] then "" else Spelling(w[0]) + WordSpelling(w[1..])
  }

  function WordMeaning(w: Word): string {
    if w == [] then "" else Meaning(w[0]) + WordMeaning(w[1..])
  }

  predicate AllSpace(s: string) {
    forall i :: 0 <= i < |s| ==> IsWebSpace(s[i])
  }

  /** Each word, followed by its own stretch of white space. */
  function Line(words: seq<(Word, string)>): string {
    if words == [] then "" else WordSpelling(words[0].0) + words[0].1 + Line(words[1..])
  }

  function Meanings(words: seq<(Word, string)>): seq<string> {
    seq(|words|, i requires 0 <= i < |words| => WordMeaning(words[i].0))
  }

  /** All words are well formed and separated; only the last may lack white space after it. */
  predicate LineOk(words: seq<(Word, string)>) {
    && (forall i :: 0 <= i < |words| ==> WordOk(words[i].0) && AllSpace(words[i].1))
    && (forall i :: 0 <= i < |words| - 1 ==> words[i].1 != "")
  }

  lemma {:induction false} ScanAppend(s: Scan, a: string, b: string)
    ensures ScanAll(s, a + b) == ScanAll(ScanAll(s, a), b)
    decreases |a|
  {
    if a == "" {
      assert a + b == b;
    } else {
      assert (a + b)[0] == a[0] && (a + b)[1..] == a[1..] + b;
      ScanAppend(Next(s, a[0]), a[1..], b);
    }
  }

  lemma {:induction false} ScanInside(s: Scan, text: string)
    requires s.quote.Some? && s.hasToken && s.quote.value !in text
    ensures ScanAll(s, text) == s.(current := s.current + text)
    decreases |text|
  {
    if text == "" {
      assert s.current + text == s.current;
    } else {
      assert s.current + text == s.current + [text[0]] + text[1..];
      ScanInside(Next(s, text[0]), text[1..]);
    }
  }

  lemma ScanPiece(s: Scan, p: Piece)
    requires PieceOk(p) && s.quote.None?
    ensures ScanAll(s, Spelling(p)) == s.(current := s.current + Meaning(p), hasToken := true)
  {
    match p {
      case Plain(c) =>
        assert ScanAll(s, [c]) == ScanAll(Next(s, c), [c][1..]);
      case Quoted(q, text) =>
        var begun := s.(quote := Some(q), hasToken := true);
        assert Spelling(p) == [q] + (text + [q]);
        ScanAppend(s, [q], text + [q]);
        assert ScanAll(s, [q]) == ScanAll(Next(s, q), [q][1..]) == begun;
        ScanAppend(begun, text, [q]);
        ScanInside(begun, text);
        var inside := ScanAll(begun, text);
        assert ScanAll(inside, [q]) == ScanAll(Next(inside, q), [q][1..]);
    }
  }

  lemma Joined(a: string, b: string, c: string)
    ensures a + b + c == a + (b + c)
  {
  }

  /** The scan after text with this meaning has been read. */
  function Reading(s: Scan, meaning: string, some: bool): Scan {
    s.(current := s.current + meaning, hasToken := s.hasToken || some)
  }

  predicate PiecesOk(w: Word) {
    forall i :: 0 <= i < |w| ==> PieceOk(w[i])
  }

  lemma {:induction false} ScanWord(s: Scan, w: Word)
    requires s.quote.None? && PiecesOk(w)
    ensures ScanAll(s, WordSpelling(w)) == Reading(s, WordMeaning(w), w != [])
    decreases |w|
  {
    if w == [] {
      assert s.current + "" == s.current;
    } else {
      ScanAppend(s, Spelling(w[0]), WordSpelling(w[1..]));
      ScanPiece(s, w[0]);
      ScanWord(Reading(s, Meaning(w[0]), true), w[1..]);
      Joined(s.current, Meaning(w[0]), WordMeaning(w[1..]));
    }
  }

  lemma {:induction false} ScanSpace(s: Scan, space: string)
    requires s.quote.None? && AllSpace(space) && (!s.hasToken ==> s.current == "")
    ensures ScanAll(s, space) == if s.hasToken && space != "" then Scan(s.tokens + [s.current], "", None, false) else s
    decreases |space|
  {
    if space != "" {
      ScanSpace(Next(s, space[0]), space[1..]);
    }
  }

  lemma {:induction false} ScanLine(tokens: seq<string>, words: seq<(Word, string)>)
    requires LineOk(words)
    ensures End(ScanAll(Scan(tokens, "", None, false), Line(words))) == tokens + Meanings(words)
    decreases |words|
  {
    var s := Scan(tokens, "", None, false);
    if words == [] {
      assert tokens + Meanings(words) == tokens;
    } else {
      var w, space, rest := words[0].0, words[0].1, words[1..];
      var word := WordSpelling(w);
      assert Line(words) == word + (space + Line(rest));
      ScanAppend(s, word, space + Line(rest));
      ScanWord(s, w);
      assert "" + WordMeaning(w) == WordMeaning(w);
      var s1 := Scan(tokens, WordMeaning(w), None, true);
      ScanAppend(s1, space, Line(rest));
      ScanSpace(s1, space);
      assert Meanings(words) == [WordMeaning(w)] + Meanings(rest);
      if space == "" {
        assert rest == [] && Meanings(rest) == [];
      } else {
        ScanLine(tokens + [WordMeaning(w)], rest);
        assert tokens + [WordMeaning(w)] + Meanings(rest) == tokens + ([WordMeaning(w)] + Meanings(rest));
      }
    }
  }

  /**
   Quoting is undone: however each token is written, as any mixture of plain
   characters and quoted stretches, and whatever white space separates, precedes
   and follows them, the tokens come back, empty ones included.
   */
  lemma TokenizeUndoesQuoting(before: string, words: seq<(Word, string)>)
    requires AllSpace(before) && LineOk(words)
    ensures Tokenize(before + Line(words)) == Meanings(words)
  {
    ScanAppend(START, before, Line(words));
    ScanSpace(START, before);
    ScanLine([], words);
    assert [] + Meanings(words) == Meanings(words);
  }

  /** Every character quoted by itself, in the quote it is not; an empty token as two quotes. */
  function Quote(token: string): (w: Word) {
    if token == "" then [Quoted('"', "")]
    else [Quoted(if token[0] == '"' then '\'' else '"', [token[0]])] + if |token| == 1 then [] else Quote(token[1..])
  }

  lemma {:induction false} QuoteMeans(token: string)
    ensures WordOk(Quote(token)) && WordMeaning(Quote(token)) == token
    decreases |token|
  {
    if |token| > 1 {
      QuoteMeans(token[1..]);
      assert Quote(token)[1..] == Quote(token[1..]);
    }
  }

  /** Every list of tokens, whatever characters they hold, can be written so that it tokenizes back to itself. */
  lemma EveryListExpressible(tokens: seq<string>)
    ensures exists line :: Tokenize(line) == tokens
  {
    var words := seq(|tokens|, i requires 0 <= i < |tokens| => (Quote(tokens[i]), " "));
    forall i | 0 <= i < |tokens|
      ensures WordOk(words[i].0) && Meanings(words)[i] == tokens[i]
    {
      QuoteMeans(tokens[i]);
    }
    assert Meanings(words) == tokens;
    TokenizeUndoesQuoting("", words);
    assert Tokenize("" + Line(words)) == tokens;
  }

  // ---- nothing else is lost ----

  /** The input without its delimiting quotes and without its unquoted white space. */
  function Kept(input: string, quote: Option<char>): string
    decreases |input|
  {
    if input == "" then ""
    else if quote.Some? then
      if input[0] == quote.value then Kept(input[1..], None) else [input[0]] + Kept(input[1..], quote)
    else if IsQuote(input[0]) then Kept(input[1..], Some(input[0]))
    else (if IsWebSpace(input[0]) then "" else [input[0]]) + Kept(input[1..], None)
  }

  function Concat(tokens: seq<string>): string {
    if tokens == [] then "" else Concat(tokens[..|tokens| - 1]) + tokens[|tokens| - 1]
  }

  lemma ConcatAppend(tokens: seq<string>, t: string)
    ensures Concat(tokens + [t]) == Concat(tokens) + t
  {
    assert (tokens + [t])[..|tokens|] == tokens;
  }

  /** All token text of a scan. */
  function TextOf(s: Scan): string {
    Concat(s.tokens) + s.current
  }

  predicate NoStray(s: Scan) {
    !s.hasToken ==> s.current == ""
  }

  /** What one character adds to the text kept. */
  function KeptOf(quote: Option<char>, c: char): string {
    if quote.Some? then (if c == quote.value then "" else [c])
    else if IsQuote(c) || IsWebSpace(c) then "" else [c]
  }

  lemma NextKeeps(s: Scan, c: char)
    requires NoStray(s)
    ensures NoStray(Next(s, c)) && TextOf(Next(s, c)) == TextOf(s) + KeptOf(s.quote, c)
  {
    ConcatAppend(s.tokens, s.current);
    Joined(Concat(s.tokens), s.current, [c]);
    assert Concat(s.tokens) + s.current + "" == Concat(s.tokens) + s.current;
  }

  lemma KeptStep(s: Scan, input: string)
    requires input != ""
    ensures Kept(input, s.quote) == KeptOf(s.quote, input[0]) + Kept(input[1..], Next(s, input[0]).quote)
  {
  }

  lemma {:induction false} ScanKeeps(s: Scan, input: string)
    requires NoStray(s)
    ensures NoStray(ScanAll(s, input)) && TextOf(ScanAll(s, input)) == TextOf(s) + Kept(input, s.quote)
    decreases |input|
  {
    if input == "" {
      assert TextOf(s) + "" == TextOf(s);
    } else {
      var s' := Next(s, input[0]);
      NextKeeps(s, input[0]);
      KeptStep(s, input);
      ScanKeeps(s', input[1..]);
      Joined(TextOf(s), KeptOf(s.quote, input[0]), Kept(input[1..], s'.quote));
    }
  }

  /** The tokens put together are the input minus delimiting quotes and unquoted white space. */
  lemma TokenizeKeeps(input: string)
    ensures Concat(Tokenize(input)) == Kept(input, None)
  {
    ScanKeeps(START, input);
    var s := ScanAll(START, input);
    ConcatAppend(s.tokens, s.current);
    assert TextOf(START) + Kept(input, None) == Kept(input, None);
  }
}
