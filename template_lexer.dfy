/**
 * The template lexer (compiler/src/template/lexer.rs): a state machine over
 * the remaining template text that yields runs of plain text with their
 * whitespace collapsed, paragraph breaks, emphasis delimiter runs, anchor
 * brackets and `{…}` tags. The text lexer (compiler/src/text/lexer.rs) is
 * the same machine with `{` read as ordinary text; `tags` tells the two
 * apart.
 *
 * As in the source, `offset` counts the UTF-8 bytes consumed, and the text
 * is sliced at byte offsets: a slice that starts or ends inside a char is
 * a panic (`Panic`). Columns are counted in UTF-8 bytes too.
 */
module TemplateLexer {
  import opened Common
  import ExpressionLexer

  /** A run of `*` or `_`: its char, how many, and whether it may open or close emphasis. */
  datatype Delimiter = Delimiter(character: char, length: nat, opener: bool, closer: bool)

  /**
   * `TemplateToken`. A tag carries the cursor the expression lexer starts
   * from: the text between the braces, at the mark just after `{`.
   */
  datatype TemplateToken =
    | Text(text: string)
    | DelimiterRun(delimiter: Delimiter)
    | ParagraphBreak
    | Tag(lex: ExpressionLexer.LexState)
    | AnchorBegin
    | AnchorEnd(href: string)

  /**
   * `TemplateLexerState`: what the lexer read last. `InText` is the
   * source's `Text` state (a char that is neither whitespace nor
   * punctuation).
   */
  datatype LexerState = Initial | Whitespace | Newline | DoubleNewline | Punctuation | InText

  /**
   * The fields of a lexer: the text not yet consumed, the mark of its first
   * char, the state, and the plain text read but not yet yielded.
   */
  datatype Cursor = Cursor(source: string, mark: Mark, state: LexerState, pending: string)

  /** What `next` returns, with the fields it leaves behind. */
  datatype Lexed = Lexed(token: Option<TemplateToken>, cursor: Cursor)

  /** A lexer at the start of `source`. */
  function Start(source: string): (c: Cursor)
    ensures c.source == source && c.state == Initial && c.pending == []
  {
    Cursor(source, DefaultMark, Initial, [])
  }

  // ---------------------------------------------------------------------
  // Slicing at byte offsets

  /**
   * The index of the char that starts at byte `b` of `s` (or `|s|` at its
   * end); `Panic` when `b` falls inside a char or past the end, where Rust
   * refuses to slice a `str`.
   */
  function CharIndex(s: string, i: nat, b: nat): (r: Outcome<nat>)
    requires i <= |s|
    ensures r.Ok? ==> i <= r.value <= |s|
    decreases |s| - i
  {
    if b == 0 then Ok(i)
    else if i == |s| || b < Utf8Len(s[i]) then Panic
    else CharIndex(s, i + 1, b - Utf8Len(s[i]))
  }

  /** The char `CharIndex` finds starts `b` bytes after char `i`. */
  lemma {:induction false} CharIndexBytes(s: string, i: nat, b: nat)
    requires i <= |s| && CharIndex(s, i, b).Ok?
    ensures Utf8Length(s[i..CharIndex(s, i, b).value]) == b
    decreases |s| - i
  {
    var j := CharIndex(s, i, b).value;
    if b == 0 {
      assert s[i..j] == [];
    } else {
      CharIndexBytes(s, i + 1, b - Utf8Len(s[i]));
      assert s[i..j][1..] == s[i + 1..j];
    }
  }

  /** Every char boundary is found: the bytes of the chars from `i` to `j` lead to char `j`. */
  lemma {:induction false} CharIndexOfPrefix(s: string, i: nat, j: nat)
    requires i <= j <= |s|
    ensures CharIndex(s, i, Utf8Length(s[i..j])) == Ok(j)
    decreases j - i
  {
    if i < j {
      assert s[i..j][1..] == s[i + 1..j];
      CharIndexOfPrefix(s, i + 1, j);
    } else {
      assert s[i..j] == [];
    }
  }

  /** A byte offset that is no char boundary panics. */
  lemma CharIndexPanics(s: string, b: nat)
    ensures CharIndex(s, 0, b).Panic? <==> forall i :: 0 <= i <= |s| ==> Utf8Length(s[..i]) != b
  {
    if !CharIndex(s, 0, b).Panic? {
      var i := CharIndex(s, 0, b).value;
      CharIndexBytes(s, 0, b);
      assert s[0..i] == s[..i];
    } else {
      forall i | 0 <= i <= |s|
        ensures Utf8Length(s[..i]) != b
      {
        CharIndexOfPrefix(s, 0, i);
        assert s[0..i] == s[..i];
      }
    }
  }

  /** Later byte offsets are at later chars. */
  lemma CharIndexMonotone(s: string, a: nat, b: nat)
    requires a <= b && CharIndex(s, 0, a).Ok? && CharIndex(s, 0, b).Ok?
    ensures CharIndex(s, 0, a).value <= CharIndex(s, 0, b).value
  {
    var i, j := CharIndex(s, 0, a).value, CharIndex(s, 0, b).value;
    CharIndexBytes(s, 0, a);
    CharIndexBytes(s, 0, b);
    assert s[0..i] == s[..i] && s[0..j] == s[..j];
    if j < i {
      Utf8PrefixMonotone(s, j, i);
    }
  }

  /** The encoding of the chars from `i` to `j` is the stretch of bytes between their offsets. */
  lemma SliceEncodes(s: string, i: nat, j: nat)
    requires i <= j <= |s|
    ensures Utf8Length(s[..i]) <= Utf8Length(s[..j]) <= |Encode(s)|
    ensures Encode(s)[Utf8Length(s[..i])..Utf8Length(s[..j])] == Encode(s[i..j])
  {
    assert s[..j] == s[..i] + s[i..j];
    assert s == s[..j] + s[j..];
    EncodeAppend(s[..i], s[i..j]);
    EncodeAppend(s[..j], s[j..]);
  }

  /** Rust's `&s[b..]`: the text from byte `b` on. */
  function Suffix(s: string, b: nat): (r: Outcome<string>)
    ensures r.Ok? ==> |r.value| <= |s| && (b > 0 ==> |r.value| < |s|)
  {
    var i :- CharIndex(s, 0, b);
    if b > 0 then
      CharIndexBytes(s, 0, b);
      assert i != 0 by { assert s[0..0] == []; }
      Ok(s[i..])
    else Ok(s[i..])
  }

  /** Rust's `&s[a..b]`: the text between bytes `a` and `b`. */
  function Slice(s: string, a: nat, b: nat): Outcome<string>
  {
    if b < a then Panic
    else
      var i :- CharIndex(s, 0, a);
      var j :- CharIndex(s, 0, b);
      CharIndexMonotone(s, a, b);
      Ok(s[i..j])
  }

  /** What `Suffix` returns is a suffix of the text, and its encoding the bytes from `b` on. */
  lemma SuffixBytes(s: string, b: nat)
    requires Suffix(s, b).Ok?
    ensures var r := Suffix(s, b).value;
      r == s[|s| - |r|..] && b <= |Encode(s)| && Encode(r) == Encode(s)[b..]
  {
    var i := CharIndex(s, 0, b).value;
    CharIndexBytes(s, 0, b);
    assert s[0..i] == s[..i];
    SliceEncodes(s, i, |s|);
    assert s[..|s|] == s && s[i..|s|] == s[i..];
  }

  /** The encoding of what `Slice` returns is the bytes from `a` to `b`. */
  lemma SliceBytes(s: string, a: nat, b: nat)
    requires Slice(s, a, b).Ok?
    ensures a <= b <= |Encode(s)| && Encode(Slice(s, a, b).value) == Encode(s)[a..b]
  {
    var i, j := CharIndex(s, 0, a).value, CharIndex(s, 0, b).value;
    CharIndexMonotone(s, a, b);
    CharIndexBytes(s, 0, a);
    CharIndexBytes(s, 0, b);
    assert s[0..i] == s[..i] && s[0..j] == s[..j];
    SliceEncodes(s, i, j);
  }

  /** Slicing at the offset of a char boundary never panics and starts at that char. */
  lemma SuffixAtChar(s: string, i: nat, b: nat)
    requires i <= |s| && b == Utf8Length(s[..i])
    ensures Suffix(s, b) == Ok(s[i..])
  {
    CharIndexOfPrefix(s, 0, i);
    assert s[0..i] == s[..i];
  }

  /** Slicing between the offsets of two char boundaries never panics and yields the chars between. */
  lemma SliceAtChars(s: string, i: nat, j: nat, a: nat, b: nat)
    requires i <= j <= |s| && a == Utf8Length(s[..i]) && b == Utf8Length(s[..j])
    ensures Slice(s, a, b) == Ok(s[i..j])
  {
    CharIndexOfPrefix(s, 0, i);
    CharIndexOfPrefix(s, 0, j);
    assert s[0..i] == s[..i] && s[0..j] == s[..j];
    SliceEncodes(s, i, j);
  }

  /** The bytes of the first `j` chars are those of the first `i` and those of the chars between. */
  lemma Utf8PrefixSplit(s: string, i: nat, j: nat)
    requires i <= j <= |s|
    ensures Utf8Length(s[..j]) == Utf8Length(s[..i]) + Utf8Length(s[i..j])
  {
    assert s[..j] == s[..i] + s[i..j];
    Utf8LengthAppend(s[..i], s[i..j]);
  }

  // ---------------------------------------------------------------------
  // Chars

  /** The chars that end a run of plain text. */
  predicate Special(tags: bool, c: char)
  {
    c == '*' || c == '_' || c == '[' || c == ']' || (tags && c == '{')
  }

  /**
   * The state after the whitespace char `c`: a newline after a newline
   * completes a blank line, and the first whitespace after text is noted.
   */
  function SpaceState(state: LexerState, c: char): LexerState
  {
    match state
    case Initial => Initial
    case DoubleNewline => DoubleNewline
    case Whitespace => if c == '\n' then Newline else Whitespace
    case Newline => if c == '\n' then DoubleNewline else Newline
    case _ => if c == '\n' then Newline else Whitespace
  }

  /** The state after the visible char `c`. */
  function CharState(c: char): LexerState
  {
    if IsAsciiPunctuation(c) then Punctuation else InText
  }

  /** Before a visible char: whitespace read since the last one becomes a single pending space. */
  function Spaced(cur: Cursor): (r: Cursor)
  {
    if cur.state == Whitespace || cur.state == Newline then cur.(pending := cur.pending + [' '], state := Initial) else cur
  }

  /** The number of consecutive `c` starting at `i`. */
  function RunOf(s: string, i: nat, c: char): (n: nat)
    requires i <= |s|
    ensures i + n <= |s|
    decreases |s| - i
  {
    if i < |s| && s[i] == c then 1 + RunOf(s, i + 1, c) else 0
  }

  /** The first `}` at or after `i`, or the end of `s`. */
  function CloseBrace(s: string, i: nat): (j: nat)
    requires i <= |s|
    ensures i <= j <= |s|
    ensures forall k :: i <= k < j ==> s[k] != '}'
    ensures j < |s| ==> s[j] == '}'
    decreases |s| - i
  {
    if i == |s| || s[i] == '}' then i else CloseBrace(s, i + 1)
  }

  // ---------------------------------------------------------------------
  // What `next` returns

  /**
   * The end of the input: pending text is yielded, and the source is cut
   * at `offset`; with nothing pending there is no token and the source is
   * kept.
   */
  function Finish(cur: Cursor, offset: nat): (r: Outcome<Lexed>)
  {
    if cur.pending != [] then
      var rest :- Suffix(cur.source, offset);
      Ok(Lexed(Some(Text(cur.pending)), cur.(pending := [], source := rest)))
    else Ok(Lexed(None, cur))
  }

  /**
   * The loop of `next`: `k` chars of the source have been read and `offset`
   * bytes consumed (a char after a `]` that is not `(` is read but not
   * counted). `cur` holds the source as it was when `next` was called.
   */
  function Scan(tags: bool, cur: Cursor, k: nat, offset: nat): (r: Outcome<Lexed>)
    requires k <= |cur.source|
    decreases |cur.source| - k, 3
  {
    if k == |cur.source| then Finish(cur, offset)
    else
      var c := cur.source[k];
      if IsWhitespace(c) then
        var moved := cur.(mark := ExpressionLexer.Step(cur.mark, c), state := SpaceState(cur.state, c));
        if cur.state == Newline && c == '\n' && cur.pending != [] then
          var rest :- Suffix(cur.source, offset + Utf8Len(c));
          Ok(Lexed(Some(Text(cur.pending)), moved.(pending := [], source := rest)))
        else Scan(tags, moved, k + 1, offset + Utf8Len(c))
      else if cur.state == DoubleNewline then
        var rest :- Suffix(cur.source, offset);
        Ok(Lexed(Some(ParagraphBreak), cur.(state := Initial, source := rest)))
      else
        var spaced := Spaced(cur);
        if !Special(tags, c) then
          Scan(tags, spaced.(mark := ExpressionLexer.Step(cur.mark, c), pending := spaced.pending + [c], state := CharState(c)), k + 1, offset + Utf8Len(c))
        else if spaced.pending != [] then
          var rest :- Suffix(cur.source, offset);
          Ok(Lexed(Some(Text(spaced.pending)), spaced.(pending := [], source := rest)))
        else SpecialToken(tags, spaced, k, offset)
  }

  /** A special char read with nothing pending. */
  function SpecialToken(tags: bool, cur: Cursor, k: nat, offset: nat): (r: Outcome<Lexed>)
    requires k < |cur.source| && Special(tags, cur.source[k])
    decreases |cur.source| - k, 2
  {
    var c := cur.source[k];
    if c == '[' || c == ']' then BracketToken(tags, cur, k, offset)
    else if c == '*' || c == '_' then DelimiterSpec(cur, k, offset, c)
    else TagSpec(cur, k, offset)
  }

  /**
   * `[` begins an anchor; `](` goes on to the anchor's target; a `]`
   * followed by anything else is skipped together with that char, which is
   * read but neither counted in the offset nor moves the mark.
   */
  function BracketToken(tags: bool, cur: Cursor, k: nat, offset: nat): (r: Outcome<Lexed>)
    requires k < |cur.source| && (cur.source[k] == '[' || cur.source[k] == ']')
    decreases |cur.source| - k, 1
  {
    if cur.source[k] == '[' then
      var rest :- Suffix(cur.source, offset + 1);
      Ok(Lexed(Some(AnchorBegin), cur.(source := rest)))
    else if k + 1 < |cur.source| && cur.source[k + 1] == '(' then HrefToken(tags, cur, k, offset)
    else
      var moved := cur.(mark := ExpressionLexer.Step(cur.mark, ']'));
      if k + 1 < |cur.source| then Scan(tags, moved, k + 2, offset + 1)
      else Scan(tags, moved, k + 1, offset + 1)
  }

  /** The token of a target closed at `)`: the target and the rest are sliced at bytes, either of which may panic. */
  function TargetToken(cur: Cursor, offset: nat, h: HrefEnd): Outcome<Lexed>
    requires h.Closed?
  {
    var href :- Slice(cur.source, offset + 2, h.offset);
    var rest :- Suffix(cur.source, h.offset + 1);
    Ok(Lexed(Some(AnchorEnd(Trim(href))), cur.(mark := ExpressionLexer.Step(h.mark, ')'), source := rest)))
  }

  /**
   * `](` and the target after it: `)` yields the trimmed target; a newline
   * gives up and carries on lexing; the end of the text gives up.
   */
  function HrefToken(tags: bool, cur: Cursor, k: nat, offset: nat): (r: Outcome<Lexed>)
    requires k + 1 < |cur.source|
    decreases |cur.source| - k, 0
  {
    var h := HrefScan(cur.source, k + 2, offset + 2, ExpressionLexer.Step(ExpressionLexer.Step(cur.mark, ']'), '('), false);
    match h
    case Closed(_, _) => TargetToken(cur, offset, h)
    case LineBreak(next, end, m) => Scan(tags, cur.(mark := m, state := Newline), next, end)
    case Unclosed(end, m) => Finish(cur.(mark := m), end)
  }

  /** `HrefToken` when the target closes at `)`. */
  lemma HrefTokenClosed(tags: bool, cur: Cursor, k: nat, offset: nat, h: HrefEnd)
    requires k + 1 < |cur.source|
    requires h == HrefScan(cur.source, k + 2, offset + 2, ExpressionLexer.Step(ExpressionLexer.Step(cur.mark, ']'), '('), false)
    requires h.Closed?
    ensures HrefToken(tags, cur, k, offset) == TargetToken(cur, offset, h)
  {
  }

  /** `HrefToken` when a newline ends the target: the lexer carries on after it in the Newline state. */
  lemma HrefTokenBreaks(tags: bool, cur: Cursor, k: nat, offset: nat, h: HrefEnd)
    requires k + 1 < |cur.source|
    requires h == HrefScan(cur.source, k + 2, offset + 2, ExpressionLexer.Step(ExpressionLexer.Step(cur.mark, ']'), '('), false)
    requires h.LineBreak?
    ensures HrefToken(tags, cur, k, offset) == Scan(tags, cur.(mark := h.mark, state := Newline), h.k, h.offset)
  {
  }

  /** `HrefToken` when the text ends inside the target: the lexer finishes there. */
  lemma HrefTokenUnclosed(tags: bool, cur: Cursor, k: nat, offset: nat, h: HrefEnd)
    requires k + 1 < |cur.source|
    requires h == HrefScan(cur.source, k + 2, offset + 2, ExpressionLexer.Step(ExpressionLexer.Step(cur.mark, ']'), '('), false)
    requires h.Unclosed?
    ensures HrefToken(tags, cur, k, offset) == Finish(cur.(mark := h.mark), h.offset)
  {
  }

  /**
   * How the target of `](` ends: at `)` (the offset and mark of the `)`),
   * at a newline (the char index and offset where the lexer carries on, in
   * the Newline state), or with the text (the offset and mark at its end).
   */
  datatype HrefEnd = Closed(offset: nat, mark: Mark) | LineBreak(k: nat, offset: nat, mark: Mark) | Unclosed(offset: nat, mark: Mark)

  /**
   * The target of `](`, read from char `k` at byte `offset`: a backslash
   * turns `escape` on for good, and while it is on neither `)` nor a
   * newline ends the target.
   */
  function HrefScan(s: string, k: nat, offset: nat, m: Mark, escape: bool): (r: HrefEnd)
    requires k <= |s|
    ensures offset <= r.offset
    ensures r.LineBreak? ==> k < r.k <= |s| && offset < r.offset
    decreases |s| - k
  {
    if k == |s| then Unclosed(offset, m)
    else
      var c := s[k];
      if c == '\\' then HrefScan(s, k + 1, offset + Utf8Len(c), ExpressionLexer.Step(m, c), true)
      else if escape then HrefScan(s, k + 1, offset + Utf8Len(c), ExpressionLexer.Step(m, c), true)
      else if c == '\n' then LineBreak(k + 1, offset + Utf8Len(c), ExpressionLexer.Step(m, c))
      else if c == ')' then Closed(offset, m)
      else HrefScan(s, k + 1, offset + Utf8Len(c), ExpressionLexer.Step(m, c), escape)
  }

  /** Whether the char before a delimiter run was whitespace (or the start), judged from the state. */
  predicate WhitespacePrecedes(state: LexerState)
  {
    state == Initial || state == Newline || state == DoubleNewline || state == Whitespace
  }

  /** What surrounds a delimiter run, as far as the lexer can tell. */
  datatype Flanks = Flanks(whitespacePrecedes: bool, punctuationPrecedes: bool, whitespaceFollows: bool, punctuationFollows: bool)

  /**
   * A run of `n` `c`s between the given neighbours. A run opens when it is
   * left-flanking and closes when it is right-flanking; a `_` run must in
   * addition not be flanked on the other side, unless punctuation stands
   * there.
   */
  function Classify(c: char, n: nat, f: Flanks): Delimiter
  {
    var left := !f.whitespaceFollows && (!f.punctuationFollows || f.whitespacePrecedes || f.punctuationPrecedes);
    var right := !f.whitespacePrecedes && (!f.punctuationPrecedes || f.whitespaceFollows || f.punctuationFollows);
    if c == '*' then Delimiter('*', n, left, right)
    else Delimiter(c, n, left && (!right || f.punctuationPrecedes), right && (!left || f.punctuationFollows))
  }

  /**
   * A run of `c` (`*` or `_`, one byte each) starting at `k`: what precedes
   * it is judged from the state, what follows from the char after the run
   * (the end of the text counts as whitespace).
   */
  function DelimiterSpec(cur: Cursor, k: nat, offset: nat, c: char): (r: Outcome<Lexed>)
    requires k < |cur.source| && cur.source[k] == c
  {
    var n := RunOf(cur.source, k, c);
    var flanks := Flanks(WhitespacePrecedes(cur.state), cur.state == Punctuation,
                         k + n == |cur.source| || IsWhitespace(cur.source[k + n]),
                         k + n < |cur.source| && IsAsciiPunctuation(cur.source[k + n]));
    var rest :- Suffix(cur.source, offset + n);
    Ok(Lexed(Some(DelimiterRun(Classify(c, n, flanks))),
             cur.(mark := Mark(cur.mark.line, cur.mark.column + n), source := rest)))
  }

  /**
   * A tag: the text up to the next `}` (or the end), lexed from the mark
   * after `{`; the source resumes one byte past the tag's text, but never
   * past the end.
   */
  function TagSpec(cur: Cursor, k: nat, offset: nat): (r: Outcome<Lexed>)
    requires k < |cur.source| && cur.source[k] == '{'
  {
    var j := CloseBrace(cur.source, k + 1);
    var startMark := ExpressionLexer.Step(cur.mark, '{');
    var after := ExpressionLexer.MarkAfter(startMark, cur.source[k + 1..j]);
    var start := offset + 1;
    var end := start + Utf8Length(cur.source[k + 1..j]);
    var text :- Slice(cur.source, start, end);
    var rest :- Suffix(cur.source, if end + 1 <= Utf8Length(cur.source) then end + 1 else Utf8Length(cur.source));
    Ok(Lexed(Some(Tag(ExpressionLexer.LexState(text, startMark))),
             cur.(mark := Mark(after.line, after.column + 1), source := rest)))
  }

  /** `next`: the next token and the fields it leaves behind, or a panic. */
  function NextSpec(tags: bool, cur: Cursor): Outcome<Lexed>
  {
    Scan(tags, cur, 0, 0)
  }

  /** What a method of the lexer returned, with the fields it left: those of `spec`, or a panic where `spec` panics. */
  predicate Returned(spec: Outcome<Lexed>, r: Outcome<Option<TemplateToken>>, cur: Cursor)
  {
    match spec
    case Ok(lexed) => r == Ok(lexed.token) && cur == lexed.cursor
    case Panic => r.Panic?
  }

  // ---------------------------------------------------------------------
  // One step of `next`'s loop

  lemma ScanSpace(tags: bool, cur: Cursor, k: nat, offset: nat)
    requires k < |cur.source| && IsWhitespace(cur.source[k])
    requires !(cur.state == Newline && cur.source[k] == '\n' && cur.pending != [])
    ensures Scan(tags, cur, k, offset)
         == Scan(tags, cur.(mark := ExpressionLexer.Step(cur.mark, cur.source[k]), state := SpaceState(cur.state, cur.source[k])), k + 1, offset + Utf8Len(cur.source[k]))
  {
  }

  lemma ScanPlain(tags: bool, cur: Cursor, k: nat, offset: nat)
    requires k < |cur.source| && !IsWhitespace(cur.source[k]) && cur.state != DoubleNewline
    requires !Special(tags, cur.source[k])
    ensures var c := cur.source[k];
      Scan(tags, cur, k, offset)
      == Scan(tags, Spaced(cur).(mark := ExpressionLexer.Step(cur.mark, c), pending := Spaced(cur).pending + [c], state := CharState(c)), k + 1, offset + Utf8Len(c))
  {
  }

  lemma ScanSpecial(tags: bool, cur: Cursor, k: nat, offset: nat)
    requires k < |cur.source| && !IsWhitespace(cur.source[k]) && cur.state != DoubleNewline
    requires Special(tags, cur.source[k]) && Spaced(cur).pending == []
    ensures Scan(tags, cur, k, offset) == SpecialToken(tags, Spaced(cur), k, offset)
  {
  }

  // ---------------------------------------------------------------------
  // The lexer

  /**
   * `TemplateLex`. The symbol table and the attribution the source keeps
   * beside these fields are only handed on to the expression lexer of a
   * tag; here a tag token carries the cursor that lexer starts from.
   */
  class TemplateLex {
    const tags: bool
    var source: string
    var line: nat
    var column: nat
    var state: LexerState
    var pending: string

    function Current(): Cursor
      reads this
    {
      Cursor(source, Mark(line, column), state, pending)
    }

    /** `TemplateLexer::lex` (`tags`) or `TextLexer::lex` (no tags). */
    constructor Lex(tags: bool, source: string)
      ensures this.tags == tags && Current() == Start(source)
    {
      this.tags := tags;
      this.source := source;
      line, column := 0, 0;
      state := Initial;
      pending := [];
    }

    /** Move the mark past the char `c`. */
    method Move(c: char)
      modifies this
      ensures Current() == old(Current().(mark := ExpressionLexer.Step(Current().mark, c)))
    {
      if c == '\n' {
        line, column := line + 1, 0;
      } else {
        column := column + Utf8Len(c);
      }
    }

    /** `next`: the next token; `None` once nothing but whitespace is left. */
    method Next() returns (r: Outcome<Option<TemplateToken>>)
      modifies this
      ensures Returned(NextSpec(tags, old(Current())), r, Current())
    {
      ghost var spec := NextSpec(tags, Current());
      var chars := source;
      var k: nat, offset: nat := 0, 0;
      while k < |chars|
        invariant k <= |chars| && source == chars
        invariant spec == Scan(tags, Current(), k, offset)
        decreases |chars| - k
      {
        var done;
        if IsWhitespace(chars[k]) {
          done, r, k, offset := ReadWhitespace(chars, k, offset);
          if done {
            return;
          }
        } else {
          done, r, k, offset := ReadVisible(chars, k, offset);
          if done {
            return;
          }
        }
      }
      r := ReadEnd(chars, offset);
    }

    /** The end of the text: the pending text, if any, is the last token. */
    method ReadEnd(chars: string, offset: nat) returns (r: Outcome<Option<TemplateToken>>)
      requires source == chars
      modifies this
      ensures Returned(Finish(old(Current()), offset), r, Current())
    {
      if pending != [] {
        var rest := Suffix(chars, offset);
        if rest.Panic? {
          return Panic;
        }
        r := Ok(Some(Text(pending)));
        pending := [];
        source := rest.value;
      } else {
        r := Ok(None);
      }
    }

    /**
     * The whitespace char at `k`: it moves the mark and the state; a blank
     * line ends the pending text.
     */
    method ReadWhitespace(chars: string, k0: nat, offset0: nat) returns (done: bool, r: Outcome<Option<TemplateToken>>, k: nat, offset: nat)
      requires source == chars && k0 < |chars| && IsWhitespace(chars[k0])
      modifies this
      ensures done ==> Returned(Scan(tags, old(Current()), k0, offset0), r, Current())
      ensures !done ==> k == k0 + 1 && offset == offset0 + Utf8Len(chars[k0]) && source == chars
                        && Scan(tags, Current(), k, offset) == Scan(tags, old(Current()), k0, offset0)
    {
      ghost var here := Current();
      var c := chars[k0];
      k, offset := k0 + 1, offset0 + Utf8Len(c);
      Move(c);
      match state {
        case Initial =>
        case DoubleNewline =>
        case Whitespace =>
          if c == '\n' {
            state := Newline;
          }
        case Newline =>
          if c == '\n' {
            state := DoubleNewline;
            if pending != [] {
              var rest := Suffix(chars, offset);
              if rest.Panic? {
                return true, Panic, k, offset;
              }
              r := Ok(Some(Text(pending)));
              pending := [];
              source := rest.value;
              return true, r, k, offset;
            }
          }
        case _ =>
          state := if c == '\n' then Newline else Whitespace;
      }
      ScanSpace(tags, here, k0, offset0);
      done, r := false, Ok(None);
    }

    /**
     * The visible char at `k`: after a blank line it yields the paragraph
     * break; plain text is added to the pending text; a special char ends
     * the pending text or, with none pending, is read by `ReadSpecial`.
     */
    method ReadVisible(chars: string, k0: nat, offset0: nat) returns (done: bool, r: Outcome<Option<TemplateToken>>, k: nat, offset: nat)
      requires source == chars && k0 < |chars| && !IsWhitespace(chars[k0])
      modifies this
      ensures done ==> Returned(Scan(tags, old(Current()), k0, offset0), r, Current())
      ensures !done ==> k0 < k <= |chars| && source == chars
                        && Scan(tags, Current(), k, offset) == Scan(tags, old(Current()), k0, offset0)
    {
      ghost var here := Current();
      var c := chars[k0];
      k, offset := k0, offset0;
      if state == DoubleNewline {
        var rest := Suffix(chars, offset);
        if rest.Panic? {
          return true, Panic, k, offset;
        }
        source := rest.value;
        state := Initial;
        return true, Ok(Some(ParagraphBreak)), k, offset;
      } else if state == Whitespace || state == Newline {
        pending := pending + [' '];
        state := Initial;
      }
      if !Special(tags, c) {
        ScanPlain(tags, here, k0, offset0);
        column := column + Utf8Len(c);
        pending := pending + [c];
        state := if IsAsciiPunctuation(c) then Punctuation else InText;
        return false, Ok(None), k0 + 1, offset0 + Utf8Len(c);
      }
      if pending != [] {
        var rest := Suffix(chars, offset);
        if rest.Panic? {
          return true, Panic, k, offset;
        }
        r := Ok(Some(Text(pending)));
        pending := [];
        source := rest.value;
        return true, r, k, offset;
      }
      ScanSpecial(tags, here, k0, offset0);
      done, r, k, offset := ReadSpecial(chars, k0, offset0);
    }

    /** The special char at `k0`, with nothing pending. */
    method ReadSpecial(chars: string, k0: nat, offset0: nat) returns (done: bool, r: Outcome<Option<TemplateToken>>, k: nat, offset: nat)
      requires source == chars && k0 < |chars| && Special(tags, chars[k0])
      modifies this
      ensures done ==> Returned(SpecialToken(tags, old(Current()), k0, offset0), r, Current())
      ensures !done ==> k0 < k <= |chars| && source == chars
                        && Scan(tags, Current(), k, offset) == SpecialToken(tags, old(Current()), k0, offset0)
    {
      var c := chars[k0];
      k, offset := k0, offset0;
      if c == '[' || c == ']' {
        done, r, k, offset := ReadBracket(chars, k0, offset0);
      } else if c == '*' || c == '_' {
        r := ReadDelimiter(chars, k0, offset0, c);
        done := true;
      } else {
        r := ReadTag(chars, k0, offset0);
        done := true;
      }
    }

    /** `[`, or `]` with what follows it. */
    method ReadBracket(chars: string, k0: nat, offset0: nat) returns (done: bool, r: Outcome<Option<TemplateToken>>, k: nat, offset: nat)
      requires source == chars && k0 < |chars| && (chars[k0] == '[' || chars[k0] == ']')
      modifies this
      ensures done ==> Returned(BracketToken(tags, old(Current()), k0, offset0), r, Current())
      ensures !done ==> k0 < k <= |chars| && source == chars
                        && Scan(tags, Current(), k, offset) == BracketToken(tags, old(Current()), k0, offset0)
    {
      ghost var cur := Current();
      k, offset := k0, offset0;
      if chars[k] == '[' {
        var rest := Suffix(chars, offset + 1);
        if rest.Panic? {
          return true, Panic, k, offset;
        }
        source := rest.value;
        return true, Ok(Some(AnchorBegin)), k, offset;
      }
      if k + 1 < |chars| && chars[k + 1] == '(' {
        done, r, k, offset := ReadAnchorEnd(chars, k, offset);
        return;
      }
      column := column + 1;
      assert Current() == cur.(mark := ExpressionLexer.Step(cur.mark, ']'));
      if k + 1 < |chars| {
        return false, Ok(None), k + 2, offset + 1;
      } else {
        return false, Ok(None), k + 1, offset + 1;
      }
    }

    /** `](`: the anchor's target, up to `)`. */
    method ReadAnchorEnd(chars: string, k0: nat, offset0: nat) returns (done: bool, r: Outcome<Option<TemplateToken>>, k: nat, offset: nat)
      requires source == chars && k0 + 1 < |chars| && chars[k0] == ']' && chars[k0 + 1] == '('
      modifies this
      ensures done ==> Returned(HrefToken(tags, old(Current()), k0, offset0), r, Current())
      ensures !done ==> k0 < k <= |chars| && source == chars
                        && Scan(tags, Current(), k, offset) == HrefToken(tags, old(Current()), k0, offset0)
    {
      ghost var cur := Current();
      column := column + 2;
      var end := FindHrefEnd(chars, k0 + 2, offset0 + 2, Mark(line, column));
      assert end == HrefScan(cur.source, k0 + 2, offset0 + 2, ExpressionLexer.Step(ExpressionLexer.Step(cur.mark, ']'), '('), false);
      match end {
        case Closed(_, _) =>
          HrefTokenClosed(tags, cur, k0, offset0, end);
          r := ReadTarget(chars, offset0, cur, end);
          return true, r, k0, offset0;
        case LineBreak(next, after, m) =>
          HrefTokenBreaks(tags, cur, k0, offset0, end);
          line, column, state := m.line, m.column, Newline;
          assert Current() == cur.(mark := m, state := Newline);
          return false, Ok(None), next, after;
        case Unclosed(after, m) =>
          HrefTokenUnclosed(tags, cur, k0, offset0, end);
          line, column := m.line, m.column;
          assert Current() == cur.(mark := m);
          return false, Ok(None), |chars|, after;
      }
    }

    /** The target of `](` up to the `)` at byte `end.offset`, trimmed; the source is left after the `)`. */
    method ReadTarget(chars: string, offset0: nat, ghost cur: Cursor, end: HrefEnd) returns (r: Outcome<Option<TemplateToken>>)
      requires source == chars == cur.source && state == cur.state && pending == cur.pending && end.Closed?
      modifies this
      ensures Returned(TargetToken(cur, offset0, end), r, Current())
    {
      var href := Slice(chars, offset0 + 2, end.offset);
      if href.Panic? {
        return Panic;
      }
      var rest := Suffix(chars, end.offset + 1);
      if rest.Panic? {
        return Panic;
      }
      line, column, source := end.mark.line, end.mark.column + 1, rest.value;
      assert Current() == cur.(mark := ExpressionLexer.Step(end.mark, ')'), source := rest.value);
      return Ok(Some(AnchorEnd(Trim(href.value))));
    }

    /** The loop over the target of `](`, which starts at char `k0` and byte `offset0`, from the mark `m0`. */
    method FindHrefEnd(chars: string, k0: nat, offset0: nat, m0: Mark) returns (r: HrefEnd)
      requires k0 <= |chars|
      ensures r == HrefScan(chars, k0, offset0, m0, false)
    {
      var m := m0;
      var escape := false;
      var k: nat, offset: nat := k0, offset0;
      while k < |chars|
        invariant k0 <= k <= |chars|
        invariant HrefScan(chars, k0, offset0, m0, false) == HrefScan(chars, k, offset, m, escape)
        decreases |chars| - k
      {
        var c := chars[k];
        if c == '\\' {
          escape := true;
        } else if !escape && c == '\n' {
          return LineBreak(k + 1, offset + 1, Mark(m.line + 1, 0));
        } else if !escape && c == ')' {
          return Closed(offset, m);
        }
        m := if c == '\n' then Mark(m.line + 1, 0) else Mark(m.line, m.column + Utf8Len(c));
        k, offset := k + 1, offset + Utf8Len(c);
      }
      r := Unclosed(offset, m);
    }

    /** A delimiter run of `c` at `k`; the rest of the source after it. */
    method ReadDelimiter(chars: string, k: nat, offset: nat, c: char) returns (r: Outcome<Option<TemplateToken>>)
      requires source == chars && k < |chars| && chars[k] == c
      modifies this
      ensures Returned(DelimiterSpec(old(Current()), k, offset, c), r, Current())
    {
      ghost var cur := Current();
      var length := 1;
      var whitespacePrecedes := state == Initial || state == Newline || state == DoubleNewline || state == Whitespace;
      var punctuationPrecedes := state == Punctuation;
      while k + length < |chars| && chars[k + length] == c
        invariant k + length <= |chars|
        invariant RunOf(chars, k, c) == length + RunOf(chars, k + length, c)
        decreases |chars| - length
      {
        length := length + 1;
      }
      assert length == RunOf(chars, k, c);
      column := column + length;
      var whitespaceFollows, punctuationFollows := true, false;
      if k + length < |chars| {
        whitespaceFollows := IsWhitespace(chars[k + length]);
        punctuationFollows := IsAsciiPunctuation(chars[k + length]);
      }
      var delimiter := Classify(c, length, Flanks(whitespacePrecedes, punctuationPrecedes, whitespaceFollows, punctuationFollows));
      var rest := Suffix(chars, offset + length);
      ghost var moved := cur.(mark := Mark(cur.mark.line, cur.mark.column + length));
      assert DelimiterSpec(cur, k, offset, c) == if rest.Panic? then Panic else Ok(Lexed(Some(DelimiterRun(delimiter)), moved.(source := rest.value)));
      if rest.Panic? {
        return Panic;
      }
      source := rest.value;
      assert Current() == moved.(source := rest.value);
      r := Ok(Some(DelimiterRun(delimiter)));
    }

    /**
     * The `}` that ends a tag whose text starts at char `from` and byte
     * `start` (or the end), with the byte offset and the mark there.
     */
    method FindTagEnd(chars: string, from: nat, start: nat, startMark: Mark) returns (j: nat, offset: nat, m: Mark)
      requires from <= |chars|
      ensures j == CloseBrace(chars, from) && offset == start + Utf8Length(chars[from..j])
      ensures m == ExpressionLexer.MarkAfter(startMark, chars[from..j])
    {
      ghost var close := CloseBrace(chars, from);
      m, j, offset := startMark, from, start;
      while j < |chars| && chars[j] != '}'
        invariant from <= j <= close && offset == start + Utf8Length(chars[from..j])
        invariant ExpressionLexer.MarkAfter(startMark, chars[from..close]) == ExpressionLexer.MarkAfter(m, chars[j..close])
        decreases |chars| - j
      {
        assert chars[j..close][1..] == chars[j + 1..close];
        assert chars[from..j + 1] == chars[from..j] + [chars[j]];
        Utf8LengthAppend(chars[from..j], [chars[j]]);
        m := if chars[j] == '\n' then Mark(m.line + 1, 0) else Mark(m.line, m.column + Utf8Len(chars[j]));
        offset := offset + Utf8Len(chars[j]);
        j := j + 1;
      }
    }

    /** A tag opened at `k`: its text up to `}`, lexed from the mark after `{`. */
    method ReadTag(chars: string, k: nat, offset0: nat) returns (r: Outcome<Option<TemplateToken>>)
      requires source == chars && k < |chars| && chars[k] == '{'
      modifies this
      ensures Returned(TagSpec(old(Current()), k, offset0), r, Current())
    {
      ghost var cur := Current();
      var startMark := Mark(line, column + 1);
      var start := offset0 + 1;
      var j, offset, m := FindTagEnd(chars, k + 1, start, startMark);
      var tagSource := Slice(chars, start, offset);
      offset := offset + 1;
      var len := Utf8Length(chars);
      var rest := Suffix(chars, if offset <= len then offset else len);
      assert TagSpec(cur, k, offset0) ==
        if tagSource.Panic? || rest.Panic? then Panic
        else Ok(Lexed(Some(Tag(ExpressionLexer.LexState(tagSource.value, startMark))), cur.(mark := Mark(m.line, m.column + 1), source := rest.value)));
      if tagSource.Panic? || rest.Panic? {
        return Panic;
      }
      line, column := m.line, m.column + 1;
      source := rest.value;
      r := Ok(Some(Tag(ExpressionLexer.LexState(tagSource.value, startMark))));
    }
  }
}
