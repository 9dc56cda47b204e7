/**
 * What the template lexer (compiler/src/template/lexer.rs) promises about
 * the tokens it yields: text runs are non-empty, hold no special char and
 * have their whitespace collapsed to single spaces; nothing read is left
 * pending; the text lexer never yields a tag; and how anchor targets,
 * delimiter runs and tags are delimited.
 */
module TemplateLexerFacts {
  import opened Common
  import opened TemplateLexer
  import ExpressionLexer

  /**
   * Text as the lexer collects it: no special char, no whitespace other
   * than a single space between words.
   */
  predicate PlainText(tags: bool, t: string)
  {
    forall i :: 0 <= i < |t| ==>
      !Special(tags, t[i]) && (IsWhitespace(t[i]) ==> t[i] == ' ') && (i + 1 < |t| && t[i] == ' ' ==> t[i + 1] != ' ')
  }

  /**
   * A cursor the lexer can be in between two chars: its pending text is
   * plain; if it ends in a space, the spaces read since are not noted
   * again; and a blank line has already handed its text on.
   */
  predicate Settled(tags: bool, cur: Cursor)
  {
    && PlainText(tags, cur.pending)
    && (cur.pending != [] && cur.pending[|cur.pending| - 1] == ' ' ==> cur.state == Initial)
    && (cur.state == DoubleNewline ==> cur.pending == [])
  }

  /**
   * What a call of `next` leaves and yields: nothing pending, a settled
   * cursor, text that is non-empty and plain, and tags only from the
   * template lexer.
   */
  predicate Yields(tags: bool, r: Lexed)
  {
    && r.cursor.pending == []
    && Settled(tags, r.cursor)
    && (r.token.Some? && r.token.value.Text? ==> r.token.value.text != [] && PlainText(tags, r.token.value.text))
    && (r.token.Some? && r.token.value.Tag? ==> tags)
  }

  lemma StartSettled(tags: bool, source: string)
    ensures Settled(tags, Start(source)) && Start(source).pending == []
  {
  }

  /** Adding a visible plain char to settled pending text keeps it plain. */
  lemma PushPlain(tags: bool, cur: Cursor, c: char)
    requires Settled(tags, cur) && cur.state != DoubleNewline
    requires !IsWhitespace(c) && !Special(tags, c)
    ensures var spaced := Spaced(cur);
      Settled(tags, spaced.(mark := ExpressionLexer.Step(cur.mark, c), pending := spaced.pending + [c], state := CharState(c)))
  {
    var spaced := Spaced(cur);
    var t := spaced.pending + [c];
    assert ' ' != c;
    if cur.state == Whitespace || cur.state == Newline {
      assert spaced.pending == cur.pending + [' '];
      assert forall i :: 0 <= i < |cur.pending| ==> t[i] == cur.pending[i];
    } else {
      assert spaced.pending == cur.pending;
    }
    assert PlainText(tags, t);
  }

  /** The text lexer reads the pending space before a special char as plain. */
  lemma SpacedPlain(tags: bool, cur: Cursor)
    requires Settled(tags, cur) && cur.state != DoubleNewline
    ensures PlainText(tags, Spaced(cur).pending)
    ensures Spaced(cur).state != DoubleNewline
  {
    var t := Spaced(cur).pending;
    if cur.state == Whitespace || cur.state == Newline {
      assert forall i :: 0 <= i < |cur.pending| ==> t[i] == cur.pending[i];
    }
  }

  lemma FinishYields(tags: bool, cur: Cursor, offset: nat)
    requires Settled(tags, cur)
    ensures var r := Finish(cur, offset); r.Ok? ==> Yields(tags, r.value)
  {
  }

  /** Every way out of the loop of `next` yields as `Yields` says. */
  lemma {:induction false} ScanYields(tags: bool, cur: Cursor, k: nat, offset: nat)
    requires k <= |cur.source| && Settled(tags, cur)
    ensures var r := Scan(tags, cur, k, offset); r.Ok? ==> Yields(tags, r.value)
    decreases |cur.source| - k, 3
  {
    if k == |cur.source| {
      FinishYields(tags, cur, offset);
    } else {
      var c := cur.source[k];
      if IsWhitespace(c) {
        var moved := cur.(mark := ExpressionLexer.Step(cur.mark, c), state := SpaceState(cur.state, c));
        if !(cur.state == Newline && c == '\n' && cur.pending != []) {
          assert Settled(tags, moved);
          ScanYields(tags, moved, k + 1, offset + Utf8Len(c));
        }
      } else if cur.state != DoubleNewline {
        var spaced := Spaced(cur);
        SpacedPlain(tags, cur);
        if !Special(tags, c) {
          PushPlain(tags, cur, c);
          ScanYields(tags, spaced.(mark := ExpressionLexer.Step(cur.mark, c), pending := spaced.pending + [c], state := CharState(c)), k + 1, offset + Utf8Len(c));
        } else if spaced.pending == [] {
          SpecialYields(tags, spaced, k, offset);
        }
      }
    }
  }

  lemma {:induction false} SpecialYields(tags: bool, cur: Cursor, k: nat, offset: nat)
    requires k < |cur.source| && Special(tags, cur.source[k])
    requires cur.pending == [] && cur.state != DoubleNewline
    ensures var r := SpecialToken(tags, cur, k, offset); r.Ok? ==> Yields(tags, r.value)
    decreases |cur.source| - k, 2
  {
    var c := cur.source[k];
    if c == '[' || c == ']' {
      BracketYields(tags, cur, k, offset);
    }
  }

  lemma {:induction false} BracketYields(tags: bool, cur: Cursor, k: nat, offset: nat)
    requires k < |cur.source| && (cur.source[k] == '[' || cur.source[k] == ']')
    requires cur.pending == [] && cur.state != DoubleNewline
    ensures var r := BracketToken(tags, cur, k, offset); r.Ok? ==> Yields(tags, r.value)
    decreases |cur.source| - k, 1
  {
    if cur.source[k] == ']' {
      if k + 1 < |cur.source| && cur.source[k + 1] == '(' {
        HrefYields(tags, cur, k, offset);
      } else {
        var moved := cur.(mark := ExpressionLexer.Step(cur.mark, ']'));
        if k + 1 < |cur.source| {
          ScanYields(tags, moved, k + 2, offset + 1);
        } else {
          ScanYields(tags, moved, k + 1, offset + 1);
        }
      }
    }
  }

  lemma {:induction false} HrefYields(tags: bool, cur: Cursor, k: nat, offset: nat)
    requires k + 1 < |cur.source|
    requires cur.pending == [] && cur.state != DoubleNewline
    ensures var r := HrefToken(tags, cur, k, offset); r.Ok? ==> Yields(tags, r.value)
    decreases |cur.source| - k, 0
  {
    var m := ExpressionLexer.Step(ExpressionLexer.Step(cur.mark, ']'), '(');
    match HrefScan(cur.source, k + 2, offset + 2, m, false)
    case Closed(_, _) =>
    case LineBreak(next, end, m') =>
      ScanYields(tags, cur.(mark := m', state := Newline), next, end);
    case Unclosed(end, m') =>
      FinishYields(tags, cur.(mark := m'), end);
  }

  /**
   * `next` from a settled cursor with nothing pending, unless it panics:
   * the text it yields is non-empty and plain, it leaves nothing pending,
   * and only the template lexer yields tags. Since the lexer starts
   * settled, this holds for every token of the stream.
   */
  lemma NextYields(tags: bool, cur: Cursor)
    requires Settled(tags, cur) && cur.pending == []
    ensures var r := NextSpec(tags, cur); r.Ok? ==> Yields(tags, r.value)
  {
    ScanYields(tags, cur, 0, 0);
  }

  /** The text lexer (no tags) never yields a tag. */
  lemma TextLexerHasNoTags(cur: Cursor)
    requires Settled(false, cur) && cur.pending == []
    ensures var r := NextSpec(false, cur); r.Ok? && r.value.token.Some? ==> !r.value.token.value.Tag?
  {
    NextYields(false, cur);
  }

  // ---------------------------------------------------------------------
  // Progress

  /**
   * How much is left for the lexer to do: three per char of source, plus
   * one for whitespace not yet turned into a space and two for a blank line
   * not yet yielded. Every token yields makes it smaller, so a loop that
   * pulls tokens until there are none ends.
   */
  function Remaining(cur: Cursor): nat
  {
    3 * |cur.source| + (if cur.state == DoubleNewline then 2 else if cur.state == Whitespace || cur.state == Newline then 1 else 0)
  }

  /**
   * The loop of `next`, from a cursor `orig` with nothing pending: a token
   * either consumes a byte or, at the very start, ends a blank line or a
   * run of whitespace without consuming anything.
   */
  lemma {:induction false} ScanProgress(tags: bool, orig: Cursor, cur: Cursor, k: nat, offset: nat)
    requires cur.source == orig.source && orig.pending == [] && k <= |cur.source|
    requires offset == 0 ==> k == 0 && cur == orig
    ensures var r := Scan(tags, cur, k, offset); r.Ok? && r.value.token.Some? ==> Remaining(r.value.cursor) < Remaining(orig)
    decreases |cur.source| - k, 3
  {
    if k < |cur.source| {
      var c := cur.source[k];
      if IsWhitespace(c) {
        var moved := cur.(mark := ExpressionLexer.Step(cur.mark, c), state := SpaceState(cur.state, c));
        if !(cur.state == Newline && c == '\n' && cur.pending != []) {
          ScanProgress(tags, orig, moved, k + 1, offset + Utf8Len(c));
        }
      } else if cur.state != DoubleNewline {
        var spaced := Spaced(cur);
        if !Special(tags, c) {
          ScanProgress(tags, orig, spaced.(mark := ExpressionLexer.Step(cur.mark, c), pending := spaced.pending + [c], state := CharState(c)), k + 1, offset + Utf8Len(c));
        } else if spaced.pending == [] {
          SpecialProgress(tags, orig, spaced, k, offset);
        }
      }
    }
  }

  lemma {:induction false} SpecialProgress(tags: bool, orig: Cursor, cur: Cursor, k: nat, offset: nat)
    requires cur.source == orig.source && orig.pending == [] && cur.pending == []
    requires k < |cur.source| && Special(tags, cur.source[k])
    ensures var r := SpecialToken(tags, cur, k, offset); r.Ok? && r.value.token.Some? ==> Remaining(r.value.cursor) < Remaining(orig)
    decreases |cur.source| - k, 2
  {
    var c := cur.source[k];
    if c == '[' || c == ']' {
      BracketProgress(tags, orig, cur, k, offset);
    } else if c == '*' || c == '_' {
      assert RunOf(cur.source, k, c) >= 1;
    }
  }

  lemma {:induction false} BracketProgress(tags: bool, orig: Cursor, cur: Cursor, k: nat, offset: nat)
    requires cur.source == orig.source && orig.pending == [] && cur.pending == []
    requires k < |cur.source| && (cur.source[k] == '[' || cur.source[k] == ']')
    ensures var r := BracketToken(tags, cur, k, offset); r.Ok? && r.value.token.Some? ==> Remaining(r.value.cursor) < Remaining(orig)
    decreases |cur.source| - k, 1
  {
    if cur.source[k] == ']' {
      if k + 1 < |cur.source| && cur.source[k + 1] == '(' {
        HrefProgress(tags, orig, cur, k, offset);
      } else {
        var moved := cur.(mark := ExpressionLexer.Step(cur.mark, ']'));
        if k + 1 < |cur.source| {
          ScanProgress(tags, orig, moved, k + 2, offset + 1);
        } else {
          ScanProgress(tags, orig, moved, k + 1, offset + 1);
        }
      }
    }
  }

  lemma {:induction false} HrefProgress(tags: bool, orig: Cursor, cur: Cursor, k: nat, offset: nat)
    requires cur.source == orig.source && orig.pending == [] && cur.pending == []
    requires k + 1 < |cur.source|
    ensures var r := HrefToken(tags, cur, k, offset); r.Ok? && r.value.token.Some? ==> Remaining(r.value.cursor) < Remaining(orig)
    decreases |cur.source| - k, 0
  {
    var h := HrefScan(cur.source, k + 2, offset + 2, ExpressionLexer.Step(ExpressionLexer.Step(cur.mark, ']'), '('), false);
    if h.LineBreak? {
      ScanProgress(tags, orig, cur.(mark := h.mark, state := Newline), h.k, h.offset);
      HrefBreaks(tags, cur, k, offset);
    } else {
      HrefEnds(tags, orig, cur, k, offset, h);
    }
  }

  /** A target closed by `)` is consumed with it; one the text ends in yields its pending text, if any, and drops the rest. */
  lemma HrefEnds(tags: bool, orig: Cursor, cur: Cursor, k: nat, offset: nat, h: HrefEnd)
    requires cur.source == orig.source && orig.pending == [] && cur.pending == []
    requires k + 1 < |cur.source|
    requires h == HrefScan(cur.source, k + 2, offset + 2, ExpressionLexer.Step(ExpressionLexer.Step(cur.mark, ']'), '('), false) && !h.LineBreak?
    ensures var r := HrefToken(tags, cur, k, offset); r.Ok? && r.value.token.Some? ==> Remaining(r.value.cursor) < Remaining(orig)
  {
    var r := HrefToken(tags, cur, k, offset);
    if h.Closed? {
      var rest := Suffix(cur.source, h.offset + 1);
      assert r.Ok? ==> r.value.cursor.source == rest.value;
    } else {
      assert r == Ok(Lexed(None, cur.(mark := h.mark)));
    }
  }

  /** A target broken by a newline: lexing carries on after it. */
  lemma HrefBreaks(tags: bool, cur: Cursor, k: nat, offset: nat)
    requires k + 1 < |cur.source|
    requires HrefScan(cur.source, k + 2, offset + 2, ExpressionLexer.Step(ExpressionLexer.Step(cur.mark, ']'), '('), false).LineBreak?
    ensures var h := HrefScan(cur.source, k + 2, offset + 2, ExpressionLexer.Step(ExpressionLexer.Step(cur.mark, ']'), '('), false);
      HrefToken(tags, cur, k, offset) == Scan(tags, cur.(mark := h.mark, state := Newline), h.k, h.offset)
  {
  }

  /** Every token `next` yields from a cursor with nothing pending leaves less to do. */
  lemma NextProgress(tags: bool, cur: Cursor)
    requires cur.pending == []
    ensures var r := NextSpec(tags, cur); r.Ok? && r.value.token.Some? ==> Remaining(r.value.cursor) < Remaining(cur)
  {
    ScanProgress(tags, cur, cur, 0, 0);
  }

  /** What `Shrinks` says: the source left is no longer, and shorter after a tag. */
  predicate Shrinks(cur: Cursor, r: Outcome<Lexed>)
  {
    r.Ok? ==> |r.value.cursor.source| <= |cur.source| && (r.value.token.Some? && r.value.token.value.Tag? ==> |r.value.cursor.source| < |cur.source|)
  }

  /** The loop of `next` only ever drops a prefix of the source, and a tag drops at least its `{`. */
  lemma {:induction false} ScanShrinks(tags: bool, cur: Cursor, k: nat, offset: nat)
    requires k <= |cur.source|
    ensures Shrinks(cur, Scan(tags, cur, k, offset))
    decreases |cur.source| - k, 3
  {
    if k < |cur.source| {
      var c := cur.source[k];
      if IsWhitespace(c) {
        var moved := cur.(mark := ExpressionLexer.Step(cur.mark, c), state := SpaceState(cur.state, c));
        if !(cur.state == Newline && c == '\n' && cur.pending != []) {
          ScanShrinks(tags, moved, k + 1, offset + Utf8Len(c));
        }
      } else if cur.state != DoubleNewline {
        var spaced := Spaced(cur);
        if !Special(tags, c) {
          ScanShrinks(tags, spaced.(mark := ExpressionLexer.Step(cur.mark, c), pending := spaced.pending + [c], state := CharState(c)), k + 1, offset + Utf8Len(c));
        } else if spaced.pending == [] {
          SpecialShrinks(tags, spaced, k, offset);
        }
      }
    }
  }

  lemma {:induction false} SpecialShrinks(tags: bool, cur: Cursor, k: nat, offset: nat)
    requires k < |cur.source| && Special(tags, cur.source[k])
    ensures Shrinks(cur, SpecialToken(tags, cur, k, offset))
    decreases |cur.source| - k, 2
  {
    var c := cur.source[k];
    if c == '[' || c == ']' {
      BracketShrinks(tags, cur, k, offset);
    }
  }

  lemma {:induction false} BracketShrinks(tags: bool, cur: Cursor, k: nat, offset: nat)
    requires k < |cur.source| && (cur.source[k] == '[' || cur.source[k] == ']')
    ensures Shrinks(cur, BracketToken(tags, cur, k, offset))
    decreases |cur.source| - k, 1
  {
    if cur.source[k] == ']' {
      if k + 1 < |cur.source| && cur.source[k + 1] == '(' {
        HrefShrinks(tags, cur, k, offset);
      } else {
        var moved := cur.(mark := ExpressionLexer.Step(cur.mark, ']'));
        if k + 1 < |cur.source| {
          ScanShrinks(tags, moved, k + 2, offset + 1);
        } else {
          ScanShrinks(tags, moved, k + 1, offset + 1);
        }
      }
    }
  }

  lemma {:induction false} HrefShrinks(tags: bool, cur: Cursor, k: nat, offset: nat)
    requires k + 1 < |cur.source|
    ensures Shrinks(cur, HrefToken(tags, cur, k, offset))
    decreases |cur.source| - k, 0
  {
    var h := HrefScan(cur.source, k + 2, offset + 2, ExpressionLexer.Step(ExpressionLexer.Step(cur.mark, ']'), '('), false);
    if h.LineBreak? {
      ScanShrinks(tags, cur.(mark := h.mark, state := Newline), h.k, h.offset);
      HrefBreaks(tags, cur, k, offset);
    } else {
      HrefEndsShrinks(tags, cur, k, offset, h);
    }
  }

  lemma HrefEndsShrinks(tags: bool, cur: Cursor, k: nat, offset: nat, h: HrefEnd)
    requires k + 1 < |cur.source|
    requires h == HrefScan(cur.source, k + 2, offset + 2, ExpressionLexer.Step(ExpressionLexer.Step(cur.mark, ']'), '('), false) && !h.LineBreak?
    ensures Shrinks(cur, HrefToken(tags, cur, k, offset))
  {
  }

  /** `next` only ever drops a prefix of the source, and a tag drops at least its `{`. */
  lemma NextShrinks(tags: bool, cur: Cursor)
    ensures Shrinks(cur, NextSpec(tags, cur))
  {
    ScanShrinks(tags, cur, 0, 0);
  }

  // ---------------------------------------------------------------------
  // Anchor targets

  /**
   * Once a backslash has been read in an anchor's target, the target never
   * ends: neither `)` nor a newline closes it, and the lexer gives up at
   * the end of the text, every byte counted and the mark moved past all of
   * it.
   */
  lemma {:induction false} EscapeNeverCloses(s: string, k: nat, offset: nat, m: Mark)
    requires k <= |s|
    ensures HrefScan(s, k, offset, m, true) == Unclosed(offset + Utf8Length(s[k..]), ExpressionLexer.MarkAfter(m, s[k..]))
    decreases |s| - k
  {
    if k < |s| {
      EscapeNeverCloses(s, k + 1, offset + Utf8Len(s[k]), ExpressionLexer.Step(m, s[k]));
      assert s[k..][1..] == s[k + 1..];
    } else {
      assert s[k..] == [];
    }
  }

  /** A char that ends nothing in an anchor's target. */
  predicate TargetChar(c: char)
  {
    c != '\\' && c != '\n' && c != ')'
  }

  /**
   * A target of ordinary chars up to `)` at `j` closes there, at the byte
   * offset and the mark of the `)`.
   */
  lemma {:induction false} TargetCloses(s: string, k: nat, offset: nat, m: Mark, j: nat)
    requires k <= j < |s| && s[j] == ')'
    requires forall i :: k <= i < j ==> TargetChar(s[i])
    ensures HrefScan(s, k, offset, m, false) == Closed(offset + Utf8Length(s[k..j]), ExpressionLexer.MarkAfter(m, s[k..j]))
    decreases j - k
  {
    if k < j {
      var m' := ExpressionLexer.Step(m, s[k]);
      assert TargetChar(s[k]);
      TargetCloses(s, k + 1, offset + Utf8Len(s[k]), m', j);
      assert s[k..j][1..] == s[k + 1..j];
    } else {
      assert s[k..j] == [];
    }
  }

  /**
   * A target of ordinary chars up to a newline at `j` is abandoned there:
   * lexing carries on after the newline, at the start of the next line.
   */
  lemma {:induction false} TargetBreaks(s: string, k: nat, offset: nat, m: Mark, j: nat)
    requires k <= j < |s| && s[j] == '\n'
    requires forall i :: k <= i < j ==> TargetChar(s[i])
    ensures HrefScan(s, k, offset, m, false)
         == LineBreak(j + 1, offset + Utf8Length(s[k..j]) + 1, Mark(ExpressionLexer.MarkAfter(m, s[k..j]).line + 1, 0))
    decreases j - k
  {
    if k < j {
      TargetBreaks(s, k + 1, offset + Utf8Len(s[k]), ExpressionLexer.Step(m, s[k]), j);
      assert s[k..j][1..] == s[k + 1..j];
    } else {
      assert s[k..j] == [];
    }
  }

  /** The bytes of the first `k + 1` chars, the char at `k` being ASCII. */
  lemma AsciiStep(s: string, k: nat)
    requires k < |s| && s[k] as int < 0x80
    ensures Utf8Length(s[..k + 1]) == Utf8Length(s[..k]) + 1
  {
    Utf8PrefixStep(s, k);
  }

  /**
   * An anchor read with nothing skipped, whose target holds only ordinary
   * chars up to a `)`: it yields that target, trimmed, and the source
   * resumes after the `)`.
   */
  lemma AnchorTargetTrimmed(tags: bool, cur: Cursor, k: nat, j: nat)
    requires k + 1 < j < |cur.source| && cur.source[k] == ']' && cur.source[k + 1] == '(' && cur.source[j] == ')'
    requires forall i :: k + 2 <= i < j ==> TargetChar(cur.source[i])
    ensures var r := HrefToken(tags, cur, k, Utf8Length(cur.source[..k]));
      r.Ok? && r.value.token == Some(AnchorEnd(Trim(cur.source[k + 2..j]))) && r.value.cursor.source == cur.source[j + 1..]
  {
    var s := cur.source;
    var m := ExpressionLexer.Step(ExpressionLexer.Step(cur.mark, ']'), '(');
    AsciiStep(s, k);
    AsciiStep(s, k + 1);
    var offset := Utf8Length(s[..k]);
    TargetCloses(s, k + 2, offset + 2, m, j);
    Utf8PrefixSplit(s, k + 2, j);
    HrefClosedAt(tags, cur, k, offset, HrefScan(s, k + 2, offset + 2, m, false), j);
  }

  // ---------------------------------------------------------------------
  // Delimiter runs and tags

  /** `RunOf` counts the whole run: every char in it is `c`, and the char after it is not. */
  lemma {:induction false} RunIsMaximal(s: string, i: nat, c: char)
    requires i <= |s|
    ensures var n := RunOf(s, i, c);
      (forall j :: i <= j < i + n ==> s[j] == c) && (i + n < |s| ==> s[i + n] != c)
    decreases |s| - i
  {
    if i < |s| && s[i] == c {
      RunIsMaximal(s, i + 1, c);
    }
  }

  /** A run of `n` ASCII chars takes `n` bytes. */
  lemma {:induction false} AsciiRunBytes(s: string, k: nat, n: nat)
    requires k + n <= |s| && forall j :: k <= j < k + n ==> s[j] as int < 0x80
    ensures Utf8Length(s[..k + n]) == Utf8Length(s[..k]) + n
    decreases n
  {
    if n > 0 {
      AsciiRunBytes(s, k, n - 1);
      AsciiStep(s, k + n - 1);
    }
  }

  /** A run that may open is not followed by whitespace; one that may close is not preceded by it. */
  lemma FlankingNeedsNeighbours(c: char, n: nat, f: Flanks)
    ensures Classify(c, n, f).opener ==> !f.whitespaceFollows
    ensures Classify(c, n, f).closer ==> !f.whitespacePrecedes
    ensures Classify(c, n, f).character == c && Classify(c, n, f).length == n
  {
  }

  /**
   * Between two letters, a `*` run both opens and closes, while a `_` run
   * does neither: underscores inside a word are not emphasis.
   */
  lemma Intraword(n: nat)
    ensures var f := Flanks(false, false, false, false);
      Classify('*', n, f).opener && Classify('*', n, f).closer
      && !Classify('_', n, f).opener && !Classify('_', n, f).closer
  {
  }

  /**
   * A delimiter run read with nothing skipped: its length is that of the
   * whole run of `c` at `k`, and the source resumes right after the run.
   */
  lemma DelimiterRunRead(cur: Cursor, k: nat, c: char)
    requires k < |cur.source| && cur.source[k] == c && (c == '*' || c == '_')
    ensures var r := DelimiterSpec(cur, k, Utf8Length(cur.source[..k]), c);
      r.Ok? && r.value.token.Some? && r.value.token.value.DelimiterRun?
      && var n := r.value.token.value.delimiter.length;
      r.value.token.value.delimiter.character == c && n >= 1
      && (forall j :: k <= j < k + n ==> cur.source[j] == c)
      && (k + n < |cur.source| ==> cur.source[k + n] != c)
      && r.value.cursor.source == cur.source[k + n..]
  {
    var n := RunOf(cur.source, k, c);
    RunIsMaximal(cur.source, k, c);
    AsciiRunBytes(cur.source, k, n);
    SuffixAtChar(cur.source, k + n, Utf8Length(cur.source[..k + n]));
  }

  /**
   * How a tag at char `k` of `s` is delimited: its text is everything
   * between the `{` and the next `}` (or the end), none of it a `}`, and
   * what is left is what follows that `}`, or nothing.
   */
  predicate TagDelimited(s: string, k: nat, text: string, rest: string)
  {
    k + 1 + |text| <= |s| && text == s[k + 1..k + 1 + |text|]
    && (forall i :: 0 <= i < |text| ==> text[i] != '}')
    && (k + 1 + |text| < |s| ==> s[k + 1 + |text|] == '}' && rest == s[k + 2 + |text|..])
    && (k + 1 + |text| == |s| ==> rest == [])
  }

  /** A tag read with nothing skipped is delimited by its braces. */
  lemma TagRead(cur: Cursor, k: nat)
    requires k < |cur.source| && cur.source[k] == '{'
    ensures var r := TagSpec(cur, k, Utf8Length(cur.source[..k]));
      r.Ok? && r.value.token.Some? && r.value.token.value.Tag?
      && TagDelimited(cur.source, k, r.value.token.value.lex.source, r.value.cursor.source)
  {
    var s := cur.source;
    var offset := Utf8Length(s[..k]);
    var j := CloseBrace(s, k + 1);
    var end := offset + 1 + Utf8Length(s[k + 1..j]);
    var rest := if j < |s| then s[j + 1..] else [];
    TagText(s, k, j, offset, end);
    TagRest(s, j, end);
    TagValue(cur, k, offset, j, end, rest);
    CloseBraceDelimits(s, k, j);
  }

  /** The next `}` after char `k` delimits a tag. */
  lemma CloseBraceDelimits(s: string, k: nat, j: nat)
    requires k < |s| && j == CloseBrace(s, k + 1)
    ensures TagDelimited(s, k, s[k + 1..j], if j < |s| then s[j + 1..] else [])
  {
    var text := s[k + 1..j];
    assert forall i :: 0 <= i < |text| ==> text[i] == s[k + 1 + i];
  }

  /** `TagSpec` once both its slices are known. */
  lemma TagValue(cur: Cursor, k: nat, offset: nat, j: nat, end: nat, rest: string)
    requires k < |cur.source| && cur.source[k] == '{' && j == CloseBrace(cur.source, k + 1)
    requires end == offset + 1 + Utf8Length(cur.source[k + 1..j])
    requires Slice(cur.source, offset + 1, end) == Ok(cur.source[k + 1..j])
    requires Suffix(cur.source, if end + 1 <= Utf8Length(cur.source) then end + 1 else Utf8Length(cur.source)) == Ok(rest)
    ensures var r := TagSpec(cur, k, offset);
      r.Ok? && r.value.token == Some(Tag(ExpressionLexer.LexState(cur.source[k + 1..j], ExpressionLexer.Step(cur.mark, '{'))))
      && r.value.cursor.source == rest
  {
  }

  /** Read from a char boundary, the slice `TagSpec` takes for the tag's text falls at char boundaries and ends at char `j`. */
  lemma TagText(s: string, k: nat, j: nat, offset: nat, end: nat)
    requires k < j <= |s| && s[k] == '{'
    requires offset == Utf8Length(s[..k]) && end == offset + 1 + Utf8Length(s[k + 1..j])
    ensures end == Utf8Length(s[..j])
    ensures Slice(s, offset + 1, end) == Ok(s[k + 1..j])
  {
    AsciiStep(s, k);
    Utf8PrefixSplit(s, k + 1, j);
    SliceAtChars(s, k + 1, j, offset + 1, end);
  }

  /** What `TagSpec` leaves after a tag that ends at char `j`: the chars after its `}`, or nothing. */
  lemma TagRest(s: string, j: nat, end: nat)
    requires j <= |s| && (j < |s| ==> s[j] == '}') && end == Utf8Length(s[..j])
    ensures Suffix(s, if end + 1 <= Utf8Length(s) then end + 1 else Utf8Length(s)) == Ok(if j < |s| then s[j + 1..] else [])
  {
    if j < |s| {
      ClosedTagRest(s, j, end);
    } else {
      OpenTagRest(s, end);
    }
  }

  /** After a tag closed by the `}` at char `j`, the source resumes after it. */
  lemma ClosedTagRest(s: string, j: nat, end: nat)
    requires j < |s| && s[j] == '}' && end == Utf8Length(s[..j])
    ensures Suffix(s, if end + 1 <= Utf8Length(s) then end + 1 else Utf8Length(s)) == Ok(s[j + 1..])
  {
    AsciiStep(s, j);
    if j + 1 < |s| {
      Utf8PrefixMonotone(s, j + 1, |s|);
    }
    assert s[..|s|] == s;
    assert end + 1 <= Utf8Length(s);
    SuffixAtChar(s, j + 1, end + 1);
  }

  /** After a tag the text ends in, nothing is left. */
  lemma OpenTagRest(s: string, end: nat)
    requires end == Utf8Length(s[..|s|])
    ensures Suffix(s, if end + 1 <= Utf8Length(s) then end + 1 else Utf8Length(s)) == Ok([])
  {
    assert s[..|s|] == s;
    SuffixAtChar(s, |s|, end);
  }

  // ---------------------------------------------------------------------
  // When `next` panics

  /**
   * Every `]` of `s`, except one at the very end, is followed by `(`: the
   * lexer then never reads a char without counting its bytes.
   */
  predicate NoStrayBracket(s: string)
  {
    forall i :: 0 <= i < |s| - 1 && s[i] == ']' ==> s[i + 1] == '('
  }

  /** Read from a char boundary, an anchor's target ends at char boundaries. */
  lemma {:induction false} HrefScanAligned(s: string, k: nat, m: Mark, escape: bool)
    requires k <= |s|
    ensures var r := HrefScan(s, k, Utf8Length(s[..k]), m, escape);
      && (r.Closed? ==> exists j :: k <= j < |s| && Utf8Length(s[..j]) == r.offset && s[j] == ')')
      && (r.LineBreak? ==> r.offset == Utf8Length(s[..r.k]))
      && (r.Unclosed? ==> r.offset == Utf8Length(s))
    decreases |s| - k
  {
    if k == |s| {
      assert s[..k] == s;
    } else {
      Utf8PrefixStep(s, k);
      var c := s[k];
      if c == '\\' || escape {
        HrefScanAligned(s, k + 1, ExpressionLexer.Step(m, c), true);
      } else if c != '\n' && c != ')' {
        HrefScanAligned(s, k + 1, ExpressionLexer.Step(m, c), escape);
      }
    }
  }

  /** The loop of `next`, with every byte read counted, does not panic when no `]` is stray. */
  lemma {:induction false} ScanNoPanic(tags: bool, cur: Cursor, k: nat)
    requires k <= |cur.source| && NoStrayBracket(cur.source)
    ensures Scan(tags, cur, k, Utf8Length(cur.source[..k])).Ok?
    decreases |cur.source| - k, 3
  {
    var s := cur.source;
    if k == |s| {
      SuffixAtChar(s, k, Utf8Length(s[..k]));
    } else {
      var c := s[k];
      Utf8PrefixStep(s, k);
      SuffixAtChar(s, k, Utf8Length(s[..k]));
      if IsWhitespace(c) {
        var moved := cur.(mark := ExpressionLexer.Step(cur.mark, c), state := SpaceState(cur.state, c));
        SuffixAtChar(s, k + 1, Utf8Length(s[..k + 1]));
        ScanNoPanic(tags, moved, k + 1);
      } else if cur.state != DoubleNewline {
        var spaced := Spaced(cur);
        if !Special(tags, c) {
          ScanNoPanic(tags, spaced.(mark := ExpressionLexer.Step(cur.mark, c), pending := spaced.pending + [c], state := CharState(c)), k + 1);
        } else if spaced.pending == [] {
          SpecialNoPanic(tags, spaced, k);
        }
      }
    }
  }

  lemma {:induction false} SpecialNoPanic(tags: bool, cur: Cursor, k: nat)
    requires k < |cur.source| && Special(tags, cur.source[k]) && NoStrayBracket(cur.source)
    ensures SpecialToken(tags, cur, k, Utf8Length(cur.source[..k])).Ok?
    decreases |cur.source| - k, 2
  {
    var c := cur.source[k];
    if c == '[' || c == ']' {
      BracketNoPanic(tags, cur, k);
    } else if c == '*' || c == '_' {
      DelimiterRunRead(cur, k, c);
    } else {
      TagRead(cur, k);
    }
  }

  lemma {:induction false} BracketNoPanic(tags: bool, cur: Cursor, k: nat)
    requires k < |cur.source| && (cur.source[k] == '[' || cur.source[k] == ']') && NoStrayBracket(cur.source)
    ensures BracketToken(tags, cur, k, Utf8Length(cur.source[..k])).Ok?
    decreases |cur.source| - k, 1
  {
    var s := cur.source;
    AsciiStep(s, k);
    if s[k] == '[' {
      SuffixAtChar(s, k + 1, Utf8Length(s[..k + 1]));
    } else if k + 1 < |s| && s[k + 1] == '(' {
      HrefNoPanic(tags, cur, k);
    } else {
      assert k + 1 == |s|;
      ScanNoPanic(tags, cur.(mark := ExpressionLexer.Step(cur.mark, ']')), k + 1);
    }
  }

  lemma {:induction false} HrefNoPanic(tags: bool, cur: Cursor, k: nat)
    requires k + 1 < |cur.source| && cur.source[k] == ']' && cur.source[k + 1] == '(' && NoStrayBracket(cur.source)
    ensures HrefToken(tags, cur, k, Utf8Length(cur.source[..k])).Ok?
    decreases |cur.source| - k, 0
  {
    var s := cur.source;
    var offset := Utf8Length(s[..k]);
    AsciiStep(s, k);
    AsciiStep(s, k + 1);
    var m := ExpressionLexer.Step(ExpressionLexer.Step(cur.mark, ']'), '(');
    HrefScanAligned(s, k + 2, m, false);
    var h := HrefScan(cur.source, k + 2, offset + 2, ExpressionLexer.Step(ExpressionLexer.Step(cur.mark, ']'), '('), false);
    if h.Closed? {
      var j :| k + 2 <= j < |s| && Utf8Length(s[..j]) == h.offset && s[j] == ')';
      HrefClosedAt(tags, cur, k, offset, h, j);
    } else if h.LineBreak? {
      ScanNoPanic(tags, cur.(mark := h.mark, state := Newline), h.k);
      HrefBreaks(tags, cur, k, offset);
    } else {
      assert s[..|s|] == s;
      SuffixAtChar(s, |s|, Utf8Length(s[..|s|]));
      HrefUnclosedOk(tags, cur, k, offset, h);
    }
  }

  /**
   * A target closed by a `)` at char `j`, read from a char boundary: it
   * yields the chars between `](` and `)`, trimmed, and the source resumes
   * after the `)`.
   */
  lemma HrefClosedAt(tags: bool, cur: Cursor, k: nat, offset: nat, h: HrefEnd, j: nat)
    requires k + 2 <= j < |cur.source| && cur.source[j] == ')'
    requires offset + 2 == Utf8Length(cur.source[..k + 2]) && h.offset == Utf8Length(cur.source[..j])
    requires h == HrefScan(cur.source, k + 2, offset + 2, ExpressionLexer.Step(ExpressionLexer.Step(cur.mark, ']'), '('), false) && h.Closed?
    ensures var r := HrefToken(tags, cur, k, offset);
      r.Ok? && r.value.token == Some(AnchorEnd(Trim(cur.source[k + 2..j]))) && r.value.cursor.source == cur.source[j + 1..]
  {
    var s := cur.source;
    SliceAtChars(s, k + 2, j, offset + 2, h.offset);
    AsciiStep(s, j);
    SuffixAtChar(s, j + 1, h.offset + 1);
  }

  /** A target the text ends in is read without panic when the end of the text can be sliced. */
  lemma HrefUnclosedOk(tags: bool, cur: Cursor, k: nat, offset: nat, h: HrefEnd)
    requires k + 1 < |cur.source|
    requires h == HrefScan(cur.source, k + 2, offset + 2, ExpressionLexer.Step(ExpressionLexer.Step(cur.mark, ']'), '('), false) && h.Unclosed?
    requires Suffix(cur.source, h.offset).Ok?
    ensures HrefToken(tags, cur, k, offset).Ok?
  {
  }

  /**
   * `next` panics only after a stray `]`: one followed by a char other
   * than `(`, which is read without its bytes being counted, so that a
   * later slice may fall inside a char.
   */
  lemma NextNeverPanics(tags: bool, cur: Cursor)
    requires NoStrayBracket(cur.source)
    ensures NextSpec(tags, cur).Ok?
  {
    assert cur.source[..0] == [];
    ScanNoPanic(tags, cur, 0);
  }
}
