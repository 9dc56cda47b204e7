/**
 * The text parser (compiler/src/text/parse.rs): the tokens of the text
 * lexer become a list of paragraphs. Within a paragraph, delimiter runs
 * and `[` are stacked with the number of nodes before them and resolved
 * by `Emphasis`; a blank line resolves them and closes the paragraph, and
 * the end of the text closes the last one.
 *
 * The text lexer (compiler/src/text/lexer.rs) is the template lexer
 * without tags (`TemplateLex` with `tags` false), so it never yields a tag.
 * `parse_inner` is the spec function `TextLoop` and the method
 * `Parse.ParseInner`; a panic of the source is `Panic`.
 */
module TextParse {
  import opened Common
  import opened Problems
  import opened TemplateLexer
  import opened TemplateLexerFacts
  import opened Emphasis
  import opened Texts

  /** `TextParsingResult`. */
  datatype TextParsingResult = TextParsingResult(text: seq<TextNode>, problems: seq<Problem>)

  /** The node a matched pair of delimiter runs wraps its nodes in. */
  function EmphasizeText(style: Style, nodes: seq<TextNode>): (r: TextNode)
    ensures style == BoldStyle ==> r == Bold(nodes)
    ensures style == ItalicStyle ==> r == Italic(nodes)
  {
    if style == BoldStyle then Bold(nodes) else Italic(nodes)
  }

  /** The Anchor node `AnchorEnd` makes. */
  function AnchorText(href: string, nodes: seq<TextNode>): (r: TextNode)
    ensures r.Anchor? && r.href == href && r.children == nodes
  {
    Anchor(href, nodes)
  }

  /** A text lexer between two tokens: settled, with nothing pending. */
  predicate TextReady(cur: Cursor)
  {
    Settled(false, cur) && cur.pending == []
  }

  /**
   * The loop of `parse_inner`, with the paragraphs closed so far and the
   * nodes and stack of the open one: the paragraphs it returns extend
   * those closed so far by at least the last one, and every one is a
   * Paragraph.
   */
  function TextLoop(cur: Cursor, paragraphs: seq<TextNode>, parse: seq<TextNode>, stack: seq<DelimiterPointer>): (r: Outcome<seq<TextNode>>)
    requires TextReady(cur)
    ensures r.Ok? ==> IsPrefix(paragraphs, r.value) && |r.value| > |paragraphs|
    ensures r.Ok? ==> forall k :: |paragraphs| <= k < |r.value| ==> r.value[k].Paragraph?
    decreases Remaining(cur)
  {
    NextYields(false, cur);
    NextProgress(false, cur);
    TextLexerHasNoTags(cur);
    var lexed :- NextSpec(false, cur);
    var next := lexed.cursor;
    if lexed.token.None? then
      var resolved :- ProcessStyles(EmphasizeText, parse, stack);
      Ok(paragraphs + [Paragraph(resolved)])
    else
      var token := lexed.token.value;
      if token.Text? then
        TextLoop(next, paragraphs, parse + [Plain(token.text)], stack)
      else if token.ParagraphBreak? then
        var resolved :- ProcessStyles(EmphasizeText, parse, stack);
        var r := TextLoop(next, paragraphs + [Paragraph(resolved)], [], []);
        if r.Ok? then assert r.value[..|paragraphs|] == r.value[..|paragraphs| + 1][..|paragraphs|]; r else r
      else if token.DelimiterRun? then
        TextLoop(next, paragraphs, parse, stack + [DelimiterPointer(token.delimiter, |parse|)])
      else if token.AnchorBegin? then
        TextLoop(next, paragraphs, parse, stack + [AnchorPointer(|parse|)])
      else if token.AnchorEnd? then
        var closed :- CloseAnchor(EmphasizeText, AnchorText, parse, stack, token.href);
        TextLoop(next, paragraphs, closed.0, closed.1)
      else
        assert false; Panic
  }

  /** `TextParser::parse`: the paragraphs of the whole text, and no problem. */
  function ParseSpec(source: string): (r: Outcome<TextParsingResult>)
    ensures r.Ok? ==> r.value.problems == [] && |r.value.text| > 0
    ensures r.Ok? ==> forall k :: 0 <= k < |r.value.text| ==> r.value.text[k].Paragraph?
  {
    StartSettled(false, source);
    var text :- TextLoop(Start(source), [], [], []);
    Ok(TextParsingResult(text, []))
  }

  // ---------------------------------------------------------------------
  // What the parser keeps

  /** The texts of the Text tokens the lexer yields from `cur` to the end, in order. */
  function TextsFrom(cur: Cursor): seq<string>
    requires TextReady(cur)
    decreases Remaining(cur)
  {
    NextYields(false, cur);
    NextProgress(false, cur);
    if NextSpec(false, cur).Panic? then [] else
    var lexed := NextSpec(false, cur).value;
    if lexed.token.None? then []
    else if lexed.token.value.Text? then [lexed.token.value.text] + TextsFrom(lexed.cursor)
    else TextsFrom(lexed.cursor)
  }

  /** The number of blank lines the lexer reports from `cur` to the end. */
  function BreaksFrom(cur: Cursor): nat
    requires TextReady(cur)
    decreases Remaining(cur)
  {
    NextYields(false, cur);
    NextProgress(false, cur);
    if NextSpec(false, cur).Panic? then 0 else
    var lexed := NextSpec(false, cur).value;
    if lexed.token.None? then 0
    else if lexed.token.value.ParagraphBreak? then 1 + BreaksFrom(lexed.cursor)
    else BreaksFrom(lexed.cursor)
  }

  /** The texts of every Text token of `source`. */
  function TextsOf(source: string): seq<string>
  {
    StartSettled(false, source);
    TextsFrom(Start(source))
  }

  /** The number of blank lines in `source`, as the lexer reports them. */
  function BreaksOf(source: string): nat
  {
    StartSettled(false, source);
    BreaksFrom(Start(source))
  }

  /** The plain texts of a node, read left to right through every kind of node. */
  function Plains(node: TextNode): seq<string>
    decreases node, 1
  {
    match node
    case Plain(t) => [t]
    case Paragraph(children) => PlainsOf(children)
    case Italic(children) => PlainsOf(children)
    case Bold(children) => PlainsOf(children)
    case Anchor(_, children) => PlainsOf(children)
  }

  /** The plain texts of a list of nodes. */
  function PlainsOf(nodes: seq<TextNode>): seq<string>
    decreases nodes, 0
  {
    if nodes == [] then [] else Plains(nodes[0]) + PlainsOf(nodes[1..])
  }

  lemma {:induction false} PlainsOfIsFlatMap(nodes: seq<TextNode>)
    ensures PlainsOf(nodes) == FlatMap(Plains, nodes)
  {
    if nodes != [] {
      PlainsOfIsFlatMap(nodes[1..]);
    }
  }

  lemma PlainsOfConcat(a: seq<TextNode>, b: seq<TextNode>)
    ensures PlainsOf(a + b) == PlainsOf(a) + PlainsOf(b)
  {
    PlainsOfIsFlatMap(a + b);
    PlainsOfIsFlatMap(a);
    PlainsOfIsFlatMap(b);
    FlatMapConcat(Plains, a, b);
  }

  /** Bold, Italic and Anchor nodes have the plain texts of their children. */
  lemma TextSeesThrough()
    ensures SeesThrough(EmphasizeText, Plains) && AnchorSeesThrough(AnchorText, Plains)
  {
    forall style: Style, nodes: seq<TextNode>
      ensures Plains(EmphasizeText(style, nodes)) == FlatMap(Plains, nodes)
    {
      PlainsOfIsFlatMap(nodes);
    }
    forall href: string, nodes: seq<TextNode>
      ensures Plains(AnchorText(href, nodes)) == FlatMap(Plains, nodes)
    {
      PlainsOfIsFlatMap(nodes);
    }
  }

  /** Resolving emphasis keeps the plain texts. */
  lemma ResolvedKeepsPlains(parse: seq<TextNode>, stack: seq<DelimiterPointer>)
    ensures var r := ProcessStyles(EmphasizeText, parse, stack);
      r.Ok? ==> PlainsOf(r.value) == PlainsOf(parse)
  {
    TextSeesThrough();
    ProcessStylesKeepsLeaves(EmphasizeText, Plains, parse, stack);
    PlainsOfIsFlatMap(parse);
    var r := ProcessStyles(EmphasizeText, parse, stack);
    if r.Ok? {
      PlainsOfIsFlatMap(r.value);
    }
  }

  /** Closing an anchor keeps the plain texts. */
  lemma ClosedKeepsPlains(parse: seq<TextNode>, stack: seq<DelimiterPointer>, href: string)
    ensures var r := CloseAnchor(EmphasizeText, AnchorText, parse, stack, href);
      r.Ok? ==> PlainsOf(r.value.0) == PlainsOf(parse)
  {
    TextSeesThrough();
    CloseAnchorKeepsLeaves(EmphasizeText, AnchorText, Plains, parse, stack, href);
    PlainsOfIsFlatMap(parse);
    var r := CloseAnchor(EmphasizeText, AnchorText, parse, stack, href);
    if r.Ok? {
      PlainsOfIsFlatMap(r.value.0);
    }
  }

  /** Closing a paragraph adds its plain texts after those of the paragraphs before it. */
  lemma PlainsOfClosed(paragraphs: seq<TextNode>, resolved: seq<TextNode>)
    ensures PlainsOf(paragraphs + [Paragraph(resolved)]) == PlainsOf(paragraphs) + PlainsOf(resolved)
  {
    PlainsOfConcat(paragraphs, [Paragraph(resolved)]);
    assert PlainsOf([Paragraph(resolved)]) == PlainsOf(resolved) + PlainsOf([]);
  }

  /** Pushing a plain text adds it after the texts before it. */
  lemma PlainsOfPushed(parse: seq<TextNode>, text: string)
    ensures PlainsOf(parse + [Plain(text)]) == PlainsOf(parse) + [text]
  {
    PlainsOfConcat(parse, [Plain(text)]);
    assert PlainsOf([Plain(text)]) == [text] + PlainsOf([]);
  }

  /**
   * The loop loses no text and invents none: the plain texts of the
   * paragraphs it returns are those of the paragraphs and nodes it was
   * given followed by every text token still to come, and it closes one
   * paragraph per blank line still to come, plus the last.
   */
  lemma {:induction false} TextLoopKeeps(cur: Cursor, paragraphs: seq<TextNode>, parse: seq<TextNode>, stack: seq<DelimiterPointer>)
    requires TextReady(cur)
    ensures var r := TextLoop(cur, paragraphs, parse, stack);
      r.Ok? ==> PlainsOf(r.value) == PlainsOf(paragraphs) + PlainsOf(parse) + TextsFrom(cur)
                && |r.value| == |paragraphs| + 1 + BreaksFrom(cur)
    decreases Remaining(cur), 1
  {
    NextYields(false, cur);
    NextProgress(false, cur);
    TextLexerHasNoTags(cur);
    if NextSpec(false, cur).Panic? {
      return;
    }
    var lexed := NextSpec(false, cur).value;
    var next := lexed.cursor;
    if lexed.token.None? {
      ResolvedKeepsPlains(parse, stack);
      var resolved := ProcessStyles(EmphasizeText, parse, stack);
      if resolved.Ok? {
        PlainsOfClosed(paragraphs, resolved.value);
      }
    } else if lexed.token.value.ParagraphBreak? {
      BreakKeeps(cur, paragraphs, parse, stack);
    } else {
      var token := lexed.token.value;
      if token.Text? {
        TextLoopKeeps(next, paragraphs, parse + [Plain(token.text)], stack);
        PlainsOfPushed(parse, token.text);
      } else if token.DelimiterRun? {
        TextLoopKeeps(next, paragraphs, parse, stack + [DelimiterPointer(token.delimiter, |parse|)]);
      } else if token.AnchorBegin? {
        TextLoopKeeps(next, paragraphs, parse, stack + [AnchorPointer(|parse|)]);
      } else if token.AnchorEnd? {
        ClosedKeepsPlains(parse, stack, token.href);
        var closed := CloseAnchor(EmphasizeText, AnchorText, parse, stack, token.href);
        if closed.Ok? {
          TextLoopKeeps(next, paragraphs, closed.value.0, closed.value.1);
        }
      }
    }
  }

  /** `TextLoopKeeps` at a blank line. */
  lemma {:induction false} BreakKeeps(cur: Cursor, paragraphs: seq<TextNode>, parse: seq<TextNode>, stack: seq<DelimiterPointer>)
    requires TextReady(cur)
    requires var lexed := NextSpec(false, cur);
      lexed.Ok? && lexed.value.token.Some? && lexed.value.token.value.ParagraphBreak?
    ensures var r := TextLoop(cur, paragraphs, parse, stack);
      r.Ok? ==> PlainsOf(r.value) == PlainsOf(paragraphs) + PlainsOf(parse) + TextsFrom(cur)
                && |r.value| == |paragraphs| + 1 + BreaksFrom(cur)
    decreases Remaining(cur), 0
  {
    var lexed := NextSpec(false, cur).value;
    NextYields(false, cur);
    NextProgress(false, cur);
    ResolvedKeepsPlains(parse, stack);
    var resolved := ProcessStyles(EmphasizeText, parse, stack);
    if resolved.Ok? {
      TextLoopKeeps(lexed.cursor, paragraphs + [Paragraph(resolved.value)], [], []);
      PlainsOfClosed(paragraphs, resolved.value);
    }
  }

  /**
   * A parsed text holds exactly the lexer's text tokens, in order, and has
   * one paragraph more than the text has blank lines.
   */
  lemma ParseKeepsText(source: string)
    ensures var r := ParseSpec(source);
      r.Ok? ==> PlainsOf(r.value.text) == TextsOf(source) && |r.value.text| == 1 + BreaksOf(source)
  {
    StartSettled(false, source);
    TextLoopKeeps(Start(source), [], [], []);
  }

  // ---------------------------------------------------------------------
  // The parser, step by step

  /** `Parse`: the text lexer it consumes and the problems found, which stay none. */
  class Parse {
    const lex: TemplateLex
    var problems: seq<Problem>

    /** `Parse::new`: a text lexer at the start of `source`. */
    constructor (source: string)
      ensures !lex.tags && lex.Current() == Start(source) && problems == [] && fresh(lex)
    {
      lex := new TemplateLex.Lex(false, source);
      problems := [];
    }

    /** `parse_inner`. */
    method ParseInner() returns (r: Outcome<seq<TextNode>>)
      requires !lex.tags && TextReady(lex.Current())
      modifies lex
      ensures r == TextLoop(old(lex.Current()), [], [], [])
    {
      ghost var spec := TextLoop(lex.Current(), [], [], []);
      var paragraphs: seq<TextNode> := [];
      var parse: seq<TextNode> := [];
      var stack: seq<DelimiterPointer> := [];
      while true
        invariant !lex.tags && TextReady(lex.Current())
        invariant TextLoop(lex.Current(), paragraphs, parse, stack) == spec
        decreases Remaining(lex.Current())
      {
        ghost var before := lex.Current();
        NextYields(false, before);
        NextProgress(false, before);
        TextLexerHasNoTags(before);
        var token :- lex.Next();
        if token.None? {
          var resolved :- ProcessStylesInPlace(EmphasizeText, parse, stack);
          paragraphs := paragraphs + [Paragraph(resolved)];
          return Ok(paragraphs);
        }
        var t := token.value;
        if t.Text? {
          parse := parse + [Plain(t.text)];
        } else if t.ParagraphBreak? {
          var resolved :- ProcessStylesInPlace(EmphasizeText, parse, stack);
          paragraphs := paragraphs + [Paragraph(resolved)];
          parse, stack := [], [];
        } else if t.DelimiterRun? {
          stack := stack + [DelimiterPointer(t.delimiter, |parse|)];
        } else if t.AnchorBegin? {
          stack := stack + [AnchorPointer(|parse|)];
        } else if t.AnchorEnd? {
          var closed :- CloseAnchorInPlace(EmphasizeText, AnchorText, parse, stack, t.href);
          parse, stack := closed.0, closed.1;
        }
      }
    }
  }

  /** `TextParser::parse`. */
  method ParseText(source: string) returns (r: Outcome<TextParsingResult>)
    ensures r == ParseSpec(source)
  {
    var parse := new Parse(source);
    StartSettled(false, source);
    var text :- parse.ParseInner();
    return Ok(TextParsingResult(text, parse.problems));
  }
}
