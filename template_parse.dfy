/**
 * The template parser (compiler/src/template/parse.rs): the tokens of the
 * template lexer become a list of nodes. Delimiter runs and `[` are stacked
 * with the number of nodes before them; a blank line, a `](href)` and the
 * end of the text resolve the stacked runs into Bold and Italic nodes
 * (`Emphasis`); `{if …}`, `{else …}` and `{end}` tags build branches.
 *
 * `parse_inner` and `parse_branch` are the spec functions `InnerLoop` and
 * `BranchSpec` and the methods of the class `Parse`. A panic of the source
 * (in `process_styles`, or in the splice of an anchor) is `Panic`.
 */
module TemplateParse {
  import opened Common
  import opened Attributions
  import opened Problems
  import opened Symbols
  import ExpressionLexer
  import ExpressionParser
  import opened TemplateLexer
  import opened TemplateLexerFacts
  import opened Emphasis

  /** `TemplateParseNode`. */
  datatype TemplateParseNode =
    | Text(text: string)
    | Paragraph
    | Italic(children: seq<TemplateParseNode>)
    | Bold(children: seq<TemplateParseNode>)
    | Anchor(href: string, children: seq<TemplateParseNode>)
    | Branch(condition: ExpressionParser.ExpressionParse, value: seq<TemplateParseNode>, next: ElseSide)

  /** The else side of a branch, if it has one (`Option<Vec<TemplateParseNode>>`). */
  datatype ElseSide = NoElse | ElseNodes(nodes: seq<TemplateParseNode>)

  /** `TemplateParsingResult`. */
  datatype TemplateParsingResult = TemplateParsingResult(parse: seq<TemplateParseNode>, problems: seq<Problem>)

  /** What `parse_inner` returns (the nodes and the tag that ended them), with the lexer and problems it leaves. */
  datatype Inner = Inner(parse: seq<TemplateParseNode>, tag: Option<ExpressionParser.TagParse>, cursor: Cursor, problems: seq<Problem>)

  /** What a tag leaves `parse_inner` with: the nodes, the tag that ends the loop if any, the lexer and the problems. */
  datatype Tagged = Tagged(parse: seq<TemplateParseNode>, tag: Option<ExpressionParser.TagParse>, cursor: Cursor, problems: seq<Problem>)

  /** What `parse_branch` returns, with the lexer and problems it leaves. */
  datatype Branched = Branched(node: TemplateParseNode, cursor: Cursor, problems: seq<Problem>)

  /** The node a matched pair of delimiter runs wraps its nodes in. */
  function Emphasize(style: Style, nodes: seq<TemplateParseNode>): (r: TemplateParseNode)
    ensures style == BoldStyle ==> r == Bold(nodes)
    ensures style == ItalicStyle ==> r == Italic(nodes)
  {
    if style == BoldStyle then Bold(nodes) else Italic(nodes)
  }

  /** A lexer between two tokens: settled, with nothing pending. */
  predicate Ready(cur: Cursor)
  {
    Settled(true, cur) && cur.pending == []
  }

  /** The Anchor node `AnchorEnd` makes. */
  function AnchorNode(href: string, nodes: seq<TemplateParseNode>): (r: TemplateParseNode)
    ensures r.Anchor? && r.href == href && r.children == nodes
  {
    Anchor(href, nodes)
  }

  /** The problems of a tag are all fatal. */
  lemma TagProblemsFatal(symbols: seq<string>, att: Attribution, st: ExpressionLexer.LexState)
    ensures var r := ExpressionParser.TagSpec(symbols, att, st);
      r.Ok? ==> forall i :: 0 <= i < |r.value.0.problems| ==> r.value.0.problems[i].level == Fatal
  {
  }

  /**
   * The loop of `parse_inner`, with the nodes and the stack built so far:
   * it ends at the end of the text (resolving the stack) or, inside a
   * branch, at an `else` or `end` tag (without resolving the stack).
   */
  function InnerLoop(symbols: seq<string>, att: Attribution, cur: Cursor, inBranch: bool,
                     parse: seq<TemplateParseNode>, stack: seq<DelimiterPointer>, problems: seq<Problem>): (r: Outcome<Inner>)
    requires Ready(cur)
    ensures r.Ok? ==> Ready(r.value.cursor) && |r.value.cursor.source| <= |cur.source|
    ensures r.Ok? && r.value.tag.Some? ==> |r.value.cursor.source| < |cur.source|
    ensures r.Ok? && !inBranch ==> r.value.tag.None?
    ensures r.Ok? ==> AddsFatals(problems, r.value.problems)
    decreases |cur.source|, Remaining(cur), 1
  {
    NextYields(true, cur);
    NextProgress(true, cur);
    NextShrinks(true, cur);
    var lexed :- NextSpec(true, cur);
    var next := lexed.cursor;
    if lexed.token.None? then
      var resolved :- ProcessStyles(Emphasize, parse, stack);
      Ok(Inner(resolved, None, next, problems))
    else
      var token := lexed.token.value;
      if token.Text? then
        InnerLoop(symbols, att, next, inBranch, parse + [TemplateParseNode.Text(token.text)], stack, problems)
      else if token.ParagraphBreak? then
        var resolved :- ProcessStyles(Emphasize, parse + [Paragraph], stack);
        InnerLoop(symbols, att, next, inBranch, resolved, [], problems)
      else if token.DelimiterRun? then
        InnerLoop(symbols, att, next, inBranch, parse, stack + [DelimiterPointer(token.delimiter, |parse|)], problems)
      else if token.AnchorBegin? then
        InnerLoop(symbols, att, next, inBranch, parse, stack + [AnchorPointer(|parse|)], problems)
      else if token.AnchorEnd? then
        var closed :- CloseAnchor(Emphasize, AnchorNode, parse, stack, token.href);
        InnerLoop(symbols, att, next, inBranch, closed.0, closed.1, problems)
      else
        var tagged :- TagEffect(symbols, att, next, inBranch, parse, problems, token.lex, |cur.source|);
        if tagged.tag.Some? then Ok(Inner(tagged.parse, tagged.tag, tagged.cursor, tagged.problems))
        else
          var r := InnerLoop(symbols, att, tagged.cursor, inBranch, tagged.parse, stack, tagged.problems);
          if r.Ok? then AddsFatalsTrans(problems, tagged.problems, r.value.problems); r else r
  }

  /**
   * A `{…}` tag read by `parse_inner`, `next` being the lexer after it: a
   * condition opens a branch, which is parsed up to its end and added as a
   * node; `else` or `end` outside a branch is invalid and inside one is
   * handed back (`tag`) to end the loop; a tag that parses to nothing is
   * empty unless the expression parser reported why.
   */
  function TagEffect(symbols: seq<string>, att: Attribution, next: Cursor, inBranch: bool,
                   parse: seq<TemplateParseNode>, problems: seq<Problem>,
                   st: ExpressionLexer.LexState, bound: nat): (r: Outcome<Tagged>)
    requires Ready(next) && |next.source| < bound
    ensures r.Ok? ==> Ready(r.value.cursor) && |r.value.cursor.source| < bound
    ensures r.Ok? && !inBranch ==> r.value.tag.None?
    ensures r.Ok? && r.value.tag.Some? ==> !r.value.tag.value.WhenTag?
    ensures r.Ok? ==> AddsFatals(problems, r.value.problems)
    decreases bound, 0, 0
  {
    var tagged :- ExpressionParser.TagSpec(symbols, att, st);
    var result := tagged.0;
    TagProblemsFatal(symbols, att, st);
    FatalsAdded(problems, result.problems);
    if result.parse.Some? then
      var problems' := problems + result.problems;
      var tag := result.parse.value;
      if tag.WhenTag? then
        var b :- BranchSpec(symbols, att, next, tag.condition, problems');
        AddsFatalsTrans(problems, problems', b.problems);
        Ok(Tagged(parse + [b.node], None, b.cursor, b.problems))
      else if !inBranch then
        var fatal := NewFatal("Invalid tag", AtMark(att, next.mark));
        FatalAdded(problems', fatal);
        AddsFatalsTrans(problems, problems', problems' + [fatal]);
        Ok(Tagged(parse, None, next, problems' + [fatal]))
      else Ok(Tagged(parse, Some(tag), next, problems'))
    else if result.problems == [] then
      var fatal := NewFatal("Empty tag", AtMarks(att, tagged.1.mark, tagged.1.mark));
      FatalAdded(problems, fatal);
      Ok(Tagged(parse, None, next, problems + [fatal]))
    else Ok(Tagged(parse, None, next, problems + result.problems))
  }

  /** `parse_inner`: a fresh list of nodes and a fresh stack. */
  function InnerSpec(symbols: seq<string>, att: Attribution, cur: Cursor, inBranch: bool, problems: seq<Problem>): (r: Outcome<Inner>)
    requires Ready(cur)
    ensures r.Ok? ==> Ready(r.value.cursor) && |r.value.cursor.source| <= |cur.source|
    ensures r.Ok? && r.value.tag.Some? ==> |r.value.cursor.source| < |cur.source|
    ensures r.Ok? && !inBranch ==> r.value.tag.None?
    ensures r.Ok? ==> AddsFatals(problems, r.value.problems)
    decreases |cur.source|, Remaining(cur), 2
  {
    InnerLoop(symbols, att, cur, inBranch, [], [], problems)
  }

  /**
   * `parse_branch`: the nodes up to the tag that ends them become the
   * branch's value. A condition after them (`{else cond}`, or a bare
   * `{cond}`) nests a branch as the only node of the else side; a bare
   * `{else}` takes the nodes up to `{end}` as the else side; `{end}` closes
   * the branch with no else side. A missing `{end}` is reported where the
   * lexer stopped.
   */
  function BranchSpec(symbols: seq<string>, att: Attribution, cur: Cursor, condition: ExpressionParser.ExpressionParse,
                      problems: seq<Problem>): (r: Outcome<Branched>)
    requires Ready(cur)
    ensures r.Ok? ==> Ready(r.value.cursor) && |r.value.cursor.source| <= |cur.source|
    ensures r.Ok? ==> r.value.node.Branch? && r.value.node.condition == condition
    ensures r.Ok? ==> AddsFatals(problems, r.value.problems)
    decreases |cur.source|, Remaining(cur), 3
  {
    var body :- InnerSpec(symbols, att, cur, true, problems);
    if body.tag.None? then
      var fatal := NewFatal("End tag expected", AtMark(att, body.cursor.mark));
      FatalAdded(body.problems, fatal);
      AddsFatalsTrans(problems, body.problems, body.problems + [fatal]);
      Ok(Branched(Branch(condition, body.parse, NoElse), body.cursor, body.problems + [fatal]))
    else
      var tag := body.tag.value;
      if tag.WhenTag? || (tag.ElseTag? && tag.otherwise.Some?) then
        var c := if tag.WhenTag? then tag.condition else tag.otherwise.value;
        var e :- BranchSpec(symbols, att, body.cursor, c, body.problems);
        AddsFatalsTrans(problems, body.problems, e.problems);
        Ok(Branched(Branch(condition, body.parse, ElseNodes([e.node])), e.cursor, e.problems))
      else if tag.ElseTag? then
        var otherwise :- InnerSpec(symbols, att, body.cursor, true, body.problems);
        AddsFatalsTrans(problems, body.problems, otherwise.problems);
        var fatal := NewFatal("End tag expected", AtMark(att, otherwise.cursor.mark));
        FatalAdded(otherwise.problems, fatal);
        AddsFatalsTrans(problems, otherwise.problems, otherwise.problems + [fatal]);
        var problems' := if otherwise.tag == Some(ExpressionParser.EndTag) then otherwise.problems else otherwise.problems + [fatal];
        Ok(Branched(Branch(condition, body.parse, ElseNodes(otherwise.parse)), otherwise.cursor, problems'))
      else Ok(Branched(Branch(condition, body.parse, NoElse), body.cursor, body.problems))
  }

  /** `TemplateParser::parse`: the nodes of the whole text and every problem found. */
  function ParseSpec(symbols: seq<string>, att: Attribution, source: string): (r: Outcome<TemplateParsingResult>)
    ensures r.Ok? ==> forall i :: 0 <= i < |r.value.problems| ==> r.value.problems[i].level == Fatal
  {
    StartSettled(true, source);
    var inner :- InnerSpec(symbols, att, Start(source), false, []);
    Ok(TemplateParsingResult(inner.parse, inner.problems))
  }

  // ---------------------------------------------------------------------
  // What the parser keeps

  /**
   * The loop never hands a condition back: a `{cond}` tag always opens a
   * branch of its own, so only `else` and `end` tags end the loop.
   */
  lemma {:induction false} InnerLoopNeverWhen(symbols: seq<string>, att: Attribution, cur: Cursor, inBranch: bool,
                                              parse: seq<TemplateParseNode>, stack: seq<DelimiterPointer>, problems: seq<Problem>)
    requires Ready(cur)
    ensures var r := InnerLoop(symbols, att, cur, inBranch, parse, stack, problems);
      r.Ok? && r.value.tag.Some? ==> !r.value.tag.value.WhenTag?
    decreases |cur.source|, Remaining(cur)
  {
    NextYields(true, cur);
    NextProgress(true, cur);
    NextShrinks(true, cur);
    var lexed := if NextSpec(true, cur).Ok? then NextSpec(true, cur).value else Lexed(None, cur);
    var next := lexed.cursor;
    if lexed.token.Some? {
      var token := lexed.token.value;
      if token.Text? {
        InnerLoopNeverWhen(symbols, att, next, inBranch, parse + [TemplateParseNode.Text(token.text)], stack, problems);
      } else if token.ParagraphBreak? {
        var resolved := ProcessStyles(Emphasize, parse + [Paragraph], stack);
        if resolved.Ok? {
          InnerLoopNeverWhen(symbols, att, next, inBranch, resolved.value, [], problems);
        }
      } else if token.DelimiterRun? {
        InnerLoopNeverWhen(symbols, att, next, inBranch, parse, stack + [DelimiterPointer(token.delimiter, |parse|)], problems);
      } else if token.AnchorBegin? {
        InnerLoopNeverWhen(symbols, att, next, inBranch, parse, stack + [AnchorPointer(|parse|)], problems);
      } else if token.AnchorEnd? {
        var closed := CloseAnchor(Emphasize, AnchorNode, parse, stack, token.href);
        if closed.Ok? {
          InnerLoopNeverWhen(symbols, att, next, inBranch, closed.value.0, closed.value.1, problems);
        }
      } else {
        var tagged := TagEffect(symbols, att, next, inBranch, parse, problems, token.lex, |cur.source|);
        if tagged.Ok? && tagged.value.tag.None? {
          InnerLoopNeverWhen(symbols, att, tagged.value.cursor, inBranch, tagged.value.parse, stack, tagged.value.problems);
        }
      }
    }
  }

  /**
   * `parse_inner` ends on `else` or `end` only, so the arm of
   * `parse_branch` that nests a branch for a bare condition is never taken.
   */
  lemma InnerNeverWhen(symbols: seq<string>, att: Attribution, cur: Cursor, inBranch: bool, problems: seq<Problem>)
    requires Ready(cur)
    ensures var r := InnerSpec(symbols, att, cur, inBranch, problems);
      r.Ok? && r.value.tag.Some? ==> r.value.tag.value.ElseTag? || r.value.tag.value.EndTag?
  {
    InnerLoopNeverWhen(symbols, att, cur, inBranch, [], [], problems);
  }

  // ---------------------------------------------------------------------
  // A tag, case by case

  /**
   * A condition opens a branch: its problems are kept, the branch is
   * parsed from the lexer after the tag and added as one node, and the
   * loop goes on (no tag is handed back).
   */
  lemma WhenTagOpensBranch(symbols: seq<string>, att: Attribution, next: Cursor, inBranch: bool,
                           parse: seq<TemplateParseNode>, problems: seq<Problem>, st: ExpressionLexer.LexState, bound: nat,
                           tagged: (ExpressionParser.TagParsingResult, ExpressionLexer.LexState), condition: ExpressionParser.ExpressionParse)
    requires Ready(next) && |next.source| < bound
    requires ExpressionParser.TagSpec(symbols, att, st) == Ok(tagged) && tagged.0.parse == Some(ExpressionParser.WhenTag(condition))
    ensures var b := BranchSpec(symbols, att, next, condition, problems + tagged.0.problems);
      var r := TagEffect(symbols, att, next, inBranch, parse, problems, st, bound);
      (r.Ok? <==> b.Ok?)
      && (b.Ok? ==> r.value == Tagged(parse + [b.value.node], None, b.value.cursor, b.value.problems)
                    && b.value.node.Branch? && b.value.node.condition == condition)
  {
  }

  /** `else` or `end` outside a branch is reported as an invalid tag at the lexer's mark, after the tag's own problems. */
  lemma InvalidTagOutsideBranch(symbols: seq<string>, att: Attribution, next: Cursor,
                                parse: seq<TemplateParseNode>, problems: seq<Problem>, st: ExpressionLexer.LexState, bound: nat,
                                tagged: (ExpressionParser.TagParsingResult, ExpressionLexer.LexState))
    requires Ready(next) && |next.source| < bound
    requires ExpressionParser.TagSpec(symbols, att, st) == Ok(tagged)
    requires tagged.0.parse.Some? && !tagged.0.parse.value.WhenTag?
    ensures TagEffect(symbols, att, next, false, parse, problems, st, bound)
         == Ok(Tagged(parse, None, next, problems + tagged.0.problems + [NewFatal("Invalid tag", AtMark(att, next.mark))]))
  {
  }

  /** Inside a branch, `else` or `end` ends the loop: the tag is handed back, the nodes and lexer left as they are. */
  lemma TagEndsBranchNodes(symbols: seq<string>, att: Attribution, next: Cursor,
                           parse: seq<TemplateParseNode>, problems: seq<Problem>, st: ExpressionLexer.LexState, bound: nat,
                           tagged: (ExpressionParser.TagParsingResult, ExpressionLexer.LexState))
    requires Ready(next) && |next.source| < bound
    requires ExpressionParser.TagSpec(symbols, att, st) == Ok(tagged)
    requires tagged.0.parse.Some? && !tagged.0.parse.value.WhenTag?
    ensures TagEffect(symbols, att, next, true, parse, problems, st, bound)
         == Ok(Tagged(parse, tagged.0.parse, next, problems + tagged.0.problems))
  {
  }

  /**
   * A tag that parses to nothing adds no node: its problems are kept, or,
   * when it had none, an empty tag is reported at the expression lexer's
   * mark after the tag was parsed.
   */
  lemma NothingTag(symbols: seq<string>, att: Attribution, next: Cursor, inBranch: bool,
                   parse: seq<TemplateParseNode>, problems: seq<Problem>, st: ExpressionLexer.LexState, bound: nat,
                   tagged: (ExpressionParser.TagParsingResult, ExpressionLexer.LexState))
    requires Ready(next) && |next.source| < bound
    requires ExpressionParser.TagSpec(symbols, att, st) == Ok(tagged) && tagged.0.parse.None?
    ensures tagged.0.problems == [] ==>
      TagEffect(symbols, att, next, inBranch, parse, problems, st, bound)
      == Ok(Tagged(parse, None, next, problems + [NewFatal("Empty tag", AtMarks(att, tagged.1.mark, tagged.1.mark))]))
    ensures tagged.0.problems != [] ==>
      TagEffect(symbols, att, next, inBranch, parse, problems, st, bound) == Ok(Tagged(parse, None, next, problems + tagged.0.problems))
  {
  }

  /** A tag the expression parser panics on panics the template parser. */
  lemma TagPanics(symbols: seq<string>, att: Attribution, next: Cursor, inBranch: bool,
                  parse: seq<TemplateParseNode>, problems: seq<Problem>, st: ExpressionLexer.LexState, bound: nat)
    requires Ready(next) && |next.source| < bound
    requires ExpressionParser.TagSpec(symbols, att, st).Panic?
    ensures TagEffect(symbols, att, next, inBranch, parse, problems, st, bound).Panic?
  {
  }

  /** `{ }`: a blank tag is an empty tag, reported at the tag's own mark. */
  lemma BlankTagIsEmpty(symbols: seq<string>, att: Attribution, next: Cursor, inBranch: bool,
                        parse: seq<TemplateParseNode>, problems: seq<Problem>, st: ExpressionLexer.LexState, bound: nat)
    requires Ready(next) && |next.source| < bound
    requires ExpressionLexer.AllWhitespace(st.source, 0)
    ensures TagEffect(symbols, att, next, inBranch, parse, problems, st, bound)
         == Ok(Tagged(parse, None, next, problems + [NewFatal("Empty tag", AtMarks(att, st.mark, st.mark))]))
  {
    ExpressionParser.BlankTag(symbols, att, st);
    NothingTag(symbols, att, next, inBranch, parse, problems, st, bound, (ExpressionParser.TagParsingResult(None, []), st));
  }

  /** `{end}` outside a branch: no problem of its own, one invalid tag. */
  lemma EndOutsideBranch(symbols: seq<string>, att: Attribution, next: Cursor,
                         parse: seq<TemplateParseNode>, problems: seq<Problem>, m: Mark, bound: nat)
    requires Ready(next) && |next.source| < bound
    requires FirstMatch(symbols, "end") == None
    ensures TagEffect(symbols, att, next, false, parse, problems, ExpressionLexer.LexState("end", m), bound)
         == Ok(Tagged(parse, None, next, problems + [NewFatal("Invalid tag", AtMark(att, next.mark))]))
  {
    var st := ExpressionLexer.LexState("end", m);
    ExpressionParser.EndWordTag(symbols, att, m);
    var tagged := (ExpressionParser.TagParsingResult(Some(ExpressionParser.EndTag), []), st);
    InvalidTagOutsideBranch(symbols, att, next, parse, problems, st, bound, tagged);
    assert problems + [] == problems;
  }

  // ---------------------------------------------------------------------
  // A branch, case by case

  /** A branch whose nodes run to the end of the text: no else side, and "End tag expected" where the lexer stopped. */
  lemma BranchUnended(symbols: seq<string>, att: Attribution, cur: Cursor, condition: ExpressionParser.ExpressionParse,
                      problems: seq<Problem>, body: Inner)
    requires Ready(cur)
    requires InnerSpec(symbols, att, cur, true, problems) == Ok(body) && body.tag.None?
    ensures BranchSpec(symbols, att, cur, condition, problems)
         == Ok(Branched(Branch(condition, body.parse, NoElse), body.cursor, body.problems + [NewFatal("End tag expected", AtMark(att, body.cursor.mark))]))
  {
  }

  /** `{end}` closes the branch with no else side and no problem of its own. */
  lemma BranchEnded(symbols: seq<string>, att: Attribution, cur: Cursor, condition: ExpressionParser.ExpressionParse,
                    problems: seq<Problem>, body: Inner)
    requires Ready(cur)
    requires InnerSpec(symbols, att, cur, true, problems) == Ok(body) && body.tag == Some(ExpressionParser.EndTag)
    ensures BranchSpec(symbols, att, cur, condition, problems) == Ok(Branched(Branch(condition, body.parse, NoElse), body.cursor, body.problems))
  {
  }

  /**
   * `{else cond}` nests the branch of `cond`, parsed from after the tag,
   * as the only node of the else side.
   */
  lemma BranchElseIf(symbols: seq<string>, att: Attribution, cur: Cursor, condition: ExpressionParser.ExpressionParse,
                     problems: seq<Problem>, body: Inner, otherwise: ExpressionParser.ExpressionParse)
    requires Ready(cur)
    requires InnerSpec(symbols, att, cur, true, problems) == Ok(body) && body.tag == Some(ExpressionParser.ElseTag(Some(otherwise)))
    ensures var e := BranchSpec(symbols, att, body.cursor, otherwise, body.problems);
      var r := BranchSpec(symbols, att, cur, condition, problems);
      (r.Ok? <==> e.Ok?)
      && (e.Ok? ==> r.value == Branched(Branch(condition, body.parse, ElseNodes([e.value.node])), e.value.cursor, e.value.problems)
                    && e.value.node.Branch? && e.value.node.condition == otherwise)
  {
  }

  /**
   * A bare `{else}` takes the nodes up to the next tag as the else side;
   * "End tag expected" is reported unless that tag is `{end}`.
   */
  lemma BranchElse(symbols: seq<string>, att: Attribution, cur: Cursor, condition: ExpressionParser.ExpressionParse,
                   problems: seq<Problem>, body: Inner)
    requires Ready(cur)
    requires InnerSpec(symbols, att, cur, true, problems) == Ok(body) && body.tag == Some(ExpressionParser.ElseTag(None))
    ensures var o := InnerSpec(symbols, att, body.cursor, true, body.problems);
      var r := BranchSpec(symbols, att, cur, condition, problems);
      (r.Ok? <==> o.Ok?)
      && (o.Ok? ==> r.value.node == Branch(condition, body.parse, ElseNodes(o.value.parse)) && r.value.cursor == o.value.cursor)
      && (o.Ok? && o.value.tag == Some(ExpressionParser.EndTag) ==> r.value.problems == o.value.problems)
      && (o.Ok? && o.value.tag != Some(ExpressionParser.EndTag) ==>
            r.value.problems == o.value.problems + [NewFatal("End tag expected", AtMark(att, o.value.cursor.mark))])
  {
  }

  /** A branch opened at the very end of the text has no nodes and exactly one problem more: "End tag expected". */
  lemma BranchAtEnd(symbols: seq<string>, att: Attribution, m: Mark, condition: ExpressionParser.ExpressionParse, problems: seq<Problem>)
    ensures var cur := Cursor([], m, Initial, []);
      Ready(cur)
      && BranchSpec(symbols, att, cur, condition, problems)
         == Ok(Branched(Branch(condition, [], NoElse), cur, problems + [NewFatal("End tag expected", AtMark(att, m))]))
  {
    var cur := Cursor([], m, Initial, []);
    assert NextSpec(true, cur) == Ok(Lexed(None, cur));
    assert ProcessStyles(Emphasize, [], []) == Ok([]);
    assert InnerSpec(symbols, att, cur, true, problems) == Ok(Inner([], None, cur, problems));
    BranchUnended(symbols, att, cur, condition, problems, Inner([], None, cur, problems));
  }

  /** The text of a node, read left to right through Italic, Bold and Anchor (a branch has none of its own). */
  function Words(node: TemplateParseNode): seq<string>
    decreases node, 1
  {
    match node
    case Text(t) => [t]
    case Paragraph => []
    case Italic(children) => WordsOf(children)
    case Bold(children) => WordsOf(children)
    case Anchor(_, children) => WordsOf(children)
    case Branch(_, _, _) => []
  }

  /** The text of a list of nodes. */
  function WordsOf(nodes: seq<TemplateParseNode>): (r: seq<string>)
    decreases nodes, 0
  {
    if nodes == [] then [] else Words(nodes[0]) + WordsOf(nodes[1..])
  }

  lemma {:induction false} WordsOfIsFlatMap(nodes: seq<TemplateParseNode>)
    ensures WordsOf(nodes) == FlatMap(Words, nodes)
  {
    if nodes != [] {
      WordsOfIsFlatMap(nodes[1..]);
    }
  }

  lemma EmphasizeSeesThrough()
    ensures SeesThrough(Emphasize, Words)
  {
    forall style: Style, nodes: seq<TemplateParseNode>
      ensures Words(Emphasize(style, nodes)) == FlatMap(Words, nodes)
    {
      WordsOfIsFlatMap(nodes);
    }
  }

  /** A blank line adds no text and resolving the runs before it keeps the text in order. */
  lemma ParagraphKeepsWords(parse: seq<TemplateParseNode>, stack: seq<DelimiterPointer>)
    ensures var r := ProcessStyles(Emphasize, parse + [Paragraph], stack);
      r.Ok? ==> WordsOf(r.value) == WordsOf(parse)
  {
    EmphasizeSeesThrough();
    ProcessStylesKeepsLeaves(Emphasize, Words, parse + [Paragraph], stack);
    FlatMapConcat(Words, parse, [Paragraph]);
    WordsOfIsFlatMap(parse + [Paragraph]);
    WordsOfIsFlatMap(parse);
    assert FlatMap(Words, [Paragraph]) == [];
    var r := ProcessStyles(Emphasize, parse + [Paragraph], stack);
    if r.Ok? {
      WordsOfIsFlatMap(r.value);
    }
  }

  /**
   * Closing an anchor keeps the text in order: the runs above the `[` are
   * resolved and the nodes after its position move into the Anchor, whose
   * text is theirs.
   */
  lemma CloseAnchorKeepsWords(parse: seq<TemplateParseNode>, stack: seq<DelimiterPointer>, href: string)
    ensures var r := CloseAnchor(Emphasize, AnchorNode, parse, stack, href);
      r.Ok? ==> WordsOf(r.value.0) == WordsOf(parse)
  {
    EmphasizeSeesThrough();
    forall href: string, nodes: seq<TemplateParseNode>
      ensures Words(AnchorNode(href, nodes)) == FlatMap(Words, nodes)
    {
      WordsOfIsFlatMap(nodes);
    }
    CloseAnchorKeepsLeaves(Emphasize, AnchorNode, Words, parse, stack, href);
    var r := CloseAnchor(Emphasize, AnchorNode, parse, stack, href);
    WordsOfIsFlatMap(parse);
    if r.Ok? {
      WordsOfIsFlatMap(r.value.0);
    }
  }

  /** An empty template parses to no nodes and no problems. */
  lemma EmptyTemplate(symbols: seq<string>, att: Attribution)
    ensures ParseSpec(symbols, att, "") == Ok(TemplateParsingResult([], []))
  {
    assert NextSpec(true, Start("")) == Ok(Lexed(None, Start("")));
    assert ProcessStyles(Emphasize, [], []) == Ok([]);
  }

  // ---------------------------------------------------------------------
  // The parser, step by step

  /** `Parse`: the lexer it consumes, the attribution problems are reported at, and the problems found so far. */
  class Parse {
    const table: SymbolList
    const lex: TemplateLex
    const attribution: Attribution
    var problems: seq<Problem>

    /** `Parse::new`: a template lexer at the start of `source`. */
    constructor (table: SymbolList, source: string, attribution: Attribution)
      ensures this.table == table && this.attribution == attribution && problems == []
      ensures lex.tags && lex.Current() == Start(source) && fresh(lex)
    {
      this.table := table;
      this.attribution := attribution;
      lex := new TemplateLex.Lex(true, source);
      problems := [];
    }

    /** The method ended as `spec` says: it panicked, or it returned what `spec` holds and left the lexer and problems as `spec` does. */
    predicate InnerDone(spec: Outcome<Inner>, r: Outcome<(seq<TemplateParseNode>, Option<ExpressionParser.TagParse>)>)
      reads this, lex
    {
      (spec.Panic? ==> r.Panic?)
      && (spec.Ok? ==> r == Ok((spec.value.parse, spec.value.tag)) && lex.Current() == spec.value.cursor && problems == spec.value.problems)
    }

    /** The same for a tag. */
    predicate TagDone(spec: Outcome<Tagged>, r: Outcome<(seq<TemplateParseNode>, Option<ExpressionParser.TagParse>)>)
      reads this, lex
    {
      (spec.Panic? ==> r.Panic?)
      && (spec.Ok? ==> r == Ok((spec.value.parse, spec.value.tag)) && lex.Current() == spec.value.cursor && problems == spec.value.problems)
    }

    /** The same for `parse_branch`. */
    predicate BranchDone(spec: Outcome<Branched>, r: Outcome<TemplateParseNode>)
      reads this, lex
    {
      (spec.Panic? ==> r.Panic?)
      && (spec.Ok? ==> r == Ok(spec.value.node) && lex.Current() == spec.value.cursor && problems == spec.value.problems)
    }

    /** `parse_inner`. */
    method ParseInner(inBranch: bool) returns (r: Outcome<(seq<TemplateParseNode>, Option<ExpressionParser.TagParse>)>)
      requires lex.tags && Ready(lex.Current())
      modifies this, lex
      ensures InnerDone(InnerSpec(table.symbols, attribution, old(lex.Current()), inBranch, old(problems)), r)
      decreases |lex.Current().source|, Remaining(lex.Current()), 2
    {
      ghost var entry := lex.Current();
      ghost var spec := InnerSpec(table.symbols, attribution, entry, inBranch, problems);
      var parse: seq<TemplateParseNode> := [];
      var stack: seq<DelimiterPointer> := [];
      while true
        invariant lex.tags && Ready(lex.Current()) && |lex.Current().source| <= |entry.source|
        invariant InnerLoop(table.symbols, attribution, lex.Current(), inBranch, parse, stack, problems) == spec
        decreases |lex.Current().source|, Remaining(lex.Current())
      {
        ghost var before := lex.Current();
        NextYields(true, before);
        NextProgress(true, before);
        NextShrinks(true, before);
        var token :- lex.Next();
        if token.None? {
          var resolved :- ProcessStylesInPlace(Emphasize, parse, stack);
          return Ok((resolved, None));
        }
        var t := token.value;
        if t.Text? {
          parse := parse + [TemplateParseNode.Text(t.text)];
        } else if t.ParagraphBreak? {
          parse :- ProcessStylesInPlace(Emphasize, parse + [Paragraph], stack);
          stack := [];
        } else if t.DelimiterRun? {
          stack := stack + [DelimiterPointer(t.delimiter, |parse|)];
        } else if t.AnchorBegin? {
          stack := stack + [AnchorPointer(|parse|)];
        } else if t.AnchorEnd? {
          var closed :- CloseAnchorInPlace(Emphasize, AnchorNode, parse, stack, t.href);
          parse, stack := closed.0, closed.1;
        } else {
          var tagged :- ReadTag(inBranch, t.lex, parse, |before.source|);
          if tagged.1.Some? {
            return Ok(tagged);
          }
          parse := tagged.0;
        }
      }
    }

    /** The tag case of `parse_inner`'s loop, the template lexer having just read the tag. */
    method ReadTag(inBranch: bool, st: ExpressionLexer.LexState, parse: seq<TemplateParseNode>, ghost bound: nat)
      returns (r: Outcome<(seq<TemplateParseNode>, Option<ExpressionParser.TagParse>)>)
      requires lex.tags && Ready(lex.Current()) && |lex.Current().source| < bound
      modifies this, lex
      ensures TagDone(TagEffect(table.symbols, attribution, old(lex.Current()), inBranch, parse, old(problems), st, bound), r)
      decreases bound, 0, 0
    {
      var elex := new ExpressionLexer.ExpressionLex.LexAtMark(table, st.source, st.mark);
      var result :- ExpressionParser.ParseTag(elex, attribution);
      if result.parse.Some? {
        problems := problems + result.problems;
        var tag := result.parse.value;
        if tag.WhenTag? {
          var node :- ParseBranch(tag.condition);
          return Ok((parse + [node], None));
        } else if !inBranch {
          problems := problems + [NewFatal("Invalid tag", AtMark(attribution, lex.Current().mark))];
          return Ok((parse, None));
        }
        return Ok((parse, Some(tag)));
      } else if result.problems == [] {
        var mark := elex.State().mark;
        problems := problems + [NewFatal("Empty tag", AtMarks(attribution, mark, mark))];
      } else {
        problems := problems + result.problems;
      }
      return Ok((parse, None));
    }

    /** `parse_branch`. */
    method ParseBranch(condition: ExpressionParser.ExpressionParse) returns (r: Outcome<TemplateParseNode>)
      requires lex.tags && Ready(lex.Current())
      modifies this, lex
      ensures BranchDone(BranchSpec(table.symbols, attribution, old(lex.Current()), condition, old(problems)), r)
      decreases |lex.Current().source|, Remaining(lex.Current()), 3
    {
      var body :- ParseInner(true);
      var value, tag := body.0, body.1;
      if tag.None? {
        problems := problems + [NewFatal("End tag expected", AtMark(attribution, lex.Current().mark))];
        return Ok(Branch(condition, value, NoElse));
      }
      var t := tag.value;
      if t.WhenTag? || (t.ElseTag? && t.otherwise.Some?) {
        var c := if t.WhenTag? then t.condition else t.otherwise.value;
        var nested :- ParseBranch(c);
        return Ok(Branch(condition, value, ElseNodes([nested])));
      } else if t.ElseTag? {
        var otherwise :- ParseInner(true);
        if otherwise.1 != Some(ExpressionParser.EndTag) {
          problems := problems + [NewFatal("End tag expected", AtMark(attribution, lex.Current().mark))];
        }
        return Ok(Branch(condition, value, ElseNodes(otherwise.0)));
      }
      return Ok(Branch(condition, value, NoElse));
    }
  }

  /** `TemplateParser::parse`. */
  method ParseTemplate(table: SymbolList, source: string, attribution: Attribution) returns (r: Outcome<TemplateParsingResult>)
    ensures r == ParseSpec(table.symbols, attribution, source)
  {
    var parse := new Parse(table, source, attribution);
    StartSettled(true, source);
    var inner :- parse.ParseInner(false);
    return Ok(TemplateParsingResult(inner.0, parse.problems));
  }
}
