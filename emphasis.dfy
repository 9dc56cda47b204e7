/**
 * Emphasis resolution, `process_styles` in both the template parser
 * (compiler/src/template/parse.rs:114-178) and the text parser
 * (compiler/src/text/parse.rs:57-122). The two are the same code over
 * different node types, so here they are one procedure over any node type
 * `N`; `wrap` builds the parser's Bold or Italic node around a list of
 * nodes.
 *
 * The parsers stack every delimiter run with the number of nodes parsed
 * before it. Walking up the stack, each closer looks down for the nearest
 * opener of the same char with delimiters left; the nodes between the two
 * become one Bold node when both runs have at least two delimiters left,
 * and one Italic node otherwise.
 *
 * The procedure is modelled as the source writes it, and the source goes
 * wrong in three ways; each is a panic (`Panic`) in the model:
 *  - a closer at the bottom of the stack computes `i - 1` on `usize`;
 *  - the stack is spliced between the opener and the closer, but the
 *    closer's position `i` is not updated, so the later writes to
 *    `stack[i]` land on the wrong entry, or past the end;
 *  - after a wrap the later entries are meant to move down by the number of
 *    nodes the wrap removed, but the amount is computed after the closer's
 *    own position has moved, so it is always zero and later entries keep
 *    pointing past their nodes.
 */
module Emphasis {
  import opened Common
  import opened TemplateLexer

  /** Which node a matched pair of runs wraps its nodes in. */
  datatype Style = BoldStyle | ItalicStyle

  /** `DelimiterPointer`: a delimiter run and the number of nodes before it. */
  datatype DelimiterPointer = DelimiterPointer(delimiter: Delimiter, index: nat)

  /** The state of the procedure after one wrap. */
  datatype Wrapped<N> = Wrapped(parse: seq<N>, stack: seq<DelimiterPointer>, pointer: DelimiterPointer, earlier: DelimiterPointer)

  /**
   * What is left of a run after a wrap: a Bold wrap uses two delimiters and
   * the source keeps at most one (`1.min(length - 2)`), an Italic wrap
   * uses them all.
   */
  function Left(style: Style, length: nat): nat
  {
    if style == BoldStyle && length >= 3 then 1 else 0
  }

  /** `parse.splice(from..to)`, inserted back at `from` as one node; a range out of order or past the end panics. */
  function Wrap<N>(wrap: (Style, seq<N>) -> N, style: Style, parse: seq<N>, from: nat, to: nat): Outcome<seq<N>>
  {
    if from <= to <= |parse| then Ok(parse[..from] + [wrap(style, parse[from..to])] + parse[to..]) else Panic
  }

  /** `stack[at] = p`; an index past the end panics. */
  function Store(stack: seq<DelimiterPointer>, at: nat, p: DelimiterPointer): (r: Outcome<seq<DelimiterPointer>>)
    ensures r.Ok? ==> |r.value| == |stack|
  {
    if at < |stack| then Ok(stack[at := p]) else Panic
  }

  /** The loop over the entries from `from` on: each position goes down by `amount`; one below `amount` underflows. */
  function ShiftLater(stack: seq<DelimiterPointer>, from: nat, amount: nat): (r: Outcome<seq<DelimiterPointer>>)
    ensures r.Ok? ==> |r.value| == |stack|
    decreases |stack| - from
  {
    if from >= |stack| then Ok(stack)
    else if stack[from].index < amount then Panic
    else ShiftLater(stack[from := stack[from].(index := stack[from].index - amount)], from + 1, amount)
  }

  /**
   * One wrap of the nodes between `earlier` (at `j`) and `pointer` (whose
   * position was `i` before the stack was spliced): the nodes become one,
   * the closer's position is moved to just after that node, both runs lose
   * their delimiters, both are written back, and the later entries are
   * shifted by an amount computed from the moved closer.
   */
  function WrapStep<N>(wrap: (Style, seq<N>) -> N, style: Style, parse: seq<N>, stack: seq<DelimiterPointer>, i: nat, j: nat,
                       pointer: DelimiterPointer, earlier: DelimiterPointer): (r: Outcome<Wrapped<N>>)
    ensures r.Ok? ==> |r.value.stack| == |stack|
    ensures r.Ok? ==> r.value.pointer.delimiter.length == Left(style, pointer.delimiter.length)
    ensures r.Ok? ==> r.value.earlier.delimiter.length == Left(style, earlier.delimiter.length)
  {
    var parse' :- Wrap(wrap, style, parse, earlier.index, pointer.index);
    if pointer.index < earlier.index + 1 then Panic
    else
      var moved := pointer.index - (pointer.index - earlier.index - 1);
      var e := earlier.(delimiter := earlier.delimiter.(length := Left(style, earlier.delimiter.length)));
      var p := pointer.(index := moved, delimiter := pointer.delimiter.(length := Left(style, pointer.delimiter.length)));
      var s1 :- Store(stack, j, e);
      var s2 :- Store(s1, i, p);
      var s3 :- ShiftLater(s2, i + 1, p.index - e.index - 1);
      Ok(Wrapped(parse', s3, p, e))
  }

  /** Whether the entry `earlier` can close against the closer `pointer`. */
  predicate Opens(earlier: DelimiterPointer, pointer: DelimiterPointer)
  {
    earlier.delimiter.opener && earlier.delimiter.character == pointer.delimiter.character && earlier.delimiter.length > 0
  }

  /**
   * The inner `loop` of `process_styles`: the closer `pointer` (found at
   * `i`) looks at the entry `j` and below. A match splices the stack, wraps
   * (Bold, then Italic if both runs still have delimiters) and, if the
   * closer has delimiters left, goes on looking from `i - 2`.
   */
  function Seek<N>(wrap: (Style, seq<N>) -> N, parse: seq<N>, stack: seq<DelimiterPointer>, i: nat, j: nat, pointer: DelimiterPointer)
    : (r: Outcome<(seq<N>, seq<DelimiterPointer>)>)
    requires pointer.delimiter.length > 0
    ensures r.Ok? ==> |r.value.1| <= |stack|
    decreases pointer.delimiter.length, j
  {
    if j >= |stack| then Panic
    else if Opens(stack[j], pointer) then
      if i < j + 1 || |stack| < i then Panic
      else
        var earlier := stack[j];
        var spliced := stack[..j + 1] + stack[i..];
        var j' := i - 1;
        var bold :- if pointer.delimiter.length >= 2 && earlier.delimiter.length >= 2
                    then WrapStep(wrap, BoldStyle, parse, spliced, i, j', pointer, earlier)
                    else Ok(Wrapped(parse, spliced, pointer, earlier));
        var italic :- if bold.pointer.delimiter.length > 0 && bold.earlier.delimiter.length > 0
                      then WrapStep(wrap, ItalicStyle, bold.parse, bold.stack, i, j', bold.pointer, bold.earlier)
                      else Ok(bold);
        if italic.pointer.delimiter.length < 1 || j' == 0 then Ok((italic.parse, italic.stack))
        else Seek(wrap, italic.parse, italic.stack, i, j' - 1, italic.pointer)
    else if j == 0 then Ok((parse, stack))
    else Seek(wrap, parse, stack, i, j - 1, pointer)
  }

  /** The outer loop of `process_styles`, from the entry `i` up. */
  function Resolve<N>(wrap: (Style, seq<N>) -> N, parse: seq<N>, stack: seq<DelimiterPointer>, i: nat): Outcome<seq<N>>
    decreases if i < |stack| then |stack| - i else 0
  {
    if i >= |stack| then Ok(parse)
    else
      var pointer := stack[i];
      if pointer.delimiter.closer && pointer.delimiter.length > 0 then
        if i == 0 then Panic
        else
          var found :- Seek(wrap, parse, stack, i, i - 1, pointer);
          Resolve(wrap, found.0, found.1, i + 1)
      else Resolve(wrap, parse, stack, i + 1)
  }

  /** `process_styles`: the nodes with every matched pair of runs resolved. */
  function ProcessStyles<N>(wrap: (Style, seq<N>) -> N, parse: seq<N>, stack: seq<DelimiterPointer>): Outcome<seq<N>>
  {
    Resolve(wrap, parse, stack, 0)
  }

  /** What the rest of the outer loop makes of the outcome of the inner loop at `i`. */
  function Continue<N>(wrap: (Style, seq<N>) -> N, found: Outcome<(seq<N>, seq<DelimiterPointer>)>, i: nat): Outcome<seq<N>>
  {
    if found.Panic? then Panic else Resolve(wrap, found.value.0, found.value.1, i + 1)
  }

  // ---------------------------------------------------------------------
  // The procedure, step by step

  /** One wrap, as the source does it in place. */
  method WrapInPlace<N>(wrap: (Style, seq<N>) -> N, style: Style, parse0: seq<N>, stack0: seq<DelimiterPointer>, i: nat, j: nat,
                        pointer0: DelimiterPointer, earlier0: DelimiterPointer) returns (r: Outcome<Wrapped<N>>)
    ensures r == WrapStep(wrap, style, parse0, stack0, i, j, pointer0, earlier0)
  {
    var parse, stack, pointer, earlier := parse0, stack0, pointer0, earlier0;
    if !(earlier.index <= pointer.index <= |parse|) {
      return Panic;
    }
    parse := parse[..earlier.index] + [wrap(style, parse[earlier.index..pointer.index])] + parse[pointer.index..];
    if pointer.index < earlier.index + 1 {
      return Panic;
    }
    pointer := pointer.(index := pointer.index - (pointer.index - earlier.index - 1));
    earlier := earlier.(delimiter := earlier.delimiter.(length := Left(style, earlier.delimiter.length)));
    pointer := pointer.(delimiter := pointer.delimiter.(length := Left(style, pointer.delimiter.length)));
    if j >= |stack| {
      return Panic;
    }
    stack := stack[j := earlier];
    if i >= |stack| {
      return Panic;
    }
    stack := stack[i := pointer];
    ghost var stored := stack;
    var amount := pointer.index - earlier.index - 1;
    var k := i + 1;
    while k < |stack|
      invariant i + 1 <= k && |stack| == |stored|
      invariant ShiftLater(stored, i + 1, amount) == ShiftLater(stack, k, amount)
      decreases |stack| - k
    {
      if stack[k].index < amount {
        return Panic;
      }
      stack := stack[k := stack[k].(index := stack[k].index - amount)];
      k := k + 1;
    }
    return Ok(Wrapped(parse, stack, pointer, earlier));
  }

  /** `process_styles`, with its two loops. */
  method ProcessStylesInPlace<N>(wrap: (Style, seq<N>) -> N, parse0: seq<N>, stack0: seq<DelimiterPointer>) returns (r: Outcome<seq<N>>)
    ensures r == ProcessStyles(wrap, parse0, stack0)
  {
    var parse, stack := parse0, stack0;
    var i: nat := 0;
    while i < |stack|
      invariant Resolve(wrap, parse, stack, i) == ProcessStyles(wrap, parse0, stack0)
      decreases if i <= |stack| then |stack| - i else 0
    {
      var pointer := stack[i];
      if pointer.delimiter.closer && pointer.delimiter.length > 0 {
        if i == 0 {
          return Panic;
        }
        var j: nat := i - 1;
        var searching := true;
        ghost var outer := |stack|;
        while searching
          invariant searching ==> pointer.delimiter.length > 0
          invariant searching ==> Continue(wrap, Seek(wrap, parse, stack, i, j, pointer), i) == ProcessStyles(wrap, parse0, stack0)
          invariant !searching ==> Resolve(wrap, parse, stack, i + 1) == ProcessStyles(wrap, parse0, stack0)
          invariant |stack| <= outer
          decreases searching, pointer.delimiter.length, j
        {
          if j >= |stack| {
            return Panic;
          }
          var earlier := stack[j];
          if Opens(earlier, pointer) {
            if i < j + 1 || |stack| < i {
              return Panic;
            }
            stack := stack[..j + 1] + stack[i..];
            j := i - 1;
            var step := Wrapped(parse, stack, pointer, earlier);
            if pointer.delimiter.length >= 2 && earlier.delimiter.length >= 2 {
              var bold := WrapInPlace(wrap, BoldStyle, parse, stack, i, j, pointer, earlier);
              if bold.Panic? {
                return Panic;
              }
              step := bold.value;
            }
            if step.pointer.delimiter.length > 0 && step.earlier.delimiter.length > 0 {
              var italic := WrapInPlace(wrap, ItalicStyle, step.parse, step.stack, i, j, step.pointer, step.earlier);
              if italic.Panic? {
                return Panic;
              }
              step := italic.value;
            }
            parse, stack, pointer := step.parse, step.stack, step.pointer;
            if pointer.delimiter.length < 1 {
              searching := false;
            }
          }
          if searching {
            if j == 0 {
              searching := false;
            } else {
              j := j - 1;
            }
          }
        }
      }
      i := i + 1;
    }
    return Ok(parse);
  }

  // ---------------------------------------------------------------------
  // What the procedure keeps

  /** The leaves of a list of nodes, as `flat` reads each node. */
  function FlatMap<N, T>(flat: N -> seq<T>, nodes: seq<N>): seq<T>
  {
    if nodes == [] then [] else flat(nodes[0]) + FlatMap(flat, nodes[1..])
  }

  lemma {:induction false} FlatMapConcat<N, T>(flat: N -> seq<T>, a: seq<N>, b: seq<N>)
    ensures FlatMap(flat, a + b) == FlatMap(flat, a) + FlatMap(flat, b)
  {
    if a == [] {
      assert a + b == b;
    } else {
      FlatMapConcat(flat, a[1..], b);
      assert (a + b)[1..] == a[1..] + b;
    }
  }

  /** `flat` sees through Bold and Italic: a wrapped node has the leaves of the nodes it wraps. */
  ghost predicate SeesThrough<N(!new), T>(wrap: (Style, seq<N>) -> N, flat: N -> seq<T>)
  {
    forall style: Style, nodes: seq<N> :: flat(wrap(style, nodes)) == FlatMap(flat, nodes)
  }

  lemma WrapKeeps<N(!new), T>(wrap: (Style, seq<N>) -> N, flat: N -> seq<T>, style: Style, parse: seq<N>, from: nat, to: nat)
    requires SeesThrough(wrap, flat) && from <= to <= |parse|
    ensures var r := Wrap(wrap, style, parse, from, to);
      r.Ok? && FlatMap(flat, r.value) == FlatMap(flat, parse) && |r.value| == |parse| - (to - from) + 1
  {
    var a, b, c := parse[..from], parse[from..to], parse[to..];
    var w := wrap(style, b);
    assert parse == a + b + c;
    FlatMapConcat(flat, a + b, c);
    FlatMapConcat(flat, a, b);
    assert FlatMap(flat, [w]) == flat(w) + FlatMap(flat, []);
    FlatMapConcat(flat, a + [w], c);
    FlatMapConcat(flat, a, [w]);
  }

  lemma WrapStepKeeps<N(!new), T>(wrap: (Style, seq<N>) -> N, flat: N -> seq<T>, style: Style, parse: seq<N>, stack: seq<DelimiterPointer>,
                            i: nat, j: nat, pointer: DelimiterPointer, earlier: DelimiterPointer)
    requires SeesThrough(wrap, flat)
    ensures var r := WrapStep(wrap, style, parse, stack, i, j, pointer, earlier);
      r.Ok? ==> FlatMap(flat, r.value.parse) == FlatMap(flat, parse) && |r.value.parse| <= |parse|
  {
    if earlier.index <= pointer.index <= |parse| {
      WrapKeeps(wrap, flat, style, parse, earlier.index, pointer.index);
    }
  }

  lemma {:induction false} SeekKeeps<N(!new), T>(wrap: (Style, seq<N>) -> N, flat: N -> seq<T>, parse: seq<N>, stack: seq<DelimiterPointer>,
                                           i: nat, j: nat, pointer: DelimiterPointer)
    requires SeesThrough(wrap, flat) && pointer.delimiter.length > 0
    ensures var r := Seek(wrap, parse, stack, i, j, pointer);
      r.Ok? ==> FlatMap(flat, r.value.0) == FlatMap(flat, parse) && |r.value.0| <= |parse|
    decreases pointer.delimiter.length, j
  {
    if j < |stack| {
      if Opens(stack[j], pointer) {
        if j + 1 <= i <= |stack| {
          var earlier := stack[j];
          var spliced := stack[..j + 1] + stack[i..];
          var bold := if pointer.delimiter.length >= 2 && earlier.delimiter.length >= 2
                      then WrapStep(wrap, BoldStyle, parse, spliced, i, i - 1, pointer, earlier)
                      else Ok(Wrapped(parse, spliced, pointer, earlier));
          WrapStepKeeps(wrap, flat, BoldStyle, parse, spliced, i, i - 1, pointer, earlier);
          if bold.Ok? {
            var b := bold.value;
            var italic := if b.pointer.delimiter.length > 0 && b.earlier.delimiter.length > 0
                          then WrapStep(wrap, ItalicStyle, b.parse, b.stack, i, i - 1, b.pointer, b.earlier)
                          else Ok(b);
            WrapStepKeeps(wrap, flat, ItalicStyle, b.parse, b.stack, i, i - 1, b.pointer, b.earlier);
            if italic.Ok? && italic.value.pointer.delimiter.length >= 1 && i - 1 != 0 {
              SeekKeeps(wrap, flat, italic.value.parse, italic.value.stack, i, i - 2, italic.value.pointer);
            }
          }
        }
      } else if j > 0 {
        SeekKeeps(wrap, flat, parse, stack, i, j - 1, pointer);
      }
    }
  }

  lemma {:induction false} ResolveKeeps<N(!new), T>(wrap: (Style, seq<N>) -> N, flat: N -> seq<T>, parse: seq<N>, stack: seq<DelimiterPointer>, i: nat)
    requires SeesThrough(wrap, flat)
    ensures var r := Resolve(wrap, parse, stack, i);
      r.Ok? ==> FlatMap(flat, r.value) == FlatMap(flat, parse) && |r.value| <= |parse|
    decreases if i < |stack| then |stack| - i else 0
  {
    if i < |stack| {
      var pointer := stack[i];
      if pointer.delimiter.closer && pointer.delimiter.length > 0 {
        if i > 0 {
          SeekKeeps(wrap, flat, parse, stack, i, i - 1, pointer);
          var found := Seek(wrap, parse, stack, i, i - 1, pointer);
          if found.Ok? {
            ResolveKeeps(wrap, flat, found.value.0, found.value.1, i + 1);
          }
        }
      } else {
        ResolveKeeps(wrap, flat, parse, stack, i + 1);
      }
    }
  }

  /**
   * Resolving emphasis only regroups nodes: whenever it completes, the
   * leaves read left to right are those it was given, and there are no
   * more nodes than before.
   */
  lemma ProcessStylesKeepsLeaves<N(!new), T>(wrap: (Style, seq<N>) -> N, flat: N -> seq<T>, parse: seq<N>, stack: seq<DelimiterPointer>)
    requires SeesThrough(wrap, flat)
    ensures var r := ProcessStyles(wrap, parse, stack);
      r.Ok? ==> FlatMap(flat, r.value) == FlatMap(flat, parse) && |r.value| <= |parse|
  {
    ResolveKeeps(wrap, flat, parse, stack, 0);
  }

  // ---------------------------------------------------------------------
  // Anchors

  /** The stack entry of `[`: a run of one `[` that neither opens nor closes emphasis. */
  function AnchorPointer(index: nat): DelimiterPointer
  {
    DelimiterPointer(Delimiter('[', 1, false, false), index)
  }

  /** The topmost `[` on the stack, if any. */
  function LastAnchor(stack: seq<DelimiterPointer>): (r: Option<nat>)
    ensures r.Some? ==> r.value < |stack| && stack[r.value].delimiter.character == '['
    ensures r.Some? ==> forall k :: r.value < k < |stack| ==> stack[k].delimiter.character != '['
    ensures r.None? ==> forall k :: 0 <= k < |stack| ==> stack[k].delimiter.character != '['
  {
    if stack == [] then None
    else if stack[|stack| - 1].delimiter.character == '[' then Some(|stack| - 1)
    else LastAnchor(stack[..|stack| - 1])
  }

  /**
   * `AnchorEnd(href)` in both parsers (compiler/src/template/parse.rs:239-249,
   * compiler/src/text/parse.rs:156-166): the runs above the topmost `[` are
   * resolved, the nodes after its position become one node made by
   * `anchor`, and the stack is cut below it; with no `[` nothing changes.
   * A position past the end panics.
   */
  function CloseAnchor<N>(wrap: (Style, seq<N>) -> N, anchor: (string, seq<N>) -> N,
                          parse: seq<N>, stack: seq<DelimiterPointer>, href: string)
    : (r: Outcome<(seq<N>, seq<DelimiterPointer>)>)
  {
    var found := LastAnchor(stack);
    if found.None? then Ok((parse, stack))
    else
      var i := found.value;
      var resolved :- ProcessStyles(wrap, parse, stack[i..]);
      var at := stack[i].index;
      if at > |resolved| then Panic
      else Ok((resolved[..at] + [anchor(href, resolved[at..])], stack[..i]))
  }

  /**
   * `AnchorEnd(href)` as the source does it: the stack is searched from
   * the top for `[`, the entries from there on are cut off and resolved,
   * and the nodes after its position are spliced out into an anchor.
   */
  method CloseAnchorInPlace<N>(wrap: (Style, seq<N>) -> N, anchor: (string, seq<N>) -> N,
                               parse0: seq<N>, stack0: seq<DelimiterPointer>, href: string)
    returns (r: Outcome<(seq<N>, seq<DelimiterPointer>)>)
    ensures r == CloseAnchor(wrap, anchor, parse0, stack0, href)
  {
    var i: nat := |stack0|;
    while i > 0
      invariant i <= |stack0| && LastAnchor(stack0) == LastAnchor(stack0[..i])
    {
      assert stack0[..i][..i - 1] == stack0[..i - 1];
      if stack0[i - 1].delimiter.character == '[' {
        var pointer := stack0[i - 1];
        var resolved :- ProcessStylesInPlace(wrap, parse0, stack0[i - 1..]);
        if pointer.index > |resolved| {
          return Panic;
        }
        var content := resolved[pointer.index..];
        return Ok((resolved[..pointer.index] + [anchor(href, content)], stack0[..i - 1]));
      }
      i := i - 1;
    }
    assert stack0[..0] == [];
    return Ok((parse0, stack0));
  }

  /** `flat` sees through the anchor node: it has the leaves of the nodes it holds. */
  ghost predicate AnchorSeesThrough<N(!new), T>(anchor: (string, seq<N>) -> N, flat: N -> seq<T>)
  {
    forall href: string, nodes: seq<N> :: flat(anchor(href, nodes)) == FlatMap(flat, nodes)
  }

  /**
   * Closing an anchor only regroups nodes: whenever it completes, the
   * leaves read left to right are those it was given.
   */
  lemma CloseAnchorKeepsLeaves<N(!new), T>(wrap: (Style, seq<N>) -> N, anchor: (string, seq<N>) -> N, flat: N -> seq<T>,
                                           parse: seq<N>, stack: seq<DelimiterPointer>, href: string)
    requires SeesThrough(wrap, flat) && AnchorSeesThrough(anchor, flat)
    ensures var r := CloseAnchor(wrap, anchor, parse, stack, href);
      r.Ok? ==> FlatMap(flat, r.value.0) == FlatMap(flat, parse)
  {
    var found := LastAnchor(stack);
    if found.Some? {
      var i := found.value;
      var resolved := ProcessStyles(wrap, parse, stack[i..]);
      ProcessStylesKeepsLeaves(wrap, flat, parse, stack[i..]);
      if resolved.Ok? && stack[i].index <= |resolved.value| {
        var at := stack[i].index;
        var rs := resolved.value;
        var node := anchor(href, rs[at..]);
        assert rs == rs[..at] + rs[at..];
        FlatMapConcat(flat, rs[..at], rs[at..]);
        FlatMapConcat(flat, rs[..at], [node]);
        assert FlatMap(flat, [node]) == flat(node) + FlatMap(flat, []);
      }
    }
  }

  // ---------------------------------------------------------------------
  // Which node a pair of runs makes

  /** An opening run of `n` `c`s before node `index`. */
  function Opener(c: char, n: nat, index: nat): DelimiterPointer
  {
    DelimiterPointer(Delimiter(c, n, true, false), index)
  }

  /** A closing run of `n` `c`s before node `index`. */
  function Closer(c: char, n: nat, index: nat): DelimiterPointer
  {
    DelimiterPointer(Delimiter(c, n, false, true), index)
  }

  /** A shift by zero changes nothing. */
  lemma {:induction false} ShiftLaterByZero(stack: seq<DelimiterPointer>, from: nat)
    ensures ShiftLater(stack, from, 0) == Ok(stack)
    decreases |stack| - from
  {
    if from < |stack| {
      assert stack[from := stack[from].(index := stack[from].index - 0)] == stack;
      ShiftLaterByZero(stack, from + 1);
    }
  }

  /**
   * Every wrap that does not panic moves the closer to just after the new
   * node and writes the two runs back, and shifts no later entry: the amount
   * it shifts by is always zero.
   */
  lemma WrapStepShiftsNothing<N>(wrap: (Style, seq<N>) -> N, style: Style, parse: seq<N>, stack: seq<DelimiterPointer>, i: nat, j: nat,
                                 pointer: DelimiterPointer, earlier: DelimiterPointer)
    requires earlier.index < pointer.index <= |parse| && j < |stack| && i < |stack|
    ensures var e := earlier.(delimiter := earlier.delimiter.(length := Left(style, earlier.delimiter.length)));
            var p := pointer.(index := earlier.index + 1, delimiter := pointer.delimiter.(length := Left(style, pointer.delimiter.length)));
            WrapStep(wrap, style, parse, stack, i, j, pointer, earlier)
            == Ok(Wrapped(parse[..earlier.index] + [wrap(style, parse[earlier.index..pointer.index])] + parse[pointer.index..],
                          stack[j := e][i := p], p, e))
  {
    var e := earlier.(delimiter := earlier.delimiter.(length := Left(style, earlier.delimiter.length)));
    var p := pointer.(index := earlier.index + 1, delimiter := pointer.delimiter.(length := Left(style, pointer.delimiter.length)));
    ShiftLaterByZero(stack[j := e][i := p], i + 1);
  }

  /** `*x*`, `**x*`, `*x**`: a pair where one run has a single delimiter makes one Italic node. */
  lemma ItalicPair<N>(wrap: (Style, seq<N>) -> N, parse: seq<N>, c: char, m: nat, n: nat, a: nat, b: nat)
    requires a < b <= |parse| && 1 <= m && 1 <= n && (m == 1 || n == 1)
    ensures ProcessStyles(wrap, parse, [Opener(c, m, a), Closer(c, n, b)])
         == Ok(parse[..a] + [wrap(ItalicStyle, parse[a..b])] + parse[b..])
  {
    var stack := [Opener(c, m, a), Closer(c, n, b)];
    var wrapped := parse[..a] + [wrap(ItalicStyle, parse[a..b])] + parse[b..];
    var after := [Opener(c, 0, a), Closer(c, 0, a + 1)];
    assert stack[..1] + stack[1..] == stack;
    WrapStepShiftsNothing(wrap, ItalicStyle, parse, stack, 1, 0, stack[1], stack[0]);
    assert stack[0 := after[0]][1 := after[1]] == after;
    assert Seek(wrap, parse, stack, 1, 0, stack[1]) == Ok((wrapped, after));
    assert Resolve(wrap, wrapped, after, 2) == Ok(wrapped);
    assert Resolve(wrap, parse, stack, 1) == Ok(wrapped);
  }

  /** `**x**`: a pair of runs with at least two delimiters each, one with exactly two, makes one Bold node. */
  lemma BoldPair<N>(wrap: (Style, seq<N>) -> N, parse: seq<N>, c: char, m: nat, n: nat, a: nat, b: nat)
    requires a < b <= |parse| && 2 <= m && 2 <= n && (m == 2 || n == 2)
    ensures ProcessStyles(wrap, parse, [Opener(c, m, a), Closer(c, n, b)])
         == Ok(parse[..a] + [wrap(BoldStyle, parse[a..b])] + parse[b..])
  {
    var stack := [Opener(c, m, a), Closer(c, n, b)];
    var wrapped := parse[..a] + [wrap(BoldStyle, parse[a..b])] + parse[b..];
    var after := [Opener(c, Left(BoldStyle, m), a), Closer(c, Left(BoldStyle, n), a + 1)];
    assert stack[..1] + stack[1..] == stack;
    WrapStepShiftsNothing(wrap, BoldStyle, parse, stack, 1, 0, stack[1], stack[0]);
    assert stack[0 := after[0]][1 := after[1]] == after;
    assert Seek(wrap, parse, stack, 1, 0, stack[1]) == Ok((wrapped, after));
    assert Resolve(wrap, wrapped, after, 2) == Ok(wrapped);
    assert Resolve(wrap, parse, stack, 1) == Ok(wrapped);
  }

  /** `***x***`: runs of three or more make a Bold node inside an Italic one. */
  lemma BoldInsideItalic<N>(wrap: (Style, seq<N>) -> N, parse: seq<N>, c: char, m: nat, n: nat, a: nat, b: nat)
    requires a < b <= |parse| && 3 <= m && 3 <= n
    ensures ProcessStyles(wrap, parse, [Opener(c, m, a), Closer(c, n, b)])
         == Ok(parse[..a] + [wrap(ItalicStyle, [wrap(BoldStyle, parse[a..b])])] + parse[b..])
  {
    var stack := [Opener(c, m, a), Closer(c, n, b)];
    var bolded := parse[..a] + [wrap(BoldStyle, parse[a..b])] + parse[b..];
    var half := [Opener(c, 1, a), Closer(c, 1, a + 1)];
    assert stack[..1] + stack[1..] == stack;
    WrapStepShiftsNothing(wrap, BoldStyle, parse, stack, 1, 0, stack[1], stack[0]);
    assert stack[0 := half[0]][1 := half[1]] == half;
    var wrapped := parse[..a] + [wrap(ItalicStyle, [wrap(BoldStyle, parse[a..b])])] + parse[b..];
    var after := [Opener(c, 0, a), Closer(c, 0, a + 1)];
    assert bolded[a..a + 1] == [wrap(BoldStyle, parse[a..b])] && bolded[..a] == parse[..a] && bolded[a + 1..] == parse[b..];
    WrapStepShiftsNothing(wrap, ItalicStyle, bolded, half, 1, 0, half[1], half[0]);
    assert half[0 := after[0]][1 := after[1]] == after;
    assert Seek(wrap, parse, stack, 1, 0, stack[1]) == Ok((wrapped, after));
    assert Resolve(wrap, wrapped, after, 2) == Ok(wrapped);
    assert Resolve(wrap, parse, stack, 1) == Ok(wrapped);
  }

  /** A closer pairs with the nearest opener below it; an opener further down stays unmatched. */
  lemma NearestOpener<N>(wrap: (Style, seq<N>) -> N, parse: seq<N>, c: char, a: nat, b: nat, d: nat)
    requires a <= b < d <= |parse|
    ensures ProcessStyles(wrap, parse, [Opener(c, 1, a), Opener(c, 1, b), Closer(c, 1, d)])
         == Ok(parse[..b] + [wrap(ItalicStyle, parse[b..d])] + parse[d..])
  {
    var stack := [Opener(c, 1, a), Opener(c, 1, b), Closer(c, 1, d)];
    var wrapped := parse[..b] + [wrap(ItalicStyle, parse[b..d])] + parse[d..];
    var after := [Opener(c, 1, a), Opener(c, 0, b), Closer(c, 0, b + 1)];
    assert stack[..2] + stack[2..] == stack;
    WrapStepShiftsNothing(wrap, ItalicStyle, parse, stack, 2, 1, stack[2], stack[1]);
    assert stack[1 := after[1]][2 := after[2]] == after;
    assert Seek(wrap, parse, stack, 2, 1, stack[2]) == Ok((wrapped, after));
    assert Resolve(wrap, wrapped, after, 3) == Ok(wrapped);
    assert Resolve(wrap, parse, stack, 2) == Ok(wrapped);
    assert Resolve(wrap, parse, stack, 1) == Ok(wrapped);
  }

  /** Runs of different chars do not pair. */
  lemma OtherCharUnmatched<N>(wrap: (Style, seq<N>) -> N, parse: seq<N>, c: char, e: char, a: nat, b: nat)
    requires c != e
    ensures ProcessStyles(wrap, parse, [Opener(c, 1, a), Closer(e, 1, b)]) == Ok(parse)
  {
    var stack := [Opener(c, 1, a), Closer(e, 1, b)];
    assert Resolve(wrap, parse, stack, 2) == Ok(parse);
    assert Seek(wrap, parse, stack, 1, 0, stack[1]) == Ok((parse, stack));
    assert Resolve(wrap, parse, stack, 1) == Ok(parse);
  }

  // ---------------------------------------------------------------------
  // Where the procedure panics

  /**
   * A closer at the bottom of the stack computes `0 - 1` as a `usize`: the
   * procedure panics whatever the nodes. A `*` between two letters, as in
   * `2*3`, both opens and closes, so a text whose first run is such a star
   * reaches this.
   */
  lemma CloserAtBottomPanics<N>(wrap: (Style, seq<N>) -> N, parse: seq<N>, stack: seq<DelimiterPointer>)
    requires stack != [] && stack[0].delimiter.closer && stack[0].delimiter.length > 0
    ensures ProcessStyles(wrap, parse, stack) == Panic
  {
  }

  /**
   * `*_x_*`: after the inner pair is wrapped, the outer closer splices the
   * stack down to two entries but still writes its opener at position
   * `i - 1` = 2, past the end.
   */
  lemma NestedRunsPanic<N>(wrap: (Style, seq<N>) -> N, x: N)
    ensures ProcessStyles(wrap, [x], [Opener('*', 1, 0), Opener('_', 1, 0), Closer('_', 1, 1), Closer('*', 1, 1)]) == Panic
  {
    var stack := [Opener('*', 1, 0), Opener('_', 1, 0), Closer('_', 1, 1), Closer('*', 1, 1)];
    var inner := [Opener('*', 1, 0), Opener('_', 0, 0), Closer('_', 0, 1), Closer('*', 1, 1)];
    var once := [wrap(ItalicStyle, [x])];
    assert stack[..2] + stack[2..] == stack;
    WrapStepShiftsNothing(wrap, ItalicStyle, [x], stack, 2, 1, stack[2], stack[1]);
    assert stack[1 := inner[1]][2 := inner[2]] == inner;
    assert [x][0..1] == [x] && [x][..0] == [] && [x][1..] == [];
    assert [x][..stack[1].index] + [wrap(ItalicStyle, [x][stack[1].index..stack[2].index])] + [x][stack[2].index..] == once;
    assert WrapStep(wrap, ItalicStyle, [x], stack, 2, 1, stack[2], stack[1]) == Ok(Wrapped(once, inner, inner[2], inner[1]));
    assert Seek(wrap, [x], stack, 2, 1, stack[2]) == Ok((once, inner));
    var spliced := [Opener('*', 1, 0), Closer('*', 1, 1)];
    assert inner[..1] + inner[3..] == spliced;
    assert WrapStep(wrap, ItalicStyle, once, spliced, 3, 2, inner[3], inner[0]) == Panic;
    assert Seek(wrap, once, inner, 3, 0, inner[3]) == Panic;
    assert Seek(wrap, once, inner, 3, 1, inner[3]) == Panic;
    assert Seek(wrap, once, inner, 3, 2, inner[3]) == Panic;
    assert Resolve(wrap, once, inner, 3) == Panic;
    assert Resolve(wrap, [x], stack, 2) == Panic;
    assert Resolve(wrap, [x], stack, 1) == Panic;
  }

  /**
   * `*a [b](u)* *c*` leaves four nodes and this stack. The first pair wraps
   * two nodes into one, but the later pair keeps its positions 3 and 4,
   * which now point past the three nodes left: the wrap panics.
   */
  lemma LaterRunsNotShifted<N>(wrap: (Style, seq<N>) -> N, parse: seq<N>)
    requires |parse| == 4
    ensures ProcessStyles(wrap, parse, [Opener('*', 1, 0), Closer('*', 1, 2), Opener('*', 1, 3), Closer('*', 1, 4)]) == Panic
  {
    var stack := [Opener('*', 1, 0), Closer('*', 1, 2), Opener('*', 1, 3), Closer('*', 1, 4)];
    var wrapped := [wrap(ItalicStyle, parse[0..2])] + parse[2..];
    var after := [Opener('*', 0, 0), Closer('*', 0, 1), Opener('*', 1, 3), Closer('*', 1, 4)];
    assert stack[..1] + stack[1..] == stack;
    WrapStepShiftsNothing(wrap, ItalicStyle, parse, stack, 1, 0, stack[1], stack[0]);
    assert parse[..0] + [wrap(ItalicStyle, parse[0..2])] + parse[2..] == wrapped;
    assert stack[0 := after[0]][1 := after[1]] == after;
    assert Seek(wrap, parse, stack, 1, 0, stack[1]) == Ok((wrapped, after));
    assert after[..3] + after[3..] == after;
    assert WrapStep(wrap, ItalicStyle, wrapped, after, 3, 2, after[3], after[2]) == Panic;
    assert Seek(wrap, wrapped, after, 3, 2, after[3]) == Panic;
    assert Resolve(wrap, wrapped, after, 3) == Panic;
    assert Resolve(wrap, wrapped, after, 2) == Panic;
    assert Resolve(wrap, parse, stack, 1) == Panic;
  }
}
