/**
 * Source-location handles (compiler/src/attribution.rs). An attribution
 * names a source, a path of `.key` and `[i]` segments into the YAML
 * document, and a start and end mark. Every operation builds a fresh value.
 */
module Attributions {
  import opened Common

  datatype Attribution = Attribution(source: string, path: string, startMark: Mark, endMark: Mark)

  /** One step of a path into a YAML document. */
  datatype Segment = KeySegment(key: string) | IndexSegment(index: nat)

  function SegmentText(s: Segment): string
  {
    match s
    case KeySegment(k) => "." + k
    case IndexSegment(i) => "[" + NatToString(i) + "]"
  }

  /** The path text of a sequence of segments, outermost first. */
  function PathText(segments: seq<Segment>): string
  {
    if segments == [] then "" else PathText(segments[..|segments| - 1]) + SegmentText(segments[|segments| - 1])
  }

  function New(source: string, startMark: Mark, endMark: Mark): (r: Attribution)
    ensures r.source == source && r.path == PathText([])
    ensures r.startMark == startMark && r.endMark == endMark
  {
    Attribution(source, "", startMark, endMark)
  }

  function NewAtKey(source: string, key: string, startMark: Mark, endMark: Mark): (r: Attribution)
    ensures r.source == source && r.path == PathText([KeySegment(key)])
    ensures r.startMark == startMark && r.endMark == endMark
  {
    Attribution(source, "." + key, startMark, endMark)
  }

  function NewAtIndex(source: string, index: nat, startMark: Mark, endMark: Mark): (r: Attribution)
    ensures r.source == source && r.path == PathText([IndexSegment(index)])
    ensures r.startMark == startMark && r.endMark == endMark
  {
    Attribution(source, "[" + NatToString(index) + "]", startMark, endMark)
  }

  function AtKey(a: Attribution, key: string, startMark: Mark, endMark: Mark): (r: Attribution)
    ensures r.source == a.source
    ensures r.path == a.path + SegmentText(KeySegment(key))
    ensures r.startMark == startMark && r.endMark == endMark
  {
    Attribution(a.source, a.path + "." + key, startMark, endMark)
  }

  function AtIndex(a: Attribution, index: nat, startMark: Mark, endMark: Mark): (r: Attribution)
    ensures r.source == a.source
    ensures r.path == a.path + SegmentText(IndexSegment(index))
    ensures r.startMark == startMark && r.endMark == endMark
  {
    Attribution(a.source, a.path + "[" + NatToString(index) + "]", startMark, endMark)
  }

  /**
   * A mark `m` read relative to `base`: lines add up, and the column is
   * offset by the base column only while `m` is still on its first line.
   */
  function Shift(base: Mark, m: Mark): Mark
  {
    Mark(base.line + m.line, if m.line == 0 then base.column + m.column else m.column)
  }

  function AtMarks(a: Attribution, startMark: Mark, endMark: Mark): (r: Attribution)
    ensures r.source == a.source && r.path == a.path
    ensures r.startMark.line == a.startMark.line + startMark.line
    ensures r.endMark.line == a.startMark.line + endMark.line
    ensures r.startMark.column == (if startMark.line == 0 then a.startMark.column + startMark.column else startMark.column)
    ensures r.endMark.column == (if endMark.line == 0 then a.startMark.column + endMark.column else endMark.column)
  {
    Attribution(a.source, a.path, Shift(a.startMark, startMark), Shift(a.startMark, endMark))
  }

  function AtMark(a: Attribution, mark: Mark): (r: Attribution)
    ensures r == AtMarks(a, mark, mark)
  {
    AtMarks(a, mark, mark)
  }

  /** Extending an attribution whose path spells `segments` spells one segment more. */
  lemma AtKeyPath(a: Attribution, segments: seq<Segment>, key: string, s: Mark, e: Mark)
    requires a.path == PathText(segments)
    ensures AtKey(a, key, s, e).path == PathText(segments + [KeySegment(key)])
  {
    assert (segments + [KeySegment(key)])[..|segments|] == segments;
  }

  lemma AtIndexPath(a: Attribution, segments: seq<Segment>, index: nat, s: Mark, e: Mark)
    requires a.path == PathText(segments)
    ensures AtIndex(a, index, s, e).path == PathText(segments + [IndexSegment(index)])
  {
    assert (segments + [IndexSegment(index)])[..|segments|] == segments;
  }

  /** A root attribution at a key is the same value as a root attribution extended by that key. */
  lemma NewAtKeyIsAtKeyOfNew(source: string, key: string, s: Mark, e: Mark, s0: Mark, e0: Mark)
    ensures NewAtKey(source, key, s, e) == AtKey(New(source, s0, e0), key, s, e)
  {
  }

  lemma NewAtIndexIsAtIndexOfNew(source: string, index: nat, s: Mark, e: Mark, s0: Mark, e0: Mark)
    ensures NewAtIndex(source, index, s, e) == AtIndex(New(source, s0, e0), index, s, e)
  {
    var tail := "[" + NatToString(index) + "]";
    assert "" + tail == tail;
  }

  /** The relative mark at line 0, column 0 names the attribution's own start. */
  lemma AtMarkOrigin(a: Attribution)
    ensures AtMark(a, DefaultMark).startMark == a.startMark
    ensures AtMark(a, DefaultMark).endMark == a.startMark
  {
  }

  /**
   * Re-attributing twice is re-attributing once by the composed marks: a
   * mark relative to a mark relative to `a` is a mark relative to `a`.
   */
  lemma AtMarksCompose(a: Attribution, s1: Mark, e1: Mark, s2: Mark, e2: Mark)
    ensures AtMarks(AtMarks(a, s1, e1), s2, e2) == AtMarks(a, Shift(s1, s2), Shift(s1, e2))
  {
  }

  /** Distinct index segments give distinct paths, so sibling attributions never collide. */
  lemma {:induction false} IndexPathsDiffer(a: Attribution, i: nat, j: nat, s: Mark, e: Mark)
    requires i != j
    ensures AtIndex(a, i, s, e).path != AtIndex(a, j, s, e).path
  {
    var p := a.path + "[" + NatToString(i) + "]";
    var q := a.path + "[" + NatToString(j) + "]";
    if p == q {
      var n := |a.path| + 1;
      assert p[n..|p| - 1] == NatToString(i);
      assert q[n..|q| - 1] == NatToString(j);
      DecimalValueOfNatToString(i);
      DecimalValueOfNatToString(j);
    }
  }
}
