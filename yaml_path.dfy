/**
 * The position of a node inside a YAML document (compiler/src/yaml/path.rs):
 * a list of mapping keys and sequence indices, rendered as ".key" and "[i]".
 */
module YamlPath {
  import opened Common
  import opened YamlValue

  datatype PathElement = Key(node: Node) | Index(index: nat)

  /** A key renders as "." and the key node; an index as "[i]". */
  function ElementText(e: PathElement): (r: string)
    ensures e.Key? ==> r == "." + NodeText(e.node)
    ensures e.Index? ==> r == "[" + NatToString(e.index) + "]"
  {
    match e
    case Key(node) => "." + NodeText(node)
    case Index(i) => "[" + NatToString(i) + "]"
  }

  /** The elements rendered one after the other. */
  function PathText(elements: seq<PathElement>): string
  {
    if elements == [] then "" else PathText(elements[..|elements| - 1]) + ElementText(elements[|elements| - 1])
  }

  /** Rendering is a concatenation: the text of a joined path is the text of its two parts. */
  lemma {:induction false} PathTextConcat(a: seq<PathElement>, b: seq<PathElement>)
    ensures PathText(a + b) == PathText(a) + PathText(b)
    decreases |b|
  {
    if b != [] {
      var last := b[|b| - 1];
      assert (a + b)[..|a + b| - 1] == a + b[..|b| - 1];
      assert (a + b)[|a + b| - 1] == last;
      PathTextConcat(a, b[..|b| - 1]);
      assert PathText(a + b) == PathText(a + b[..|b| - 1]) + ElementText(last);
      assert PathText(b) == PathText(b[..|b| - 1]) + ElementText(last);
    } else {
      assert a + b == a;
    }
  }

  /** `Path`: a list the parser extends with `push` and copies with `clone`. */
  class Path {
    var elements: seq<PathElement>

    /** `Path::new`: the empty path. */
    constructor()
      ensures elements == []
    {
      elements := [];
    }

    /** The path's rendering. */
    function Text(): string
      reads this
    {
      PathText(elements)
    }

    /** `push` appends exactly one element; the rendering grows by that element's text. */
    method Push(e: PathElement)
      modifies this
      ensures elements == old(elements) + [e]
      ensures Text() == old(Text()) + ElementText(e)
    {
      elements := elements + [e];
      assert elements[..|elements| - 1] == old(elements);
    }

    /** `clone` is a fresh path with the same elements; pushing onto it leaves this one alone. */
    method Clone() returns (p: Path)
      ensures fresh(p)
      ensures p.elements == elements
    {
      p := new Path();
      p.elements := elements;
    }
  }
}
