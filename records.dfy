/** The shapes the simulator's XML files take once parsed, and the Python dictionaries
    the wrappers build from them. */
module Records {
  import opened Wrappers
  import PyText
  import Seqs

  /** An element's attributes, as written in the file. */
  type Attrs = map<string, string>

  /** A parsed XML element: its tag, its attributes and its child elements in document order. */
  datatype Element = Element(tag: string, attrib: Attrs, children: seq<Element>)

  /** The XML files present on disk, by path, each as its parsed root element. */
  type FileSystem = map<string, Element>

  /** A value held in one of the wrappers' dictionaries. */
  datatype Value =
    | Text(text: string)       // an attribute as written
    | Rows(rows: seq<Attrs>)   // the attribute maps of child elements
    | Real(r: real)            // a parsed float (speed, length)
    | Int(n: int)              // an integer (lane count, program id)

  /** A Python dictionary of the kind the extractor returns. */
  type Record = map<string, Value>

  /** One entry of the extractor's output list: a bare attribute value or a dictionary. */
  datatype Item = Key(key: string) | Dict(fields: Record)

  /** An element's attributes as a dictionary. The ensures spell out the map comprehension
      so that callers' proofs can use its keys and values directly. */
  function Lift(attrib: Attrs): (r: Record)
    ensures r.Keys == attrib.Keys
    ensures forall k | k in attrib :: r[k] == Text(attrib[k])
  {
    map k | k in attrib :: Text(attrib[k])
  }

  /** `elem.findall(path)` for a path of plain tags separated by `/`: the descendants reached
      by following one tag per level, in document order, looking at the children of `parent`
      from position `from` on. */
  function FindFrom(parent: Element, steps: seq<string>, from: nat): seq<Element>
    requires steps != []
    decreases parent, |parent.children| - from
  {
    if from >= |parent.children| then []
    else
      var c := parent.children[from];
      var here :=
        if c.tag != steps[0] then []
        else if |steps| == 1 then [c]
        else FindFrom(c, steps[1..], 0);
      here + FindFrom(parent, steps, from + 1)
  }

  /** `elem.findall(path)`. */
  function FindAll(elem: Element, path: string): seq<Element>
  {
    FindFrom(elem, PyText.Split(path, '/'), 0)
  }

  /** A one-tag path finds exactly the children that carry the tag, in document order. */
  lemma {:induction false} FindChildren(parent: Element, tag: string, from: nat)
    requires '/' !in tag
    ensures FindFrom(parent, [tag], from)
         == if from >= |parent.children| then []
            else Seqs.Filter((c: Element) => c.tag == tag, parent.children[from..])
    decreases |parent.children| - from
  {
    if from < |parent.children| {
      FindChildren(parent, tag, from + 1);
      assert parent.children[from..][1..] == parent.children[from + 1..];
    }
  }
}
