/**
 * The side-panel citations the chat handler attaches to an answer (the loop over
 * `response.source_nodes` in src/app.py): one element per retrieved node, in
 * retrieval order, labelled with the node's page.
 */
module Citations {

  /** A retrieved passage: its metadata and its text. */
  datatype SourceNode = SourceNode(metadata: map<string, string>, text: string)

  /** A text element shown in the chat UI: its label, its body and where it is displayed. */
  datatype Element = Element(name: string, content: string, display: string)

  const PAGE_LABEL_KEY := "page_label"
  const UNKNOWN_PAGE := "Unknown"
  /** Polish for "Page ". */
  const NAME_PREFIX := "Strona "
  const SIDE_DISPLAY := "side"

  /** `metadata.get('page_label', 'Unknown')`. */
  function PageLabel(metadata: map<string, string>): (page: string)
    ensures PAGE_LABEL_KEY in metadata ==> page == metadata[PAGE_LABEL_KEY]
    ensures PAGE_LABEL_KEY !in metadata ==> page == UNKNOWN_PAGE
  {
    if PAGE_LABEL_KEY in metadata then metadata[PAGE_LABEL_KEY] else UNKNOWN_PAGE
  }

  /** The element built for one node. */
  function CitationOf(node: SourceNode): (e: Element)
    ensures PAGE_LABEL_KEY in node.metadata ==> e.name == "Strona " + node.metadata["page_label"]
    ensures PAGE_LABEL_KEY !in node.metadata ==> e.name == "Strona Unknown"
    ensures e.content == node.text
    ensures e.display == "side"
  {
    Element(name := NAME_PREFIX + PageLabel(node.metadata), content := node.text, display := SIDE_DISPLAY)
  }

  /** The elements for a sequence of nodes: one per node, element i built from node i. */
  function CitationElements(nodes: seq<SourceNode>): (es: seq<Element>)
    ensures |es| == |nodes|
    ensures forall i :: 0 <= i < |nodes| ==> es[i] == CitationOf(nodes[i])
  {
    if nodes == [] then [] else [CitationOf(nodes[0])] + CitationElements(nodes[1..])
  }

  /** The page label can be read back from an element's name: the name is the prefix followed by the label. */
  lemma PageReadBack(node: SourceNode)
    ensures |CitationOf(node).name| >= |NAME_PREFIX|
    ensures CitationOf(node).name[..|NAME_PREFIX|] == NAME_PREFIX
    ensures CitationOf(node).name[|NAME_PREFIX|..] == PageLabel(node.metadata)
  {
  }

  /** No orphan citations: every element is the citation of some retrieved node, with that node's text. */
  lemma NoOrphanCitations(nodes: seq<SourceNode>, e: Element)
    requires e in CitationElements(nodes)
    ensures exists n :: n in nodes && e == CitationOf(n) && e.content == n.text
  {
    var i :| 0 <= i < |CitationElements(nodes)| && CitationElements(nodes)[i] == e;
    assert nodes[i] in nodes;
  }

  /**
   * The handler's loop: starts from an empty list and, when there are nodes,
   * appends one element per node in order.
   */
  method BuildCitations(nodes: seq<SourceNode>) returns (elements: seq<Element>)
    ensures elements == CitationElements(nodes)
  {
    elements := [];
    if |nodes| > 0 {
      for i := 0 to |nodes|
        invariant |elements| == i
        invariant forall k :: 0 <= k < i ==> elements[k] == CitationOf(nodes[k])
      {
        elements := elements + [CitationOf(nodes[i])];
      }
    }
  }
}
