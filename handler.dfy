/**
 * The post-processing of one chat turn (`main` in src/app.py), separated from
 * the chat transport: the retrieval framework's response goes in, the reply
 * that would be sent to the UI comes out.
 */
module Handler {
  import opened PyStr
  import opened Citations
  import opened Answer

  /** What the chat engine returns for a question: the generated answer and the retrieved nodes, in order. */
  datatype ChatResponse = ChatResponse(response: string, sourceNodes: seq<SourceNode>)

  /** The message sent back: its text and its side-panel elements. */
  datatype Reply = Reply(content: string, elements: seq<Element>)

  /**
   * Builds the citation elements, then takes the answer and replaces it by the
   * fallback message when it is a placeholder.
   */
  method RespondTo(response: ChatResponse) returns (reply: Reply)
    ensures reply == ReplyFor(response)
  {
    var sourceElements := BuildCitations(response.sourceNodes);
    var answer := response.response;
    if answer == "" || Strip(answer) == EMPTY_RESPONSE {
      answer := FALLBACK_MESSAGE;
    }
    reply := Reply(answer, sourceElements);
  }

  /** The reply for a response: one citation per node in order, the safeguarded answer as text. */
  function ReplyFor(response: ChatResponse): Reply {
    Reply(FinalAnswer(response.response), CitationElements(response.sourceNodes))
  }

  /**
   * What a reply promises: the text is the answer or the fallback, every element
   * cites the node at the same position, and no nodes means no elements.
   */
  lemma ReplyShape(response: ChatResponse, i: nat)
    requires i < |response.sourceNodes|
    ensures |ReplyFor(response).elements| == |response.sourceNodes|
    ensures ReplyFor(response).elements[i].content == response.sourceNodes[i].text
    ensures ReplyFor(response).elements[i].name == "Strona " + PageLabel(response.sourceNodes[i].metadata)
    ensures ReplyFor(response).elements[i].display == "side"
  {
  }

  /** Retrieving nothing does not itself force the fallback: the answer decides that alone. */
  lemma NoNodesKeepsAnswer(answer: string)
    requires !IsPlaceholder(answer)
    ensures ReplyFor(ChatResponse(answer, [])) == Reply(answer, [])
  {
  }
}
