# Universal PDF Retriever: the chat handler's own logic

The repository is a retrieval-augmented question-answering chat over PDF
reports. Retrieval, answer generation, parsing and the vector store all live in
libraries; the decisions the repository makes itself are in `src/app.py`, and
this project models them:

- **the credential gate** (`auth`, module `Auth`), in its corrected form `Auth.Authenticate`: a
  login is admitted exactly when the username and the password both equal the
  configured ones, and the admitted user's identifier is that username. The code
  as written raises `AttributeError` on every call instead (`Auth.AuthAsWritten`,
  see "## Findings");
- **the citation panel** (the loop over `response.source_nodes` in `main`): one
  text element per retrieved node, in retrieval order, named
  `"Strona " + page_label` (`"Strona Unknown"` without a `page_label`), holding
  the node's text, shown in the side panel (module `Citations`);
- **the answer safeguard** (end of `main`): an empty answer, or one whose
  `strip()` is `"Empty Response"`, becomes a fixed Polish apology; any other
  answer, a whitespace-only one included, is delivered unchanged (module
  `Answer`, with Python's `str.isspace`/`str.strip` in module `PyStr`);
- **one chat turn's post-processing** as a whole: response in, reply out
  (module `Handler`).

The chat engine's response is an input value: its answer string and its
ordered source nodes, each with a `map<string,string>` of metadata and a text.

Citation labels are `"Strona <label>"` (Polish for "Page"). A turn that
retrieved no nodes gets no citations, and its answer is kept unless the answer
itself is empty or a placeholder (`Handler.NoNodesKeepsAnswer`).

## Model

| member | source | states |
|---|---|---|
| `Auth.Authenticate` | src/app.py:10-17 | a user is returned if and only if both the username and the password equal the configured ones; the user's identifier is the supplied username; any mismatch gives `None` |
| `Auth.SingleOperator` | src/app.py:12-14 | two admitted logins under one configuration used the same credentials, and both yield the user identified by the configured username |
| `Auth.GetAttr` | src/config.py:8-15 | among field names, reading a settings attribute succeeds exactly for the four declared fields and raises `AttributeError` naming the attribute otherwise |
| `Auth.AuthAsWritten` | src/app.py:10-17 | `auth` as written: a failed read of `app_username` is raised; a username different from it gives `None` without reading `app_password`; a user is returned only when both reads succeed with the supplied username and password, and it is identified by that username |
| `Auth.AuthAsWrittenAlwaysRaises` | src/app.py:12 | with the settings class as declared, `auth` raises `AttributeError("app_username")` for every configuration and every username and password |
| `Auth.CorrectedGateAdmitsOperator` | src/app.py:12-14 | the corrected gate admits the configured operator under their username, where the gate as written fails |
| `PyStr.LeadingSpaces` | src/app.py:63 | the count covers only whitespace and stops at the first non-whitespace character or the end |
| `PyStr.TrailingSpaces` | src/app.py:63 | the count covers only whitespace and stops at the last non-whitespace character or the start |
| `PyStr.Strip` | src/app.py:63 | `strip()` is empty exactly when the input is all whitespace, and otherwise has no whitespace at either end |
| `PyStr.StripPadded` | src/app.py:63 | a text with no whitespace at either end, padded with any whitespace on both sides, strips back to that text |
| `PyStr.StripSplit` | src/app.py:63 | every string is a whitespace prefix, then its stripped form, then a whitespace suffix |
| `PyStr.StripTrimmed` | src/app.py:63 | a string with no whitespace at either end strips to itself |
| `PyStr.StripIdempotent` | src/app.py:63 | stripping twice equals stripping once |
| `Citations.PageLabel` | src/app.py:50 | the page is the metadata's `page_label` when that key is present and `"Unknown"` when it is absent |
| `Citations.CitationOf` | src/app.py:50-56 | the element's name is `"Strona " + metadata["page_label"]` when the key is present and exactly `"Strona Unknown"` otherwise; its content is the node's text; its display is `"side"` |
| `Citations.CitationElements` | src/app.py:44-57 | as many elements as nodes, element i built from node i (order preserved); no nodes give no elements |
| `Citations.PageReadBack` | src/app.py:53 | an element's name is the prefix `"Strona "` followed by exactly the node's page label, so the label can be read back |
| `Citations.NoOrphanCitations` | src/app.py:49-57 | every element is the citation of some retrieved node and carries that node's text |
| `Citations.BuildCitations` | src/app.py:44-59 | the loop that starts from an empty list and appends one element per node, when there are nodes, yields exactly the element sequence above |
| `Answer.IsPlaceholder` | src/app.py:63 | an answer is a placeholder exactly when it is empty or is `"Empty Response"` with nothing but whitespace before and after it |
| `PyStr.StripEquals` | src/app.py:63 | stripping yields a given trimmed text exactly when the string is that text with whitespace around it |
| `Answer.FallbackIsNotPlaceholder` | src/app.py:63-64 | the fallback message is neither empty nor strips to `"Empty Response"` |
| `Answer.FinalAnswer` | src/app.py:62-64 | the delivered answer is the raw answer or the fallback message; it differs from the raw answer exactly when the raw answer is empty or strips to `"Empty Response"`; it is the fallback exactly in those cases or when the raw answer already is the fallback |
| `Answer.FinalAnswerIdempotent` | src/app.py:62-64 | applying the safeguard to its own output changes nothing |
| `Answer.WhitespaceOnlyKept` | src/app.py:63 | a non-empty, whitespace-only answer is delivered as is, not replaced |
| `Answer.PaddedPlaceholderReplaced` | src/app.py:63-64 | `"Empty Response"` with any whitespace around it is replaced by the fallback message |
| `Answer.OnlyExactPlaceholderReplaced` | src/app.py:63 | any other non-empty text, with any whitespace around it, is delivered unchanged and unstripped |
| `Answer.PlaceholderCaseMatters` | src/app.py:63 | `"empty response"` is not replaced: the comparison does not fold case |
| `Answer.PlaceholderPunctuationMatters` | src/app.py:63 | `"Empty Response."` is not replaced: only whitespace is stripped |
| `Handler.RespondTo` | src/app.py:44-67 | the reply carries the safeguarded answer as its text and exactly the citation elements of the response's nodes, in order |
| `Handler.ReplyShape` | src/app.py:44-67 | the reply has one element per node, and element i has node i's text, the name `"Strona "` plus node i's page label, and the side display |
| `Handler.NoNodesKeepsAnswer` | src/app.py:44-64 | a response with no nodes and a non-placeholder answer gives that answer with no elements |

## Left out

- The Chainlit decorators, `cl.user_session`, `cl.Message(...).send()` and the asynchronous `achat` call: transport and I/O. The chat engine's response is an input of `Handler.RespondTo`, and its reply is returned instead of sent.
- `start` (the session setup and the greeting message): it only wires library objects and sends a fixed text.
- The two debug `print` calls in `main`: output side effects only.
- `RAGEngineService.get_chat_engine`: it passes `similarity_top_k=8`, `citation_chunk_size=512` and `similarity_cutoff=0.55` to library engines whose retrieval, filtering, condensation and citation logic is not part of this model.
- `IngestionService.run_pipeline`, `VectorDBService`, `src/ingest.py` and `test_db.py`: remote parsing, embedding, indexing and database clients, all inside libraries or over the network.
- `init_llm_settings` and the environment loading of `AppConfig`: pydantic-settings and global library settings. Only the set of fields `AppConfig` declares is modelled, for the finding below.
- `tests/test_services.py`: it checks mocked client construction only.
- `Handler.RespondTo`: `str(response.response)` is modelled on an answer that already is a string; converting a non-string value (such as `None` to `"None"`) is not modelled.
- `Citations.CitationOf`: metadata values are strings; the f-string conversion of a non-string page label is not modelled.
- `Citations.BuildCitations`: a `source_nodes` value of `None` is not modelled; an empty sequence stands for every falsy value.
- `Auth.GetAttr`: only reads of field names are modelled; class attributes such as `model_config` and the methods pydantic settings inherit (`model_dump`, `model_fields`, ...) are not.
- `Auth.AuthAsWritten`: how the chat framework reports the raised exception to the user is not modelled.

## Findings

| source | as written | input that shows it | evidently intended | confidence | as-written member | corrected member |
|---|---|---|---|---|---|---|
| src/app.py:12 | `auth` reads `config.app_username` and `config.app_password`, but the settings class in src/config.py:8-15 declares neither field and ignores undeclared keys, so the read raises `AttributeError` | any username and password, with any settings loaded (even an `.env` that sets `APP_USERNAME` and `APP_PASSWORD`) | the settings declare the two credentials and the gate compares both | not executed | `Auth.AuthAsWrittenAlwaysRaises` | `Auth.Authenticate` |
