# Context-aware translator: verified model of the request core

The translator is a small web page. It sends a user's text to a hosted
language model, along with a prompt asking for a translation plus
cultural notes. This project models the part of `ContextAwareTranslator`
(app.py) that owns any logic, and proves properties of it:

- the fixed catalog of 15 target languages, and `get_available_languages`;
- the target-language check: a catalog entry or "English" is accepted;
- the `ValueError` message for an unsupported target. It is a fixed
  preamble followed by the catalog and then "English", joined by ", ";
- the two-message chat prompt. It has a system message with the source and
  target languages substituted in, and a user message that is the text;
- `translate`: validate, build the prompt, make one backend call, and
  return the result record;
- the two option lists the page builds for its select boxes.

Modules:

- `Wrappers`: `Option` and `Result`.
- `Strings`: Python's `sep.join`, and a `Split` that undoes it.
- `LanguageCatalog`: the catalog and the validation rule.
- `Prompt`: the template, as literal pieces and variable slots, and its
  formatting.
- `Translator`: `translate`.

The catalog is a value (`Catalog`, the translator's `languages`
attribute). So every operation is stated for any catalog, and `NewCatalog`
is the one the constructor installs. The hosted model (`self.model.invoke`)
is a function parameter `Backend`. It maps a formatted prompt to the
reply's content or to a backend error. Each call of `Translate` also
returns the prompts it sent to the backend (`Outcome.sent`). That is how
the model states how many backend calls a request makes.

## Model

| member | source | states |
|---|---|---|
| `LanguageCatalog.NewCatalog` | app.py:26-30 | the constructor's catalog has 15 entries, from "Spanish" to "Turkish", and "English" is not one of them |
| `LanguageCatalog.AvailableLanguages` | app.py:32-34 | `get_available_languages` returns the stored entries; each of them passes the target check, and with "English" appended they are the supported list |
| `LanguageCatalog.AvailableLanguagesFixed` | app.py:32-34 | `get_available_languages` returns exactly the 15 names in their given order, the same list on every call, without "English" |
| `LanguageCatalog.IsSupported` | app.py:63 | the target check accepts a name iff it is a catalog entry or "English", i.e. iff it is in the supported list |
| `LanguageCatalog.SupportedNames` | app.py:64 | the supported list is the catalog followed by "English", so a name is in it iff it is a catalog entry or "English" |
| `LanguageCatalog.AcceptedTargets` | app.py:63 | every catalog entry and "English" pass the target check, and "Klingon" does not |
| `LanguageCatalog.TargetOptions` | app.py:152-155 | the target select box offers the catalog entries in order, then "English" |
| `LanguageCatalog.SourceOptions` | app.py:144-148 | the source select box offers "English" first (its default, index 0), then the catalog entries in order |
| `LanguageCatalog.TargetOptionsCoverage` | app.py:154 | the target options are exactly the names the rejection message lists, and an option is offered iff it passes the check |
| `LanguageCatalog.SourceOptionsPermuteTargets` | app.py:146 | the source options are a permutation of the target options: the same names, each as often |
| `LanguageCatalog.OptionOrdersDiffer` | app.py:146-154 | for the constructor's catalog the two lists are in different orders: "English" comes first in one, "Spanish" in the other |
| `Strings.Join` | app.py:64 | `", ".join`: the empty list joins to "" and a single name to itself |
| `Strings.JoinEnds` | app.py:64 | the first part opens the join and the last part closes it |
| `Strings.JoinSnoc` | app.py:64 | joining a non-empty list with one more name gives the joined list, the separator, then that name |
| `Strings.SplitJoin` | app.py:64 | splitting a join on its separator gives back the parts, when no part contains the separator's first character |
| `Prompt.Lookup` | app.py:71-75 | a slot gets the keyword argument of `format_messages` whose name is the slot's placeholder name |
| `Prompt.Kwargs` | app.py:71-75 | `format_messages` is given exactly three keyword arguments: `source_language`, `target_language` and `text` |
| `Prompt.PlaceholderNamesDistinct` | app.py:38-50 | the three placeholders have different names, so each slot is filled from its own argument |
| `Prompt.RenderPiece` | app.py:71-75 | a literal piece is copied unchanged, and a `{name}` slot is replaced by the keyword argument `name` |
| `Prompt.Render` | app.py:71-75 | the empty template renders to "", and a one-piece template renders to that piece's rendering |
| `Prompt.RenderUsesOwnSlots` | app.py:71-75 | a template's rendering depends only on the values of the variables whose slots occur in it |
| `Prompt.RenderAppend` | app.py:71-75 | formatting a template made of two pieces gives the first piece's formatting followed by the second's |
| `Prompt.PieceAt` | app.py:71-75 | each piece of a template is formatted in one block, after the pieces before it and before the pieces after it |
| `Prompt.Format` | app.py:71-75 | formatting keeps the number, order and roles of the template's messages, and renders each one with the given values |
| `Prompt.SystemPieces` | app.py:38-46 | the system template is five pieces: `{source_language}` second and `{target_language}` fourth, with fixed text everywhere else and no text slot |
| `Prompt.TranslationTemplate` | app.py:36-53 | the template has two messages: system, then user. The user message is the `{text}` slot alone. The system message has one source slot, one target slot and no text slot |
| `Prompt.TranslationPrompt` | app.py:38-51 | the formatted prompt is two messages, system then user. The user content is the text verbatim. The system content is the instruction with source and target at their places, then the four follow-up requests in order |
| `Prompt.SubstitutionSites` | app.py:48-51 | the text does not affect the system message, and the languages do not affect the user message |
| `Translator.RejectionPreamble` | app.py:65 | the preamble is a fixed opening, then the target verbatim at a fixed offset, then a fixed closing |
| `Translator.PreambleNamesTarget` | app.py:65 | different targets give different preambles, so the message names its target unambiguously |
| `Translator.RejectionMessage` | app.py:64-65 | the message is the preamble naming the target, then the catalog joined by ", ", then ", English" |
| `Translator.Translate` | app.py:55-85 | a request is rejected iff the target fails the check. A rejection carries the listing message. Any other request is handled by the single dispatch |
| `Translator.Dispatch` | app.py:67-85 | exactly one prompt is sent: the formatted prompt of the request. Success echoes the three inputs with the reply's content. A backend error is passed on as it is |
| `Translator.BackendCalls` | app.py:63-78 | the backend is called zero times when the target is rejected and exactly once, with no retry, otherwise |
| `Translator.RejectionIgnoresBackend` | app.py:63-65 | a rejected request gives the same outcome with any backend, so the backend is never consulted |
| `Translator.AcceptedDependsOnOneReply` | app.py:78-85 | an accepted request depends on the backend only through its reply to the one prompt sent |
| `Translator.SuccessEchoesRequest` | app.py:80-85 | on success the record holds the text, source and target unchanged, and the backend's reply unmodified |
| `Translator.BackendErrorPropagates` | app.py:78 | a backend error reaches the caller unchanged, after exactly one call |
| `Translator.SourceNotValidated` | app.py:63 | whether a request is rejected does not depend on the source language, whatever string it is |
| `Translator.DefaultSource` | app.py:55-58 | leaving out the source language is the same as passing "English" |
| `Translator.RejectionListsSupported` | app.py:64-65 | the rejection message starts with the preamble, and the rest splits on ", " into exactly the catalog and then "English" |
| `Translator.NewCatalogRejectionLists` | app.py:64-65 | for the constructor's catalog, the rejection message lists exactly its 15 names in order, then "English" |
| `Translator.HelloInSpanish` | app.py:55-85 | "Hello" from English to Spanish sends one prompt whose user part is "Hello", and returns the backend's reply unchanged with the inputs echoed |
| `Translator.KlingonRejected` | app.py:63-65 | a "Klingon" target is rejected with the listing message, and no prompt is sent |

## Left out

- The `GROQ_API_KEY` check, `st.error`/`st.stop` and `load_dotenv` (app.py:10, app.py:18-20): environment and UI side effects at start-up.
- Building `ChatGroq` and the behaviour of `model.invoke` (app.py:23, app.py:78): this is a network call to a hosted model. It is the `Backend` parameter. The model name "llama3-8b-8192" is not modelled.
- The internals of `ChatPromptTemplate`: the model keeps only the template's two-message shape and its substitution. The template is literal text plus three slots, which is all the real template (app.py:38-51) has, since it contains no other braces. The system text is copied exactly, indentation included.
- All of `main` except the two option lists (app.py:88-229): page layout, CSS, spinner, images, sidebar, footer. The page's catching and display of errors (app.py:184-185) is UI.
- The page's empty-text warning (app.py:162, app.py:187). `translate` itself accepts any text, including the empty string, so `Translate` has no precondition on the text.
- Translator.Translate: backend failures are a single opaque reason string. The kinds of failure (auth, network, quota) are not told apart.
- Translator.KlingonRejected: it names the message through `RejectionMessage` rather than spelling out the full 16-name string. The exact list is proved separately (`NewCatalogRejectionLists`).
- Aliasing of the catalog list: `get_available_languages` returns `self.languages` itself (app.py:34), so a caller that changed that list would change what `translate` accepts (app.py:63). The model's catalog is an immutable value and cannot express this. The page only builds new lists from it (app.py:146, app.py:154), so no behaviour of the program depends on it.
- Repeated backend calls: `Backend` is a function, so it gives the same reply every time for the same prompt, and repeating a call could not be observed through it. "One call, no retry" (`BackendCalls`, `BackendErrorPropagates`) is stated on the `Outcome.sent` log that `Dispatch` writes, not by counting calls to the backend.
- Concurrency, timeouts and cancellation. The core is synchronous and keeps no state between requests.

## Notes on the code

- The code never validates the source language, and the model keeps that asymmetry (`SourceNotValidated`).
