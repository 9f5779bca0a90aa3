/**
 * `ContextAwareTranslator.translate`: validate the target language, format
 * the prompt, ask the backend once and echo the request beside its reply.
 * The backend (`self.model.invoke`, a hosted language model) is a function
 * parameter: from a formatted prompt it yields the reply's content or a
 * backend error.
 */
module Translator {
  import opened Wrappers
  import opened Strings
  import opened LanguageCatalog
  import opened Prompt

  type Backend = seq<Message> -> Result<string, string>

  /** The dictionary `translate` returns. */
  datatype Translation = Translation(originalText: string, sourceLanguage: string, targetLanguage: string, result: string)

  /** The exceptions `translate` lets out: its own `ValueError`, or whatever the backend raised. */
  datatype TranslateError = UnsupportedTarget(message: string) | BackendFailure(reason: string)

  /**
   * One call of `translate`: its result, and the prompts it sent to the
   * backend, in order, so that the number of backend calls can be stated.
   */
  datatype Outcome = Outcome(result: Result<Translation, TranslateError>, sent: seq<seq<Message>>)

  const PreambleHead: string := "Target language '"
  const PreambleTail: string := "' is not supported. Supported languages: "

  /**
   * The text before the list of supported names in the rejection message:
   * the target, quoted, at a fixed place between two fixed texts.
   */
  function RejectionPreamble(target: string): (r: string)
    ensures |r| == |PreambleHead| + |target| + |PreambleTail|
    ensures HasPrefix(r, PreambleHead) && HasSuffix(r, PreambleTail)
    ensures r[|PreambleHead|..|PreambleHead| + |target|] == target
  {
    PreambleHead + target + PreambleTail
  }

  /** The preamble names its target unambiguously: different targets give different messages. */
  lemma PreambleNamesTarget(t1: string, t2: string)
    requires RejectionPreamble(t1) == RejectionPreamble(t2)
    ensures t1 == t2
  {
    var r := RejectionPreamble(t1);
    assert |t1| == |t2|;
    assert t1 == r[|PreambleHead|..|PreambleHead| + |t1|] == t2;
  }

  /**
   * The `ValueError` message for an unsupported target: the catalog, then
   * "English", joined by ", ", so "English" comes last.
   */
  function RejectionMessage(c: Catalog, target: string): (m: string)
    ensures |c.languages| > 0 ==>
      m == RejectionPreamble(target) + Join(AvailableLanguages(c), ", ") + ", " + English
    ensures |c.languages| == 0 ==> m == RejectionPreamble(target) + English
  {
    var m := RejectionPreamble(target) + Join(SupportedNames(c), ", ");
    if |c.languages| > 0 then JoinSnoc(c.languages, English, ", "); m else m
  }

  /** The outcome is the unsupported-target error. */
  predicate Rejected(o: Outcome)
  {
    o.result.Failure? && o.result.error.UnsupportedTarget?
  }

  /**
   * `translator.translate(text, target_language, source_language="English")`
   * for a translator whose catalog is `c`. Only the target is checked; the
   * source is passed through whatever it is.
   */
  function Translate(c: Catalog, backend: Backend, text: string, target: string, source: string := English): (o: Outcome)
    ensures Rejected(o) <==> !IsSupported(c, target)
    ensures !IsSupported(c, target) ==> o == Outcome(Failure(UnsupportedTarget(RejectionMessage(c, target))), [])
    ensures IsSupported(c, target) ==> o == Dispatch(backend, text, target, source)
  {
    if !IsSupported(c, target) then
      Outcome(Failure(UnsupportedTarget(RejectionMessage(c, target))), [])
    else
      Dispatch(backend, text, target, source)
  }

  /**
   * The part of `translate` after validation: the one backend call with the
   * formatted prompt, and the reply's content echoed beside the request, or
   * the backend's error passed on.
   */
  function Dispatch(backend: Backend, text: string, target: string, source: string): (o: Outcome)
    ensures o.sent == [TranslationPrompt(source, target, text)]
    ensures !Rejected(o)
    ensures o.result.Success? <==> backend(o.sent[0]).Success?
    ensures o.result.Success? ==> o.result.value == Translation(text, source, target, backend(o.sent[0]).value)
    ensures o.result.Failure? ==> o.result.error == BackendFailure(backend(o.sent[0]).error)
  {
    var prompt := TranslationPrompt(source, target, text);
    match backend(prompt)
    case Success(content) => Outcome(Success(Translation(text, source, target, content)), [prompt])
    case Failure(reason) => Outcome(Failure(BackendFailure(reason)), [prompt])
  }

  /** The backend is asked nothing on rejection and exactly once, with no retry, otherwise. */
  lemma BackendCalls(c: Catalog, backend: Backend, text: string, target: string, source: string)
    ensures |Translate(c, backend, text, target, source).sent| == (if IsSupported(c, target) then 1 else 0)
  {
  }

  /** A rejection does not depend on the backend at all: any two backends give the same outcome. */
  lemma RejectionIgnoresBackend(c: Catalog, b1: Backend, b2: Backend, text: string, target: string, source: string)
    requires !IsSupported(c, target)
    ensures Translate(c, b1, text, target, source) == Translate(c, b2, text, target, source)
  {
  }

  /** An accepted request depends on the backend only through its answer to the one prompt sent. */
  lemma AcceptedDependsOnOneReply(c: Catalog, b1: Backend, b2: Backend, text: string, target: string, source: string)
    requires IsSupported(c, target)
    requires b1(TranslationPrompt(source, target, text)) == b2(TranslationPrompt(source, target, text))
    ensures Translate(c, b1, text, target, source) == Translate(c, b2, text, target, source)
  {
  }

  /** On success the result echoes the three inputs and carries the backend's reply unchanged. */
  lemma SuccessEchoesRequest(c: Catalog, backend: Backend, text: string, target: string, source: string, reply: string)
    requires IsSupported(c, target) && backend(TranslationPrompt(source, target, text)) == Success(reply)
    ensures Translate(c, backend, text, target, source).result == Success(Translation(text, source, target, reply))
  {
  }

  /** A backend error reaches the caller unchanged, after the one call. */
  lemma BackendErrorPropagates(c: Catalog, backend: Backend, text: string, target: string, source: string, reason: string)
    requires IsSupported(c, target) && backend(TranslationPrompt(source, target, text)) == Failure(reason)
    ensures Translate(c, backend, text, target, source)
      == Outcome(Failure(BackendFailure(reason)), [TranslationPrompt(source, target, text)])
  {
  }

  /**
   * The source language is never checked: whether a request is rejected does
   * not depend on it, and an accepted target is accepted with any source.
   */
  lemma SourceNotValidated(c: Catalog, backend: Backend, text: string, target: string, s1: string, s2: string)
    ensures Rejected(Translate(c, backend, text, target, s1)) <==> Rejected(Translate(c, backend, text, target, s2))
  {
  }

  /** Omitting the source language means "English". */
  lemma DefaultSource(c: Catalog, backend: Backend, text: string, target: string)
    ensures Translate(c, backend, text, target) == Translate(c, backend, text, target, English)
    ensures Translate(c, backend, text, target).result.Success? ==>
      Translate(c, backend, text, target).result.value.sourceLanguage == English
  {
  }

  /**
   * The list in the rejection message splits back on ", " into exactly the
   * supported names, in catalog order with "English" last, provided no name
   * contains a comma: it names every supported language and nothing else.
   */
  lemma RejectionListsSupported(c: Catalog, target: string)
    requires forall i :: 0 <= i < |c.languages| ==> ',' !in c.languages[i]
    ensures HasPrefix(RejectionMessage(c, target), RejectionPreamble(target))
    ensures Split(RejectionMessage(c, target)[|RejectionPreamble(target)|..], ", ") == SupportedNames(c)
  {
    var names := SupportedNames(c);
    assert forall i :: 0 <= i < |names| ==> ',' !in names[i] by {
      forall i | 0 <= i < |names| ensures ',' !in names[i] {
        if i < |c.languages| { assert names[i] == c.languages[i]; }
      }
    }
    SplitJoin(names, ", ");
  }

  /** No name in the constructor's catalog contains a comma, so its rejection message lists the 16 names exactly. */
  lemma NewCatalogRejectionLists(target: string)
    ensures Split(RejectionMessage(NewCatalog(), target)[|RejectionPreamble(target)|..], ", ")
      == AvailableLanguages(NewCatalog()) + [English]
  {
    var c := NewCatalog();
    assert forall i :: 0 <= i < |c.languages| ==> ',' !in c.languages[i];
    RejectionListsSupported(c, target);
  }

  /** "Hello" from English to Spanish: one prompt whose user part is "Hello", and the reply returned as is. */
  lemma HelloInSpanish(backend: Backend, reply: string)
    requires forall p :: backend(p) == Success(reply)
    ensures Translate(NewCatalog(), backend, "Hello", "Spanish", "English").sent
      == [TranslationPrompt("English", "Spanish", "Hello")]
    ensures TranslationPrompt("English", "Spanish", "Hello")[1] == Message(User, "Hello")
    ensures Translate(NewCatalog(), backend, "Hello", "Spanish", "English").result
      == Success(Translation("Hello", "English", "Spanish", reply))
  {
  }

  /** "Klingon" is rejected without a backend call. */
  lemma KlingonRejected(backend: Backend, text: string, source: string)
    ensures Translate(NewCatalog(), backend, text, "Klingon", source)
      == Outcome(Failure(UnsupportedTarget(RejectionMessage(NewCatalog(), "Klingon"))), [])
  {
    AcceptedTargets();
  }
}
