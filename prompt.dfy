/**
 * The translation prompt: the two-message chat template that
 * `create_translation_prompt` builds, and its formatting with the request's
 * values (`format_messages`). A template message is a sequence of literal
 * pieces and variable slots; formatting replaces each slot by its value.
 */
module Prompt {

  datatype Role = System | User

  /** One role-tagged message of the formatted prompt sent to the backend. */
  datatype Message = Message(role: Role, content: string)

  /** The template variables `{source_language}`, `{target_language}` and `{text}`. */
  datatype Variable = SourceLanguage | TargetLanguage | Text

  datatype Piece = Lit(literal: string) | Slot(variable: Variable)

  datatype MessageTemplate = MessageTemplate(role: Role, pieces: seq<Piece>)

  /** The values `format_messages` is called with. */
  datatype Bindings = Bindings(sourceLanguage: string, targetLanguage: string, text: string)

  /** The placeholder name a variable is written as in the template, `{name}`. */
  function Name(v: Variable): string
  {
    match v
    case SourceLanguage => "source_language"
    case TargetLanguage => "target_language"
    case Text => "text"
  }

  /** Distinct variables have distinct placeholder names, so each slot gets its own argument. */
  lemma PlaceholderNamesDistinct()
    ensures forall v, w :: Name(v) == Name(w) ==> v == w
  {
  }

  /** The keyword arguments of the `format_messages` call, by placeholder name. */
  function Kwargs(env: Bindings): (m: map<string, string>)
    ensures m.Keys == {Name(SourceLanguage), Name(TargetLanguage), Name(Text)}
  {
    map[Name(SourceLanguage) := env.sourceLanguage, Name(TargetLanguage) := env.targetLanguage, Name(Text) := env.text]
  }

  /** The value a slot is filled with: the keyword argument named like its placeholder. */
  function Lookup(env: Bindings, v: Variable): (r: string)
    ensures Name(v) in Kwargs(env) && r == Kwargs(env)[Name(v)]
  {
    match v
    case SourceLanguage => env.sourceLanguage
    case TargetLanguage => env.targetLanguage
    case Text => env.text
  }

  /** A literal piece is copied unchanged; a slot `{name}` becomes the keyword argument `name`. */
  function RenderPiece(p: Piece, env: Bindings): (r: string)
    ensures p.Lit? ==> r == p.literal
    ensures p.Slot? ==> r == Kwargs(env)[Name(p.variable)]
  {
    match p
    case Lit(s) => s
    case Slot(v) => Lookup(env, v)
  }

  /**
   * The pieces' renderings, concatenated in order: the empty template renders
   * to "", and a one-piece template to that piece's rendering.
   */
  function Render(ps: seq<Piece>, env: Bindings): (r: string)
    ensures ps == [] ==> r == ""
    ensures |ps| == 1 ==> r == RenderPiece(ps[0], env)
  {
    if ps == [] then "" else RenderPiece(ps[0], env) + Render(ps[1..], env)
  }

  /** Rendering depends only on the values of the variables whose slots occur in the template. */
  lemma {:induction false} RenderUsesOwnSlots(ps: seq<Piece>, e1: Bindings, e2: Bindings)
    requires forall v :: Slot(v) in ps ==> Lookup(e1, v) == Lookup(e2, v)
    ensures Render(ps, e1) == Render(ps, e2)
  {
    if ps != [] {
      assert RenderPiece(ps[0], e1) == RenderPiece(ps[0], e2) by {
        if ps[0].Slot? { assert Slot(ps[0].variable) in ps; }
      }
      assert forall v :: Slot(v) in ps[1..] ==> Slot(v) in ps;
      RenderUsesOwnSlots(ps[1..], e1, e2);
    }
  }

  /** Rendering distributes over concatenation of templates. */
  lemma {:induction false} RenderAppend(a: seq<Piece>, b: seq<Piece>, env: Bindings)
    ensures Render(a + b, env) == Render(a, env) + Render(b, env)
  {
    if a != [] {
      assert (a + b)[0] == a[0];
      assert (a + b)[1..] == a[1..] + b;
      RenderAppend(a[1..], b, env);
    } else {
      assert a + b == b;
    }
  }

  /**
   * Piece `i` of a template is rendered in one block, right after the
   * rendering of the pieces before it and before those after it.
   */
  lemma PieceAt(ps: seq<Piece>, i: nat, env: Bindings)
    requires i < |ps|
    ensures Render(ps, env) == Render(ps[..i], env) + RenderPiece(ps[i], env) + Render(ps[i + 1..], env)
  {
    assert ps == ps[..i] + ([ps[i]] + ps[i + 1..]);
    RenderAppend(ps[..i], [ps[i]] + ps[i + 1..], env);
    RenderAppend([ps[i]], ps[i + 1..], env);
  }

  /** Formatting renders every message of the template and keeps its role, in template order. */
  function Format(t: seq<MessageTemplate>, env: Bindings): (r: seq<Message>)
    ensures |r| == |t|
    ensures forall i :: 0 <= i < |t| ==> r[i] == Message(t[i].role, Render(t[i].pieces, env))
  {
    if t == [] then [] else [Message(t[0].role, Render(t[0].pieces, env))] + Format(t[1..], env)
  }

  /** The literal text of the system template before and between its two slots. */
  const Intro: string := "You are a helpful translation assistant. Translate the following text from "
  const Between: string := " to "

  /** The four things the backend is asked to add after the translation, one line each, in order. */
  const FollowUps: seq<string> := [
    "        1. A brief cultural context about any idioms or culturally specific references\n",
    "        2. Any alternate translations that might be more appropriate in different contexts\n",
    "        3. Pronunciation guide for important or difficult words\n",
    "        4. Also add a fun fact about penguins! \n"
  ]

  /** The end of the translate sentence, the request for the follow-ups in order, and the blank tail. */
  const Closing: string :=
    ".\n        \n        After the translation, provide:\n"
    + FollowUps[0] + FollowUps[1] + FollowUps[2] + FollowUps[3]
    + "        \n        "

  /**
   * The system message's template: `{source_language}`, then `{target_language}`,
   * each once, inside fixed text; the text variable does not occur.
   */
  function SystemPieces(): (ps: seq<Piece>)
    ensures |ps| == 5 && ps[1] == Slot(SourceLanguage) && ps[3] == Slot(TargetLanguage)
    ensures forall i :: 0 <= i < |ps| && i != 1 && i != 3 ==> ps[i].Lit?
  {
    [Lit(Intro), Slot(SourceLanguage), Lit(Between), Slot(TargetLanguage), Lit(Closing)]
  }

  /**
   * `create_translation_prompt`: a system message that mentions the source and
   * the target language once each and never the text, then a user message that
   * is the text and nothing else.
   */
  function TranslationTemplate(): (r: seq<MessageTemplate>)
    ensures |r| == 2 && r[0].role == System && r[1].role == User
    ensures r[1].pieces == [Slot(Text)]
    ensures Slot(Text) !in r[0].pieces
    ensures multiset(r[0].pieces)[Slot(SourceLanguage)] == 1
    ensures multiset(r[0].pieces)[Slot(TargetLanguage)] == 1
  {
    [MessageTemplate(System, SystemPieces()), MessageTemplate(User, [Slot(Text)])]
  }

  /**
   * The formatted prompt of one request: exactly two messages, system first.
   * The system message asks to translate from `source` to `target` and then
   * for the four follow-ups; the user message is `text` verbatim.
   */
  function TranslationPrompt(source: string, target: string, text: string): (r: seq<Message>)
    ensures |r| == 2 && r[0].role == System && r[1].role == User
    ensures r[1].content == text
    ensures r[0].content == Intro + source + Between + target + Closing
  {
    var env := Bindings(source, target, text);
    RenderTwoSlots(Intro, SourceLanguage, Between, TargetLanguage, Closing, env);
    Format(TranslationTemplate(), env)
  }

  /** A template with two slots between three literals renders to the literals with the two values in between. */
  lemma RenderTwoSlots(a: string, v: Variable, b: string, w: Variable, c: string, env: Bindings)
    ensures Render([Lit(a), Slot(v), Lit(b), Slot(w), Lit(c)], env) == a + Lookup(env, v) + b + Lookup(env, w) + c
  {
    var ps := [Lit(a), Slot(v), Lit(b), Slot(w), Lit(c)];
    PieceAt(ps, 1, env);
    PieceAt(ps[2..], 1, env);
    assert ps[..1] == [Lit(a)];
    assert ps[2..][..1] == [Lit(b)] && ps[2..][2..] == [Lit(c)];
  }

  /** Source and target reach only the system message, and the text only the user message. */
  lemma SubstitutionSites(source: string, target: string, text: string, source': string, target': string, text': string)
    ensures TranslationPrompt(source, target, text)[0] == TranslationPrompt(source, target, text')[0]
    ensures TranslationPrompt(source, target, text)[1] == TranslationPrompt(source', target', text)[1]
  {
    RenderUsesOwnSlots(SystemPieces(), Bindings(source, target, text), Bindings(source, target, text'));
    RenderUsesOwnSlots([Slot(Text)], Bindings(source, target, text), Bindings(source', target', text));
  }
}
