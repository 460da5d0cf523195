/**
  The persona pool of the Blended Skill Talk interactive and self-chat
  worlds: the built-in pool that `_load_personas` assembles, and
  `get_contexts_data`, which prefers a pool handed over by a parent world.
 */
module Contexts {
  import opened Wrappers
  import opened PyStr

  /** One element of the pool: the persona text of the model the user chats
      with, and the persona text of the user. */
  datatype PersonaContext = PersonaContext(agent: string, partner: string)

  /** `contexts_data`: the list the worlds draw a persona pair from. */
  type ContextPool = seq<PersonaContext>

  /** The model's persona sentences, in the order `_load_personas` appends them. */
  const PersonaSentences: seq<string> := [
    "I enjoy working at the ZKM very much.",
    "I love contemporary art.",
    "I am a poet.",
    "I am a digital assistant.",
    "I hate sports.",
    "I love to communicate.",
    "I like reading.",
    "Sometimes I feel like a dictionary.",
    "My favorite food is knowledge."
  ]

  /** The built-in pool: a single pair whose model persona is the persona
      sentences, one per line, and whose user persona is empty. */
  predicate IsDefaultPool(pool: ContextPool) {
    && |pool| == 1
    && Split(pool[0].agent, '\n') == PersonaSentences
    && pool[0].partner == ""
  }

  /** `_load_personas`: the nine sentences are appended to the model's list,
      none to the user's; each list is joined with newlines and the pair is
      appended to an empty pool. */
  method LoadPersonas() returns (contexts: ContextPool)
    ensures IsDefaultPool(contexts)
    ensures contexts[0].agent == Join(PersonaSentences, "\n")
  {
    contexts := [];
    var context1: seq<string> := [];
    var context2: seq<string> := [];
    context1 := context1 + ["I enjoy working at the ZKM very much."];
    context1 := context1 + ["I love contemporary art."];
    context1 := context1 + ["I am a poet."];
    context1 := context1 + ["I am a digital assistant."];
    context1 := context1 + ["I hate sports."];
    context1 := context1 + ["I love to communicate."];
    context1 := context1 + ["I like reading."];
    context1 := context1 + ["Sometimes I feel like a dictionary."];
    context1 := context1 + ["My favorite food is knowledge."];
    assert context1 == PersonaSentences;
    var c1 := Join(context1, "\n");
    var c2 := Join(context2, "\n");
    contexts := contexts + [PersonaContext(c1, c2)];
    SentencesOnOneLine();
    SplitJoin(PersonaSentences, '\n');
  }

  /** A text none of whose characters is a line break contains none. */
  lemma NoLineBreak(s: string)
    requires forall i :: 0 <= i < |s| ==> s[i] != '\n'
    ensures '\n' !in s
  {
  }

  /** No persona sentence contains a line break. */
  lemma SentencesOnOneLine()
    ensures forall i :: 0 <= i < |PersonaSentences| ==> '\n' !in PersonaSentences[i]
  {
    NoLineBreak("I enjoy working at the ZKM very much.");
    NoLineBreak("I love contemporary art.");
    NoLineBreak("I am a poet.");
    NoLineBreak("I am a digital assistant.");
    NoLineBreak("I hate sports.");
    NoLineBreak("I love to communicate.");
    NoLineBreak("I like reading.");
    NoLineBreak("Sometimes I feel like a dictionary.");
    NoLineBreak("My favorite food is knowledge.");
  }

  /** Texts with the same lines are the same text. */
  lemma SameLines(a: string, b: string, sep: char)
    requires Split(a, sep) == Split(b, sep)
    ensures a == b
  {
    JoinSplit(a, sep);
    JoinSplit(b, sep);
  }

  /** There is exactly one built-in pool: the model persona's lines determine it. */
  lemma DefaultPoolUnique(p: ContextPool, q: ContextPool)
    requires IsDefaultPool(p) && IsDefaultPool(q)
    ensures p == q
  {
    SameLines(p[0].agent, q[0].agent, '\n');
    assert p == [p[0]] && q == [q[0]];
  }

  /** The key under which a parent world shares its pool. */
  const ContextsKey: string := "contexts_data"

  /** A value of the dictionary a parent world shares: its pool, or anything
      else the base world puts there. */
  datatype SharedValue = Contexts(pool: ContextPool) | Other(tag: string)

  /** `shared and 'contexts_data' in shared`: a dictionary was handed over and
      it holds a pool. `None` and the empty dictionary both fail the test. */
  predicate HasContexts(shared: Option<map<string, SharedValue>>) {
    shared.Some? && ContextsKey in shared.value
  }

  /** `get_contexts_data`: the shared pool when there is one, the built-in
      pool otherwise. */
  method GetContextsData(shared: Option<map<string, SharedValue>>) returns (pool: ContextPool)
    requires HasContexts(shared) ==> shared.value[ContextsKey].Contexts?
    ensures HasContexts(shared) ==> pool == shared.value[ContextsKey].pool
    ensures !HasContexts(shared) ==> IsDefaultPool(pool)
  {
    if HasContexts(shared) {
      return shared.value[ContextsKey].pool;
    }
    pool := LoadPersonas();
  }
}
