/**
  The two Blended Skill Talk worlds: the interactive world (a person chats
  with a model) and the self-chat world (a model chats with itself). Each
  keeps the persona pool it was initialised with, draws one persona pair per
  episode, and hands its pool to worker copies through `share`.
 */
module Worlds {
  import opened Wrappers
  import opened PyStr
  import opened Contexts

  /** The label the user's persona lines carry during the chat. */
  const YourPersona: string := "your persona:"

  /** The label shown instead when the partner persona is displayed afterwards. */
  const PartnersPersona: string := "partner's persona:"

  /** `self.p2.replace('your persona:', "partner's persona:")`. */
  function PartnerView(p2: string): (r: string)
    ensures !Contains(r, YourPersona)
  {
    LabelsNonInterfering();
    ReplaceLeavesNoMatch(p2, YourPersona, PartnersPersona);
    ReplaceAll(p2, YourPersona, PartnersPersona)
  }

  /** Relabelling can neither leave nor create a `your persona:` label. */
  lemma LabelsNonInterfering()
    ensures NonInterfering(YourPersona, PartnersPersona)
  {
    forall d | 1 <= d < |YourPersona|
      ensures !(YourPersona[d..] <= PartnersPersona) && !(PartnersPersona <= YourPersona[d..])
    {
      if d == 5 {
        assert YourPersona[d..][1] != PartnersPersona[1];
      } else {
        assert YourPersona[d..][0] != PartnersPersona[0];
      }
    }
  }

  /** A persona without the label is displayed as it is. */
  lemma PartnerViewUnlabelled(p2: string)
    requires !Contains(p2, YourPersona)
    ensures PartnerView(p2) == p2
  {
    ReplaceAbsent(p2, YourPersona, PartnersPersona);
  }

  /** A line that starts with the label, and has no other, is displayed with
      the partner's label and the same text. */
  lemma PartnerViewLabelled(text: string)
    requires !Contains(text, YourPersona)
    ensures PartnerView(YourPersona + text) == PartnersPersona + text
  {
    ReplaceAtMatch(YourPersona, text, PartnersPersona);
    ReplaceAbsent(text, YourPersona, PartnersPersona);
  }

  /** `"your persona: I like cats."` is displayed as `"partner's persona: I like cats."`. */
  lemma PartnerViewExample()
    ensures PartnerView(YourPersona + " I like cats.") == PartnersPersona + " I like cats."
  {
    MissingCharAbsent(" I like cats.", YourPersona, 0);
    PartnerViewLabelled(" I like cats.");
  }

  /** A shared dictionary with `contexts_data` set to `pool`: the key is
      added or overwritten and every other entry is kept. */
  function WithPool(base: map<string, SharedValue>, pool: ContextPool): (shared: map<string, SharedValue>)
    ensures shared.Keys == base.Keys + {ContextsKey}
    ensures shared[ContextsKey] == Contexts(pool)
    ensures forall k :: k in base && k != ContextsKey ==> shared[k] == base[k]
  {
    base[ContextsKey := Contexts(pool)]
  }

  /** The world a person chats in. */
  class InteractiveWorld {
    /** `display_partner_persona`, read from the options at construction. */
    const displayPartnerPersona: bool
    /** `contexts_data`: the pool persona pairs are drawn from. */
    var contextsData: ContextPool
    /** The partner persona of the current episode, set by the base world. */
    var p2: string

    /** `__init__`: remembers whether to show the partner persona at the end.
        The pool is empty until `InitContexts` runs. */
    constructor(displayPartnerPersona: bool)
      ensures this.displayPartnerPersona == displayPartnerPersona
      ensures contextsData == [] && p2 == ""
    {
      this.displayPartnerPersona := displayPartnerPersona;
      contextsData := [];
      p2 := "";
    }

    /** `init_contexts`: the pool a parent shared, or the built-in one. */
    method InitContexts(shared: Option<map<string, SharedValue>>)
      requires HasContexts(shared) ==> shared.value[ContextsKey].Contexts?
      modifies this`contextsData
      ensures HasContexts(shared) ==> contextsData == shared.value[ContextsKey].pool
      ensures !HasContexts(shared) ==> IsDefaultPool(contextsData)
    {
      contextsData := GetContextsData(shared);
    }

    /** `get_contexts`: the two personas of one pool element, chosen freely;
        `random.choice` fails on an empty pool. The pool is not changed. */
    method GetContexts() returns (r: Option<(string, string)>)
      ensures r.None? <==> contextsData == []
      ensures r.Some? ==>
        exists i :: 0 <= i < |contextsData| && r.value == (contextsData[i].agent, contextsData[i].partner)
      ensures r.Some? && IsDefaultPool(contextsData) ==>
        Split(r.value.0, '\n') == PersonaSentences && r.value.1 == ""
    {
      if contextsData == [] {
        return None;
      }
      var i :| 0 <= i < |contextsData|;
      var p := contextsData[i];
      return Some((p.agent, p.partner));
    }

    /** `finalize_episode`: when enabled, the partner persona to display,
        relabelled so that no `your persona:` label remains. */
    method FinalizeEpisode() returns (shown: Option<string>)
      ensures shown.Some? <==> displayPartnerPersona
      ensures shown.Some? ==> shown.value == PartnerView(p2)
      ensures shown.Some? ==> !Contains(shown.value, YourPersona)
    {
      if displayPartnerPersona {
        return Some(PartnerView(p2));
      }
      return None;
    }

    /** `share`: the base world's shared dictionary with the pool added. */
    method Share(base: map<string, SharedValue>) returns (shared: map<string, SharedValue>)
      ensures shared == WithPool(base, contextsData)
      ensures HasContexts(Some(shared)) && shared[ContextsKey].pool == contextsData
    {
      shared := base;
      shared := shared[ContextsKey := Contexts(contextsData)];
    }
  }

  /** The world a model chats with itself in. */
  class SelfChatWorld {
    /** `contexts_data`: the pool persona pairs are drawn from. */
    var contextsData: ContextPool

    /** A world whose pool is empty until `InitContexts` runs. */
    constructor()
      ensures contextsData == []
    {
      contextsData := [];
    }

    /** `init_contexts`: the pool a parent shared, or the built-in one. */
    method InitContexts(shared: Option<map<string, SharedValue>>)
      requires HasContexts(shared) ==> shared.value[ContextsKey].Contexts?
      modifies this`contextsData
      ensures HasContexts(shared) ==> contextsData == shared.value[ContextsKey].pool
      ensures !HasContexts(shared) ==> IsDefaultPool(contextsData)
    {
      contextsData := GetContextsData(shared);
    }

    /** `get_contexts`: the two personas of one pool element, as a two-element
        list; `random.choice` fails on an empty pool. The pool is not changed. */
    method GetContexts() returns (r: Option<seq<string>>)
      ensures r.None? <==> contextsData == []
      ensures r.Some? ==> |r.value| == 2
      ensures r.Some? ==>
        exists i :: 0 <= i < |contextsData| && r.value == [contextsData[i].agent, contextsData[i].partner]
      ensures r.Some? && IsDefaultPool(contextsData) ==>
        Split(r.value[0], '\n') == PersonaSentences && r.value[1] == ""
    {
      if contextsData == [] {
        return None;
      }
      var i :| 0 <= i < |contextsData|;
      var p := contextsData[i];
      return Some([p.agent, p.partner]);
    }

    /** `share`: the base world's shared dictionary with the pool added. */
    method Share(base: map<string, SharedValue>) returns (shared: map<string, SharedValue>)
      ensures shared == WithPool(base, contextsData)
      ensures HasContexts(Some(shared)) && shared[ContextsKey].pool == contextsData
    {
      shared := base;
      shared := shared[ContextsKey := Contexts(contextsData)];
    }
  }

  /** A worker copy of an interactive world, initialised from what the parent
      shares, draws from the very same pool. */
  method CopyInteractiveWorld(parent: InteractiveWorld, base: map<string, SharedValue>)
    returns (worker: InteractiveWorld)
    ensures fresh(worker)
    ensures worker.contextsData == parent.contextsData
    ensures worker.displayPartnerPersona == parent.displayPartnerPersona
  {
    var shared := parent.Share(base);
    worker := new InteractiveWorld(parent.displayPartnerPersona);
    worker.InitContexts(Some(shared));
  }

  /** A worker copy of a self-chat world draws from the very same pool. */
  method CopySelfChatWorld(parent: SelfChatWorld, base: map<string, SharedValue>)
    returns (worker: SelfChatWorld)
    ensures fresh(worker)
    ensures worker.contextsData == parent.contextsData
  {
    var shared := parent.Share(base);
    worker := new SelfChatWorld();
    worker.InitContexts(Some(shared));
  }
}
