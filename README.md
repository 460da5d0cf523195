# Blended Skill Talk worlds, modelled in Dafny

`parlai/tasks/blended_skill_talk/worlds.py` adapts ParlAI's interactive world and
self-chat world to the Blended Skill Talk task. It has three parts:

- The persona pool. `_load_personas` builds a one-element pool. Its single pair
  holds the model's nine persona sentences joined by newlines, and an empty
  user persona.
- `get_contexts_data`. It reuses a pool that a parent world handed over in its
  shared dictionary. Otherwise it loads the built-in pool.
- The two world classes. They store the pool (`init_contexts`), draw one
  persona pair per episode (`get_contexts`) and pass the pool on to worker
  copies (`share`). When the option is set, the interactive world also shows
  the partner persona of the episode (`p2`, which the base world chooses) at
  the end of the episode, relabelled from `your persona:` to
  `partner's persona:` (`finalize_episode`).

The file also defines the normaliser `_standardize`. It lower-cases a persona
sentence, strips trailing `.`, `!` and `?`, and then applies a fixed, ordered
table of replace-all rules: contraction expansions, then `" s"` to `"'s"`.
The rules are plain substring replacements, so they also fire inside words:
`alive` becomes `ali have`. The model keeps that behaviour and proves it as an
example.

Files:

- `wrappers.dfy`: `Option`.
- `py_str.dfy` (module `PyStr`): the Python string operations the source uses.
  - `str.lower` on ASCII.
  - `str.rstrip` with a character set.
  - `str.replace`: left to right, non-overlapping, every occurrence.
  - `'\n'.join`, plus a reference `split` to read joined text back.
  - Lemmas about these operations.
- `persona.dfy` (module `Persona`): the rule table and the specification
  function `Standardized`. `Standardize` is the loop method proved against it.
  The lemmas cover normal form and the absence of `" s"`.
- `persona_examples.dfy` (module `PersonaExamples`): worked examples of
  `_standardize`, proved rule by rule.
- `contexts.dfy` (module `Contexts`): the pool, `_load_personas` and
  `get_contexts_data`.
- `worlds.dfy` (module `Worlds`): the two world classes, the partner-persona
  relabelling, and the creation of worker copies from `share`.

## Model

| member | source | states |
|---|---|---|
| PyStr.Lower | parlai/tasks/blended_skill_talk/worlds.py:46 | lower-casing keeps the length, leaves no upper-case letter, changes each upper-case letter to its lower-case form and keeps every other character |
| PyStr.RStrip | parlai/tasks/blended_skill_talk/worlds.py:46 | the result is a prefix of the input that does not end in a stripped character, and every removed character is in the set |
| PyStr.RStripRun | parlai/tasks/blended_skill_talk/worlds.py:46 | stripping a text that ends outside the set, followed by a run of set characters, removes exactly that run |
| PyStr.LowerConcat | parlai/tasks/blended_skill_talk/worlds.py:46 | lower-casing distributes over concatenation |
| PyStr.LowerKeeps | parlai/tasks/blended_skill_talk/worlds.py:46 | lower-casing text that has no upper-case letter leaves it unchanged |
| PyStr.ReplaceAll | parlai/tasks/blended_skill_talk/worlds.py:65 | every character of the result comes from the text or from the replacement |
| PyStr.ReplaceNonEmpty | parlai/tasks/blended_skill_talk/worlds.py:65 | replacing with a non-empty replacement never empties a non-empty text |
| PyStr.ReplaceAbsent | parlai/tasks/blended_skill_talk/worlds.py:65 | a replace whose pattern does not occur leaves the text unchanged |
| PyStr.ReplaceEndsOutside | parlai/tasks/blended_skill_talk/worlds.py:65 | if the text and the replacement do not end in a character of a set, neither does the result |
| PyStr.ReplaceLeavesNoMatch | parlai/tasks/blended_skill_talk/worlds.py:65 | when pattern and replacement cannot interfere, no occurrence of the pattern is left after a replace |
| PyStr.ReplaceIdempotent | parlai/tasks/blended_skill_talk/worlds.py:65 | when pattern and replacement cannot interfere, replacing twice is replacing once |
| PyStr.ReplaceSkip | parlai/tasks/blended_skill_talk/worlds.py:65 | a prefix without the pattern's first character passes through a replace unchanged |
| PyStr.ReplaceAtMatch | parlai/tasks/blended_skill_talk/worlds.py:65 | an occurrence at the front is replaced and the scan resumes after it |
| PyStr.ReplaceAtMiss | parlai/tasks/blended_skill_talk/worlds.py:65 | a front character that does not start an occurrence is kept and the scan moves one character on |
| PyStr.ReplaceMissingChar | parlai/tasks/blended_skill_talk/worlds.py:65 | a text missing one of the pattern's characters is left unchanged |
| PyStr.ExcludesAbsent | parlai/tasks/blended_skill_talk/worlds.py:65 | a text missing a character of the pattern, or a pair of its characters at their distance, does not contain the pattern |
| PyStr.ReplaceExcluded | parlai/tasks/blended_skill_talk/worlds.py:65 | a replace on such a text leaves it unchanged |
| PyStr.ReplaceOnce | parlai/tasks/blended_skill_talk/worlds.py:65 | in `a + pat + b`, where `a` cannot start an occurrence and `b` contains none, exactly that one occurrence is replaced |
| PyStr.Split | parlai/tasks/blended_skill_talk/worlds.py:36-37 | splitting gives at least one piece, and no piece contains the separator |
| PyStr.Join | parlai/tasks/blended_skill_talk/worlds.py:36-37 | `sep.join(parts)`; its meaning is fixed by `SplitJoin` and `JoinSplit`: joining newline-free pieces and splitting gives them back, and every text is the join of its lines |
| PyStr.SplitJoin | parlai/tasks/blended_skill_talk/worlds.py:36-37 | joining separator-free pieces with the separator and splitting again gives the pieces back |
| PyStr.JoinSplit | parlai/tasks/blended_skill_talk/worlds.py:36-37 | splitting a text and joining the pieces again gives the text back |
| Persona.ApplyRules | parlai/tasks/blended_skill_talk/worlds.py:64-65 | the table loop as a fold, one replace-all per rule in order; `ApplyRulesKeepNormal` shows it keeps normal form and `ApplyRulesSnoc` that it splits off its last rule |
| Persona.Standardized | parlai/tasks/blended_skill_talk/worlds.py:42-66 | what `_standardize` returns; `StandardizedNormal` and `StandardizedNoSpaceS` prove it never has an upper-case letter, a trailing `.`, `!` or `?`, or a `" s"`, and the four examples compute it on given sentences |
| Persona.Standardize | parlai/tasks/blended_skill_talk/worlds.py:42-66 | the loop over the table computes `Standardized`; the result has no upper-case letter, does not end in `.`, `!` or `?`, and contains no `" s"` |
| Persona.RulesKeepNormal | parlai/tasks/blended_skill_talk/worlds.py:47-63 | every replacement in the table is non-empty, has no upper-case letter and does not end in `.`, `!` or `?` |
| Persona.ReplaceKeepsNormal | parlai/tasks/blended_skill_talk/worlds.py:65 | one replace with such a replacement keeps text in that normal form |
| Persona.ApplyRulesKeepNormal | parlai/tasks/blended_skill_talk/worlds.py:64-65 | applying any sequence of such rules keeps text in normal form |
| Persona.StandardizedNormal | parlai/tasks/blended_skill_talk/worlds.py:42-66 | for every input, the result has no upper-case letter and does not end in `.`, `!` or `?` |
| Persona.ApplyRulesSnoc | parlai/tasks/blended_skill_talk/worlds.py:64-65 | applying a table and then one more rule is applying the extended table |
| Persona.SpaceSNonInterfering | parlai/tasks/blended_skill_talk/worlds.py:62 | the last rule can neither leave nor create a `" s"` |
| Persona.StandardizedNoSpaceS | parlai/tasks/blended_skill_talk/worlds.py:42-66 | for every input, the result contains no `" s"` |
| PersonaExamples.ReadManyBooks | parlai/tasks/blended_skill_talk/worlds.py:42-66 | `I've read many books.` standardizes to `i have read many books` |
| PersonaExamples.DigitalAssistant | parlai/tasks/blended_skill_talk/worlds.py:42-66 | `I'm a digital assistant!` standardizes to `i am a digital assistant` |
| PersonaExamples.DoNotYouDare | parlai/tasks/blended_skill_talk/worlds.py:42-66 | `Don't you dare??` standardizes to `do not you dare`; the repeated `?` is stripped |
| PersonaExamples.Alive | parlai/tasks/blended_skill_talk/worlds.py:42-66 | `alive` standardizes to `ali have`, because the `ive` rule fires inside the word |
| Contexts.LoadPersonas | parlai/tasks/blended_skill_talk/worlds.py:22-39 | the pool has one pair: the model persona is the nine sentences joined by newlines, in append order, and its lines are exactly those sentences; the user persona is empty |
| Contexts.SentencesOnOneLine | parlai/tasks/blended_skill_talk/worlds.py:27-35 | no persona sentence contains a line break, so joining them can be undone |
| Contexts.SameLines | parlai/tasks/blended_skill_talk/worlds.py:36 | two texts with the same lines are equal |
| Contexts.DefaultPoolUnique | parlai/tasks/blended_skill_talk/worlds.py:22-39 | any two pools that satisfy the built-in pool's description are equal, so every load gives the same pool |
| Contexts.HasContexts | parlai/tasks/blended_skill_talk/worlds.py:17 | the test `shared and 'contexts_data' in shared`: false for no dictionary, an empty one, or one without the key; `GetContextsData` branches on it |
| Contexts.GetContextsData | parlai/tasks/blended_skill_talk/worlds.py:16-19 | with a shared dictionary holding `contexts_data`, the result is that pool unchanged; with no dictionary, an empty one, or one without the key, it is the built-in pool |
| Worlds.PartnerView | parlai/tasks/blended_skill_talk/worlds.py:114 | the relabelled persona contains no `your persona:` |
| Worlds.LabelsNonInterfering | parlai/tasks/blended_skill_talk/worlds.py:114 | relabelling can neither leave nor create a `your persona:` label |
| Worlds.PartnerViewUnlabelled | parlai/tasks/blended_skill_talk/worlds.py:114 | a persona without the label is shown unchanged |
| Worlds.PartnerViewLabelled | parlai/tasks/blended_skill_talk/worlds.py:114 | a text that starts with `your persona:` and has no other label is shown with `partner's persona:` in front of the same rest |
| Worlds.PartnerViewExample | parlai/tasks/blended_skill_talk/worlds.py:114 | `your persona: I like cats.` is shown as `partner's persona: I like cats.` |
| Worlds.WithPool | parlai/tasks/blended_skill_talk/worlds.py:121 | setting `contexts_data` adds or overwrites that key, stores the pool under it, and keeps every other entry |
| Worlds.InteractiveWorld.constructor | parlai/tasks/blended_skill_talk/worlds.py:99-101 | the world remembers whether to show the partner persona |
| Worlds.InteractiveWorld.InitContexts | parlai/tasks/blended_skill_talk/worlds.py:103-104 | the stored pool is the one `get_contexts_data` gives for the shared dictionary |
| Worlds.InteractiveWorld.GetContexts | parlai/tasks/blended_skill_talk/worlds.py:106-109 | the result is the pair of personas of some pool element, or a failure exactly when the pool is empty; from the built-in pool it is always the built-in pair; the pool is unchanged |
| Worlds.InteractiveWorld.FinalizeEpisode | parlai/tasks/blended_skill_talk/worlds.py:111-117 | a persona is shown exactly when the option is set; it is the relabelled `p2` and has no `your persona:` label |
| Worlds.InteractiveWorld.Share | parlai/tasks/blended_skill_talk/worlds.py:119-122 | the shared dictionary is the base one with `contexts_data` set to the pool, so `get_contexts_data` finds this pool in it |
| Worlds.SelfChatWorld.InitContexts | parlai/tasks/blended_skill_talk/worlds.py:141-142 | the stored pool is the one `get_contexts_data` gives for the shared dictionary |
| Worlds.SelfChatWorld.GetContexts | parlai/tasks/blended_skill_talk/worlds.py:144-147 | the result is a two-element list of the personas of some pool element, or a failure exactly when the pool is empty; from the built-in pool it is always the built-in pair; the pool is unchanged |
| Worlds.SelfChatWorld.Share | parlai/tasks/blended_skill_talk/worlds.py:149-152 | the shared dictionary is the base one with `contexts_data` set to the pool, so `get_contexts_data` finds this pool in it |
| Worlds.CopyInteractiveWorld | parlai/tasks/blended_skill_talk/worlds.py:103-122 | a worker world initialised from what its parent shares holds the same pool and the same display option |
| Worlds.CopySelfChatWorld | parlai/tasks/blended_skill_talk/worlds.py:141-152 | a worker world initialised from what its parent shares holds the same pool |

## Left out

- `print` calls. These are the loading message, the end-of-chat banner, the displayed partner persona and the "preparing new chat" notice. `FinalizeEpisode` returns the persona text it would display instead of printing it.
- `random.seed()` and the uniform distribution of `random.choice`. The choice is modelled as an arbitrary index into the pool.
- `random.choice` on an empty pool raises `IndexError`. `GetContexts` returns `None` in that case.
- `add_cmdline_args`: command-line option registration.
- The base worlds and everything they own. This includes the episode loop, `epoch_done`, agents, setting `p1` and `p2`, and the base `share`. The base `share` result is a parameter. The base constructor's call to `init_contexts` is a separate `InitContexts` call.
- `opt` is not modelled. `_load_personas` and `get_contexts_data` never read it. The only option read is `display_partner_persona`, which is a constructor parameter.
- `SelfChatWorld` has no `__init__` of its own in this file. Its constructor only starts with an empty pool.
- Worker copies receive the same pool as a value. Sharing of the one Python list object between parent and worker is not modelled.
- Before `init_contexts`, the Python worlds have no `contexts_data` attribute. The model starts with an empty pool.
- The unused imports (`json`, `raw_data_path`, `safe_personas_path`, `PathManager`).
- PyStr.Lower: lower-cases ASCII letters only. Python's `str.lower` also maps non-ASCII letters.
- `_standardize` is not called anywhere in this file. It is modelled on its own.
- PersonaExamples.ReadManyBooks: the example inputs are stated as concatenations of their pieces (`"I've" + " read many books" + "."`), which equal the whole sentences. The same holds for DigitalAssistant, DoNotYouDare and Alive.
- GetContextsData: requires that a shared `contexts_data` entry is a pool. `share` is the only place that sets the key.
