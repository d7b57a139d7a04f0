# py-alive tool visibility, in Dafny

py-alive lets a Python class expose its methods as tools to LLM agents.
The class declares agents with `@alive_agent`. Every agent call asks the
class's `ToolsRegistry` which tools that call may see, through
`get_tools_config(include, exclude, calling_method_name)`. The answer
follows a fixed precedence:

- an explicit name in `exclude` always wins;
- an excluded tag wins unless `include` names the tool;
- `"*"` is the weakest selector;
- the calling method is hidden unless `include` names it.

This project models that resolver and the helpers around it. It proves the
resolver equal to a declarative visibility rule, and it proves the rule's
promises as lemmas.

The modules follow the package:

- `Wrappers` holds `Option`, `Result` and the Python exception kinds.
- `Text` models the `str` operations the code relies on: `isspace`,
  `strip`, `split()`, `" ".join`, `replace(old, "")`, `startswith` and
  `str(n)`.
- `BaseList` models `internal/base_list.py`: `where`, `first` and
  `require`. The predicate answers yes, no or raises.
- `Utils` models `_is_dunder` and the two doc-string extractors of
  `utils.py`.
- `AliveTags` models `AliveTag` equality and hashing, `_normalize_tags`
  and the `@alive_tool` decorator.
- `ToolsRegistry` holds the resolver `GetToolsConfig`. It is a method
  whose loops follow the Python code. Its contract ties it to the declarative
  predicate `Visible`.
- `ResolverProperties` proves the precedence rules, the `"*"` cases, the
  caller rule and two worked examples against `Visible`.
- `Memory` models `memory.py`: hint normalisation and override, the
  hint/runtime conflict check, preview truncation, and the `AliveField`
  slot map. The slot map is a pure function on a map from names to slots.
- `AgentDecorator` models `normalize_to_user_content`,
  `parse_agent_func` and the single-or-fan-out choice of
  `alive_agent_run`.

Everything is a pure function over immutable values, except for a few
methods. The resolver is written as loops, like the Python code:
`ToolsRegistry.GetToolsConfig`, `ResolveNames`, `ResolveTagNames`,
`ApplyPrecedence` and `RawTools`. So is the regex scan
`Utils.ExtractAngleDoc`. The registry is a `seq<ToolConfig>`, and the
resolver never changes it.

Where the code and the library's own description disagree, the model
follows the code:

- An `include` or `exclude` element of any other type is dropped
  silently rather than rejected (tools_registry.py:199-204). The model
  has an `Unsupported` selector for it.
- Raw callables pass through a `set` (tools_registry.py:262). The model
  proves each appears exactly once after the registry tools, in no
  particular order, rather than in the order given.
- `"*"` in `exclude` widens the exclude strings (tools_registry.py:215-216),
  but nothing reads them afterwards. Only the flag `exclude_has_star`
  matters, so the model leaves the widening out.
- A calling-method name of `""` is falsy and hides nothing
  (tools_registry.py:255).
- A non-empty `include` holding neither a `str` nor an `AliveTag` has no
  `"*"` and no tag, so it selects no registry tool. An `include` holding
  only callables is an example. Only a missing or empty `include` defaults
  to `["*"]`.

## Model

| member | source | states |
|---|---|---|
| AliveTags.TagEquals | src/py_alive/tools_registry.py:33-38 | a tag equals a `str` exactly when the string is its value, equals a tag exactly when both have the same value, and never equals any other object |
| AliveTags.EqualityIsConsistent | src/py_alive/tools_registry.py:30-38 | tag/`str` equality is reflexive, symmetric and transitive; equal objects hash alike; two tags are equal exactly when their values are |
| AliveTags.NormalizeTags | src/py_alive/tools_registry.py:45-62 | `None` gives the empty set and a single `str` or tag a singleton; a collection succeeds exactly when every element is a tag or `str`, and then gives their tags; otherwise it is the `TypeError` naming the first bad element's type |
| AliveTags.CollectTags | src/py_alive/tools_registry.py:54-62 | the collection loop succeeds exactly when no element is foreign; the error is the first foreign element's `TypeError` |
| AliveTags.NormalizeTagsByValue | src/py_alive/tools_registry.py:50-59 | a string and the tag with the same value, repeated, normalise to one tag |
| AliveTags.MergePrefix | src/py_alive/tools_registry.py:83-87 | a truthy prefix goes in front followed by `_`; a falsy one leaves the prefix unchanged |
| AliveTags.Decorate | src/py_alive/tools_registry.py:76-94 | the stored tags are exactly the function's earlier tags together with the new ones; the earlier prefix survives at the end of the new one, behind `prefix_` when a prefix is given; the function ends up with a non-empty name exactly when an explicit name, an earlier name or its own `__name__` is non-empty, and an explicit name always wins |
| AliveTags.DecorateIdempotent | src/py_alive/tools_registry.py:76-94 | applying the same decorator again without a prefix changes nothing |
| AliveTags.AliveTool | src/py_alive/tools_registry.py:65-97 | building the decorator fails exactly when tag normalisation fails; otherwise the normalised tags are added to the function's own |
| AliveTags.StackedDecorators | src/py_alive/tools_registry.py:78-92 | under two stacked decorators the tags of both accumulate, the outer prefix comes first (`p2_p1_`), and an outer explicit name wins |
| AliveTags.DecoratedNameNonEmpty | src/py_alive/tools_registry.py:90-92 | a function with a non-empty name of its own always carries a non-empty tool name after decoration |
| BaseList.Where | src/py_alive/internal/base_list.py:38-59 | success yields exactly the items whose predicate is truthy, in order; non-strict never fails; strict fails exactly when some predicate raises, with the first raiser's error |
| BaseList.First | src/py_alive/internal/base_list.py:61-74 | a result is the earliest item whose predicate is truthy; `None` means no item matched, and under strict that no predicate raised; only strict can fail, and strict fails exactly when the predicate raises on an item before any match, with that item's error |
| BaseList.FirstStopsAtMatch | src/py_alive/internal/base_list.py:67-73 | the earliest match is returned when every earlier item is rejected, or raises without strict; later items are never looked at |
| BaseList.Require | src/py_alive/internal/base_list.py:76-85 | succeeds exactly when `first` finds an item, with a matching member of the list; no match is `KeyError("BaseList: no item matched predicate")`; an error raised inside strict `first` comes back unchanged |
| BaseList.FilterMembership | src/py_alive/internal/base_list.py:59 | an item is kept exactly when it is in the list and satisfies the predicate |
| BaseList.FilterIsSubsequence | src/py_alive/internal/base_list.py:59 | the filtered list is a subsequence of the input, keeping its order |
| BaseList.WhereTotal | src/py_alive/internal/base_list.py:51-59 | with a predicate that never raises, `where` is the plain filter at either strictness |
| BaseList.FirstIsHeadOfWhere | src/py_alive/internal/base_list.py:61-74 | non-strict `first` is the head of non-strict `where` |
| BaseList.StrictFirstIsHeadOfWhere | src/py_alive/internal/base_list.py:61-74 | when strict `where` succeeds, strict `first` returns its head |
| BaseList.RequireAgreesWithFirst | src/py_alive/internal/base_list.py:82-85 | `require` returns the same item as `first` whenever one matches |
| Utils.IsDunder | src/py_alive/utils.py:6-7 | true exactly when the name starts with `__` and ends with `__` |
| Utils.DunderOfWrapped | src/py_alive/utils.py:6-7 | any `__x__` is a dunder |
| Utils.DunderUnwrap | src/py_alive/utils.py:6-7 | a dunder of four or more characters is `__` + core + `__` |
| Utils.BlocksDisjoint | src/py_alive/utils.py:36 | two matches of `<([^<>]+)>` either coincide or do not overlap |
| Utils.ExtractAngleDoc | src/py_alive/utils.py:35-40 | `None` or empty gives `None`; a doc without a `<...>` block is returned unchanged; otherwise the result is the stripped contents of the leftmost block |
| Utils.RemoveAngleBlocks | src/py_alive/utils.py:44-45 | removing the shortest `<...>` blocks left to right leaves no `<` followed by a `>`, and never lengthens the text |
| Utils.RemoveAngleBlocksNoOpen | src/py_alive/utils.py:44-45 | a text without `<` is unchanged |
| Utils.RemoveAngleBlocksFixed | src/py_alive/utils.py:44-45 | a text with no `<` before a `>` is unchanged |
| Utils.RemoveAngleBlocksIdempotent | src/py_alive/utils.py:44-45 | removing blocks twice is removing them once |
| Utils.RemoveAngleBlocksStep | src/py_alive/utils.py:44 | a block after a `<`-free head is removed whole, newlines included, and the scan resumes after its `>` |
| Utils.ExtractNoAngleDocAsWritten | src/py_alive/utils.py:43-45 | a missing doc is a `TypeError`; otherwise the result is trimmed and has no `<...>` left |
| Utils.ExtractNoAngleDoc | src/py_alive/utils.py:43-45 | the result is trimmed with no `<...>` left; a missing doc gives `""`; on a present doc it agrees with the code as written |
| Utils.NoAngleDocOfMissingDoc | src/py_alive/utils.py:45 | as written a missing doc raises `TypeError`; corrected it gives `""` |
| Text.RemoveAllOnlyDeletes | src/py_alive/memory.py:127 | `replace(p, "")` only deletes: no character occurs more often in the result than in the input |
| Utils.NoAngleDocWithoutOpen | src/py_alive/utils.py:45 | a doc with no `<` is only stripped |
| ToolsRegistry.IncludeRaw | src/py_alive/tools_registry.py:184 | a missing or empty `include` means `["*"]`, so it is never empty; a non-empty one is used as given |
| ToolsRegistry.ExcludeRaw | src/py_alive/tools_registry.py:185 | a missing `exclude` means no selectors; a given one is used as given |
| ToolsRegistry.ToolTags | src/py_alive/tools_registry.py:188-194 | an unset or `None` tag attribute means no tags, a lone tag a one-element set, a collection its set |
| ToolsRegistry.RawToolConfigAsWritten | src/py_alive/tools_registry.py:263 | configuring a raw callable fails exactly when its `__doc__` is `None`; otherwise the name and doc are the callable's own |
| ToolsRegistry.RawToolConfig | src/py_alive/tools_registry.py:263 | the corrected configuration agrees with the code whenever the callable has a doc, and uses `""` when it has none |
| ToolsRegistry.RawToolWithoutDoc | src/py_alive/tools_registry.py:262-263 | a doc-less raw callable makes the written call fail, and the corrected configuration has an empty description |
| ToolsRegistry.RawTools | src/py_alive/tools_registry.py:262-263 | every distinct callable of `include` gets one configuration, exactly once |
| ToolsRegistry.ResolveTagNames | src/py_alive/tools_registry.py:219-229 | the scan yields exactly the names of the registry tools carrying one of the tags |
| ToolsRegistry.ApplyPrecedence | src/py_alive/tools_registry.py:243-252 | a candidate survives exactly when no name-exclude covers it and, if a tag excludes it, `include` names it |
| ToolsRegistry.ResolveNames | src/py_alive/tools_registry.py:184-256 | after splitting by type, expanding `"*"`, resolving tags, the precedence loop and the caller rule, a registry tool's name survives exactly when the visibility rule admits it |
| ToolsRegistry.GetToolsConfig | src/py_alive/tools_registry.py:165-265 | the result starts with exactly the registry tools that satisfy `Visible`, in registry order, followed by one configuration per distinct raw callable of `include` |
| ResolverProperties.VisibleToolsMembership | src/py_alive/tools_registry.py:260 | a tool is shown exactly when it is a registry tool that the visibility rule admits |
| ResolverProperties.VisibleToolsKeepRegistryOrder | src/py_alive/tools_registry.py:260 | the shown tools are a subsequence of the registry |
| ResolverProperties.DefaultRequestShowsAll | src/py_alive/tools_registry.py:184-214 | `include` missing, `[]` or `["*"]`, with no exclusions and no caller, shows the whole registry in order |
| ResolverProperties.NameExcludeWins | src/py_alive/tools_registry.py:245-247 | a name listed in `exclude` is never shown, however it is included |
| ResolverProperties.TagExcludeNeedsName | src/py_alive/tools_registry.py:248-250 | a shown tool carrying an excluded tag is named in `include`; neither `"*"` nor a tag rescues it |
| ResolverProperties.NamedIncludeShown | src/py_alive/tools_registry.py:236-256 | a registry tool named in `include` and not in `exclude` is shown, whatever tag-excludes, `"*"` or the caller rule say |
| ResolverProperties.TagIncludeShown | src/py_alive/tools_registry.py:219-241 | with nothing excluded, a tool carrying an included tag is shown unless it is the caller |
| ResolverProperties.DecoratedTagSelectsTool | src/py_alive/tools_registry.py:188-194 | a registry tool decorated with `@alive_tool(tags=...)` is shown by `include=[t]` for each of those tags `t`, with nothing excluded, unless it is the caller |
| ResolverProperties.StarExcludeKeepsOnlyExplicit | src/py_alive/tools_registry.py:236-238 | under `exclude=["*"]` only tools named in `include` or carrying an included tag can be shown |
| ResolverProperties.StarExcludeShowsNothing | src/py_alive/tools_registry.py:236-238 | `exclude=["*"]` with `include` missing, `[]` or `["*"]` shows no registry tool |
| ResolverProperties.StarExcludeOneName | src/py_alive/tools_registry.py:236-238 | `include=["A"]` with `exclude=["*"]` shows exactly `[A]` for any registry holding `A` |
| ResolverProperties.CallerHiddenUnlessNamed | src/py_alive/tools_registry.py:255-256 | a non-empty caller not named in `include` is never shown, whatever `"*"` or tags select |
| ResolverProperties.NoNameOrTagIncludeShowsNothing | src/py_alive/tools_registry.py:184-214 | a non-empty `include` of callables and unsupported objects shows no registry tool |
| ResolverProperties.UnsupportedExcludeIgnored | src/py_alive/tools_registry.py:203-204 | an object of another type in `exclude` changes nothing |
| ResolverProperties.ExcludeOneMoreName | src/py_alive/tools_registry.py:245-247 | excluding one more name hides that name and nothing else |
| ResolverProperties.ExampleTagExclude | src/py_alive/tools_registry.py:225-252 | `[A{t1}, B{t2}, C{}]` with `include=["*"]` and `exclude=[t1]` shows `[B, C]` |
| ResolverProperties.ExampleNameOverridesTag | src/py_alive/tools_registry.py:248-250 | `[A{t1}, B{t1}]` with `include=["B", t1]` and `exclude=[t1]` shows `[B]` |
| Text.Strip | src/py_alive/memory.py:113 | the stripped text has no whitespace at either end and is the slice of the input that starts after its leading whitespace |
| Text.StripDropsOnlySpace | src/py_alive/memory.py:113 | everything `strip()` removes, before and after the kept slice, is whitespace |
| Text.StripIdempotent | src/py_alive/memory.py:113 | stripping twice is stripping once |
| Text.Split | src/py_alive/memory.py:113 | every piece of `split()` is non-empty and free of whitespace |
| Text.SplitConsWord | src/py_alive/memory.py:113 | a word followed by whitespace or nothing is the first piece of `split()`, and the rest splits on |
| Text.SplitConsSpace | src/py_alive/memory.py:113 | a leading whitespace character adds no piece |
| Text.SplitJoinSpace | src/py_alive/memory.py:113 | splitting the space-join of words gives back the words |
| Text.SplitStrip | src/py_alive/memory.py:113 | stripping first does not change the words |
| Text.RemoveAllLeading | src/py_alive/memory.py:127 | `replace(p, "")` removes an occurrence at the front and resumes after it |
| Memory.NormalizeHint | src/py_alive/memory.py:111-113 | the normalised hint is trimmed, holds whitespace only as single spaces between words, and has the same words as the input |
| Memory.NormalizeHintIdempotent | src/py_alive/memory.py:111-113 | normalising twice is normalising once |
| Memory.NormalizeHintOfWord | src/py_alive/memory.py:111-113 | a single whitespace-free word is its own normal form |
| Memory.Hint | src/py_alive/memory.py:46-57 | a truthy override wins and comes back normalised, with its own words; otherwise the generic-parameter hint is used |
| Memory.OverrideHidesStructural | src/py_alive/memory.py:53-54 | with a truthy override the generic parameter has no influence |
| Memory.BlankOverrideGivesEmptyHint | src/py_alive/memory.py:53-54 | an override of whitespace alone still wins, and yields the empty hint |
| Memory.HeadContainer | src/py_alive/memory.py:132-139 | names the checked container whose `x[` head the hint starts with, or none, and then none of the four matches |
| Memory.HeadsDiffer | src/py_alive/memory.py:132-139 | a hint starts with at most one container head |
| Memory.HintConflicts | src/py_alive/memory.py:115-143 | `None` never conflicts; a hint with no `[` or `\|` conflicts exactly when it differs from the type name; otherwise it conflicts exactly when it starts with a checked container that the value is not |
| Memory.BareConflicts | src/py_alive/memory.py:129-141 | the same comparison on the bare hint |
| Memory.MatchingNameNeverConflicts | src/py_alive/memory.py:126-130 | a plain type name (one word, no `[`, `\|` or `.`) never conflicts with a value of that type |
| Memory.Bare | src/py_alive/memory.py:127 | the compared hint is trimmed and no longer than the hint; a hint without `.` is only stripped |
| Memory.TypingPrefixIgnored | src/py_alive/memory.py:127 | a leading `typing.` does not change the verdict |
| Memory.BareKeepsHead | src/py_alive/memory.py:127 | removing `typing.` and stripping keeps a leading `list[`, `dict[`, `tuple[` or `set[` |
| Memory.ContainerHintConflicts | src/py_alive/memory.py:132-139 | `list[...]`, `dict[...]`, `tuple[...]` and `set[...]` conflict exactly when the value is present and not that container |
| Memory.OtherGenericNeverConflicts | src/py_alive/memory.py:141 | any other bracketed or union hint never conflicts |
| Memory.Truncate | src/py_alive/memory.py:150 | a short text is unchanged; the result is one longer than the limit exactly when the text exceeds it, and it always keeps the text's prefix up to the limit |
| Memory.TruncateShape | src/py_alive/memory.py:150 | a cut text is its first `max_chars` characters followed by `…` |
| Memory.TruncateIdempotent | src/py_alive/memory.py:150 | truncating a truncated text changes nothing |
| Memory.PreviewSource | src/py_alive/memory.py:148-173 | a string is previewed as itself; rendering fails only for an object whose `repr` raises |
| Memory.SafePreview | src/py_alive/memory.py:145-175 | `None` gives `"None"`, a failing render `"<unpreviewable>"`; a preview is at most 221 characters; whatever a value renders to (a string, bytes, a container summary or a `repr`) is shown whole up to 220 characters and otherwise cut to its first 220 plus `…` |
| Memory.Preview | src/py_alive/memory.py:96-107 | the preview always starts with the safe preview; it is longer exactly when a truthy hint conflicts with the runtime type, and then it ends with the note naming both |
| Memory.TypeName | src/py_alive/memory.py:78-83 | the runtime type name is `NoneType` for `None` and the value's class name otherwise |
| Memory.PreviewOfNone | src/py_alive/memory.py:103-107 | `None` previews as `"None"` whatever the hint |
| Memory.SetName | src/py_alive/memory.py:212-213 | binding sets the name and keeps the default and description |
| Memory.FieldGet | src/py_alive/memory.py:215-227 | an unbound field raises `RuntimeError`; a read returns the slot's value, creating a slot from the default and description when missing, and leaves every existing slot untouched |
| Memory.FieldSet | src/py_alive/memory.py:229-239 | an unbound field raises `RuntimeError`; a write stores the value, keeps an existing slot's description and hint, creates a missing slot holding the value, the field's description and no hint override, and touches no other slot |
| Memory.FirstReadGivesDefault | src/py_alive/memory.py:223-227 | the first read returns the default, and so do later reads |
| Memory.ReadIsIdempotent | src/py_alive/memory.py:223-227 | a second read returns the same value and changes nothing |
| Memory.ReadAfterWrite | src/py_alive/memory.py:229-239 | a read after a write returns the written value and changes nothing |
| Memory.LastWriteWins | src/py_alive/memory.py:229-239 | two writes equal a single write of the second value |
| Memory.WritesAreIndependent | src/py_alive/memory.py:223-239 | a write through one field does not change what another field reads |
| AgentDecorator.PositionalEntries | src/py_alive/agent_decorator.py:71-85 | an argument adds nothing exactly when it is `None` or an empty sequence; anything but a sequence adds at most one entry; user content adds itself; a non-string sequence adds one entry per item, each item kept if it is user content and otherwise its `str()`, `None` included |
| AgentDecorator.KeywordEntries | src/py_alive/agent_decorator.py:88-96 | a keyword adds at most one entry, and none exactly when its value is `None`; user content adds itself; any other value adds one text that starts with `key=` and continues with the value's `str()` |
| AgentDecorator.NormalizeToUserContent | src/py_alive/agent_decorator.py:60-100 | the prompt is never empty: it is the positional entries followed by the keyword entries, or the fallback instruction when there are none |
| AgentDecorator.PositionalAppend | src/py_alive/agent_decorator.py:71-85 | the positional part of concatenated arguments is the concatenation of their parts |
| AgentDecorator.KeywordAppend | src/py_alive/agent_decorator.py:88-96 | the keyword part of concatenated keywords is the concatenation of their parts |
| AgentDecorator.NoneArgIgnored | src/py_alive/agent_decorator.py:72-73 | a `None` positional argument changes nothing, wherever it stands |
| AgentDecorator.NoneKeywordIgnored | src/py_alive/agent_decorator.py:89-90 | a `None` keyword value changes nothing, wherever it stands |
| AgentDecorator.ContentPassesThrough | src/py_alive/agent_decorator.py:75-76 | arguments that are all user content come through unchanged and in order |
| AgentDecorator.PositionalEmpty | src/py_alive/agent_decorator.py:71-85 | the positional part is empty exactly when every argument is `None` or an empty sequence |
| AgentDecorator.KeywordEmpty | src/py_alive/agent_decorator.py:88-96 | the keyword part is empty exactly when every value is `None` |
| AgentDecorator.FallbackExactlyWhenSilent | src/py_alive/agent_decorator.py:98-99 | nothing is collected exactly when every argument is silent and every keyword is `None`, and then the prompt is the fallback instruction |
| AgentDecorator.ParseAgentFunc | src/py_alive/agent_decorator.py:102-124 | no annotation is a `TypeError`; without `parallel_run` the output type is the annotation; with it, success happens exactly for `list[T]`, the output type is `T` and the annotation is `list[output]`; the prompt is the trimmed doc without `<...>` blocks |
| AgentDecorator.ParallelUnwrapsList | src/py_alive/agent_decorator.py:109-121 | `list[T]` under `parallel_run` and `T` without it both give `T` |
| AgentDecorator.ParseAgentFuncAsWritten | src/py_alive/agent_decorator.py:102-124 | as written, a present doc gives the same result as the corrected parse, and a missing doc always ends in a `TypeError` |
| AgentDecorator.MissingDocGivesEmptyPrompt | src/py_alive/agent_decorator.py:123 | a doc-less agent fails with a `TypeError` as written; the corrected parse gives it the empty system prompt |
| AgentDecorator.AliveAgentRun | src/py_alive/agent_decorator.py:147-159 | exactly one model gives one bare non-parallel result; otherwise every model runs, in order, with `parallel_run` set exactly when there is more than one |
| AgentDecorator.LoneModelIsSingleRun | src/py_alive/agent_decorator.py:148-152 | a lone model and a one-element list both give the single non-parallel run |
| AgentDecorator.FanOutNeedsListType | src/py_alive/agent_decorator.py:149 | with several models each run is parallel, so parsing succeeds exactly for a `list[T]` annotation |

## Left out

- `build_registry` (tools_registry.py:112-129) reads the host through `dir`, `getattr` and `inspect.getdoc`. The model takes its result as a given sequence of distinct names.
- `export_toolsets` (tools_registry.py:137-163) and everything that builds a `FunctionToolset`, an `Agent` or MCP servers is left out. They are thin calls into pydantic_ai.
- pydantic machinery is left out: `BaseList.__get_pydantic_core_schema__`, `selected_fields`, `computed_field` plumbing, `AliveMemory._structural_annotation`, and validation of stored values against `T`. The generic-parameter hint enters `Memory.Hint` as an already rendered string.
- `AliveMemory._type_repr`, `utils._type_repr`, `size_kb`, `_shallow_size_kb` and `_safe_getattr` are left out. They rely on reflection or on floating point.
- `run_agent_async` and `asyncio.gather` in `alive_agent_run` are left out: they do I/O and run concurrently. One run is the function parameter `runOne`, so a raising run is not modelled.
- `alive.py` and `__init__.py` are left out. They are thin wrappers and re-exports.
- The `raise f"..."` branch for non-async agents (agent_decorator.py:195) is left out. It raises a `TypeError` about raising a `str`, not the intended message.
- `AliveField.__get__` on the class (`instance is None`, memory.py:216-217) returns the descriptor itself. The model only covers instance access.
- Memory.SafePreview: the text of a container preview uses a given `repr` of its first 20 items (keys, for a dict), and `max_items` is not modelled. The exception fallback covers only a failing `repr`.
- Memory.HintConflicts: the surrounding `try`/`except` is not modelled. Nothing inside it can raise for a `str` hint.
- AgentDecorator.ParseAgentFunc: after `got:`, the error message renders the annotation with a simple `name[args]` form, not Python's exact `repr`.
- AgentDecorator.NormalizeToUserContent: `str()` of a value that is not user content is given as data, not computed.
- ToolsRegistry.GetToolsConfig: the order of the appended raw callables is unconstrained, because `get_tools_config` iterates a `set`. A callable without `__name__` is not modelled.
- BaseList.First: items are assumed not to be `None`. In Python a matching `None` item is returned as `None`, which reads as no match.
- BaseList.Require: items are assumed not to be `None`. The `item is None` test would also reject a matching `None` item with the `KeyError`.
- AgentDecorator.ParseAgentFunc: it is the corrected parse, so a missing doc gives the empty prompt. `ParseAgentFuncAsWritten` is the code as written, which raises `TypeError` there.
- AgentDecorator.MissingDocGivesEmptyPrompt: the empty prompt is the corrected behaviour; as written the call fails, which the same lemma states too.
- ToolsRegistry.GetToolsConfig: raw callables are configured with the corrected `RawToolConfig`, so a doc-less callable gets an empty description. As written that call raises, see `RawToolConfigAsWritten`.
- Memory.TypeName: the `"UNKNOWN"` fallback is left out; `type(x).__name__` does not raise.
- AliveTags.NormalizeTags: elements of a Python `set` are taken in some fixed order. Which bad element is reported first then depends on iteration order.

## Findings

| source | as written | input that shows it | evidently intended | confidence | as-written member | corrected member |
|---|---|---|---|---|---|---|
| src/py_alive/utils.py:43-45 | `extract_no_angle_doc(doc: str \| None)` hands `doc` straight to `re.sub`, which raises `TypeError` for `None`; `parse_agent_func` passes `func.__doc__` (agent_decorator.py:123) | an `@alive_agent` method without a doc string, so `func.__doc__` is `None` | a missing doc gives the empty prompt `""`, as the `str \| None` parameter and the trailing `or ""` suggest | high, not executed | Utils.ExtractNoAngleDocAsWritten | Utils.ExtractNoAngleDoc |
| src/py_alive/tools_registry.py:262-263 | a raw callable in `include` becomes `ToolConfig(..., doc=fn.__doc__)`, whose field `doc: str` rejects `None` | `include=[f]` where `f` has no doc string | an empty description, as `build_registry` gives its own tools (tools_registry.py:125) | medium, not executed | ToolsRegistry.RawToolConfigAsWritten | ToolsRegistry.RawToolConfig |
