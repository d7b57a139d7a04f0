/** The tool registry of a host object and the resolver that decides which
    tools one agent call may see.

    The registry is a sequence of tool configurations, one per public
    callable member of the host, in sorted name order. The resolver takes
    `include` and `exclude` selector lists and the calling method's name and
    returns the visible registry tools, in registry order, followed by the
    raw callables named in `include`. */
module ToolsRegistry {

  import opened Wrappers
  import opened AliveTags
  import BaseList

  /** The wildcard selector. */
  const Star: string := "*"

  /** What a function carries as `_alive_agent_tags__`. */
  datatype TagAttr =
    | TagsUnset
    | TagsNone
    | SingleTag(tag: AliveTag)
    | TagSet(tags: set<AliveTag>)

  /** A Python callable: its identity, `__name__`, `__doc__` and tag
      attribute. */
  datatype Callable = Callable(id: nat, name: string, doc: Option<string>, tagAttr: TagAttr)

  /** `ToolConfig`: the function, its description and its registry name. */
  datatype ToolConfig = ToolConfig(func: Callable, doc: string, name: string)

  /** One element of `include` or `exclude`: a `str` (a name, or `"*"`), an
      `AliveTag`, a callable, or any other object, which the resolver drops. */
  datatype Selector =
    | ByName(name: string)
    | ByTag(tag: AliveTag)
    | Raw(func: Callable)
    | Unsupported(typeName: string)

  /** The arguments of one `get_tools_config` call. */
  datatype Request = Request(
    includeList: Option<seq<Selector>>,
    excludeList: Option<seq<Selector>>,
    callingMethodName: Option<string>)

  /** Registry names are unique (they come from `dir()`). */
  predicate DistinctNames(registry: seq<ToolConfig>) {
    forall i, j :: 0 <= i < j < |registry| ==> registry[i].name != registry[j].name
  }

  /** `_tool_tags(tool)`: the tags on the tool's function as a set. */
  function ToolTags(tool: ToolConfig): (r: set<AliveTag>)
    ensures tool.func.tagAttr.TagsUnset? || tool.func.tagAttr.TagsNone? ==> r == {}
    ensures tool.func.tagAttr.SingleTag? ==> r == {tool.func.tagAttr.tag}
    ensures tool.func.tagAttr.TagSet? ==> r == tool.func.tagAttr.tags
  {
    match tool.func.tagAttr
    case TagsUnset => {}
    case TagsNone => {}
    case SingleTag(t) => {t}
    case TagSet(ts) => ts
  }

  /** `include or ["*"]`: a missing or empty `include` selects everything. */
  function IncludeRaw(includeList: Option<seq<Selector>>): (r: seq<Selector>)
    ensures r != []
    ensures includeList.Some? && includeList.value != [] ==> r == includeList.value
    ensures includeList.None? || includeList.value == [] ==> Strs(r) == {Star} && TagSelectors(r) == {}
  {
    if includeList.None? || includeList.value == [] then [ByName(Star)] else includeList.value
  }

  /** `list(exclude or [])`. */
  function ExcludeRaw(excludeList: Option<seq<Selector>>): (r: seq<Selector>)
    ensures r == [] <==> excludeList.None? || excludeList.value == []
    ensures excludeList.Some? ==> r == excludeList.value
  {
    if excludeList.None? then [] else excludeList.value
  }

  /** The `str` selectors. */
  function Strs(sels: seq<Selector>): set<string> {
    set s | s in sels && s.ByName? :: s.name
  }

  /** The `str` selectors other than `"*"`. */
  function ExplicitNames(sels: seq<Selector>): set<string> {
    Strs(sels) - {Star}
  }

  /** The `AliveTag` selectors. */
  function TagSelectors(sels: seq<Selector>): set<AliveTag> {
    set s | s in sels && s.ByTag? :: s.tag
  }

  /** The callable selectors, deduplicated. */
  function Funcs(sels: seq<Selector>): set<Callable> {
    set s | s in sels && s.Raw? :: s.func
  }

  function AllNames(registry: seq<ToolConfig>): set<string> {
    set t | t in registry :: t.name
  }

  /** The names of the tools carrying at least one of `tags`. */
  function NamesTagged(registry: seq<ToolConfig>, tags: set<AliveTag>): set<string> {
    set t | t in registry && ToolTags(t) * tags != {} :: t.name
  }

  // ---------------------------------------------------------------------------
  // The visibility rule, stated declaratively
  // ---------------------------------------------------------------------------

  /** The caller is hidden: it is named, non-empty, and not listed by name
      in `include` ("*" and tags do not count). */
  predicate HidesCaller(caller: Option<string>, explicitInclude: set<string>, name: string) {
    caller.Some? && caller.value != "" && caller.value !in explicitInclude && name == caller.value
  }

  /** The registry tool called `name` is visible when
      - it is selected: named in `include`, carrying an included tag, or
        covered by an included `"*"` that no excluded `"*"` cancels;
      - it is not named in `exclude` (this always wins);
      - it carries no excluded tag, unless `include` names it;
      - it is not the caller, unless `include` names it. */
  predicate Visible(registry: seq<ToolConfig>, req: Request, name: string) {
    var inc := IncludeRaw(req.includeList);
    var exc := ExcludeRaw(req.excludeList);
    var named := ExplicitNames(inc);
    && name in AllNames(registry)
    && (|| name in named
        || name in NamesTagged(registry, TagSelectors(inc))
        || (Star in Strs(inc) && Star !in Strs(exc)))
    && name !in ExplicitNames(exc)
    && (name in NamesTagged(registry, TagSelectors(exc)) ==> name in named)
    && !HidesCaller(req.callingMethodName, named, name)
  }

  function VisiblePredicate(registry: seq<ToolConfig>, req: Request): ToolConfig -> bool {
    (t: ToolConfig) => Visible(registry, req, t.name)
  }

  /** The registry tools a request may see, in registry order. */
  function VisibleTools(registry: seq<ToolConfig>, req: Request): seq<ToolConfig> {
    BaseList.Filter(registry, VisiblePredicate(registry, req))
  }

  // ---------------------------------------------------------------------------
  // Raw callables
  // ---------------------------------------------------------------------------

  /** The pydantic error for `ToolConfig(doc=None)`. */
  const DocNotString: string := "doc: Input should be a valid string"

  /** `ToolConfig(func=fn, name=fn.__name__, doc=fn.__doc__)` as written: a
      callable without a doc-string fails `ToolConfig`'s `doc: str`. */
  function RawToolConfigAsWritten(f: Callable): (r: Result<ToolConfig>)
    ensures r.Err? <==> f.doc.None?
    ensures r.Ok? ==> r.value.func == f && r.value.name == f.name && Some(r.value.doc) == f.doc
  {
    match f.doc
    case None => Err(ValidationError(DocNotString))
    case Some(d) => Ok(ToolConfig(f, d, f.name))
  }

  /** The tool configuration for a raw callable, with a missing doc-string
      read as empty, as the registry does for its own tools. */
  function RawToolConfig(f: Callable): (r: ToolConfig)
    ensures r.func == f && r.name == f.name
    ensures f.doc.Some? ==> RawToolConfigAsWritten(f) == Ok(r)
    ensures f.doc.None? ==> r.doc == ""
  {
    ToolConfig(f, f.doc.GetOr(""), f.name)
  }

  /** A doc-less raw callable: as written the call fails, the corrected
      configuration has an empty description. */
  lemma RawToolWithoutDoc(id: nat, name: string, tags: TagAttr)
    ensures RawToolConfigAsWritten(Callable(id, name, None, tags)).Err?
    ensures RawToolConfig(Callable(id, name, None, tags)).doc == ""
  {
  }

  /** `tail` lists the configuration of every callable of `funcs` exactly
      once, in some order. */
  predicate ListsRawTools(tail: seq<ToolConfig>, funcs: set<Callable>) {
    && (forall i :: 0 <= i < |tail| ==> tail[i] == RawToolConfig(tail[i].func))
    && ListedFuncs(tail) == funcs
    && (forall i, j :: 0 <= i < j < |tail| ==> tail[i].func != tail[j].func)
  }

  function ListedFuncs(tools: seq<ToolConfig>): set<Callable> {
    set i | 0 <= i < |tools| :: tools[i].func
  }

  lemma ListedFuncsAppend(tools: seq<ToolConfig>, t: ToolConfig)
    ensures ListedFuncs(tools + [t]) == ListedFuncs(tools) + {t.func}
  {
    var ext := tools + [t];
    forall f | f in ListedFuncs(ext) ensures f in ListedFuncs(tools) + {t.func} {
      var i :| 0 <= i < |ext| && ext[i].func == f;
      if i < |tools| {
        assert tools[i] == ext[i];
      }
    }
    forall f | f in ListedFuncs(tools) ensures f in ListedFuncs(ext) {
      var i :| 0 <= i < |tools| && tools[i].func == f;
      assert ext[i] == tools[i];
    }
    assert ext[|tools|] == t;
  }

  /** One configuration per callable of `funcs`, each once, in whatever
      order the set yields them. */
  method RawTools(funcs: set<Callable>) returns (tail: seq<ToolConfig>)
    ensures ListsRawTools(tail, funcs)
  {
    tail := [];
    var pending := funcs;
    while pending != {}
      invariant pending <= funcs
      invariant forall i :: 0 <= i < |tail| ==> tail[i] == RawToolConfig(tail[i].func)
      invariant ListedFuncs(tail) == funcs - pending
      invariant forall i, j :: 0 <= i < j < |tail| ==> tail[i].func != tail[j].func
      decreases pending
    {
      var fn :| fn in pending;
      assert forall i :: 0 <= i < |tail| ==> tail[i].func in ListedFuncs(tail);
      ListedFuncsAppend(tail, RawToolConfig(fn));
      tail := tail + [RawToolConfig(fn)];
      pending := pending - {fn};
    }
  }

  // ---------------------------------------------------------------------------
  // get_tools_config
  // ---------------------------------------------------------------------------

  /** The names of the tools carrying one of `tags`, by a scan of the
      registry. */
  method ResolveTagNames(registry: seq<ToolConfig>, tags: set<AliveTag>) returns (names: set<string>)
    ensures names == NamesTagged(registry, tags)
  {
    names := {};
    if tags == {} {
      return;
    }
    var i := 0;
    while i < |registry|
      invariant 0 <= i <= |registry|
      invariant names == NamesTagged(registry[..i], tags)
    {
      assert registry[..i + 1] == registry[..i] + [registry[i]];
      if ToolTags(registry[i]) * tags != {} {
        names := names + {registry[i].name};
      }
      i := i + 1;
    }
    assert registry[..i] == registry;
  }

  /** The precedence loop: of the candidates, drop every name excluded by
      name, and every name excluded by tag that is not included by name. */
  method ApplyPrecedence(candidates: set<string>, explicitExclude: set<string>,
                         excludeByTag: set<string>, explicitInclude: set<string>)
    returns (finalNames: set<string>)
    ensures forall n :: n in finalNames <==>
      && n in candidates
      && n !in explicitExclude
      && (n in excludeByTag ==> n in explicitInclude)
  {
    finalNames := {};
    var pending := candidates;
    while pending != {}
      invariant pending <= candidates
      invariant forall n :: n in finalNames <==>
        && n in candidates - pending
        && n !in explicitExclude
        && (n in excludeByTag ==> n in explicitInclude)
      decreases pending
    {
      var name :| name in pending;
      pending := pending - {name};
      if name in explicitExclude {
        continue;
      }
      if name in excludeByTag && name !in explicitInclude {
        continue;
      }
      finalNames := finalNames + {name};
    }
  }

  /** The name-resolution steps of `get_tools_config`: split the selectors
      by type, expand `"*"`, resolve tags to names, apply the precedence
      rules and the calling-method rule. A registry tool's name survives
      exactly when the declarative rule `Visible` admits it. */
  method ResolveNames(registry: seq<ToolConfig>, req: Request) returns (finalNames: set<string>)
    ensures forall t :: t in registry ==> (t.name in finalNames <==> Visible(registry, req, t.name))
  {
    var includeRaw := IncludeRaw(req.includeList);
    var excludeRaw := ExcludeRaw(req.excludeList);
    var allNames := AllNames(registry);

    // ---- split by type ----
    var includeStrs := Strs(includeRaw);
    var includeTags := TagSelectors(includeRaw);
    var excludeStrs := Strs(excludeRaw);
    var excludeTags := TagSelectors(excludeRaw);

    var includeHasStar := Star in includeStrs;
    var excludeHasStar := Star in excludeStrs;
    var explicitIncludeNames := includeStrs - {Star};
    var explicitExcludeNames := excludeStrs - {Star};

    // ---- expand "*" ----
    // `get_tools_config` also widens the exclude strings when `exclude` holds "*",
    // but never reads them again; only `excludeHasStar` matters below.
    if includeHasStar {
      includeStrs := (includeStrs - {Star}) + allNames;
    }

    // ---- resolve tags to names ----
    var includeByTag := ResolveTagNames(registry, includeTags);
    var excludeByTag := ResolveTagNames(registry, excludeTags);

    var includeSet := (includeStrs + includeByTag) * allNames;

    // ---- precedence ----
    var candidates := if excludeHasStar then explicitIncludeNames + includeByTag else includeSet;
    finalNames := ApplyPrecedence(candidates, explicitExcludeNames, excludeByTag, explicitIncludeNames);

    // ---- calling method rule ----
    var caller := req.callingMethodName;
    if caller.Some? && caller.value != "" && caller.value !in explicitIncludeNames {
      finalNames := finalNames - {caller.value};
    }

    forall t | t in registry
      ensures t.name in finalNames <==> Visible(registry, req, t.name)
    {
      assert t.name in allNames;
    }
  }

  /** `ToolsRegistry.get_tools_config(include, exclude, calling_method_name)`:
      the visible registry tools in registry order, then one configuration
      per distinct raw callable of `include`, in an unspecified order (they
      pass through a `set`). The registry is not changed. */
  method GetToolsConfig(registry: seq<ToolConfig>, includeList: Option<seq<Selector>>,
                        excludeList: Option<seq<Selector>>, callingMethodName: Option<string>)
    returns (tools: seq<ToolConfig>)
    ensures var shown := VisibleTools(registry, Request(includeList, excludeList, callingMethodName));
      && |shown| <= |tools|
      && tools[..|shown|] == shown
      && ListsRawTools(tools[|shown|..], Funcs(IncludeRaw(includeList)))
  {
    var req := Request(includeList, excludeList, callingMethodName);
    var finalNames := ResolveNames(registry, req);

    // ---- filter the registry, keeping its order ----
    var keep := (t: ToolConfig) => t.name in finalNames;
    var test := (t: ToolConfig) => if t.name in finalNames then BaseList.Yes else BaseList.No;
    BaseList.WhereTotal(registry, test, true, keep);
    var selected := BaseList.Where(registry, test, true);
    BaseList.FilterCongruent(registry, keep, VisiblePredicate(registry, req));
    var shown := selected.value;

    // ---- raw callables, each once ----
    var tail := RawTools(Funcs(IncludeRaw(includeList)));
    tools := shown + tail;
    assert tools[..|shown|] == shown;
    assert tools[|shown|..] == tail;
  }

}
