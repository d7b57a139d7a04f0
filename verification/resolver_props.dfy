/** What the resolver promises about the tools a request may see: the
    default request, registry order, each precedence rule, the wildcard
    baseline of `exclude=["*"]`, the calling-method rule, and two
    worked examples. */
module ResolverProperties {

  import opened Wrappers
  import opened AliveTags
  import opened ToolsRegistry
  import BaseList

  /** A tool is shown exactly when it is a registry tool that `Visible`
      admits. */
  lemma VisibleToolsMembership(registry: seq<ToolConfig>, req: Request, t: ToolConfig)
    ensures t in VisibleTools(registry, req) <==> t in registry && Visible(registry, req, t.name)
  {
    BaseList.FilterMembership(registry, VisiblePredicate(registry, req), t);
  }

  /** The shown tools keep the registry's order. */
  lemma VisibleToolsKeepRegistryOrder(registry: seq<ToolConfig>, req: Request)
    ensures BaseList.IsSubsequence(VisibleTools(registry, req), registry)
  {
    BaseList.FilterIsSubsequence(registry, VisiblePredicate(registry, req));
  }

  /** With `include` missing, empty or `["*"]`, no exclusions and no
      caller, every registry tool is shown, in registry order. */
  lemma DefaultRequestShowsAll(registry: seq<ToolConfig>, includeList: Option<seq<Selector>>,
                               excludeList: Option<seq<Selector>>)
    requires includeList == None || includeList == Some([]) || includeList == Some([ByName(Star)])
    requires excludeList == None || excludeList == Some([])
    ensures VisibleTools(registry, Request(includeList, excludeList, None)) == registry
  {
    var req := Request(includeList, excludeList, None);
    assert Strs([ByName(Star)]) == {Star};
    forall i | 0 <= i < |registry|
      ensures VisiblePredicate(registry, req)(registry[i])
    {
      assert registry[i] in registry;
    }
    BaseList.FilterAll(registry, VisiblePredicate(registry, req));
  }

  /** A name listed in `exclude` is never shown, whatever `include` says. */
  lemma NameExcludeWins(registry: seq<ToolConfig>, req: Request, t: ToolConfig)
    requires t.name in ExplicitNames(ExcludeRaw(req.excludeList))
    ensures t !in VisibleTools(registry, req)
  {
    VisibleToolsMembership(registry, req, t);
  }

  /** A shown tool that carries an excluded tag is named in `include`: an
      included `"*"` or tag does not rescue it. */
  lemma TagExcludeNeedsName(registry: seq<ToolConfig>, req: Request, t: ToolConfig)
    requires t in VisibleTools(registry, req)
    requires ToolTags(t) * TagSelectors(ExcludeRaw(req.excludeList)) != {}
    ensures t.name in ExplicitNames(IncludeRaw(req.includeList))
  {
    VisibleToolsMembership(registry, req, t);
    assert t.name in NamesTagged(registry, TagSelectors(ExcludeRaw(req.excludeList)));
  }

  /** A registry tool named in `include` and not named in `exclude` is shown:
      an excluded tag, an excluded `"*"` and the calling-method rule all
      yield to the explicit name. */
  lemma NamedIncludeShown(registry: seq<ToolConfig>, req: Request, t: ToolConfig)
    requires t in registry
    requires t.name in ExplicitNames(IncludeRaw(req.includeList))
    requires t.name !in ExplicitNames(ExcludeRaw(req.excludeList))
    ensures t in VisibleTools(registry, req)
  {
    VisibleToolsMembership(registry, req, t);
  }

  /** A registry tool carrying an included tag is shown when nothing is
      excluded and it is not the caller. */
  lemma TagIncludeShown(registry: seq<ToolConfig>, req: Request, t: ToolConfig)
    requires t in registry
    requires ToolTags(t) * TagSelectors(IncludeRaw(req.includeList)) != {}
    requires req.excludeList == None
    requires req.callingMethodName != Some(t.name)
    ensures t in VisibleTools(registry, req)
  {
    VisibleToolsMembership(registry, req, t);
    assert t.name in NamesTagged(registry, TagSelectors(IncludeRaw(req.includeList)));
  }

  /** A registry tool whose function went through `@alive_tool(tags=...)`
      is shown by a request that includes any one of those tags, when
      nothing is excluded and it is not the caller: the resolver reads back
      the tag set the decorator stored. */
  lemma DecoratedTagSelectsTool(registry: seq<ToolConfig>, t: ToolConfig, f: ToolAttrs, tags: TagsInput,
                                name: Option<string>, namePrefix: Option<string>, tag: AliveTag,
                                caller: Option<string>)
    requires t in registry
    requires AliveTool(f, tags, name, namePrefix).Ok?
    requires t.func.tagAttr == TagSet(AliveTool(f, tags, name, namePrefix).value.tags.value)
    requires tag in NormalizeTags(tags).value
    requires caller != Some(t.name)
    ensures t in VisibleTools(registry, Request(Some([ByTag(tag)]), None, caller))
  {
    var req := Request(Some([ByTag(tag)]), None, caller);
    assert ByTag(tag) in IncludeRaw(req.includeList);
    assert tag in ToolTags(t) * TagSelectors(IncludeRaw(req.includeList));
    TagIncludeShown(registry, req, t);
  }

  /** Under `exclude=["*"]` only tools named in `include` or carrying an
      included tag can be shown; an included `"*"` adds nothing. */
  lemma StarExcludeKeepsOnlyExplicit(registry: seq<ToolConfig>, req: Request, t: ToolConfig)
    requires Star in Strs(ExcludeRaw(req.excludeList))
    requires t in VisibleTools(registry, req)
    ensures t.name in ExplicitNames(IncludeRaw(req.includeList))
         || t.name in NamesTagged(registry, TagSelectors(IncludeRaw(req.includeList)))
  {
    VisibleToolsMembership(registry, req, t);
  }

  /** `exclude=["*"]` with `include` missing, empty or `["*"]` shows no
      registry tool. */
  lemma StarExcludeShowsNothing(registry: seq<ToolConfig>, includeList: Option<seq<Selector>>,
                                caller: Option<string>)
    requires includeList == None || includeList == Some([]) || includeList == Some([ByName(Star)])
    ensures VisibleTools(registry, Request(includeList, Some([ByName(Star)]), caller)) == []
  {
    var req := Request(includeList, Some([ByName(Star)]), caller);
    assert Strs([ByName(Star)]) == {Star};
    assert TagSelectors([ByName(Star)]) == {};
    assert forall i :: 0 <= i < |registry| ==> !VisiblePredicate(registry, req)(registry[i]);
    BaseList.FilterNone(registry, VisiblePredicate(registry, req));
  }

  /** `include=[A]` with `exclude=["*"]` shows exactly the tool `A`, whoever
      the caller is. */
  lemma StarExcludeOneName(registry: seq<ToolConfig>, k: nat, caller: Option<string>)
    requires DistinctNames(registry)
    requires k < |registry| && registry[k].name != Star
    ensures VisibleTools(registry, Request(Some([ByName(registry[k].name)]), Some([ByName(Star)]), caller))
            == [registry[k]]
  {
    var a := registry[k].name;
    var req := Request(Some([ByName(a)]), Some([ByName(Star)]), caller);
    assert Strs([ByName(a)]) == {a};
    assert Strs([ByName(Star)]) == {Star};
    assert TagSelectors([ByName(a)]) == {};
    assert TagSelectors([ByName(Star)]) == {};
    assert registry[k] in registry;
    forall i | 0 <= i < |registry|
      ensures VisiblePredicate(registry, req)(registry[i]) <==> i == k
    {
      assert registry[i] in registry;
    }
    BaseList.FilterSingle(registry, VisiblePredicate(registry, req), k);
  }

  /** The calling method is not shown unless `include` names it; neither an
      included `"*"` nor an included tag makes it visible. */
  lemma CallerHiddenUnlessNamed(registry: seq<ToolConfig>, req: Request, t: ToolConfig)
    requires req.callingMethodName.Some? && req.callingMethodName.value != ""
    requires req.callingMethodName.value !in ExplicitNames(IncludeRaw(req.includeList))
    requires t in VisibleTools(registry, req)
    ensures t.name != req.callingMethodName.value
  {
    VisibleToolsMembership(registry, req, t);
  }

  /** A non-empty `include` made only of callables and unsupported objects
      has no `"*"`, so it shows no registry tool at all. */
  lemma NoNameOrTagIncludeShowsNothing(registry: seq<ToolConfig>, sels: seq<Selector>,
                                       excludeList: Option<seq<Selector>>, caller: Option<string>)
    requires sels != []
    requires forall i :: 0 <= i < |sels| ==> sels[i].Raw? || sels[i].Unsupported?
    ensures VisibleTools(registry, Request(Some(sels), excludeList, caller)) == []
  {
    var req := Request(Some(sels), excludeList, caller);
    assert Strs(sels) == {};
    assert TagSelectors(sels) == {};
    assert forall i :: 0 <= i < |registry| ==> !VisiblePredicate(registry, req)(registry[i]);
    BaseList.FilterNone(registry, VisiblePredicate(registry, req));
  }

  /** An object of another type in `exclude` is dropped silently. */
  lemma UnsupportedExcludeIgnored(registry: seq<ToolConfig>, includeList: Option<seq<Selector>>,
                                  excl: seq<Selector>, typeName: string, caller: Option<string>)
    ensures VisibleTools(registry, Request(includeList, Some(excl + [Unsupported(typeName)]), caller))
         == VisibleTools(registry, Request(includeList, Some(excl), caller))
  {
    var with := Request(includeList, Some(excl + [Unsupported(typeName)]), caller);
    var without := Request(includeList, Some(excl), caller);
    assert Strs(excl + [Unsupported(typeName)]) == Strs(excl);
    assert TagSelectors(excl + [Unsupported(typeName)]) == TagSelectors(excl);
    BaseList.FilterCongruent(registry, VisiblePredicate(registry, with), VisiblePredicate(registry, without));
  }

  /** Excluding one more name hides that name and changes nothing else. */
  lemma ExcludeOneMoreName(registry: seq<ToolConfig>, includeList: Option<seq<Selector>>,
                           excl: seq<Selector>, n: string, caller: Option<string>)
    requires n != Star
    ensures VisibleTools(registry, Request(includeList, Some(excl + [ByName(n)]), caller))
         == BaseList.Filter(VisibleTools(registry, Request(includeList, Some(excl), caller)),
                            (t: ToolConfig) => t.name != n)
  {
    var with := Request(includeList, Some(excl + [ByName(n)]), caller);
    var without := Request(includeList, Some(excl), caller);
    assert Strs(excl + [ByName(n)]) == Strs(excl) + {n};
    assert TagSelectors(excl + [ByName(n)]) == TagSelectors(excl);
    BaseList.FilterFilter(registry, VisiblePredicate(registry, without), (t: ToolConfig) => t.name != n,
                          VisiblePredicate(registry, with));
  }

  // ---------------------------------------------------------------------------
  // Worked examples
  // ---------------------------------------------------------------------------

  function Tool(id: nat, name: string, tags: set<AliveTag>): ToolConfig {
    ToolConfig(Callable(id, name, Some(""), TagSet(tags)), "", name)
  }

  /** The verdicts behind `ExampleTagExclude`: `A` carries the excluded tag,
      `B` and `C` are selected by `"*"`. */
  lemma ExampleTagExcludeVerdicts()
    ensures var t1 := AliveTag("t1");
      var reg := [Tool(0, "A", {t1}), Tool(1, "B", {AliveTag("t2")}), Tool(2, "C", {})];
      var req := Request(Some([ByName(Star)]), Some([ByTag(t1)]), None);
      !Visible(reg, req, "A") && Visible(reg, req, "B") && Visible(reg, req, "C")
  {
    var t1 := AliveTag("t1");
    var a := Tool(0, "A", {t1});
    var b := Tool(1, "B", {AliveTag("t2")});
    var c := Tool(2, "C", {});
    var reg := [a, b, c];
    var req := Request(Some([ByName(Star)]), Some([ByTag(t1)]), None);
    assert Strs([ByName(Star)]) == {Star};
    assert TagSelectors([ByName(Star)]) == {};
    assert Strs([ByTag(t1)]) == {};
    assert TagSelectors([ByTag(t1)]) == {t1};
    assert ToolTags(a) * {t1} == {t1};
    assert ToolTags(b) * {t1} == {} by { assert AliveTag("t2") != t1; }
    assert ToolTags(c) * {t1} == {};
    assert NamesTagged(reg, {t1}) == {"A"};
    assert AllNames(reg) == {"A", "B", "C"};
    assert !Visible(reg, req, "A");
    assert Visible(reg, req, "B") && Visible(reg, req, "C");
  }

  /** `[A{t1}, B{t2}, C{}]` with `include=["*"]` and `exclude=[t1]` shows
      `[B, C]`. */
  lemma ExampleTagExclude()
    ensures var t1 := AliveTag("t1");
      var a := Tool(0, "A", {t1});
      var b := Tool(1, "B", {AliveTag("t2")});
      var c := Tool(2, "C", {});
      VisibleTools([a, b, c], Request(Some([ByName(Star)]), Some([ByTag(t1)]), None)) == [b, c]
  {
    ExampleTagExcludeVerdicts();
    var t1 := AliveTag("t1");
    var a := Tool(0, "A", {t1});
    var b := Tool(1, "B", {AliveTag("t2")});
    var c := Tool(2, "C", {});
    var reg := [a, b, c];
    var req := Request(Some([ByName(Star)]), Some([ByTag(t1)]), None);
    var keep := VisiblePredicate(reg, req);
    assert !keep(a) && keep(b) && keep(c);
    assert reg[1..] == [b, c] && reg[1..][1..] == [c] && reg[1..][1..][1..] == [];
    assert BaseList.Filter([c], keep) == [c];
    assert BaseList.Filter([b, c], keep) == [b, c];
    assert BaseList.Filter(reg, keep) == [b, c];
  }

  /** `[A{t1}, B{t1}]` with `include=["B", t1]` and `exclude=[t1]` shows
      `[B]`: the name overrides the excluded tag, the included tag does not. */
  lemma ExampleNameOverridesTag()
    ensures var t1 := AliveTag("t1");
      var a := Tool(0, "A", {t1});
      var b := Tool(1, "B", {t1});
      VisibleTools([a, b], Request(Some([ByName("B"), ByTag(t1)]), Some([ByTag(t1)]), None)) == [b]
  {
    var t1 := AliveTag("t1");
    var a := Tool(0, "A", {t1});
    var b := Tool(1, "B", {t1});
    var reg := [a, b];
    var req := Request(Some([ByName("B"), ByTag(t1)]), Some([ByTag(t1)]), None);
    assert Strs([ByName("B"), ByTag(t1)]) == {"B"};
    assert TagSelectors([ByName("B"), ByTag(t1)]) == {t1};
    assert Strs([ByTag(t1)]) == {};
    assert TagSelectors([ByTag(t1)]) == {t1};
    assert ToolTags(a) * {t1} == {t1};
    assert ToolTags(b) * {t1} == {t1};
    assert NamesTagged(reg, {t1}) == {"A", "B"};
    assert !Visible(reg, req, "A");
    assert Visible(reg, req, "B");
    var keep := VisiblePredicate(reg, req);
    assert !keep(a) && keep(b);
    assert reg[1..] == [b] && reg[1..][1..] == [];
    assert BaseList.Filter(reg, keep) == [b];
  }
}
