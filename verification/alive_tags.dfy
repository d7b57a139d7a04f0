/** `AliveTag`, tag normalisation, and the metadata that `@alive_tool`
    attaches to a function. */
module AliveTags {

  import opened Wrappers
  import opened Text

  /** A tag is a wrapped string. Its hash is the hash of that string, so a
      set of tags deduplicates by value, like this datatype's own equality. */
  datatype AliveTag = AliveTag(value: string)

  /** The Python objects a tag can meet in a comparison or a tags argument. */
  datatype PyObject =
    | Str(s: string)
    | TagObject(tag: AliveTag)
      /** Any other object, known by its type name and identity. */
    | Foreign(typeName: string, id: nat)

  /** `AliveTag.__eq__`: equal to a tag or a `str` with the same value,
      unequal to anything else. */
  function TagEquals(t: AliveTag, other: PyObject): (r: bool)
    ensures other.Str? ==> (r <==> t.value == other.s)
    ensures other.TagObject? ==> (r <==> t == other.tag)
    ensures other.Foreign? ==> !r
  {
    match other
    case TagObject(u) => t.value == u.value
    case Str(s) => t.value == s
    case Foreign(_, _) => false
  }

  /** Python's `a == b` among these objects. `str.__eq__` gives up on a tag,
      so `"x" == AliveTag("x")` falls back to the reflected `AliveTag.__eq__`;
      a foreign object is equal only to itself. */
  function PyEquals(a: PyObject, b: PyObject): bool {
    match a
    case TagObject(t) => TagEquals(t, b)
    case Str(s) =>
      (match b
       case Str(s2) => s == s2
       case TagObject(t) => TagEquals(t, a)
       case Foreign(_, _) => false)
    case Foreign(_, id) => b.Foreign? && b.id == id && b.typeName == a.typeName
  }

  /** What Python hashes: a tag and a `str` hash their string; a foreign
      object hashes its identity. */
  datatype HashKey = StrKey(s: string) | IdKey(typeName: string, id: nat)

  function HashOf(o: PyObject): HashKey {
    match o
    case Str(s) => StrKey(s)
    case TagObject(t) => StrKey(t.value)
    case Foreign(n, id) => IdKey(n, id)
  }

  /** `__eq__` and `__hash__` agree, and `==` is an equivalence, so tags and
      strings can share a set; tag equality is exactly value equality. */
  lemma EqualityIsConsistent(a: PyObject, b: PyObject, c: PyObject)
    ensures PyEquals(a, a)
    ensures PyEquals(a, b) ==> PyEquals(b, a)
    ensures PyEquals(a, b) && PyEquals(b, c) ==> PyEquals(a, c)
    ensures PyEquals(a, b) ==> HashOf(a) == HashOf(b)
    ensures a.TagObject? && b.TagObject? ==> (PyEquals(a, b) <==> a.tag == b.tag)
  {
  }

  /** The `tags=` argument of `@alive_tool` and of a memory slot. */
  datatype TagsInput =
    | NoTags
    | OneStr(s: string)
    | OneTag(tag: AliveTag)
      /** A list or set, iterated in this order. */
    | Many(items: seq<PyObject>)

  /** The message of the `TypeError` for a non-tag element. */
  function BadTagMessage(typeName: string): string {
    "Tag must be AliveTag or str, got " + typeName
  }

  /** The tags named by well-typed items. */
  function TagsOf(items: seq<PyObject>): set<AliveTag> {
    set i | 0 <= i < |items| && !items[i].Foreign? ::
      if items[i].Str? then AliveTag(items[i].s) else items[i].tag
  }

  /** `_normalize_tags(tags)`: nothing gives the empty set, one tag or string
      a singleton, and a collection the set of its tags, strings wrapped as
      tags; the first element that is neither raises `TypeError`. */
  function NormalizeTags(input: TagsInput): (r: Result<set<AliveTag>>)
    ensures input.NoTags? ==> r == Ok({})
    ensures input.OneStr? ==> r == Ok({AliveTag(input.s)})
    ensures input.OneTag? ==> r == Ok({input.tag})
    ensures input.Many? ==> (r.Ok? <==> forall i :: 0 <= i < |input.items| ==> !input.items[i].Foreign?)
    ensures input.Many? && r.Ok? ==> r.value == TagsOf(input.items)
    ensures input.Many? && r.Err? ==>
      exists i :: 0 <= i < |input.items| && input.items[i].Foreign?
        && r.error == TypeError(BadTagMessage(input.items[i].typeName))
        && forall j :: 0 <= j < i ==> !input.items[j].Foreign?
  {
    match input
    case NoTags => Ok({})
    case OneStr(s) => Ok({AliveTag(s)})
    case OneTag(t) => Ok({t})
    case Many(items) => CollectTags(items)
  }

  /** The loop of `_normalize_tags` over a collection. */
  function CollectTags(items: seq<PyObject>): (r: Result<set<AliveTag>>)
    ensures r.Ok? <==> forall i :: 0 <= i < |items| ==> !items[i].Foreign?
    ensures r.Ok? ==> r.value == TagsOf(items)
    ensures r.Err? ==>
      exists i :: 0 <= i < |items| && items[i].Foreign?
        && r.error == TypeError(BadTagMessage(items[i].typeName))
        && forall j :: 0 <= j < i ==> !items[j].Foreign?
    decreases |items|
  {
    if items == [] then Ok({})
    else
      var head := items[0];
      if head.Foreign? then Err(TypeError(BadTagMessage(head.typeName)))
      else
        var tag := if head.Str? then AliveTag(head.s) else head.tag;
        var rest := CollectTags(items[1..]);
        assert forall j :: 1 <= j < |items| ==> items[j] == items[1..][j - 1];
        match rest
        case Err(e) => Err(e)
        case Ok(ts) =>
          assert TagsOf(items) == {tag} + TagsOf(items[1..]) by {
            forall t | t in TagsOf(items) ensures t in {tag} + TagsOf(items[1..]) {
              var i :| 0 <= i < |items| && !items[i].Foreign?
                       && t == (if items[i].Str? then AliveTag(items[i].s) else items[i].tag);
              if i > 0 {
                assert items[1..][i - 1] == items[i];
              }
            }
            forall t | t in TagsOf(items[1..]) ensures t in TagsOf(items) {
              var i :| 0 <= i < |items[1..]| && !items[1..][i].Foreign?
                       && t == (if items[1..][i].Str? then AliveTag(items[1..][i].s) else items[1..][i].tag);
              assert items[i + 1] == items[1..][i];
            }
          }
          Ok({tag} + ts)
  }

  /** A string and the tag with the same value normalise alike, and
      repeats collapse. */
  lemma NormalizeTagsByValue(s: string)
    ensures NormalizeTags(Many([Str(s), TagObject(AliveTag(s)), Str(s)])) == Ok({AliveTag(s)})
  {
    var items := [Str(s), TagObject(AliveTag(s)), Str(s)];
    assert TagsOf(items) == {AliveTag(s)} by {
      assert items[0] == Str(s);
    }
  }

  // ---------------------------------------------------------------------------
  // @alive_tool
  // ---------------------------------------------------------------------------

  /** The metadata `@alive_tool` reads and writes on a function; `None`
      stands for an attribute that is not set. */
  datatype ToolAttrs = ToolAttrs(
    funcName: string,
    tags: Option<set<AliveTag>>,
    namePrefix: Option<string>,
    name: Option<string>)

  /** The prefix after one decoration: the new prefix goes in front, each
      followed by `_`. */
  function MergePrefix(current: string, namePrefix: Option<string>): (r: string)
    ensures !Truthy(namePrefix) ==> r == current
    ensures Truthy(namePrefix) ==> r == namePrefix.value + "_" + current
  {
    if Truthy(namePrefix) then
      if current != "" then namePrefix.value + "_" + current else namePrefix.value + "_"
    else current
  }

  /** `deco(f)` inside `alive_tool`: merge the already normalised tags into
      the function's tags, prepend the prefix, and settle the name on the
      explicit name, else the name already set, else the function's own. */
  function Decorate(f: ToolAttrs, normalized: set<AliveTag>, name: Option<string>,
                    namePrefix: Option<string>): (r: ToolAttrs)
    ensures r.funcName == f.funcName
    ensures r.tags.Some? && forall t :: t in r.tags.value <==> t in f.tags.GetOr({}) || t in normalized
    ensures r.namePrefix.Some? && EndsWith(r.namePrefix.value, f.namePrefix.GetOr(""))
    ensures Truthy(namePrefix) ==> StartsWith(r.namePrefix.value, namePrefix.value + "_")
    ensures !Truthy(namePrefix) ==> r.namePrefix == Some(f.namePrefix.GetOr(""))
    ensures Truthy(r.name) <==> Truthy(name) || Truthy(f.name) || f.funcName != ""
    ensures Truthy(name) ==> r.name == name
    ensures !Truthy(name) && Truthy(f.name) ==> r.name == f.name
    ensures !Truthy(name) && !Truthy(f.name) ==> r.name == Some(f.funcName)
  {
    var tags := f.tags.GetOr({}) + normalized;
    var prefix := MergePrefix(f.namePrefix.GetOr(""), namePrefix);
    assert Truthy(namePrefix) ==> prefix[..|namePrefix.value + "_"|] == namePrefix.value + "_";
    assert prefix[|prefix| - |f.namePrefix.GetOr("")|..] == f.namePrefix.GetOr("");
    var finalName :=
      if Truthy(name) then name.value
      else if Truthy(f.name) then f.name.value
      else f.funcName;
    ToolAttrs(f.funcName, Some(tags), Some(prefix), Some(finalName))
  }

  /** `alive_tool(f, tags=..., name=..., name_prefix=...)`: the tags are
      normalised when the decorator is built, so a bad tag raises before
      any function is touched. */
  function AliveTool(f: ToolAttrs, tags: TagsInput, name: Option<string>,
                     namePrefix: Option<string>): (r: Result<ToolAttrs>)
    ensures r.Err? <==> NormalizeTags(tags).Err?
    ensures r.Ok? ==> r.value.tags == Some(f.tags.GetOr({}) + NormalizeTags(tags).value)
  {
    match NormalizeTags(tags)
    case Err(e) => Err(e)
    case Ok(ts) => Ok(Decorate(f, ts, name, namePrefix))
  }

  /** Two stacked decorators: tags accumulate from both, the outer
      (later-applied) prefix comes first, and an explicit outer name wins
      over an inner one. */
  lemma StackedDecorators(f: ToolAttrs, t1: set<AliveTag>, n1: Option<string>, p1: string,
                          t2: set<AliveTag>, n2: Option<string>, p2: string)
    requires f.namePrefix.None? && p1 != "" && p2 != ""
    ensures var g := Decorate(Decorate(f, t1, n1, Some(p1)), t2, n2, Some(p2));
      && g.tags == Some(f.tags.GetOr({}) + t1 + t2)
      && g.namePrefix == Some(p2 + "_" + p1 + "_")
      && (Truthy(n2) ==> g.name == n2)
      && (!Truthy(n2) && Truthy(n1) ==> g.name == n1)
  {
    var inner := Decorate(f, t1, n1, Some(p1));
    assert inner.namePrefix == Some(p1 + "_");
    assert p2 + "_" + (p1 + "_") == p2 + "_" + p1 + "_";
  }

  /** Re-applying the same decorator without a prefix changes nothing: the
      tags are already there and the name is already settled. A prefix, by
      contrast, is prepended again on every application. */
  lemma DecorateIdempotent(f: ToolAttrs, ts: set<AliveTag>, name: Option<string>)
    ensures var once := Decorate(f, ts, name, None);
      Decorate(once, ts, name, None) == once
  {
    var once := Decorate(f, ts, name, None);
    assert once.tags.value + ts == once.tags.value;
  }

  /** Decorating never leaves a function without a name. */
  lemma DecoratedNameNonEmpty(f: ToolAttrs, ts: set<AliveTag>, name: Option<string>,
                              namePrefix: Option<string>)
    requires f.funcName != ""
    ensures Truthy(Decorate(f, ts, name, namePrefix).name)
  {
  }
}
