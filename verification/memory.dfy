/** Memory slots: the type hint of an `AliveMemory`, the check of that hint
    against the stored value's runtime type, the truncated preview, and the
    get-or-create slot map behind the `AliveField` descriptor. */
module Memory {

  import opened Wrappers
  import opened Text

  // ---------------------------------------------------------------------------
  // Hints
  // ---------------------------------------------------------------------------

  /** `_normalize_hint(h)`: every whitespace run becomes one space and the
      ends are trimmed; the words are those of `h`. */
  function NormalizeHint(h: string): (r: string)
    ensures Collapsed(r) && Trimmed(r)
    ensures Split(r) == Split(h)
  {
    var ws := Split(Strip(h));
    JoinSpaceCollapsed(ws);
    SplitJoinSpace(ws);
    SplitStrip(h);
    JoinSpace(ws)
  }

  /** Normalising a normalised hint changes nothing. */
  lemma NormalizeHintIdempotent(h: string)
    ensures NormalizeHint(NormalizeHint(h)) == NormalizeHint(h)
  {
    var r := NormalizeHint(h);
    StripTrimmed(r);
    SplitJoinSpace(Split(Strip(h)));
  }

  /** A hint that is one whitespace-free word is its own normal form. */
  lemma NormalizeHintOfWord(w: string)
    requires IsWord(w)
    ensures NormalizeHint(w) == w
  {
    StripTrimmed(w);
    SplitOneWord(w);
    assert JoinSpace([w]) == w;
  }

  /** The `hint` field: a truthy override wins and is normalised; otherwise
      the rendering of the generic parameter, if the class has one. */
  function Hint(hintOverride: Option<string>, structural: Option<string>): (r: Option<string>)
    ensures Truthy(hintOverride) ==>
      r.Some? && Collapsed(r.value) && Trimmed(r.value) && Split(r.value) == Split(hintOverride.value)
    ensures !Truthy(hintOverride) ==> r == structural
  {
    if Truthy(hintOverride) then Some(NormalizeHint(hintOverride.value)) else structural
  }

  /** A truthy override hides the generic parameter completely. */
  lemma OverrideHidesStructural(hintOverride: string, s1: Option<string>, s2: Option<string>)
    requires hintOverride != ""
    ensures Hint(Some(hintOverride), s1) == Hint(Some(hintOverride), s2)
  {
  }

  /** An override of whitespace alone is truthy, so it still hides the
      generic parameter, but it normalises to the empty hint. */
  lemma BlankOverrideGivesEmptyHint(hintOverride: string, structural: Option<string>)
    requires hintOverride != [] && AllSpace(hintOverride)
    ensures Hint(Some(hintOverride), structural) == Some("")
  {
    AllSpaceStripsToEmpty(hintOverride);
    assert Strip(hintOverride) == [];
  }

  // ---------------------------------------------------------------------------
  // Runtime values
  // ---------------------------------------------------------------------------

  /** Which built-in container a value is an instance of. */
  datatype Container = ListType | DictType | TupleType | SetType | FrozenSetType

  /** What `_safe_preview` sees of a value besides its type name. */
  datatype Shape =
    | StrShape(s: string)
      /** `bytes` or `bytearray` of this length. */
    | BytesShape(length: nat)
      /** An exception and its `str()`. */
    | ExceptionShape(message: string)
      /** A container, its length, and the `repr` of its first items (of its
          keys, for a dict). */
    | ContainerShape(container: Container, length: nat, headRepr: string)
      /** Anything else, with its `repr`, or `None` when `repr` raises. */
    | PlainShape(repr: Option<string>)

  datatype Value =
    | NoneValue
      /** `typeName` is `type(value).__name__`. */
    | Obj(typeName: string, shape: Shape)

  /** `isinstance(value, c)` for a built-in container `c`. */
  predicate IsInstance(v: Value, c: Container) {
    v.Obj? && v.shape.ContainerShape? && v.shape.container == c
  }

  // ---------------------------------------------------------------------------
  // _hint_conflicts_with_runtime
  // ---------------------------------------------------------------------------

  const TypingPrefix: string := "typing."

  /** The hint as compared: `"typing."` removed everywhere, then stripped. */
  function Bare(hint: string): (r: string)
    ensures Trimmed(r) && |r| <= |hint|
    ensures '.' !in hint ==> r == Strip(hint)
  {
    var r := Strip(RemoveAll(hint, TypingPrefix));
    assert '.' !in hint ==> r == Strip(hint) by {
      if '.' !in hint {
        RemoveAllAbsent(hint, TypingPrefix, '.');
      }
    }
    r
  }

  /** The hint names no parameters and no union. */
  predicate IsSimpleHint(s: string) {
    '[' !in s && '|' !in s
  }

  /** The subscripted container a hint starts with, checked in the order
      `_hint_conflicts_with_runtime` tests them. */
  function ContainerHead(c: Container): string {
    match c
    case ListType => "list["
    case DictType => "dict["
    case TupleType => "tuple["
    case SetType => "set["
    case FrozenSetType => "frozenset["
  }

  /** The containers whose subscripted form the check recognises; `frozenset`
      is not among them. */
  predicate Checked(c: Container) {
    c != FrozenSetType
  }

  /** The checked container whose subscripted form `s` starts with. The
      heads begin with different letters, so at most one matches. */
  function HeadContainer(s: string): (r: Option<Container>)
    ensures r.Some? ==> Checked(r.value) && StartsWith(s, ContainerHead(r.value))
    ensures r.None? ==> forall c :: Checked(c) ==> !StartsWith(s, ContainerHead(c))
  {
    if StartsWith(s, ContainerHead(ListType)) then Some(ListType)
    else if StartsWith(s, ContainerHead(DictType)) then Some(DictType)
    else if StartsWith(s, ContainerHead(TupleType)) then Some(TupleType)
    else if StartsWith(s, ContainerHead(SetType)) then Some(SetType)
    else None
  }

  /** `_hint_conflicts_with_runtime(hint, value)`. */
  function HintConflicts(hint: string, v: Value): (r: bool)
    ensures v.NoneValue? ==> !r
    ensures v.Obj? && IsSimpleHint(Bare(hint)) ==> (r <==> Bare(hint) != v.typeName)
    ensures v.Obj? && !IsSimpleHint(Bare(hint)) ==>
      (r <==> HeadContainer(Bare(hint)).Some? && !IsInstance(v, HeadContainer(Bare(hint)).value))
  {
    if v.NoneValue? then false else BareConflicts(Bare(hint), v)
  }

  /** The comparison on the bare hint, for a value other than `None`. */
  function BareConflicts(s: string, v: Value): (r: bool)
    requires v.Obj?
    ensures IsSimpleHint(s) ==> (r <==> s != v.typeName)
    ensures !IsSimpleHint(s) ==>
      (r <==> HeadContainer(s).Some? && !IsInstance(v, HeadContainer(s).value))
  {
    if IsSimpleHint(s) then s != v.typeName
    else
      HeadsDiffer(s);
      if StartsWith(s, ContainerHead(ListType)) && !IsInstance(v, ListType) then true
      else if StartsWith(s, ContainerHead(DictType)) && !IsInstance(v, DictType) then true
      else if StartsWith(s, ContainerHead(TupleType)) && !IsInstance(v, TupleType) then true
      else if StartsWith(s, ContainerHead(SetType)) && !IsInstance(v, SetType) then true
      else false
  }

  /** A hint starts with at most one container head: their first letters
      differ. */
  lemma HeadsDiffer(s: string)
    ensures forall c, d :: StartsWith(s, ContainerHead(c)) && StartsWith(s, ContainerHead(d)) ==> c == d
  {
    forall c, d | StartsWith(s, ContainerHead(c)) && StartsWith(s, ContainerHead(d))
      ensures c == d
    {
      assert s[..|ContainerHead(c)|][0] == s[0] == s[..|ContainerHead(d)|][0];
    }
  }

  /** A plain type name never conflicts with a value of that type. */
  lemma MatchingNameNeverConflicts(typeName: string, shape: Shape)
    requires IsWord(typeName) && IsSimpleHint(typeName) && '.' !in typeName
    ensures !HintConflicts(typeName, Obj(typeName, shape))
  {
    assert TypingPrefix[6] == '.';
    RemoveAllAbsent(typeName, TypingPrefix, '.');
    StripTrimmed(typeName);
  }

  /** A leading `"typing."` makes no difference. */
  lemma TypingPrefixIgnored(hint: string, v: Value)
    ensures HintConflicts(TypingPrefix + hint, v) == HintConflicts(hint, v)
  {
    RemoveAllLeading(TypingPrefix, hint);
  }

  /** Stripping `"typing."` and whitespace leaves a container head in place. */
  lemma BareKeepsHead(c: Container, rest: string)
    ensures StartsWith(Bare(ContainerHead(c) + rest), ContainerHead(c))
  {
    var head := ContainerHead(c);
    RemoveAllKeepsHead(head, rest, TypingPrefix);
    StripKeepsHead(head, RemoveAll(rest, TypingPrefix));
  }

  /** A hint that starts with a checked head is recognised as that
      container. */
  lemma HeadContainerOfHead(c: Container, s: string)
    requires Checked(c) && StartsWith(s, ContainerHead(c))
    ensures HeadContainer(s) == Some(c)
  {
    HeadsDiffer(s);
  }

  /** A hint that starts with a container head has a `[`, so it is not
      simple. */
  lemma HeadNotSimple(c: Container, s: string)
    requires StartsWith(s, ContainerHead(c))
    ensures !IsSimpleHint(s)
  {
    var head := ContainerHead(c);
    assert s[..|head|][|head| - 1] == '[';
    assert s[|head| - 1] == '[';
  }

  /** `list[...]`, `dict[...]`, `tuple[...]` and `set[...]` conflict exactly
      when the value is not that container. */
  lemma ContainerHintConflicts(c: Container, rest: string, v: Value)
    requires Checked(c)
    ensures HintConflicts(ContainerHead(c) + rest, v) <==> v.Obj? && !IsInstance(v, c)
  {
    BareKeepsHead(c, rest);
    var s := Bare(ContainerHead(c) + rest);
    HeadContainerOfHead(c, s);
    HeadNotSimple(c, s);
  }

  /** A union or another subscripted generic never conflicts. */
  lemma OtherGenericNeverConflicts(hint: string, v: Value)
    requires !IsSimpleHint(Bare(hint))
    requires forall c :: Checked(c) ==> !StartsWith(Bare(hint), ContainerHead(c))
    ensures !HintConflicts(hint, v)
  {
  }

  // ---------------------------------------------------------------------------
  // _safe_preview and preview
  // ---------------------------------------------------------------------------

  const MaxChars: nat := 220
  const Ellipsis: char := '\U{2026}'
  const Unpreviewable: string := "<unpreviewable>"

  /** `s[:max_chars] + ("…" if len(s) > max_chars else "")`. */
  function Truncate(s: string, maxChars: nat): (r: string)
    ensures |s| <= maxChars ==> r == s
    ensures |s| > maxChars <==> |r| == maxChars + 1
    ensures |r| <= maxChars + 1
    ensures r[..if |s| <= maxChars then |r| else maxChars] == s[..if |s| <= maxChars then |s| else maxChars]
  {
    if |s| > maxChars then s[..maxChars] + [Ellipsis] else s
  }

  /** The truncated text is a prefix of the input, followed by the ellipsis
      exactly when something was cut. */
  lemma TruncateShape(s: string, maxChars: nat)
    ensures var r := Truncate(s, maxChars);
      || (r == s && |s| <= maxChars)
      || (|s| > maxChars && r == s[..maxChars] + [Ellipsis] && r[|r| - 1] == Ellipsis)
  {
  }

  /** Truncating again changes nothing. */
  lemma TruncateIdempotent(s: string, maxChars: nat)
    ensures Truncate(Truncate(s, maxChars), maxChars) == Truncate(s, maxChars)
  {
    var r := Truncate(s, maxChars);
    if |s| > maxChars {
      assert r[..maxChars] == s[..maxChars];
      assert r == r[..maxChars] + [Ellipsis];
    }
  }

  /** The text a value is previewed as before truncation; `None` when
      rendering it raises. */
  function PreviewSource(typeName: string, shape: Shape): (r: Option<string>)
    ensures shape.StrShape? ==> r == Some(shape.s)
    ensures r.None? <==> shape == PlainShape(None)
  {
    match shape
    case ExceptionShape(msg) => Some(typeName + ": " + msg)
    case StrShape(s) => Some(s)
    case BytesShape(n) => Some(typeName + "(len=" + NatToString(n) + ")")
    case ContainerShape(c, n, items) =>
      if c == DictType then Some("dict(len=" + NatToString(n) + ", keys=" + items + ")")
      else Some(typeName + "(len=" + NatToString(n) + ", head=" + items + ")")
    case PlainShape(repr) => repr
  }

  /** `_safe_preview(value)`. */
  function SafePreview(v: Value): (r: string)
    ensures v.NoneValue? ==> r == "None"
    ensures v.Obj? && v.shape == PlainShape(None) ==> r == Unpreviewable
    ensures |r| <= MaxChars + 1
    ensures v.Obj? && v.shape.StrShape? && |v.shape.s| <= MaxChars ==> r == v.shape.s
    ensures v.Obj? && v.shape.StrShape? && |v.shape.s| > MaxChars ==>
      r == v.shape.s[..MaxChars] + [Ellipsis]
    ensures v.Obj? && PreviewSource(v.typeName, v.shape).Some? ==>
      var s := PreviewSource(v.typeName, v.shape).value;
      && (|s| <= MaxChars ==> r == s)
      && (|s| > MaxChars ==> r == s[..MaxChars] + [Ellipsis])
  {
    match v
    case NoneValue => "None"
    case Obj(typeName, shape) =>
      match PreviewSource(typeName, shape)
      case None => Unpreviewable
      case Some(s) => Truncate(s, MaxChars)
  }

  /** `type(value).__name__`: `None` is an instance of `NoneType`. */
  function TypeName(v: Value): (r: string)
    ensures v.NoneValue? ==> r == "NoneType"
    ensures v.Obj? ==> r == v.typeName
  {
    if v.NoneValue? then "NoneType" else v.typeName
  }

  /** The note `preview` appends when the hint conflicts with the value. */
  function ConflictNote(hint: string, typeName: string): string {
    "  [hint=" + hint + " \U{2260} runtime=" + typeName + "]"
  }

  /** `preview`: the safe preview, with a note when a truthy hint conflicts
      with the runtime type. */
  function Preview(v: Value, hint: Option<string>): (r: string)
    ensures StartsWith(r, SafePreview(v))
    ensures |r| > |SafePreview(v)| <==> Truthy(hint) && HintConflicts(hint.value, v)
    ensures Truthy(hint) && HintConflicts(hint.value, v) ==>
      EndsWith(r, ConflictNote(hint.value, TypeName(v)))
  {
    var base := SafePreview(v);
    if Truthy(hint) && HintConflicts(hint.value, v) then
      var r := base + ConflictNote(hint.value, TypeName(v));
      assert r[..|base|] == base;
      assert r[|r| - |ConflictNote(hint.value, TypeName(v))|..] == ConflictNote(hint.value, TypeName(v));
      r
    else base
  }

  /** `None` is previewed as `"None"` whatever the hint says. */
  lemma PreviewOfNone(hint: Option<string>)
    ensures Preview(NoneValue, hint) == "None"
  {
  }

  // ---------------------------------------------------------------------------
  // AliveField slots
  // ---------------------------------------------------------------------------

  /** The stored part of an `AliveMemory[T]`. */
  datatype AliveMemory<T> = AliveMemory(value: T, description: string, hintOverride: Option<string>)

  /** An `AliveField` descriptor; `name` is set by `__set_name__`. */
  datatype AliveField<T> = AliveField(default: T, description: string, name: Option<string>)

  /** The `_alive_memory` dictionary of one instance. */
  type Slots<T> = map<string, AliveMemory<T>>

  const UnboundMessage: string := "AliveField missing __set_name__ binding"

  /** `__set_name__`. */
  function SetName<T>(f: AliveField<T>, name: string): (g: AliveField<T>)
    ensures g.name == Some(name) && g.default == f.default && g.description == f.description
  {
    f.(name := Some(name))
  }

  /** `__get__` on an instance: an unbound field raises; a missing slot is
      created from the default and the field's description; the slot's value
      is returned. */
  function FieldGet<T>(f: AliveField<T>, slots: Slots<T>): (r: Result<(T, Slots<T>)>)
    ensures r.Err? <==> !Truthy(f.name)
    ensures r.Err? ==> r.error == RuntimeError(UnboundMessage)
    ensures r.Ok? ==> f.name.value in r.value.1 && r.value.0 == r.value.1[f.name.value].value
    ensures r.Ok? ==> r.value.1.Keys == slots.Keys + {f.name.value}
    ensures r.Ok? ==> forall k :: k in slots ==> r.value.1[k] == slots[k]
    ensures r.Ok? && f.name.value !in slots ==>
      r.value.1[f.name.value] == AliveMemory(f.default, f.description, None)
  {
    if !Truthy(f.name) then Err(RuntimeError(UnboundMessage))
    else
      var name := f.name.value;
      if name in slots then Ok((slots[name].value, slots))
      else
        var mem := AliveMemory(f.default, f.description, None);
        Ok((mem.value, slots[name := mem]))
  }

  /** `__set__`: an unbound field raises; an existing slot keeps its
      description and hint and takes the new value; a missing slot is
      created with the field's description. */
  function FieldSet<T>(f: AliveField<T>, slots: Slots<T>, v: T): (r: Result<Slots<T>>)
    ensures r.Err? <==> !Truthy(f.name)
    ensures r.Err? ==> r.error == RuntimeError(UnboundMessage)
    ensures r.Ok? ==> r.value.Keys == slots.Keys + {f.name.value}
    ensures r.Ok? ==> r.value[f.name.value].value == v
    ensures r.Ok? && f.name.value in slots ==>
      r.value[f.name.value].description == slots[f.name.value].description
      && r.value[f.name.value].hintOverride == slots[f.name.value].hintOverride
    ensures r.Ok? && f.name.value !in slots ==>
      r.value[f.name.value] == AliveMemory(v, f.description, None)
    ensures r.Ok? ==> forall k :: k in slots && k != f.name.value ==> r.value[k] == slots[k]
  {
    if !Truthy(f.name) then Err(RuntimeError(UnboundMessage))
    else
      var name := f.name.value;
      if name in slots then Ok(slots[name := slots[name].(value := v)])
      else Ok(slots[name := AliveMemory(v, f.description, None)])
  }

  /** The first read returns the default, and so does every later read
      while nothing is written. */
  lemma FirstReadGivesDefault<T>(f: AliveField<T>, slots: Slots<T>)
    requires Truthy(f.name) && f.name.value !in slots
    ensures var first := FieldGet(f, slots).value;
      && first.0 == f.default
      && FieldGet(f, first.1) == Ok((f.default, first.1))
  {
  }

  /** Reading is idempotent: a second read returns the same value and leaves
      the slots as the first read left them. */
  lemma ReadIsIdempotent<T>(f: AliveField<T>, slots: Slots<T>)
    requires Truthy(f.name)
    ensures var first := FieldGet(f, slots).value;
      FieldGet(f, first.1) == Ok(first)
  {
  }

  /** A read after a write returns the written value and changes nothing. */
  lemma ReadAfterWrite<T>(f: AliveField<T>, slots: Slots<T>, v: T)
    requires Truthy(f.name)
    ensures var written := FieldSet(f, slots, v).value;
      FieldGet(f, written) == Ok((v, written))
  {
  }

  /** The last write wins: writing twice is writing the second value once. */
  lemma LastWriteWins<T>(f: AliveField<T>, slots: Slots<T>, v1: T, v2: T)
    requires Truthy(f.name)
    ensures FieldSet(f, FieldSet(f, slots, v1).value, v2) == FieldSet(f, slots, v2)
  {
    var name := f.name.value;
    var once := FieldSet(f, slots, v1).value;
    var twice := FieldSet(f, once, v2).value;
    var direct := FieldSet(f, slots, v2).value;
    if name in slots {
      assert once == slots[name := slots[name].(value := v1)];
      assert twice == slots[name := slots[name].(value := v2)];
    } else {
      assert once == slots[name := AliveMemory(v1, f.description, None)];
      assert twice == slots[name := AliveMemory(v2, f.description, None)];
    }
    assert twice == direct;
  }

  /** Fields bound to different names do not disturb each other. */
  lemma WritesAreIndependent<T>(f: AliveField<T>, g: AliveField<T>, slots: Slots<T>, v: T)
    requires Truthy(f.name) && Truthy(g.name) && f.name != g.name
    ensures FieldGet(g, FieldSet(f, slots, v).value).value.0 == FieldGet(g, slots).value.0
  {
  }
}
