/** The pure parts of an agent call: turning the call's arguments into the
    user prompt, choosing the output type and system prompt from the
    agent function's return annotation and doc string, and choosing between
    one run and a gathered fan-out over several models. */
module AgentDecorator {

  import opened Wrappers
  import opened Text
  import Utils

  // ---------------------------------------------------------------------------
  // normalize_to_user_content
  // ---------------------------------------------------------------------------

  /** What a model accepts as a user-prompt part: text, a multi-modal item
      (image, audio, document, video or binary content), or a cache point. */
  datatype UserContent =
    | TextPart(s: string)
    | MediaPart(kind: string, id: nat)
    | CachePointPart

  /** An argument of the agent call. */
  datatype Arg =
    | NoneArg
      /** A value that already is user content; a `str` is `Content(TextPart(s))`. */
    | Content(c: UserContent)
      /** A sequence other than `str` and `bytes` (a list or a tuple), with its
          items and its `str()`. */
    | SeqArg(items: seq<Arg>, rendered: string)
      /** Any other value (`bytes`, a number, a dict, ...), with its `str()`. */
    | OtherArg(rendered: string)

  /** A keyword argument. */
  datatype KwArg = KwArg(key: string, value: Arg)

  const Fallback: string := "follow the instructions"

  /** `str(x)` for a value that is not user content. */
  function StrOf(a: Arg): string
    requires !a.Content?
  {
    match a
    case NoneArg => "None"
    case SeqArg(_, rendered) => rendered
    case OtherArg(rendered) => rendered
  }

  /** An item of a flattened sequence: kept when it is user content,
      otherwise replaced by its `str()`, `None` included. */
  function ItemContent(item: Arg): (r: UserContent)
    ensures item.Content? ==> r == item.c
    ensures !item.Content? ==> r == TextPart(StrOf(item))
  {
    if item.Content? then item.c else TextPart(StrOf(item))
  }

  /** The entries one positional argument contributes. */
  function PositionalEntries(a: Arg): (r: seq<UserContent>)
    ensures r == [] <==> Silent(a)
    ensures !a.SeqArg? ==> |r| <= 1
    ensures a.NoneArg? ==> r == []
    ensures a.Content? ==> r == [a.c]
    ensures a.OtherArg? ==> r == [TextPart(a.rendered)]
    ensures a.SeqArg? ==> |r| == |a.items| && forall i :: 0 <= i < |r| ==> r[i] == ItemContent(a.items[i])
  {
    match a
    case NoneArg => []
    case Content(c) => [c]
    case SeqArg(items, _) => seq(|items|, i requires 0 <= i < |items| => ItemContent(items[i]))
    case OtherArg(rendered) => [TextPart(rendered)]
  }

  /** The positional part of the prompt: each argument's entries in order. */
  function Positional(args: seq<Arg>): seq<UserContent>
    decreases |args|
  {
    if args == [] then [] else PositionalEntries(args[0]) + Positional(args[1..])
  }

  /** The entry one keyword argument contributes: none for `None`, the value
      itself when it is user content, otherwise one `key=value` text. */
  function KeywordEntries(kw: KwArg): (r: seq<UserContent>)
    ensures |r| <= 1
    ensures r == [] <==> kw.value.NoneArg?
    ensures kw.value.Content? ==> r == [kw.value.c]
    ensures !kw.value.NoneArg? && !kw.value.Content? ==>
      && r[0].TextPart?
      && StartsWith(r[0].s, kw.key + "=")
      && r[0].s[|kw.key| + 1..] == StrOf(kw.value)
  {
    if kw.value.NoneArg? then []
    else if kw.value.Content? then [kw.value.c]
    else
      var text := kw.key + "=" + StrOf(kw.value);
      assert text[..|kw.key + "="|] == kw.key + "=";
      assert text[|kw.key| + 1..] == StrOf(kw.value);
      [TextPart(text)]
  }

  /** The keyword part of the prompt, in the order the keywords were given. */
  function Keyword(kwargs: seq<KwArg>): seq<UserContent>
    decreases |kwargs|
  {
    if kwargs == [] then [] else KeywordEntries(kwargs[0]) + Keyword(kwargs[1..])
  }

  /** `normalize_to_user_content(args, kwargs)`: positional entries, then
      keyword entries; a prompt that would be empty becomes the fallback
      instruction. */
  function NormalizeToUserContent(args: seq<Arg>, kwargs: seq<KwArg>): (r: seq<UserContent>)
    ensures r != []
    ensures Positional(args) + Keyword(kwargs) != [] ==> r == Positional(args) + Keyword(kwargs)
    ensures Positional(args) + Keyword(kwargs) == [] ==> r == [TextPart(Fallback)]
  {
    var result := Positional(args) + Keyword(kwargs);
    if result == [] then [TextPart(Fallback)] else result
  }

  /** The positional part of a concatenation is the concatenation of the
      parts. */
  lemma {:induction false} PositionalAppend(a: seq<Arg>, b: seq<Arg>)
    ensures Positional(a + b) == Positional(a) + Positional(b)
    decreases |a|
  {
    if a == [] {
      assert a + b == b;
    } else {
      assert (a + b)[1..] == a[1..] + b;
      PositionalAppend(a[1..], b);
    }
  }

  /** The keyword part of a concatenation is the concatenation of the parts. */
  lemma {:induction false} KeywordAppend(a: seq<KwArg>, b: seq<KwArg>)
    ensures Keyword(a + b) == Keyword(a) + Keyword(b)
    decreases |a|
  {
    if a == [] {
      assert a + b == b;
    } else {
      assert (a + b)[1..] == a[1..] + b;
      KeywordAppend(a[1..], b);
    }
  }

  /** A `None` positional argument contributes nothing, wherever it stands. */
  lemma NoneArgIgnored(a: seq<Arg>, b: seq<Arg>)
    ensures Positional(a + [NoneArg] + b) == Positional(a + b)
  {
    assert [NoneArg][1..] == [];
    assert Positional([NoneArg]) == [];
    PositionalAppend(a, [NoneArg]);
    assert Positional(a + [NoneArg]) == Positional(a);
    PositionalAppend(a + [NoneArg], b);
    PositionalAppend(a, b);
  }

  /** A `None` keyword value contributes nothing, wherever it stands. */
  lemma NoneKeywordIgnored(a: seq<KwArg>, key: string, b: seq<KwArg>)
    ensures Keyword(a + [KwArg(key, NoneArg)] + b) == Keyword(a + b)
  {
    assert [KwArg(key, NoneArg)][1..] == [];
    assert Keyword([KwArg(key, NoneArg)]) == [];
    KeywordAppend(a, [KwArg(key, NoneArg)]);
    assert Keyword(a + [KwArg(key, NoneArg)]) == Keyword(a);
    KeywordAppend(a + [KwArg(key, NoneArg)], b);
    KeywordAppend(a, b);
  }

  /** Arguments that are all user content pass through unchanged. */
  lemma {:induction false} ContentPassesThrough(args: seq<Arg>)
    requires forall i :: 0 <= i < |args| ==> args[i].Content?
    ensures Positional(args) == seq(|args|, i requires 0 <= i < |args| => args[i].c)
    decreases |args|
  {
    if args != [] {
      ContentPassesThrough(args[1..]);
    }
  }

  /** An argument adds no entry exactly when it is `None` or an empty
      sequence. */
  predicate Silent(a: Arg) {
    a.NoneArg? || (a.SeqArg? && a.items == [])
  }

  /** The positional part is empty exactly when every argument is silent. */
  lemma {:induction false} PositionalEmpty(args: seq<Arg>)
    ensures Positional(args) == [] <==> forall i :: 0 <= i < |args| ==> Silent(args[i])
    decreases |args|
  {
    if args != [] {
      PositionalEmpty(args[1..]);
      assert forall i :: 1 <= i < |args| ==> args[i] == args[1..][i - 1];
    }
  }

  /** The keyword part is empty exactly when every keyword value is `None`. */
  lemma {:induction false} KeywordEmpty(kwargs: seq<KwArg>)
    ensures Keyword(kwargs) == [] <==> forall i :: 0 <= i < |kwargs| ==> kwargs[i].value.NoneArg?
    decreases |kwargs|
  {
    if kwargs != [] {
      KeywordEmpty(kwargs[1..]);
      assert forall i :: 1 <= i < |kwargs| ==> kwargs[i] == kwargs[1..][i - 1];
    }
  }

  /** Nothing is collected exactly when every positional argument is silent
      and every keyword value is `None`; then the fallback instruction is
      the whole prompt. */
  lemma FallbackExactlyWhenSilent(args: seq<Arg>, kwargs: seq<KwArg>)
    ensures Positional(args) + Keyword(kwargs) == [] <==>
      (forall i :: 0 <= i < |args| ==> Silent(args[i]))
      && (forall i :: 0 <= i < |kwargs| ==> kwargs[i].value.NoneArg?)
    ensures ((forall i :: 0 <= i < |args| ==> Silent(args[i]))
             && (forall i :: 0 <= i < |kwargs| ==> kwargs[i].value.NoneArg?))
            ==> NormalizeToUserContent(args, kwargs) == [TextPart(Fallback)]
  {
    PositionalEmpty(args);
    KeywordEmpty(kwargs);
  }

  // ---------------------------------------------------------------------------
  // parse_agent_func
  // ---------------------------------------------------------------------------

  /** A resolved type annotation: a plain class, or a subscripted generic
      known by its origin class. `list[T]` and `typing.List[T]` both have the
      origin `list`; an annotation `-> None` resolves to `Simple("NoneType")`. */
  datatype TypeExpr =
    | Simple(name: string)
    | Generic(origin: string, args: seq<TypeExpr>)

  function ListOf(t: TypeExpr): TypeExpr {
    Generic("list", [t])
  }

  /** The annotation is `list[T]` with exactly one argument. */
  predicate IsListType(t: TypeExpr) {
    t.Generic? && t.origin == "list" && |t.args| == 1
  }

  function MissingReturnMessage(funcName: string): string {
    funcName + " must define a return type"
  }

  function NotListMessage(funcName: string): string {
    "agent '" + funcName + "' must declare return type as list[T] when parallel_run=True, got: "
  }

  /** `parse_agent_func()`: a missing return annotation is a `TypeError`;
      with `parallel_run` the annotation must be `list[T]` and the output type
      is `T`; otherwise it is the annotation itself. The system prompt is the
      doc string without its `<...>` blocks. */
  function ParseAgentFunc(funcName: string, returnHint: Option<TypeExpr>, doc: Option<string>,
                          parallelRun: bool): (r: Result<(TypeExpr, string)>)
    ensures returnHint.None? ==> r == Err(TypeError(MissingReturnMessage(funcName)))
    ensures returnHint.Some? && !parallelRun ==> r.Ok? && r.value.0 == returnHint.value
    ensures returnHint.Some? && parallelRun ==> (r.Ok? <==> IsListType(returnHint.value))
    ensures r.Ok? && parallelRun ==> returnHint == Some(ListOf(r.value.0))
    ensures r.Ok? ==> r.value.1 == Utils.ExtractNoAngleDoc(doc) && Trimmed(r.value.1)
    ensures r.Err? && returnHint.Some? ==>
      r.error.TypeError? && StartsWith(r.error.message, NotListMessage(funcName))
  {
    match returnHint
    case None => Err(TypeError(MissingReturnMessage(funcName)))
    case Some(declared) =>
      if parallelRun && !IsListType(declared) then
        var m := NotListMessage(funcName) + TypeRepr(declared);
        assert m[..|NotListMessage(funcName)|] == NotListMessage(funcName);
        Err(TypeError(m))
      else
        assert parallelRun ==> declared == ListOf(declared.args[0]) by {
          if parallelRun {
            assert declared.args == [declared.args[0]];
          }
        }
        var outputType := if parallelRun then declared.args[0] else declared;
        Ok((outputType, Utils.ExtractNoAngleDoc(doc)))
  }

  /** A rendering of an annotation for the error message. */
  function TypeRepr(t: TypeExpr): string
    decreases t
  {
    match t
    case Simple(n) => n
    case Generic(o, args) => o + "[" + TypeReprs(args) + "]"
  }

  function TypeReprs(ts: seq<TypeExpr>): string
    decreases ts
  {
    if ts == [] then ""
    else if |ts| == 1 then TypeRepr(ts[0])
    else TypeRepr(ts[0]) + ", " + TypeReprs(ts[1..])
  }

  /** Parallel parsing inverts `list[...]`: declaring `list[T]` yields `T`,
      and the same `T` declared for a single run yields `T` again. */
  lemma ParallelUnwrapsList(funcName: string, t: TypeExpr, doc: Option<string>)
    ensures ParseAgentFunc(funcName, Some(ListOf(t)), doc, true) == Ok((t, Utils.ExtractNoAngleDoc(doc)))
    ensures ParseAgentFunc(funcName, Some(t), doc, false) == Ok((t, Utils.ExtractNoAngleDoc(doc)))
  {
  }

  /** `parse_agent_func()` as written: the doc string goes to
      `extract_no_angle_doc` unchecked, so a function without one fails with
      a `TypeError` once its return annotation has been accepted. With a doc
      string it agrees with `ParseAgentFunc`. */
  function ParseAgentFuncAsWritten(funcName: string, returnHint: Option<TypeExpr>, doc: Option<string>,
                                   parallelRun: bool): (r: Result<(TypeExpr, string)>)
    ensures doc.Some? ==> r == ParseAgentFunc(funcName, returnHint, doc, parallelRun)
    ensures doc.None? ==> r.Err? && r.error.TypeError?
    ensures r.Err? && ParseAgentFunc(funcName, returnHint, doc, parallelRun).Ok? ==> doc.None?
  {
    match returnHint
    case None => Err(TypeError(MissingReturnMessage(funcName)))
    case Some(declared) =>
      if parallelRun && !IsListType(declared) then
        Err(TypeError(NotListMessage(funcName) + TypeRepr(declared)))
      else
        var outputType := if parallelRun then declared.args[0] else declared;
        match Utils.ExtractNoAngleDocAsWritten(doc)
        case Err(e) => Err(e)
        case Ok(prompt) => Ok((outputType, prompt))
  }

  /** An agent function without a doc string: as written it fails with a
      `TypeError`, while the corrected parse gives the empty system prompt. */
  lemma MissingDocGivesEmptyPrompt(funcName: string, t: TypeExpr)
    ensures ParseAgentFuncAsWritten(funcName, Some(t), None, false).Err?
    ensures ParseAgentFunc(funcName, Some(t), None, false) == Ok((t, ""))
  {
  }

  // ---------------------------------------------------------------------------
  // alive_agent_run
  // ---------------------------------------------------------------------------

  /** The `llms` argument: one model, or a list of models. */
  datatype Llms<M> = OneLlm(model: M) | LlmList(models: seq<M>)

  /** One bare result, or the gathered results in model order. */
  datatype AgentOutput<R> = Single(result: R) | Gathered(results: seq<R>)

  /** `llms if isinstance(llms, list) else [llms]`. */
  function Models<M>(llms: Llms<M>): (ms: seq<M>)
    ensures llms.OneLlm? ==> ms == [llms.model]
    ensures llms.LlmList? ==> ms == llms.models
  {
    match llms
    case OneLlm(m) => [m]
    case LlmList(ms) => ms
  }

  /** `alive_agent_run`: `runOne(model, parallelRun)` stands for one agent
      run. With exactly one model its result is returned bare; otherwise
      every model runs, with `parallelRun` set when there is more than one,
      and the results come back in model order. */
  function AliveAgentRun<M, R>(llms: Llms<M>, runOne: (M, bool) -> R): (r: AgentOutput<R>)
    ensures |Models(llms)| == 1 <==> r.Single?
    ensures r.Single? ==> r.result == runOne(Models(llms)[0], false)
    ensures r.Gathered? ==>
      && |r.results| == |Models(llms)|
      && (forall i :: 0 <= i < |r.results| ==> r.results[i] == runOne(Models(llms)[i], |Models(llms)| > 1))
  {
    var ms := Models(llms);
    var parallelRun := |ms| > 1;
    if |ms| == 1 then Single(runOne(ms[0], parallelRun))
    else Gathered(seq(|ms|, i requires 0 <= i < |ms| => runOne(ms[i], parallelRun)))
  }

  /** A lone model and a one-element list dispatch alike. */
  lemma LoneModelIsSingleRun<M, R>(m: M, runOne: (M, bool) -> R)
    ensures AliveAgentRun(OneLlm(m), runOne) == AliveAgentRun(LlmList([m]), runOne) == Single(runOne(m, false))
  {
  }

  /** With several models every run is parallel, so each agent must declare
      `list[T]`, and each run's output type is `T`. */
  lemma FanOutNeedsListType<M>(llms: Llms<M>, funcName: string, declared: TypeExpr, doc: Option<string>)
    requires |Models(llms)| > 1
    ensures var parallelRun := |Models(llms)| > 1;
      ParseAgentFunc(funcName, Some(declared), doc, parallelRun).Ok? <==> IsListType(declared)
  {
  }
}
