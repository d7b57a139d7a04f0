/** Doc-string helpers and the dunder-name test.

    `extract_angle_doc` keeps the text of the first `<...>` block (the tool
    description); `extract_no_angle_doc` drops every `<...>` block (the agent
    prompt). Both patterns are modelled directly as scans over the string. */
module Utils {

  import opened Wrappers
  import opened Text

  /** `_is_dunder(name)`: starts with `"__"` and ends with `"__"`. The two
      tests may overlap, so `"__"` and `"___"` count. */
  function IsDunder(name: string): (r: bool)
    ensures r <==> StartsWith(name, "__") && EndsWith(name, "__")
  {
    |name| >= 2 && name[..2] == "__" && name[|name| - 2..] == "__"
  }

  /** Any name wrapped in double underscores is a dunder. */
  lemma DunderOfWrapped(core: string)
    ensures IsDunder("__" + core + "__")
  {
    var n := "__" + core + "__";
    assert n[..2] == "__";
    assert n[|n| - 2..] == "__";
  }

  /** A dunder of four or more characters is `"__" + core + "__"`. */
  lemma DunderUnwrap(name: string)
    requires IsDunder(name) && |name| >= 4
    ensures name == "__" + name[2..|name| - 2] + "__"
  {
    assert name == name[..2] + name[2..|name| - 2] + name[|name| - 2..];
  }

  // ---------------------------------------------------------------------------
  // extract_angle_doc: the pattern <([^<>]+)>
  // ---------------------------------------------------------------------------

  predicate IsAngle(c: char) {
    c == '<' || c == '>'
  }

  /** `doc[i..j+1]` is a match of `<([^<>]+)>`: a `<`, at least one character
      that is neither `<` nor `>`, and a `>`. */
  predicate IsAngleBlock(doc: string, i: int, j: int) {
    && 0 <= i && i + 1 < j < |doc|
    && doc[i] == '<' && doc[j] == '>'
    && forall k :: i < k < j ==> !IsAngle(doc[k])
  }

  ghost predicate HasAngleBlock(doc: string) {
    exists i, j :: IsAngleBlock(doc, i, j)
  }

  /** No match ends before position `n`. */
  ghost predicate NoBlockEndsBefore(doc: string, n: int) {
    forall i, j :: IsAngleBlock(doc, i, j) ==> n <= j
  }

  /** `(i, j)` is the leftmost match, the one a regex search returns. */
  ghost predicate IsFirstAngleBlock(doc: string, i: int, j: int) {
    IsAngleBlock(doc, i, j) && forall i', j' :: IsAngleBlock(doc, i', j') ==> i <= i'
  }

  /** Two matches never overlap: a match is free of angle brackets inside. */
  lemma BlocksDisjoint(doc: string, i: int, j: int, i': int, j': int)
    requires IsAngleBlock(doc, i, j) && IsAngleBlock(doc, i', j')
    requires j <= j'
    ensures i == i' || j < i'
  {
    assert doc[i'] == '<' && doc[i] == '<';
    assert !(i < i' <= j);
    assert !(i' < i < j');
  }

  /** `extract_angle_doc(doc)`: `None` for a missing or empty doc; the
      stripped contents of the first `<...>` block when there is one;
      otherwise the doc unchanged. */
  method ExtractAngleDoc(doc: Option<string>) returns (r: Option<string>)
    ensures doc.None? || doc.value == [] ==> r.None?
    ensures doc.Some? && doc.value != [] && !HasAngleBlock(doc.value) ==> r == doc
    ensures doc.Some? && doc.value != [] && HasAngleBlock(doc.value) ==>
      exists i, j :: IsFirstAngleBlock(doc.value, i, j) && r == Some(Strip(doc.value[i + 1..j]))
  {
    if doc.None? || doc.value == [] {
      return None;
    }
    var d := doc.value;
    // `open` is the last `<` seen with no angle bracket after it so far.
    var open: int := -1;
    var k := 0;
    while k < |d|
      invariant 0 <= k <= |d|
      invariant -1 <= open < k
      invariant open >= 0 ==> d[open] == '<' && forall m :: open < m < k ==> !IsAngle(d[m])
      invariant open == -1 ==> forall i :: 0 <= i < k && d[i] == '<' ==>
                                 exists m :: i < m < k && IsAngle(d[m])
      invariant NoBlockEndsBefore(d, k)
    {
      if d[k] == '>' {
        if open >= 0 && k > open + 1 {
          assert IsAngleBlock(d, open, k);
          forall i', j' | IsAngleBlock(d, i', j')
            ensures open <= i'
          {
            BlocksDisjoint(d, open, k, i', j');
          }
          assert IsFirstAngleBlock(d, open, k);
          return Some(Strip(d[open + 1..k]));
        }
        open := -1;
      } else if d[k] == '<' {
        open := k;
      }
      k := k + 1;
    }
    assert !HasAngleBlock(d);
    return doc;
  }

  // ---------------------------------------------------------------------------
  // extract_no_angle_doc: re.sub(r"<(.*?)>", "", doc, flags=DOTALL).strip()
  // ---------------------------------------------------------------------------

  /** Some `<` is followed, anywhere later, by a `>`. */
  predicate HasOpenClose(s: string) {
    exists i, j :: 0 <= i < j < |s| && s[i] == '<' && s[j] == '>'
  }

  /** Remove every shortest `<...>` block, scanning left to right; the block
      may span newlines. A `<` with no later `>` ends the scan. */
  function RemoveAngleBlocks(s: string): (r: string)
    ensures |r| <= |s|
    ensures !HasOpenClose(r)
    decreases |s|
  {
    match IndexOf(s, '<')
    case None => s
    case Some(i) =>
      match IndexOf(s[i + 1..], '>')
      case None =>
        NoCloseAfterFirstOpen(s, i);
        s
      case Some(j) =>
        var rest := RemoveAngleBlocks(s[i + j + 2..]);
        NoOpenCloseAppend(s[..i], rest);
        s[..i] + rest
  }

  /** A text whose first `<` has no `>` after it has no `<` followed by a
      `>`. */
  lemma NoCloseAfterFirstOpen(s: string, i: nat)
    requires i < |s| && '<' !in s[..i] && '>' !in s[i + 1..]
    ensures !HasOpenClose(s)
  {
    assert forall k :: 0 <= k < i ==> s[k] == s[..i][k];
    forall a, b | 0 <= a < b < |s| && s[a] == '<' ensures s[b] != '>' {
      assert s[b] == s[i + 1..][b - i - 1];
    }
  }

  /** Text without `<` in front of text without a `<`/`>` pair has no pair. */
  lemma NoOpenCloseAppend(head: string, tail: string)
    requires '<' !in head && !HasOpenClose(tail)
    ensures !HasOpenClose(head + tail)
  {
    var s := head + tail;
    assert forall k :: 0 <= k < |head| ==> s[k] == head[k];
    forall a, b | 0 <= a < b < |s| && s[a] == '<' ensures s[b] != '>' {
      assert s[a] == tail[a - |head|] && s[b] == tail[b - |head|];
    }
  }

  /** A string with no `<` has no block to remove. */
  lemma RemoveAngleBlocksNoOpen(s: string)
    requires '<' !in s
    ensures RemoveAngleBlocks(s) == s
  {
  }

  /** A string without a `<` followed by a `>` is left unchanged. */
  lemma RemoveAngleBlocksFixed(s: string)
    requires !HasOpenClose(s)
    ensures RemoveAngleBlocks(s) == s
  {
    match IndexOf(s, '<')
    case None =>
    case Some(i) =>
      assert forall k :: i < k < |s| ==> s[k] != '>';
      var t := s[i + 1..];
      assert forall m :: 0 <= m < |t| ==> t[m] == s[i + 1 + m];
      assert '>' !in t;
  }

  /** Removing blocks twice removes nothing more. */
  lemma RemoveAngleBlocksIdempotent(s: string)
    ensures RemoveAngleBlocks(RemoveAngleBlocks(s)) == RemoveAngleBlocks(s)
  {
    RemoveAngleBlocksFixed(RemoveAngleBlocks(s));
  }

  /** `n` is the first index of `c` when `s[n]` is `c` and no earlier
      character is. */
  lemma {:induction false} IndexOfAt(s: string, c: char, n: nat)
    requires n < |s| && s[n] == c && c !in s[..n]
    ensures IndexOf(s, c) == Some(n)
    decreases n
  {
    if n > 0 {
      assert s[..n][0] == s[0];
      assert s[1..][..n - 1] == s[..n][1..];
      IndexOfAt(s[1..], c, n - 1);
    }
  }

  /** One block between a `<`-free head and the rest is removed whole, and
      the scan resumes right after its `>`. */
  lemma RemoveAngleBlocksStep(head: string, inner: string, rest: string)
    requires '<' !in head && '>' !in inner
    ensures RemoveAngleBlocks(head + "<" + inner + ">" + rest) == head + RemoveAngleBlocks(rest)
  {
    var s := head + "<" + inner + ">" + rest;
    assert s[..|head|] == head;
    IndexOfAt(s, '<', |head|);
    var t := s[|head| + 1..];
    assert t == inner + ">" + rest;
    assert t[..|inner|] == inner;
    IndexOfAt(t, '>', |inner|);
    assert s[|head| + |inner| + 2..] == rest;
  }

  /** `extract_no_angle_doc` as written: `re.sub` is handed the doc even when
      it is `None`, and raises `TypeError` for it. */
  function ExtractNoAngleDocAsWritten(doc: Option<string>): (r: Result<string>)
    ensures r.Err? <==> doc.None?
    ensures r.Ok? ==> Trimmed(r.value) && !HasOpenClose(r.value)
  {
    match doc
    case None => Err(TypeError("expected string or bytes-like object, got 'NoneType'"))
    case Some(d) => Ok(Strip(RemoveAngleBlocks(d)))
  }

  /** The doc without its `<...>` blocks, stripped; a missing doc gives the
      empty prompt, as the declared `str | None` parameter intends. */
  function ExtractNoAngleDoc(doc: Option<string>): (r: string)
    ensures Trimmed(r)
    ensures !HasOpenClose(r)
    ensures doc.None? ==> r == ""
    ensures doc.Some? ==> ExtractNoAngleDocAsWritten(doc) == Ok(r)
  {
    match doc
    case None => ""
    case Some(d) => Strip(RemoveAngleBlocks(d))
  }

  /** The missing-doc case is the only one where the two versions differ:
      as written it raises. */
  lemma NoAngleDocOfMissingDoc()
    ensures ExtractNoAngleDocAsWritten(None).Err?
    ensures ExtractNoAngleDocAsWritten(None).error.TypeError?
    ensures ExtractNoAngleDoc(None) == ""
  {
  }

  /** Without a `<`, the doc is only stripped. */
  lemma NoAngleDocWithoutOpen(d: string)
    requires '<' !in d
    ensures ExtractNoAngleDoc(Some(d)) == Strip(d)
  {
    RemoveAngleBlocksNoOpen(d);
  }
}
