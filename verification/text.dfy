/** The Python `str` operations the modelled code relies on: `isspace`,
    `strip`, `split()` with no separator, `" ".join`, `replace(old, "")`,
    `startswith` and the decimal rendering of a length. */
module Text {

  import opened Wrappers

  /** `c.isspace()`: the characters Python treats as whitespace. */
  predicate IsSpace(c: char) {
    || c == ' '
    || ('\t' <= c <= '\r')
    || ('\U{1C}' <= c <= '\U{1F}')
    || c == '\U{85}' || c == '\U{A0}' || c == '\U{1680}'
    || ('\U{2000}' <= c <= '\U{200A}')
    || c == '\U{2028}' || c == '\U{2029}' || c == '\U{202F}'
    || c == '\U{205F}' || c == '\U{3000}'
  }

  predicate AllSpace(s: string) {
    forall k :: 0 <= k < |s| ==> IsSpace(s[k])
  }

  predicate NoSpace(s: string) {
    forall k :: 0 <= k < |s| ==> !IsSpace(s[k])
  }

  /** Neither end of `s` is whitespace. */
  predicate Trimmed(s: string) {
    s == [] || (!IsSpace(s[0]) && !IsSpace(s[|s| - 1]))
  }

  /** Python truthiness of an optional string: present and non-empty. */
  predicate Truthy(s: Option<string>) {
    s.Some? && s.value != ""
  }

  /** `s.lstrip()`: the suffix left after dropping the leading whitespace. */
  function StripLeft(s: string): (r: string)
    ensures |r| <= |s| && r == s[|s| - |r|..]
    ensures AllSpace(s[..|s| - |r|])
    ensures r == [] || !IsSpace(r[0])
    decreases |s|
  {
    if s != [] && IsSpace(s[0]) then
      var r := StripLeft(s[1..]);
      assert s[..|s| - |r|] == [s[0]] + s[1..][..|s| - 1 - |r|];
      AllSpaceAppend([s[0]], s[1..][..|s| - 1 - |r|]);
      r
    else s
  }

  /** `s.rstrip()`: the prefix left after dropping the trailing whitespace. */
  function StripRight(s: string): (r: string)
    ensures |r| <= |s| && r == s[..|r|]
    ensures AllSpace(s[|r|..])
    ensures r == [] || !IsSpace(r[|r| - 1])
    decreases |s|
  {
    if s != [] && IsSpace(s[|s| - 1]) then
      var p := s[..|s| - 1];
      var r := StripRight(p);
      assert s[|r|..] == p[|r|..] + [s[|s| - 1]];
      AllSpaceAppend(p[|r|..], [s[|s| - 1]]);
      r
    else s
  }

  /** Whitespace followed by whitespace is whitespace. */
  lemma AllSpaceAppend(a: string, b: string)
    requires AllSpace(a) && AllSpace(b)
    ensures AllSpace(a + b)
  {
    forall k | 0 <= k < |a + b| ensures IsSpace((a + b)[k]) {
      if k < |a| {
        assert (a + b)[k] == a[k];
      } else {
        assert (a + b)[k] == b[k - |a|];
      }
    }
  }

  /** `s.strip()`. */
  function Strip(s: string): (r: string)
    ensures Trimmed(r)
    ensures |r| <= |s|
    ensures var lo := |s| - |StripLeft(s)|; lo + |r| <= |s| && r == s[lo..lo + |r|]
  {
    var l := StripLeft(s);
    var r := StripRight(l);
    assert r != [] ==> r[0] == l[0];
    SliceOfSuffix(s, |s| - |l|, |r|);
    r
  }

  /** `strip()` drops whitespace only: what it removes in front of the
      kept slice and behind it is all whitespace. */
  lemma StripDropsOnlySpace(s: string)
    ensures var lo := |s| - |StripLeft(s)|;
      && lo + |Strip(s)| <= |s|
      && AllSpace(s[..lo])
      && AllSpace(s[lo + |Strip(s)|..])
  {
    var l := StripLeft(s);
    var r := StripRight(l);
    var lo := |s| - |l|;
    assert Strip(s) == r;
    assert AllSpace(s[lo + |r|..]) by {
      StripDropsSpace(s, l, r);
    }
  }

  /** Whitespace dropped in front of a suffix, and behind a prefix of it,
      lies at the two ends of the original. */
  lemma StripDropsSpace(s: string, l: string, r: string)
    requires |l| <= |s| && l == s[|s| - |l|..] && AllSpace(s[..|s| - |l|])
    requires |r| <= |l| && AllSpace(l[|r|..])
    ensures var lo := |s| - |l|; lo + |r| <= |s| && AllSpace(s[..lo]) && AllSpace(s[lo + |r|..])
  {
    SuffixOfSuffix(s, |s| - |l|, |r|);
  }

  /** A prefix of a suffix is a middle slice. */
  lemma SliceOfSuffix(s: string, lo: nat, n: nat)
    requires lo + n <= |s|
    ensures s[lo..][..n] == s[lo..lo + n]
  {
  }

  /** A suffix of a suffix is a suffix. */
  lemma SuffixOfSuffix(s: string, lo: nat, n: nat)
    requires lo + n <= |s|
    ensures s[lo..][n..] == s[lo + n..]
  {
  }

  /** Stripping a string that is already trimmed changes nothing. */
  lemma StripTrimmed(s: string)
    requires Trimmed(s)
    ensures Strip(s) == s
  {
  }

  /** `Strip(s)` is the slice of `s` between its leading and its trailing
      whitespace. */
  lemma StripIsSlice(s: string)
    ensures var lo := |s| - |StripLeft(s)|;
      lo + |Strip(s)| <= |s| && Strip(s) == s[lo..lo + |Strip(s)|]
  {
  }

  /** Stripping is idempotent. */
  lemma StripIdempotent(s: string)
    ensures Strip(Strip(s)) == Strip(s)
  {
    StripTrimmed(Strip(s));
  }

  lemma AllSpaceAt(s: string, n: nat)
    requires n <= |s| && AllSpace(s[n..])
    ensures forall k :: n <= k < |s| ==> IsSpace(s[k])
  {
    assert forall k :: n <= k < |s| ==> s[k] == s[n..][k - n];
  }

  /** `rstrip` keeps every prefix that ends in a non-whitespace character. */
  lemma StripRightKeeps(s: string, n: nat)
    requires 0 < n <= |s| && !IsSpace(s[n - 1])
    ensures StartsWith(StripRight(s), s[..n])
  {
    var r := StripRight(s);
    AllSpaceAt(s, |r|);
    assert n <= |r|;
    assert r[..n] == s[..n];
  }

  /** Stripping keeps a head whose two ends are not whitespace. */
  lemma StripKeepsHead(head: string, tail: string)
    requires head != [] && !IsSpace(head[0]) && !IsSpace(head[|head| - 1])
    ensures StartsWith(Strip(head + tail), head)
  {
    var s := head + tail;
    assert s[0] == head[0];
    assert StripLeft(s) == s;
    assert s[..|head|] == head;
    StripRightKeeps(s, |head|);
  }

  // ---------------------------------------------------------------------------
  // split() and " ".join
  // ---------------------------------------------------------------------------

  /** A piece produced by `split()`: non-empty and free of whitespace. */
  predicate IsWord(w: string) {
    w != [] && NoSpace(w)
  }

  predicate AllWords(ws: seq<string>) {
    forall i :: 0 <= i < |ws| ==> IsWord(ws[i])
  }

  /** The longest whitespace-free prefix of `s`. */
  function TakeWord(s: string): (w: string)
    ensures |w| <= |s| && w == s[..|w|]
    ensures NoSpace(w)
    ensures |w| == |s| || IsSpace(s[|w|])
    ensures s != [] && !IsSpace(s[0]) ==> w != []
    decreases |s|
  {
    if s == [] || IsSpace(s[0]) then [] else [s[0]] + TakeWord(s[1..])
  }

  /** `s.split()`: the maximal runs of non-whitespace characters, in order. */
  function Split(s: string): (ws: seq<string>)
    ensures AllWords(ws)
    decreases |s|
  {
    var t := StripLeft(s);
    if t == [] then []
    else
      var w := TakeWord(t);
      var rest := Split(t[|w|..]);
      AllWordsCons(w, rest);
      [w] + rest
  }

  /** A word in front of words gives words. */
  lemma AllWordsCons(w: string, ws: seq<string>)
    requires IsWord(w) && AllWords(ws)
    ensures AllWords([w] + ws)
  {
    forall i | 0 <= i < |[w] + ws| ensures IsWord(([w] + ws)[i]) {
      if i > 0 {
        assert ([w] + ws)[i] == ws[i - 1];
      }
    }
  }

  /** `" ".join(ws)`. */
  function JoinSpace(ws: seq<string>): string
    decreases |ws|
  {
    if |ws| == 0 then ""
    else if |ws| == 1 then ws[0]
    else ws[0] + " " + JoinSpace(ws[1..])
  }

  /** Whitespace in `s` occurs only as single `' '` characters strictly
      between two non-whitespace characters. */
  predicate Collapsed(s: string) {
    forall k :: 0 <= k < |s| && IsSpace(s[k]) ==>
      s[k] == ' ' && 0 < k < |s| - 1 && !IsSpace(s[k - 1]) && !IsSpace(s[k + 1])
  }

  lemma {:induction false} TakeWordOfWord(w: string, rest: string)
    requires NoSpace(w)
    requires rest == [] || IsSpace(rest[0])
    ensures TakeWord(w + rest) == w
    decreases |w|
  {
    if w != [] {
      assert (w + rest)[1..] == w[1..] + rest;
      TakeWordOfWord(w[1..], rest);
    } else {
      assert w + rest == rest;
    }
  }

  /** Joining words with single spaces gives a collapsed string with a
      non-whitespace first and last character. */
  lemma {:induction false} JoinSpaceCollapsed(ws: seq<string>)
    requires AllWords(ws)
    ensures Collapsed(JoinSpace(ws))
    ensures Trimmed(JoinSpace(ws))
    ensures ws != [] ==> JoinSpace(ws) != [] && JoinSpace(ws)[0] == ws[0][0]
    decreases |ws|
  {
    if |ws| >= 2 {
      JoinSpaceCollapsed(ws[1..]);
      var w := ws[0];
      var tail := JoinSpace(ws[1..]);
      var s := w + " " + tail;
      assert IsWord(w) && IsWord(ws[1]);
      assert tail[0] == ws[1][0];
      assert forall k :: 0 <= k < |w| ==> s[k] == w[k];
      assert s[|w|] == ' ';
      assert forall k :: |w| < k < |s| ==> s[k] == tail[k - |w| - 1];
    } else if |ws| == 1 {
      assert IsWord(ws[0]);
    }
  }

  /** A word followed by whitespace (or nothing) is split off as the
      first word. */
  lemma SplitConsWord(w: string, rest: string)
    requires IsWord(w)
    requires rest == [] || IsSpace(rest[0])
    ensures Split(w + rest) == [w] + Split(rest)
  {
    var s := w + rest;
    assert s[0] == w[0];
    assert StripLeft(s) == s;
    TakeWordOfWord(w, rest);
    assert s[|w|..] == rest;
  }

  /** Leading whitespace does not change the words of a string. */
  lemma SplitConsSpace(c: char, s: string)
    requires IsSpace(c)
    ensures Split([c] + s) == Split(s)
  {
    assert ([c] + s)[1..] == s;
    assert StripLeft([c] + s) == StripLeft(s);
  }

  /** The words after the first are words. */
  lemma AllWordsTail(ws: seq<string>)
    requires AllWords(ws) && ws != []
    ensures AllWords(ws[1..])
  {
    forall i | 0 <= i < |ws[1..]| ensures IsWord(ws[1..][i]) {
      assert ws[1..][i] == ws[i + 1];
    }
  }

  /** A non-empty sequence is its head followed by its tail. */
  lemma HeadTail<T>(s: seq<T>)
    requires s != []
    ensures [s[0]] + s[1..] == s
  {
  }

  /** A single word splits into itself. */
  lemma SplitOneWord(w: string)
    requires IsWord(w)
    ensures Split(w) == [w]
  {
    var e: string := [];
    assert w + e == w;
    SplitConsWord(w, e);
    assert StripLeft(e) == [];
    assert Split(e) == [];
  }

  /** The first word of a space-join of two or more words splits off. */
  lemma SplitJoinStep(ws: seq<string>)
    requires AllWords(ws) && |ws| >= 2
    ensures Split(JoinSpace(ws)) == [ws[0]] + Split(JoinSpace(ws[1..]))
  {
    var w := ws[0];
    assert IsWord(w);
    var tail := JoinSpace(ws[1..]);
    assert JoinSpace(ws) == w + (" " + tail);
    SplitConsWord(w, " " + tail);
    SplitConsSpace(' ', tail);
    assert [' '] + tail == " " + tail;
  }

  /** Splitting words joined by single spaces gives the words back. */
  lemma {:induction false} SplitJoinSpace(ws: seq<string>)
    requires AllWords(ws)
    ensures Split(JoinSpace(ws)) == ws
    decreases |ws|
  {
    if |ws| == 1 {
      assert IsWord(ws[0]);
      SplitOneWord(ws[0]);
    } else if |ws| >= 2 {
      SplitJoinStep(ws);
      AllWordsTail(ws);
      SplitJoinSpace(ws[1..]);
      HeadTail(ws);
    }
  }

  /** Dropping a prefix of `a` from `a + b` drops it from `a`. */
  lemma SliceOfAppend<T>(a: seq<T>, b: seq<T>, k: nat)
    requires k <= |a|
    ensures (a + b)[k..] == a[k..] + b
  {
  }

  /** One step of `split()`: the first word of the stripped string, then the
      words of what follows it. */
  lemma SplitStep(s: string)
    requires StripLeft(s) != []
    ensures var t := StripLeft(s);
      Split(s) == [TakeWord(t)] + Split(t[|TakeWord(t)|..])
  {
  }

  /** Appending whitespace to a string with a first word appends it to the
      rest after that word. */
  lemma SplitAppendStep(s: string, c: char)
    requires IsSpace(c) && StripLeft(s) != []
    ensures var t := StripLeft(s);
      var rest := t[|TakeWord(t)|..];
      && |rest| < |s|
      && Split(s) == [TakeWord(t)] + Split(rest)
      && Split(s + [c]) == [TakeWord(t)] + Split(rest + [c])
  {
    var t := StripLeft(s);
    var w := TakeWord(t);
    StripLeftAppend(s, [c]);
    TakeWordPrefix(t, [c]);
    SliceOfAppend(t, [c], |w|);
    SplitStep(s);
    SplitStep(s + [c]);
  }

  /** A string that is all whitespace stays without words when whitespace is
      appended. */
  lemma SplitAppendBlank(s: string, c: char)
    requires IsSpace(c) && StripLeft(s) == []
    ensures Split(s + [c]) == Split(s) == []
  {
    assert s[..|s|] == s;
    var u := s + [c];
    assert AllSpace(u) by {
      forall k | 0 <= k < |u| ensures IsSpace(u[k]) {
        if k < |s| {
          assert u[k] == s[k];
        }
      }
    }
    AllSpaceStripsToEmpty(s);
    AllSpaceStripsToEmpty(u);
  }

  /** Appending whitespace does not change the words of a string. */
  lemma {:induction false} SplitAppendSpace(s: string, c: char)
    requires IsSpace(c)
    ensures Split(s + [c]) == Split(s)
    decreases |s|
  {
    if StripLeft(s) == [] {
      SplitAppendBlank(s, c);
    } else {
      SplitAppendStep(s, c);
      var t := StripLeft(s);
      SplitAppendSpace(t[|TakeWord(t)|..], c);
    }
  }

  lemma {:induction false} AllSpaceStripsToEmpty(s: string)
    requires AllSpace(s)
    ensures StripLeft(s) == [] && Split(s) == []
    decreases |s|
  {
    if s != [] {
      AllSpaceStripsToEmpty(s[1..]);
    }
  }

  lemma {:induction false} StripLeftAppend(s: string, x: string)
    requires StripLeft(s) != []
    ensures StripLeft(s + x) == StripLeft(s) + x
    decreases |s|
  {
    assert (s + x)[0] == s[0];
    if IsSpace(s[0]) {
      SliceOfAppend(s, x, 1);
      StripLeftAppend(s[1..], x);
    }
  }

  lemma {:induction false} TakeWordPrefix(t: string, x: string)
    requires t != [] && TakeWord(t) != []
    requires x == [] || IsSpace(x[0])
    ensures TakeWord(t + x) == TakeWord(t)
  {
    var w := TakeWord(t);
    if |w| == |t| {
      assert t == w;
      TakeWordOfWord(w, x);
    } else {
      assert t == w + t[|w|..];
      assert t + x == w + (t[|w|..] + x);
      TakeWordOfWord(w, t[|w|..] + x);
    }
  }

  /** Stripping the whitespace at either end does not change the words. */
  lemma {:induction false} SplitStrip(s: string)
    ensures Split(Strip(s)) == Split(s)
  {
    var l := StripLeft(s);
    assert StripLeft(l) == l;
    assert Split(l) == Split(s);
    SplitStripRight(l);
  }

  lemma {:induction false} SplitStripRight(s: string)
    ensures Split(StripRight(s)) == Split(s)
    decreases |s|
  {
    if s != [] && IsSpace(s[|s| - 1]) {
      var p := s[..|s| - 1];
      var c := s[|s| - 1];
      assert s == p + [c];
      assert StripRight(s) == StripRight(p);
      SplitStripRight(p);
      SplitAppendSpace(p, c);
    } else {
      assert StripRight(s) == s;
    }
  }

  // ---------------------------------------------------------------------------
  // replace(pattern, ""), startswith, find
  // ---------------------------------------------------------------------------

  predicate StartsWith(s: string, prefix: string) {
    |prefix| <= |s| && s[..|prefix|] == prefix
  }

  predicate EndsWith(s: string, suffix: string) {
    |suffix| <= |s| && s[|s| - |suffix|..] == suffix
  }

  /** `s.replace(pattern, "")`: occurrences are removed left to right, each
      search resuming after the removed occurrence. */
  function RemoveAll(s: string, pattern: string): (r: string)
    requires pattern != []
    ensures |r| <= |s|
    decreases |s|
  {
    if |s| < |pattern| then s
    else if s[..|pattern|] == pattern then RemoveAll(s[|pattern|..], pattern)
    else [s[0]] + RemoveAll(s[1..], pattern)
  }

  /** `replace(p, "")` only deletes: no character occurs in the result more
      often than in the input. */
  lemma {:induction false} RemoveAllOnlyDeletes(s: string, pattern: string)
    requires pattern != []
    ensures multiset(RemoveAll(s, pattern)) <= multiset(s)
    decreases |s|
  {
    if |s| >= |pattern| {
      if s[..|pattern|] == pattern {
        RemoveAllOnlyDeletes(s[|pattern|..], pattern);
        assert s == s[..|pattern|] + s[|pattern|..];
      } else {
        RemoveAllOnlyDeletes(s[1..], pattern);
        assert s == [s[0]] + s[1..];
      }
    }
  }

  /** A string that lacks some character of the pattern has nothing removed. */
  lemma {:induction false} RemoveAllAbsent(s: string, pattern: string, c: char)
    requires pattern != [] && c in pattern && c !in s
    ensures RemoveAll(s, pattern) == s
    decreases |s|
  {
    if |s| >= |pattern| {
      assert c !in s[..|pattern|] by {
        assert forall k :: 0 <= k < |pattern| ==> s[..|pattern|][k] == s[k];
      }
      RemoveAllAbsent(s[1..], pattern, c);
      assert s == [s[0]] + s[1..];
    }
  }

  /** An occurrence at the very front is removed and the scan resumes
      right after it. */
  lemma RemoveAllLeading(pattern: string, s: string)
    requires pattern != []
    ensures RemoveAll(pattern + s, pattern) == RemoveAll(s, pattern)
  {
    assert (pattern + s)[..|pattern|] == pattern;
    assert (pattern + s)[|pattern|..] == s;
  }

  /** A first character that cannot start `pattern` here is kept. */
  lemma RemoveAllKeepsFirst(c: char, tail: string, pattern: string)
    requires |pattern| >= 2
    requires c == pattern[0] ==> tail != [] && tail[0] != pattern[1]
    ensures RemoveAll([c] + tail, pattern) == [c] + RemoveAll(tail, pattern)
  {
    var s := [c] + tail;
    assert s[1..] == tail;
    if |s| >= |pattern| {
      assert s[..|pattern|][0] == c;
      assert s[..|pattern|][1] == s[1];
    }
  }

  /** A head in which every possible start of `pattern` already fails on
      its second character is kept whole. */
  lemma {:induction false} RemoveAllKeepsHead(head: string, tail: string, pattern: string)
    requires |pattern| >= 2
    requires forall k :: 0 <= k < |head| && head[k] == pattern[0] ==>
               k + 1 < |head| && head[k + 1] != pattern[1]
    ensures RemoveAll(head + tail, pattern) == head + RemoveAll(tail, pattern)
    decreases |head|
  {
    if head != [] {
      var rest := head[1..];
      forall k | 0 <= k < |rest| && rest[k] == pattern[0]
        ensures k + 1 < |rest| && rest[k + 1] != pattern[1]
      {
        assert head[k + 1] == pattern[0];
      }
      RemoveAllKeepsHead(rest, tail, pattern);
      assert head + tail == [head[0]] + (rest + tail);
      if head[0] == pattern[0] {
        assert (rest + tail)[0] == head[1];
      }
      RemoveAllKeepsFirst(head[0], rest + tail, pattern);
      var removed := RemoveAll(tail, pattern);
      assert RemoveAll(head + tail, pattern) == [head[0]] + (rest + removed);
      assert [head[0]] + (rest + removed) == ([head[0]] + rest) + removed;
      assert head == [head[0]] + rest;
    } else {
      assert head + tail == tail;
    }
  }

  /** The index of the first `c` in `s`, if any. */
  function IndexOf(s: string, c: char): (r: Option<nat>)
    ensures r.Some? ==> r.value < |s| && s[r.value] == c && c !in s[..r.value]
    ensures r.None? ==> c !in s
    decreases |s|
  {
    if s == [] then None
    else if s[0] == c then Some(0)
    else
      match IndexOf(s[1..], c)
      case None => None
      case Some(i) => Some(i + 1)
  }

  /** `str(n)` for a natural number. */
  function NatToString(n: nat): (r: string)
    ensures r != [] && forall k :: 0 <= k < |r| ==> '0' <= r[k] <= '9'
    ensures |r| > 1 ==> r[0] != '0'
    decreases n
  {
    var d := ['0' + (n % 10) as char];
    if n < 10 then d else NatToString(n / 10) + d
  }
}
