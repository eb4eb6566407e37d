/** The string helpers of scitace_webscraping.py: the area id pattern
    `nodeid=(\d+)`, the `ng-init` slice and the rewriting of `key:'value'`
    into `"key":"value"` that makes the counter list decodable as JSON. */
module VisitorText {
  import opened Wrappers

  predicate IsDigit(c: char) { '0' <= c <= '9' }

  predicate IsLower(c: char) { 'a' <= c <= 'z' }

  predicate AllDigits(s: string)
  {
    forall k :: 0 <= k < |s| ==> IsDigit(s[k])
  }

  predicate AllLower(s: string)
  {
    forall k :: 0 <= k < |s| ==> IsLower(s[k])
  }

  /** The end of the longest run of characters satisfying `p` that starts at `start`. */
  function Span(s: string, start: nat, p: char -> bool): (e: nat)
    requires start <= |s|
    ensures start <= e <= |s|
    ensures forall k :: start <= k < e ==> p(s[k])
    ensures e < |s| ==> !p(s[e])
    decreases |s| - start
  {
    if start == |s| || !p(s[start]) then start else Span(s, start + 1, p)
  }

  /** The first index at or after `start` holding `c`. */
  function Find(s: string, start: nat, c: char): (r: Option<nat>)
    requires start <= |s|
    ensures r.Some? ==> start <= r.value < |s| && s[r.value] == c && forall k :: start <= k < r.value ==> s[k] != c
    ensures r.None? ==> forall k :: start <= k < |s| ==> s[k] != c
    decreases |s| - start
  {
    if start == |s| then None
    else if s[start] == c then Some(start)
    else Find(s, start + 1, c)
  }

  // ---------------------------------------------------------------------------
  // The area id: re.search(r'nodeid=(\d+)', href).group(1)

  /** The pattern `nodeid=\d` matches at position `i`. */
  predicate NodeIdAt(s: string, i: nat)
  {
    i + 8 <= |s| && s[i..i + 7] == "nodeid=" && IsDigit(s[i + 7])
  }

  /** The leftmost match of the pattern at or after `start`. */
  function MatchFrom(s: string, start: nat): (r: Option<nat>)
    requires start <= |s|
    ensures r.Some? ==> start <= r.value && NodeIdAt(s, r.value) && forall j: nat :: start <= j < r.value ==> !NodeIdAt(s, j)
    ensures r.None? ==> forall j: nat :: start <= j ==> !NodeIdAt(s, j)
    decreases |s| - start
  {
    if start + 8 > |s| then None
    else if NodeIdAt(s, start) then Some(start)
    else MatchFrom(s, start + 1)
  }

  /** `id` is the whole run of digits starting at position `k` of `s`. */
  predicate DigitRunAt(s: string, k: nat, id: string)
  {
    k + |id| <= |s| && s[k..k + |id|] == id && AllDigits(id) &&
    (k + |id| == |s| || !IsDigit(s[k + |id|]))
  }

  /** The digits after the leftmost `nodeid=` that is followed by a digit;
      None when there is none (the script then fails on `None.group`). */
  function AreaId(href: string): (r: Option<string>)
    ensures r.None? <==> forall i: nat :: !NodeIdAt(href, i)
    ensures r.Some? ==> r.value != []
    ensures r.Some? ==>
      (exists i: nat :: NodeIdAt(href, i) && (forall j: nat :: j < i ==> !NodeIdAt(href, j)) &&
        DigitRunAt(href, i + 7, r.value))
  {
    match MatchFrom(href, 0)
    case None => None
    case Some(i) =>
      var e := Span(href, i + 7, IsDigit);
      Some(href[i + 7..e])
  }

  /** The converse: a href whose first match is `nodeid=` + id, with `id` a
      whole run of digits, yields `id`. */
  lemma AreaIdOfHref(prefix: string, id: string, rest: string)
    requires id != [] && AllDigits(id) && (rest == [] || !IsDigit(rest[0]))
    requires forall j: nat :: j < |prefix| ==> !NodeIdAt(prefix + "nodeid=" + id + rest, j)
    ensures AreaId(prefix + "nodeid=" + id + rest) == Some(id)
  {
    var href := prefix + "nodeid=" + id + rest;
    var k := |prefix| + 7;
    assert href[|prefix|..k] == "nodeid=";
    assert href[k..k + |id|] == id;
    assert NodeIdAt(href, |prefix|);
    var r := AreaId(href);
    var i: nat :| NodeIdAt(href, i) && (forall j: nat :: j < i ==> !NodeIdAt(href, j)) && DigitRunAt(href, i + 7, r.value);
    assert i == |prefix|;
    assert k + |id| == |href| || href[k + |id|] == rest[0];
    DigitRunUnique(href, k, r.value, id);
  }

  lemma DigitRunUnique(s: string, k: nat, a: string, b: string)
    requires DigitRunAt(s, k, a) && DigitRunAt(s, k, b)
    ensures a == b
  {
    if |a| < |b| {
      DigitInRun(s, k, b, |a|);
    } else if |b| < |a| {
      DigitInRun(s, k, a, |b|);
    } else {
      assert a == s[k..k + |a|] == b;
    }
  }

  lemma DigitInRun(s: string, k: nat, id: string, i: nat)
    requires DigitRunAt(s, k, id) && i < |id|
    ensures IsDigit(s[k + i])
  {
    assert s[k + i] == s[k..k + |id|][i];
  }

  // ---------------------------------------------------------------------------
  // The counter list of an area page

  /** `init_counters(`, the 14 characters that `[14:-1]` drops in front. */
  const InitCall: string := "init_counters("

  /** `attr[14:-1]`: Python's slice, empty when the attribute is shorter than 15. */
  function InitPayload(attr: string): (p: string)
    ensures |attr| >= 15 ==> attr == attr[..14] + p + [attr[|attr| - 1]]
    ensures |attr| < 15 ==> p == []
  {
    if |attr| >= 15 then attr[14..|attr| - 1] else []
  }

  /** The slice undoes the call around the payload. */
  lemma InitPayloadOfCall(payload: string)
    ensures InitPayload(InitCall + payload + ")") == payload
  {
    var attr := InitCall + payload + ")";
    assert |InitCall| == 14;
    assert attr[14..|attr| - 1] == payload;
  }

  /** A match of `([a-z]+):'([^']*)'` at the start of a string, of `length` characters. */
  datatype Token = Token(key: string, value: string, length: nat)

  function TokenAt(s: string): (r: Option<Token>)
    ensures r.Some? ==>
      0 < r.value.length <= |s| && r.value.key != [] && AllLower(r.value.key) && '\'' !in r.value.value &&
      s[..r.value.length] == r.value.key + ":'" + r.value.value + "'"
  {
    var k := Span(s, 0, IsLower);
    if k == 0 || k + 2 > |s| || s[k] != ':' || s[k + 1] != '\'' then None
    else match Find(s, k + 2, '\'')
      case None => None
      case Some(q) =>
        assert s[..q + 1] == s[..k] + ":'" + s[k + 2..q] + "'";
        Some(Token(s[..k], s[k + 2..q], q + 1))
  }

  /** `"key":"value"`. */
  function Quoted(key: string, value: string): string
  {
    "\"" + key + "\":\"" + value + "\""
  }

  /** `re.sub(r'([a-z]+):\'([^\']*)\'', r'"\1":"\2"', s)`: scanning left to
      right, each leftmost match is replaced and scanning resumes after it.
      Each replacement adds the two quotes around the key, so the text never
      gets shorter. */
  function Normalise(s: string): (r: string)
    ensures |r| >= |s|
    decreases |s|
  {
    if s == [] then []
    else match TokenAt(s)
      case Some(t) =>
        assert |s[..t.length]| == |t.key| + |t.value| + 3;
        Quoted(t.key, t.value) + Normalise(s[t.length..])
      case None => [s[0]] + Normalise(s[1..])
  }

  /** Text without a single quote is left as it is. */
  lemma {:induction false} NormaliseWithoutQuotes(s: string)
    requires '\'' !in s
    ensures Normalise(s) == s
    decreases |s|
  {
    if s != [] {
      assert TokenAt(s).None?;
      assert '\'' !in s[1..];
      NormaliseWithoutQuotes(s[1..]);
    }
  }

  lemma SpanIs(s: string, start: nat, p: char -> bool, e: nat)
    requires start <= e <= |s|
    requires forall j :: start <= j < e ==> p(s[j])
    requires e < |s| ==> !p(s[e])
    ensures Span(s, start, p) == e
  {
  }

  lemma FindIs(s: string, start: nat, c: char, q: nat)
    requires start <= q < |s| && s[q] == c
    requires forall j :: start <= j < q ==> s[j] != c
    ensures Find(s, start, c) == Some(q)
  {
  }

  /** The token at the start of `key:'value'rest`. */
  lemma TokenOf(key: string, value: string, rest: string)
    requires key != [] && AllLower(key) && '\'' !in value
    ensures TokenAt(key + ":'" + value + "'" + rest) == Some(Token(key, value, |key| + |value| + 3))
  {
    var s := key + ":'" + value + "'" + rest;
    var k := |key|;
    var q := k + 2 + |value|;
    assert s[..k] == key;
    assert s[k] == ':' && s[k + 1] == '\'' && s[q] == '\'';
    forall j | 0 <= j < k
      ensures IsLower(s[j])
    {
      assert s[j] == key[j];
    }
    SpanIs(s, 0, IsLower, k);
    assert s[k + 2..q] == value;
    forall j | k + 2 <= j < q
      ensures s[j] != '\''
    {
      assert s[j] == value[j - k - 2];
    }
    FindIs(s, k + 2, '\'', q);
  }

  /** A `key:'value'` token is rewritten to `"key":"value"`, and the rewriting
      carries on after it. */
  lemma NormaliseToken(key: string, value: string, rest: string)
    requires key != [] && AllLower(key) && '\'' !in value
    ensures Normalise(key + ":'" + value + "'" + rest) == Quoted(key, value) + Normalise(rest)
  {
    var s := key + ":'" + value + "'" + rest;
    TokenOf(key, value, rest);
    assert s[|key| + |value| + 3..] == rest;
  }

  /** A character that cannot start a key is copied. */
  lemma NormaliseOther(c: char, rest: string)
    requires !IsLower(c)
    ensures Normalise([c] + rest) == [c] + Normalise(rest)
  {
    var s := [c] + rest;
    assert Span(s, 0, IsLower) == 0;
    assert s[1..] == rest;
  }

  /** A lowercase word that is not followed by `:'...'` is copied. */
  lemma NormaliseWord(word: string, rest: string)
    requires word != [] && AllLower(word)
    requires rest == [] || !IsLower(rest[0])
    requires !(|rest| >= 2 && rest[0] == ':' && rest[1] == '\'' && '\'' in rest[2..])
    ensures Normalise(word + rest) == word + Normalise(rest)
  {
    forall j | 0 <= j < |word|
      ensures Normalise(word[j..] + rest) == [word[j]] + Normalise(word[j + 1..] + rest)
    {
      LowerSuffix(word, j);
      NoTokenAfterWord(word[j..], rest);
      NormaliseCopyFirst(word[j..], rest);
      assert word[j..][1..] == word[j + 1..];
    }
    CopiedPrefix(Normalise, word, rest);
  }

  lemma LowerSuffix(word: string, j: nat)
    requires j < |word| && AllLower(word)
    ensures word[j..] != [] && AllLower(word[j..])
  {
    forall i | 0 <= i < |word| - j
      ensures IsLower(word[j..][i])
    {
      assert word[j..][i] == word[j + i];
    }
  }

  /** Where no token starts, the first character is copied. */
  lemma NormaliseCopyFirst(word: string, rest: string)
    requires word != [] && TokenAt(word + rest).None?
    ensures Normalise(word + rest) == [word[0]] + Normalise(word[1..] + rest)
  {
    var s := word + rest;
    assert s[0] == word[0] && s[1..] == word[1..] + rest;
  }

  /** A rewriting that copies each character of `word` copies all of it. */
  lemma {:induction false} CopiedPrefix(rewrite: string -> string, word: string, rest: string)
    requires forall j :: 0 <= j < |word| ==> rewrite(word[j..] + rest) == [word[j]] + rewrite(word[j + 1..] + rest)
    ensures rewrite(word + rest) == word + rewrite(rest)
    decreases |word|
  {
    if word == [] {
      assert word + rest == rest;
    } else {
      assert word[0..] == word;
      forall j | 0 <= j < |word| - 1
        ensures rewrite(word[1..][j..] + rest) == [word[1..][j]] + rewrite(word[1..][j + 1..] + rest)
      {
        assert word[1..][j..] == word[j + 1..] && word[1..][j + 1..] == word[j + 2..];
      }
      CopiedPrefix(rewrite, word[1..], rest);
      assert [word[0]] + word[1..] == word;
    }
  }

  lemma NoTokenAfterWord(word: string, rest: string)
    requires word != [] && AllLower(word)
    requires rest == [] || !IsLower(rest[0])
    requires !(|rest| >= 2 && rest[0] == ':' && rest[1] == '\'' && '\'' in rest[2..])
    ensures TokenAt(word + rest).None?
  {
    var s := word + rest;
    var k := |word|;
    forall j | 0 <= j < k
      ensures IsLower(s[j])
    {
      assert s[j] == word[j];
    }
    SpanIs(s, 0, IsLower, k);
    if k + 2 <= |s| && s[k] == ':' && s[k + 1] == '\'' {
      assert s[k + 2..] == rest[2..];
      forall j | k + 2 <= j < |s|
        ensures s[j] != '\''
      {
        assert s[j] == rest[2..][j - k - 2];
      }
    }
  }
}
