/** The string helpers of include/Utils.h: toLower, trim, split, contains and
    join. Each helper is specified by a function; the helpers whose C++ body
    is a loop (toLower, split, join) also have a method with that loop,
    proved equal to the function. */
module Utils {
  import opened Wrappers

  /** Concatenation regroups freely; stated once so that loops building a
      string need not re-derive it. */
  lemma AppendAssociative(a: string, b: string, c: string)
    ensures a + (b + c) == a + b + c
  {
  }

  // ---------------------------------------------------------------- toLower

  predicate IsUpper(c: char) {
    'A' <= c <= 'Z'
  }

  /** std::tolower in the "C" locale: only the 26 ASCII capitals change,
      each to its lower-case letter, 32 code points further on. */
  function LowerChar(c: char): (d: char)
    ensures IsUpper(c) ==> d as int == c as int + 32 && 'a' <= d <= 'z'
    ensures !IsUpper(c) ==> d == c
    ensures !IsUpper(d)
  {
    if IsUpper(c) then (c as int + 32) as char else c
  }

  function ToLower(s: string): (r: string)
    ensures |r| == |s|
    ensures forall i :: 0 <= i < |s| && IsUpper(s[i]) ==> r[i] as int == s[i] as int + 32
    ensures forall i :: 0 <= i < |s| && !IsUpper(s[i]) ==> r[i] == s[i]
    ensures forall i :: 0 <= i < |r| ==> !IsUpper(r[i])
  {
    seq(|s|, i requires 0 <= i < |s| => LowerChar(s[i]))
  }

  /** A string without capitals is its own lower-case form. */
  lemma LowerFixed(s: string)
    requires forall i :: 0 <= i < |s| ==> !IsUpper(s[i])
    ensures ToLower(s) == s
  {
  }

  lemma ToLowerIdempotent(s: string)
    ensures ToLower(ToLower(s)) == ToLower(s)
  {
  }

  /** The loop of Utils::toLower: a copy of the string transformed in place. */
  method ToLowerLoop(str: string) returns (r: string)
    ensures r == ToLower(str)
  {
    var a := new char[|str|](i requires 0 <= i < |str| => str[i]);
    var k := 0;
    while k < a.Length
      invariant 0 <= k <= a.Length
      invariant forall i :: 0 <= i < k ==> a[i] == LowerChar(str[i])
      invariant forall i :: k <= i < a.Length ==> a[i] == str[i]
    {
      a[k] := LowerChar(a[k]);
      k := k + 1;
    }
    r := a[..];
  }

  // ------------------------------------------------------------------- trim

  predicate AllSpaces(s: string) {
    forall i :: 0 <= i < |s| ==> s[i] == ' '
  }

  /** find_first_not_of(' '), with |s| standing for npos. */
  function FirstNonSpace(s: string): (k: nat)
    ensures k <= |s|
    ensures AllSpaces(s[..k])
    ensures k < |s| ==> s[k] != ' '
  {
    if s == [] || s[0] != ' ' then 0
    else
      var k := FirstNonSpace(s[1..]);
      assert s[..k + 1] == [s[0]] + s[1..][..k];
      k + 1
  }

  /** find_last_not_of(' '), with -1 standing for npos. */
  function LastNonSpace(s: string): (k: int)
    ensures -1 <= k < |s|
    ensures AllSpaces(s[k + 1..])
    ensures k >= 0 ==> s[k] != ' '
  {
    LastNonSpaceBelow(s, |s|)
  }

  /** The last index below n that does not hold a space, scanning down. */
  function LastNonSpaceBelow(s: string, n: nat): (k: int)
    requires n <= |s|
    ensures -1 <= k < n
    ensures forall i :: k < i < n ==> s[i] == ' '
    ensures k >= 0 ==> s[k] != ' '
  {
    if n == 0 then -1
    else if s[n - 1] != ' ' then n - 1
    else LastNonSpaceBelow(s, n - 1)
  }

  /** r occurs in s at k with only spaces before and after it. */
  predicate PaddedAt(s: string, r: string, k: int) {
    0 <= k && k + |r| <= |s| && s[k..k + |r|] == r && AllSpaces(s[..k]) && AllSpaces(s[k + |r|..])
  }

  /** s is r with nothing but spaces added before and after it. */
  ghost predicate PaddedWithSpaces(s: string, r: string) {
    exists k :: PaddedAt(s, r, k)
  }

  /** When s has a non-space character, the first one comes no later than the last one. */
  lemma NonSpaceBounds(s: string)
    requires FirstNonSpace(s) < |s|
    ensures FirstNonSpace(s) <= LastNonSpace(s)
  {
    var first, last := FirstNonSpace(s), LastNonSpace(s);
    forall i | last < i < |s|
      ensures s[i] == ' '
    {
      assert s[last + 1..][i - (last + 1)] == s[i];
    }
  }

  lemma PaddedSlice(s: string, first: nat, last: nat)
    requires first <= last < |s| && AllSpaces(s[..first]) && AllSpaces(s[last + 1..])
    ensures PaddedAt(s, s[first..last + 1], first)
  {
    var r := s[first..last + 1];
    assert first + |r| == last + 1;
  }

  /** The pieces trim cuts a string with a non-space character into. */
  lemma TrimPieces(s: string)
    requires FirstNonSpace(s) < |s|
    ensures FirstNonSpace(s) <= LastNonSpace(s)
    ensures s[FirstNonSpace(s)] != ' ' && s[LastNonSpace(s)] != ' '
    ensures PaddedAt(s, s[FirstNonSpace(s)..LastNonSpace(s) + 1], FirstNonSpace(s))
  {
    NonSpaceBounds(s);
    PaddedSlice(s, FirstNonSpace(s), LastNonSpace(s));
  }

  lemma AllSpacesIffNoFirst(s: string)
    ensures AllSpaces(s) <==> FirstNonSpace(s) == |s|
  {
    if FirstNonSpace(s) == |s| {
      assert s[..|s|] == s;
    }
  }

  /** Utils::trim: strips leading and trailing ' ' only; an empty or
      all-space string comes back unchanged. */
  function Trim(s: string): (r: string)
    ensures AllSpaces(s) ==> r == s
    ensures !AllSpaces(s) ==> |r| > 0 && r[0] != ' ' && r[|r| - 1] != ' '
    ensures PaddedWithSpaces(s, r)
  {
    AllSpacesIffNoFirst(s);
    var first := FirstNonSpace(s);
    if first == |s| then
      assert PaddedAt(s, s, 0);
      s
    else
      TrimPieces(s);
      var last := LastNonSpace(s);
      var r := s[first..last + 1];
      assert r[0] == s[first] && r[|r| - 1] == s[last];
      assert PaddedAt(s, r, first);
      r
  }

  lemma TrimIdempotent(s: string)
    ensures Trim(Trim(s)) == Trim(s)
  {
    var r := Trim(s);
    if !AllSpaces(s) {
      assert FirstNonSpace(r) == 0;
      assert LastNonSpace(r) == |r| - 1;
      assert r[0..|r|] == r;
    }
  }

  // ------------------------------------------------------------------ split

  /** The characters of s other than c, in order. */
  function Without(s: string, c: char): (r: string)
    ensures c !in r
  {
    if s == [] then [] else (if s[0] == c then [] else [s[0]]) + Without(s[1..], c)
  }

  function Concat(ss: seq<string>): string {
    if ss == [] then [] else ss[0] + Concat(ss[1..])
  }

  /** The tokens the loop of Utils::split still produces when the rest of
      the input is s and the token under construction is token. */
  function SplitFrom(s: string, delim: char, token: string): seq<string>
    decreases |s|
  {
    if s == [] then
      (if token == [] then [] else [token])
    else if s[0] == delim then
      (if token == [] then [] else [token]) + SplitFrom(s[1..], delim, [])
    else
      SplitFrom(s[1..], delim, token + [s[0]])
  }

  predicate ProperTokens(tokens: seq<string>, delim: char) {
    forall i :: 0 <= i < |tokens| ==> tokens[i] != [] && delim !in tokens[i]
  }

  lemma {:induction false} SplitFromProperties(s: string, delim: char, token: string)
    requires delim !in token
    ensures ProperTokens(SplitFrom(s, delim, token), delim)
    ensures Concat(SplitFrom(s, delim, token)) == token + Without(s, delim)
    decreases |s|
  {
    if s == [] {
    } else if s[0] == delim {
      SplitFromProperties(s[1..], delim, []);
      var rest := SplitFrom(s[1..], delim, []);
      assert Without(s, delim) == Without(s[1..], delim);
      if token == [] {
        assert SplitFrom(s, delim, token) == rest;
      } else {
        assert SplitFrom(s, delim, token) == [token] + rest;
        assert Concat([token] + rest) == token + Concat(rest) by {
          assert ([token] + rest)[1..] == rest;
        }
      }
    } else {
      SplitFromProperties(s[1..], delim, token + [s[0]]);
      assert token + [s[0]] + Without(s[1..], delim) == token + Without(s, delim);
    }
  }

  /** Utils::split: the maximal runs of characters other than delim, in
      order; empty tokens are dropped. */
  function Split(s: string, delim: char): (tokens: seq<string>)
    ensures ProperTokens(tokens, delim)
    ensures Concat(tokens) == Without(s, delim)
  {
    SplitFromProperties(s, delim, []);
    SplitFrom(s, delim, [])
  }

  /** The loop of Utils::split. */
  method SplitLoop(str: string, delimiter: char) returns (tokens: seq<string>)
    ensures tokens == Split(str, delimiter)
  {
    tokens := [];
    var token: string := [];
    var i := 0;
    while i < |str|
      invariant 0 <= i <= |str|
      invariant tokens + SplitFrom(str[i..], delimiter, token) == Split(str, delimiter)
    {
      var ch := str[i];
      assert str[i..][1..] == str[i + 1..];
      if ch == delimiter {
        if token != [] {
          tokens := tokens + [token];
          token := [];
        }
      } else {
        token := token + [ch];
      }
      i := i + 1;
    }
    if token != [] {
      tokens := tokens + [token];
    }
  }

  /** Leading spaces are dropped by split: splitting after trimming gives
      the same tokens as splitting the raw input. */
  lemma {:induction false} SplitFromSkipsSpaces(s: string, n: nat)
    requires n <= |s| && AllSpaces(s[..n])
    ensures SplitFrom(s, ' ', []) == SplitFrom(s[n..], ' ', [])
    decreases n
  {
    if n > 0 {
      assert s[0] == s[..n][0];
      assert s[1..][..n - 1] == s[..n][1..];
      SplitFromSkipsSpaces(s[1..], n - 1);
      assert s[1..][n - 1..] == s[n..];
    }
  }

  lemma {:induction false} SplitFromTrailingSpaces(s: string, t: string, token: string)
    requires AllSpaces(t)
    ensures SplitFrom(s + t, ' ', token) == SplitFrom(s, ' ', token)
    decreases |s|
  {
    if s == [] {
      assert s + t == t;
      TrailingSpacesEmit(t, token);
    } else {
      assert (s + t)[1..] == s[1..] + t;
      if s[0] == ' ' {
        SplitFromTrailingSpaces(s[1..], t, []);
      } else {
        SplitFromTrailingSpaces(s[1..], t, token + [s[0]]);
      }
    }
  }

  lemma {:induction false} TrailingSpacesEmit(t: string, token: string)
    requires AllSpaces(t)
    ensures SplitFrom(t, ' ', token) == (if token == [] then [] else [token])
    decreases |t|
  {
    if t != [] {
      TrailingSpacesEmit(t[1..], []);
    }
  }

  /** Splitting on spaces ignores the spaces a string is padded with. */
  lemma SplitPadded(s: string, r: string, k: int)
    requires PaddedAt(s, r, k)
    ensures Split(r, ' ') == Split(s, ' ')
  {
    var tail := s[k + |r|..];
    assert s[k..] == r + tail;
    calc {
      Split(s, ' ');
      SplitFrom(s, ' ', []);
      { SplitFromSkipsSpaces(s, k); }
      SplitFrom(s[k..], ' ', []);
      SplitFrom(r + tail, ' ', []);
      { SplitFromTrailingSpaces(r, tail, []); }
      SplitFrom(r, ' ', []);
      Split(r, ' ');
    }
  }

  lemma SplitTrim(s: string)
    ensures Split(Trim(s), ' ') == Split(s, ' ')
  {
    var k :| PaddedAt(s, Trim(s), k);
    SplitPadded(s, Trim(s), k);
  }

  /** A delimiter separates the tokens before it from those after it. */
  lemma {:induction false} SplitFromAtDelim(s: string, t: string, delim: char, token: string)
    ensures SplitFrom(s + [delim] + t, delim, token) == SplitFrom(s, delim, token) + SplitFrom(t, delim, [])
    decreases |s|
  {
    var u := s + [delim] + t;
    if s == [] {
      assert u[0] == delim && u[1..] == t;
    } else {
      assert u[0] == s[0] && u[1..] == s[1..] + [delim] + t;
      if s[0] == delim {
        SplitFromAtDelim(s[1..], t, delim, []);
      } else {
        SplitFromAtDelim(s[1..], t, delim, token + [s[0]]);
      }
    }
  }

  /** The tokens of split are the maximal runs of other characters: a
      delimiter always ends a token, and a non-empty run without one is a
      single token. Together the two equations determine Split. */
  lemma SplitAtDelim(s: string, t: string, delim: char)
    ensures Split(s + [delim] + t, delim) == Split(s, delim) + Split(t, delim)
  {
    SplitFromAtDelim(s, t, delim, []);
  }

  lemma SplitRun(s: string, delim: char)
    requires s != [] && delim !in s
    ensures Split(s, delim) == [s]
  {
    SplitFromToken(s, [], delim, []);
    assert s + [] == s && [] + s == s;
  }

  // ------------------------------------------------------------------- join

  /** Concatenation read from the back: all but the last element, then the last. */
  lemma {:induction false} ConcatSnoc(v: seq<string>)
    requires |v| > 0
    ensures Concat(v) == Concat(v[..|v| - 1]) + v[|v| - 1]
    decreases |v|
  {
    if |v| > 1 {
      assert v[1..][..|v| - 2] == v[..|v| - 1][1..];
      ConcatSnoc(v[1..]);
    }
  }

  /** Utils::join: the elements with delim between each consecutive pair;
      with an empty delimiter it is plain concatenation. */
  function Join(v: seq<string>, delim: string): (r: string)
    ensures delim == "" ==> r == Concat(v)
  {
    if |v| == 0 then ""
    else if |v| == 1 then v[0]
    else
      ConcatSnoc(v);
      Join(v[..|v| - 1], delim) + delim + v[|v| - 1]
  }

  /** A join is as long as its elements together plus one delimiter per gap. */
  lemma {:induction false} JoinLength(v: seq<string>, delim: string)
    requires |v| > 0
    ensures |Join(v, delim)| == |Concat(v)| + (|v| - 1) * |delim|
    decreases |v|
  {
    if |v| > 1 {
      JoinLength(v[..|v| - 1], delim);
      ConcatSnoc(v);
      assert (|v| - 2) * |delim| + |delim| == (|v| - 1) * |delim|;
    } else {
      assert Concat(v) == v[0] + Concat([]);
    }
  }

  /** The same join read from the front: the first element, a delimiter,
      and the join of the rest. */
  lemma {:induction false} JoinCons(x: string, v: seq<string>, delim: string)
    requires |v| > 0
    ensures Join([x] + v, delim) == x + delim + Join(v, delim)
    decreases |v|
  {
    var w := [x] + v;
    if |v| > 1 {
      assert w[..|w| - 1] == [x] + v[..|v| - 1];
      JoinCons(x, v[..|v| - 1], delim);
    }
  }

  /** The loop of Utils::join. */
  method JoinLoop(vec: seq<string>, delimiter: string) returns (result: string)
    ensures result == Join(vec, delimiter)
  {
    result := "";
    var i := 0;
    while i < |vec|
      invariant 0 <= i <= |vec|
      invariant result == Join(vec[..i], delimiter) + (if 0 < i < |vec| then delimiter else "")
    {
      assert vec[..i + 1][..i] == vec[..i];
      result := result + vec[i];
      if i < |vec| - 1 {
        result := result + delimiter;
      }
      i := i + 1;
    }
    assert vec[..|vec|] == vec;
  }

  /** Splitting a join of proper tokens on the same single-character
      delimiter gives the tokens back. */
  lemma {:induction false} SplitJoin(v: seq<string>, delim: char)
    requires ProperTokens(v, delim)
    ensures Split(Join(v, [delim]), delim) == v
    decreases |v|
  {
    if |v| == 1 {
      SplitFromToken(v[0], [], delim, []);
      assert v[0] + [] == v[0] && [] + v[0] == v[0];
    } else if |v| > 1 {
      var rest := Join(v[1..], [delim]);
      JoinCons(v[0], v[1..], [delim]);
      assert [v[0]] + v[1..] == v;
      assert Join(v, [delim]) == v[0] + ([delim] + rest);
      SplitFromToken(v[0], [], delim, [delim] + rest);
      assert [] + v[0] == v[0];
      SplitFromDelim(rest, delim, v[0]);
      SplitJoin(v[1..], delim);
    }
  }

  /** A delimiter ends a non-empty token under construction. */
  lemma SplitFromDelim(rest: string, delim: char, token: string)
    requires token != []
    ensures SplitFrom([delim] + rest, delim, token) == [token] + SplitFrom(rest, delim, [])
  {
    assert ([delim] + rest)[1..] == rest;
  }

  /** Reading a run of non-delimiter characters extends the current token. */
  lemma {:induction false} SplitFromToken(t: string, token: string, delim: char, rest: string)
    requires delim !in t
    ensures SplitFrom(t + rest, delim, token) == SplitFrom(rest, delim, token + t)
    decreases |t|
  {
    if t != [] {
      assert (t + rest)[1..] == t[1..] + rest;
      assert token + [t[0]] + t[1..] == token + t;
      SplitFromToken(t[1..], token + [t[0]], delim, rest);
    } else {
      assert t + rest == rest;
      assert token + t == token;
    }
  }

  /** A string with no leading, trailing or doubled spaces. */
  ghost predicate SingleSpaced(s: string) {
    (|s| > 0 ==> s[0] != ' ' && s[|s| - 1] != ' ')
    && forall i, j :: 0 <= i < j < |s| && j == i + 1 ==> s[i] != ' ' || s[j] != ' '
  }

  /** Joining the tokens of a single-spaced string with " " gives the string back. */
  lemma JoinSplit(s: string)
    requires SingleSpaced(s)
    ensures Join(Split(s, ' '), " ") == s
  {
    JoinSplitFrom(s);
  }

  lemma {:induction false} JoinSplitFrom(s: string)
    requires SingleSpaced(s)
    ensures Join(SplitFrom(s, ' ', []), " ") == s
    decreases |s|
  {
    var f := Find(s, " ");
    if f.None? {
      SpaceFreePrefix(s, |s|);
      assert s[..|s|] == s;
      SplitFromToken(s, [], ' ', []);
      assert s + [] == s && [] + s == s;
    } else {
      var k := f.value;
      assert s[k..k + 1] == " ";
      SpaceFreePrefix(s, k);
      SingleSpacedAfterSpace(s, k);
      var word, t := s[..k], s[k + 1..];
      SplitAtSpace(s, k);
      JoinSplitFrom(t);
      SplitFromNonEmpty(t);
      JoinCons(word, SplitFrom(t, ' ', []), " ");
      assert s == word + " " + t;
    }
  }

  /** A space after a non-empty run of other characters ends the first token. */
  lemma SplitAtSpace(s: string, k: nat)
    requires 0 < k < |s| && s[k] == ' ' && ' ' !in s[..k]
    ensures SplitFrom(s, ' ', []) == [s[..k]] + SplitFrom(s[k + 1..], ' ', [])
  {
    var word, t := s[..k], s[k + 1..];
    calc {
      SplitFrom(s, ' ', []);
      { assert s[k..] == [' '] + t by { assert s[k..][1..] == t; }
        assert s == word + s[k..]; }
      SplitFrom(word + ([' '] + t), ' ', []);
      { SplitFromToken(word, [], ' ', [' '] + t); assert [] + word == word; }
      SplitFrom([' '] + t, ' ', word);
      { SplitFromDelim(t, ' ', word); }
      [word] + SplitFrom(t, ' ', []);
    }
  }

  /** No space lies before the first place " " occurs. */
  lemma SpaceFreePrefix(s: string, k: nat)
    requires k <= |s|
    requires forall j :: 0 <= j < k ==> !OccursAt(s, " ", j)
    ensures ' ' !in s[..k]
  {
    forall j | 0 <= j < k
      ensures s[j] != ' '
    {
      assert !OccursAt(s, " ", j);
      assert s[j..j + 1] == [s[j]];
    }
  }

  /** In a single-spaced string a space is preceded and followed by a
      non-space, and what follows it is single-spaced again. */
  lemma SingleSpacedAfterSpace(u: string, k: nat)
    requires SingleSpaced(u) && k < |u| && u[k] == ' '
    ensures 0 < k < |u| - 1 && u[k + 1] != ' '
    ensures SingleSpaced(u[k + 1..])
  {
    var t := u[k + 1..];
    assert u[k - 1] == u[k - 1];
    assert u[k + 1] == u[k + 1];
    forall i, j | 0 <= i < j < |t| && j == i + 1
      ensures t[i] != ' ' || t[j] != ' '
    {
      assert u[k + 1 + i] == t[i] && u[k + 1 + j] == t[j];
    }
  }

  lemma SplitFromNonEmpty(t: string)
    requires t != [] && t[0] != ' '
    ensures SplitFrom(t, ' ', []) != []
  {
    SplitFromProperties(t, ' ', []);
    assert Without(t, ' ') != [];
  }

  // --------------------------------------------------------------- contains

  predicate OccursAt(s: string, sub: string, i: int) {
    0 <= i && i + |sub| <= |s| && s[i..i + |sub|] == sub
  }

  /** std::string::find(sub, from): the first position at or after from
      where sub occurs, None standing for npos. */
  function FindFrom(s: string, sub: string, from: nat): (r: Option<nat>)
    ensures r.Some? ==> from <= r.value && OccursAt(s, sub, r.value)
    ensures r.Some? ==> forall j :: from <= j < r.value ==> !OccursAt(s, sub, j)
    ensures r.None? ==> forall j :: from <= j ==> !OccursAt(s, sub, j)
    decreases |s| - from
  {
    if from + |sub| > |s| then None
    else if s[from..from + |sub|] == sub then Some(from)
    else FindFrom(s, sub, from + 1)
  }

  function Find(s: string, sub: string): Option<nat> {
    FindFrom(s, sub, 0)
  }

  /** Utils::contains: find does not answer npos exactly when sub occurs
      somewhere in str. */
  predicate Contains(str: string, sub: string): (b: bool)
    ensures b <==> exists i :: OccursAt(str, sub, i)
  {
    Find(str, sub).Some?
  }

  lemma ContainsEmpty(str: string)
    ensures Contains(str, "")
  {
    assert OccursAt(str, "", 0);
  }
}
