// JavaScript string operations, on sequences of characters.
module Text {
  import opened Basics

  predicate OccursAt(pat: string, s: string, j: int) {
    0 <= j && j + |pat| <= |s| && s[j..j + |pat|] == pat
  }

  // s.indexOf(pat)
  function Find(pat: string, s: string): (at: Option<nat>)
    ensures at.Some? ==> at.value + |pat| <= |s|
  {
    FindFrom(pat, s, 0)
  }

  function FindFrom(pat: string, s: string, from: nat): (at: Option<nat>)
    ensures at.Some? ==> from <= at.value && at.value + |pat| <= |s|
    decreases |s| - from
  {
    if |s| < from + |pat| then None
    else if OccursAt(pat, s, from) || from == |s| then Some(from)
    else FindFrom(pat, s, from + 1)
  }

  // What is found is an occurrence, and the first one.
  lemma {:induction false} FindFromIsFirst(pat: string, s: string, from: nat)
    ensures FindFrom(pat, s, from).Some? ==> OccursAt(pat, s, FindFrom(pat, s, from).value)
    ensures FindFrom(pat, s, from).Some? ==>
              forall j :: from <= j < FindFrom(pat, s, from).value ==> !OccursAt(pat, s, j)
    ensures FindFrom(pat, s, from).None? ==> forall j :: from <= j ==> !OccursAt(pat, s, j)
    decreases |s| - from
  {
    if from + |pat| <= |s| && !OccursAt(pat, s, from) && from != |s| {
      FindFromIsFirst(pat, s, from + 1);
    }
  }

  lemma FindSpec(pat: string, s: string)
    ensures Find(pat, s).Some? ==> OccursAt(pat, s, Find(pat, s).value)
    ensures Find(pat, s).Some? ==> forall j :: 0 <= j < Find(pat, s).value ==> !OccursAt(pat, s, j)
    ensures Find(pat, s).None? ==> forall j :: !OccursAt(pat, s, j)
  {
    FindFromIsFirst(pat, s, 0);
  }

  // The first occurrence is the only index with these two properties.
  lemma FindIs(pat: string, s: string, k: nat)
    requires OccursAt(pat, s, k) && forall j :: 0 <= j < k ==> !OccursAt(pat, s, j)
    ensures Find(pat, s) == Some(k)
  {
    FindSpec(pat, s);
  }

  lemma FindNone(pat: string, s: string)
    requires forall j :: !OccursAt(pat, s, j)
    ensures Find(pat, s).None?
  {
    FindSpec(pat, s);
  }

  // Some occurrence of pat starts in s and ends in t.
  ghost predicate Straddles(pat: string, s: string, t: string) {
    exists j :: j < |s| && |s| < j + |pat| && OccursAt(pat, s + t, j)
  }

  lemma OccursInPrefix(pat: string, s: string, t: string, j: int)
    requires 0 <= j && j + |pat| <= |s|
    ensures OccursAt(pat, s + t, j) <==> OccursAt(pat, s, j)
  {
    assert (s + t)[j..j + |pat|] == s[j..j + |pat|];
  }

  lemma OccursInSuffix(pat: string, s: string, t: string, j: int)
    requires |s| <= j
    ensures OccursAt(pat, s + t, j) <==> OccursAt(pat, t, j - |s|)
  {
    if j + |pat| <= |s + t| {
      assert (s + t)[j..j + |pat|] == t[j - |s|..j - |s| + |pat|];
    }
  }

  // An occurrence in the first part is found whatever follows.
  lemma FindInFirst(pat: string, s: string, t: string)
    requires Find(pat, s).Some?
    ensures Find(pat, s + t) == Find(pat, s)
  {
    FindSpec(pat, s);
    var k := Find(pat, s).value;
    OccursInPrefix(pat, s, t, k);
    forall j | 0 <= j < k ensures !OccursAt(pat, s + t, j) { OccursInPrefix(pat, s, t, j); }
    FindIs(pat, s + t, k);
  }

  // Without an occurrence in the first part or across the cut, the search goes on in
  // the second part.
  lemma FindInSecond(pat: string, s: string, t: string)
    requires Find(pat, s).None? && !Straddles(pat, s, t) && pat != ""
    ensures Find(pat, s + t) == if Find(pat, t).None? then None else Some(|s| + Find(pat, t).value)
  {
    FindSpec(pat, s);
    FindSpec(pat, t);
    forall j | 0 <= j < |s| ensures !OccursAt(pat, s + t, j) {
      if j + |pat| <= |s| { OccursInPrefix(pat, s, t, j); }
    }
    if Find(pat, t).Some? {
      var k := Find(pat, t).value;
      OccursInSuffix(pat, s, t, |s| + k);
      forall j | 0 <= j < |s| + k ensures !OccursAt(pat, s + t, j) {
        if |s| <= j { OccursInSuffix(pat, s, t, j); }
      }
      FindIs(pat, s + t, |s| + k);
    } else {
      forall j ensures !OccursAt(pat, s + t, j) {
        if |s| <= j { OccursInSuffix(pat, s, t, j); }
      }
      FindNone(pat, s + t);
    }
  }

  lemma CutBehind(s: string, t: string, n: nat)
    requires n <= |t|
    ensures (s + t)[..|s| + n] == s + t[..n] && (s + t)[|s| + n..] == t[n..]
  {
  }

  lemma SliceOfSlice(s: string, a: nat, b: nat, i: nat, j: nat)
    requires a <= b <= |s| && i <= j <= b - a
    ensures s[a..b][i..j] == s[a + i..a + j]
  {
    assert forall k :: 0 <= k < j - i ==> s[a..b][i..j][k] == s[a + i..a + j][k];
  }

  // Nothing is found in a part of a text that does not contain it.
  lemma FindInPart(pat: string, s: string, a: nat, b: nat)
    requires a <= b <= |s| && Find(pat, s).None?
    ensures Find(pat, s[a..b]).None?
  {
    FindSpec(pat, s);
    forall j ensures !OccursAt(pat, s[a..b], j) {
      if 0 <= j && j + |pat| <= b - a {
        assert !OccursAt(pat, s, a + j);
        SliceOfSlice(s, a, b, j, j + |pat|);
      }
    }
    FindNone(pat, s[a..b]);
  }

  // A marker whose first character occurs nowhere else in it cannot overlap itself.
  lemma FindAtEnd(pat: string, s: string)
    requires Find(pat, s).None?
    requires pat != "" && forall i :: 0 < i < |pat| ==> pat[i] != pat[0]
    ensures Find(pat, s + pat) == Some(|s|)
  {
    var t := s + pat;
    FindSpec(pat, s);
    forall j | 0 <= j < |s| ensures !OccursAt(pat, t, j) {
      if j + |pat| <= |s| {
        OccursInPrefix(pat, s, pat, j);
      } else if j + |pat| <= |t| {
        assert t[j..j + |pat|][|s| - j] == t[|s|] == pat[0];
      }
    }
    assert t[|s|..|s| + |pat|] == pat;
    FindIs(pat, t, |s|);
  }

  lemma StraddlesSuffix(pat: string, s: string, t: string, n: nat)
    requires n <= |s| && Straddles(pat, s[n..], t)
    ensures Straddles(pat, s, t)
  {
    var j :| j < |s[n..]| && |s[n..]| < j + |pat| && OccursAt(pat, s[n..] + t, j);
    assert s + t == s[..n] + (s[n..] + t);
    OccursInSuffix(pat, s[..n], s[n..] + t, n + j);
    assert OccursAt(pat, s + t, n + j);
  }

  // v.lastIndexOf(c, from): the search position is clamped into the string first.
  function LastIndexOf(c: char, v: string, from: int): (k: int)
    ensures -1 <= k < |v| && k <= Max(from, 0)
    ensures k >= 0 ==> v[k] == c
    ensures forall j :: k < j < |v| && j <= Max(from, 0) ==> v[j] != c
  {
    LastAtOrBefore(c, v, Min(Max(from, 0), |v| - 1))
  }

  function LastAtOrBefore(c: char, v: string, from: int): (k: int)
    requires from < |v|
    ensures -1 <= k <= Max(from, -1)
    ensures k >= 0 ==> v[k] == c
    ensures forall j :: k < j <= from && 0 <= j ==> v[j] != c
    decreases from + 1
  {
    if from < 0 then -1
    else if v[from] == c then from
    else LastAtOrBefore(c, v, from - 1)
  }

  // v.indexOf(c, from), or the length when there is none.
  function NextOrEnd(c: char, v: string, from: nat): (k: nat)
    requires from <= |v|
    ensures from <= k <= |v|
    ensures k < |v| ==> v[k] == c
    ensures forall j :: from <= j < k ==> v[j] != c
    decreases |v| - from
  {
    if from == |v| || v[from] == c then from else NextOrEnd(c, v, from + 1)
  }

  lemma FirstNewline(line: string, rest: string)
    requires '\n' !in line
    ensures NextOrEnd('\n', line + "\n" + rest, 0) == |line|
  {
    var s := line + "\n" + rest;
    assert s[|line|] == '\n';
    assert forall j :: 0 <= j < |line| ==> s[j] == line[j];
  }

  // The characters String.prototype.trim removes.
  predicate IsSpace(c: char) {
    || c in {'\t', '\n', '\U{0B}', '\U{0C}', '\r', ' ', '\U{A0}', '\U{1680}'}
    || '\U{2000}' <= c <= '\U{200A}'
    || c in {'\U{2028}', '\U{2029}', '\U{202F}', '\U{205F}', '\U{3000}', '\U{FEFF}'}
  }

  function TrimStart(s: string): string {
    if s != "" && IsSpace(s[0]) then TrimStart(s[1..]) else s
  }

  function TrimEnd(s: string): string {
    if s != "" && IsSpace(s[|s| - 1]) then TrimEnd(s[..|s| - 1]) else s
  }

  function Trim(s: string): string {
    TrimEnd(TrimStart(s))
  }

  ghost predicate Blank(s: string) {
    forall i :: 0 <= i < |s| ==> IsSpace(s[i])
  }

  lemma {:induction false} TrimStartStrips(a: string, t: string)
    requires Blank(a) && (t == "" || !IsSpace(t[0]))
    ensures TrimStart(a + t) == t
  {
    if a == "" {
      assert a + t == t;
    } else {
      assert (a + t)[0] == a[0] && (a + t)[1..] == a[1..] + t;
      TrimStartStrips(a[1..], t);
    }
  }

  lemma {:induction false} TrimEndStrips(t: string, b: string)
    requires Blank(b) && (t == "" || !IsSpace(t[|t| - 1]))
    ensures TrimEnd(t + b) == t
  {
    if b == "" {
      assert t + b == t;
    } else {
      assert (t + b)[..|t + b| - 1] == t + b[..|b| - 1];
      TrimEndStrips(t, b[..|b| - 1]);
    }
  }

  // Trimming removes the space around a text and nothing else.
  lemma TrimStrips(a: string, t: string, b: string)
    requires Blank(a) && Blank(b) && t != "" && !IsSpace(t[0]) && !IsSpace(t[|t| - 1])
    ensures Trim(a + t + b) == t
  {
    assert a + t + b == a + (t + b) && (t + b)[0] == t[0];
    TrimStartStrips(a, t + b);
    TrimEndStrips(t, b);
  }

  lemma TrimBlank(a: string)
    requires Blank(a)
    ensures Trim(a) == ""
  {
    assert a + "" == a;
    TrimStartStrips(a, "");
  }

  function Concat(parts: seq<string>): string {
    if parts == [] then "" else parts[0] + Concat(parts[1..])
  }
}
