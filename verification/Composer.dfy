// src/tui/composer.ts: the raw-terminal line editor of the prompt composer.
module Composer {
  import opened Basics
  import opened Text

  const PASTE_START := "\U{1B}[200~"
  const PASTE_END := "\U{1B}[201~"
  const ESC := '\U{1B}'

  datatype ComposerState = ComposerState(value: string, cursor: nat, pasting: bool)
  datatype ComposerResult = ComposerResult(state: ComposerState, submit: bool, cancel: bool)

  predicate Valid(s: ComposerState) {
    s.cursor <= |s.value|
  }

  function Insert(s: ComposerState, t: string): (r: ComposerState)
    requires Valid(s)
    ensures Valid(r) && r.pasting == s.pasting
  {
    s.(value := s.value[..s.cursor] + t + s.value[s.cursor..], cursor := s.cursor + |t|)
  }

  lemma InsertTwice(s: ComposerState, t: string, u: string)
    requires Valid(s)
    ensures Insert(Insert(s, t), u) == Insert(s, t + u)
  {
    var mid := Insert(s, t).value;
    assert mid[..s.cursor + |t|] == s.value[..s.cursor] + t;
    assert mid[s.cursor + |t|..] == s.value[s.cursor..];
  }

  lemma InsertNothing(s: ComposerState)
    requires Valid(s)
    ensures Insert(s, "") == s
  {
  }

  function LineStartOf(v: string, cur: nat): (p: nat)
    requires cur <= |v|
    ensures p <= |v|
  {
    LastIndexOf('\n', v, cur - 1) + 1
  }

  function LineEndOf(v: string, cur: nat): nat
    requires cur <= |v|
  {
    NextOrEnd('\n', v, cur)
  }

  function Up(s: ComposerState): (r: ComposerState)
    requires Valid(s)
    ensures Valid(r) && r.value == s.value
  {
    var ls := LineStartOf(s.value, s.cursor);
    var col := s.cursor - ls;
    if ls > 0 then
      assert col < 0 ==> s.cursor == 0 && ls == 1;
      s.(cursor := Min(LineStartOf(s.value, ls - 1) + col, ls - 1))
    else s
  }

  function Down(s: ComposerState): (r: ComposerState)
    requires Valid(s)
    ensures Valid(r) && r.value == s.value
  {
    var ls := LineStartOf(s.value, s.cursor);
    var col := s.cursor - ls;
    var le := LineEndOf(s.value, s.cursor);
    if le < |s.value| then
      s.(cursor := Min(le + 1 + col, LineEndOf(s.value, le + 1)))
    else s
  }

  function Backspace(s: ComposerState): (r: ComposerState)
    requires Valid(s)
    ensures Valid(r)
  {
    if s.cursor > 0 then
      s.(value := s.value[..s.cursor - 1] + s.value[s.cursor..], cursor := s.cursor - 1)
    else s
  }

  // The keys the editor knows.
  datatype Key =
    | StartPaste | Enter | Newline | Right | Left | UpKey | DownKey | Escape | Erase | Home | EndOfLine
    | Interrupt | Type(c: char) | Ignored

  // The first key of some typed bytes.
  function ParseKey(data: string): Key
    requires data != ""
  {
    var c := data[0];
    if PASTE_START <= data then StartPaste
    else if c == '\r' || c == '\n' then Enter
    else if c == ESC then
      if [ESC, '\r'] <= data || [ESC, '\n'] <= data then Newline
      else if [ESC, '[', 'C'] <= data then Right
      else if [ESC, '[', 'D'] <= data then Left
      else if [ESC, '[', 'A'] <= data then UpKey
      else if [ESC, '[', 'B'] <= data then DownKey
      else Escape
    else if c == '\U{7F}' || c == '\U{08}' then Erase
    else if c == '\U{01}' then Home
    else if c == '\U{05}' then EndOfLine
    else if c == '\U{03}' then Interrupt
    else if c >= ' ' then Type(c)
    else Ignored
  }

  function Length(k: Key): nat {
    match k
    case StartPaste => |PASTE_START|
    case Newline => 2
    case Right => 3
    case Left => 3
    case UpKey => 3
    case DownKey => 3
    case _ => 1
  }

  predicate EndsPrompt(k: Key) {
    k == Enter || k == Escape || k == Interrupt
  }

  function Press(s: ComposerState, k: Key): (r: ComposerState)
    requires Valid(s)
    ensures Valid(r)
  {
    match k
    case StartPaste => s.(pasting := true)
    case Newline => Insert(s, "\n")
    case Right => s.(cursor := Min(|s.value|, s.cursor + 1))
    case Left => s.(cursor := Max(0, s.cursor - 1))
    case UpKey => Up(s)
    case DownKey => Down(s)
    case Erase => Backspace(s)
    case Home => s.(cursor := LineStartOf(s.value, s.cursor))
    case EndOfLine => s.(cursor := LineEndOf(s.value, s.cursor))
    case Type(c) => Insert(s, [c])
    case _ => s
  }

  lemma KeyFits(data: string)
    requires data != ""
    ensures 0 < Length(ParseKey(data)) <= |data|
  {
  }

  // The editor as a function of the bytes it is fed. The cursor stays in the text.
  function Feed(s: ComposerState, data: string): (r: ComposerResult)
    requires Valid(s)
    ensures Valid(r.state)
    decreases |data|, 1
  {
    if data == "" then ComposerResult(s, false, false)
    else if s.pasting then FeedPaste(s, data)
    else FeedKey(s, data)
  }

  function FeedPaste(s: ComposerState, data: string): (r: ComposerResult)
    requires Valid(s) && data != ""
    ensures Valid(r.state)
    decreases |data|, 0
  {
    match Find(PASTE_END, data)
    case None => ComposerResult(Insert(s, data), false, false)
    case Some(end) => Feed(Insert(s, data[..end]).(pasting := false), data[end + |PASTE_END|..])
  }

  function FeedKey(s: ComposerState, data: string): (r: ComposerResult)
    requires Valid(s) && data != ""
    ensures Valid(r.state)
    decreases |data|, 0
  {
    var key := ParseKey(data);
    KeyFits(data);
    if EndsPrompt(key) then ComposerResult(s, key == Enter, key != Enter)
    else Feed(Press(s, key), data[Length(key)..])
  }

  lemma FeedNothing(s: ComposerState)
    requires Valid(s)
    ensures Feed(s, "") == ComposerResult(s, false, false)
  {
  }

  lemma FeedPasting(s: ComposerState, data: string)
    requires Valid(s) && s.pasting && data != ""
    ensures Find(PASTE_END, data).None? ==> Feed(s, data) == ComposerResult(Insert(s, data), false, false)
    ensures Find(PASTE_END, data).Some? ==>
              var end := Find(PASTE_END, data).value;
              Feed(s, data) == Feed(Insert(s, data[..end]).(pasting := false), data[end + |PASTE_END|..])
  {
    assert Feed(s, data) == FeedPaste(s, data);
  }

  // The same two equations, with the next state and the remaining bytes named.
  lemma FeedPastingTo(s: ComposerState, data: string, next: ComposerState, rest: string)
    requires Valid(s) && s.pasting && data != "" && Find(PASTE_END, data).Some?
    requires next == Insert(s, data[..Find(PASTE_END, data).value]).(pasting := false)
    requires rest == data[Find(PASTE_END, data).value + |PASTE_END|..]
    ensures Feed(s, data) == Feed(next, rest)
  {
    FeedPasting(s, data);
  }

  lemma FeedPastingAt(s: ComposerState, data: string, part: string, rest: string)
    requires Valid(s) && s.pasting && data != "" && Find(PASTE_END, data) == Some(|part|)
    requires part == data[..|part|] && rest == data[|part| + |PASTE_END|..]
    ensures Feed(s, data) == Feed(Insert(s, part).(pasting := false), rest)
  {
    FeedPasting(s, data);
  }

  lemma FeedTypingTo(s: ComposerState, data: string, next: ComposerState, rest: string)
    requires Valid(s) && !s.pasting && data != "" && !EndsPrompt(ParseKey(data))
    requires next == Press(s, ParseKey(data))
    requires Length(ParseKey(data)) <= |data| && rest == data[Length(ParseKey(data))..]
    ensures Feed(s, data) == Feed(next, rest)
  {
    FeedTyping(s, data);
  }

  lemma FeedTyping(s: ComposerState, data: string)
    requires Valid(s) && !s.pasting && data != ""
    ensures
      var key := ParseKey(data);
      && 0 < Length(key) <= |data|
      && Feed(s, data) == if EndsPrompt(key) then ComposerResult(s, key == Enter, key != Enter)
                          else Feed(Press(s, key), data[Length(key)..])
  {
    KeyFits(data);
    assert Feed(s, data) == FeedKey(s, data);
  }

  method ComposerStep(s: ComposerState, data: string) returns (r: ComposerResult)
    requires Valid(s)
    ensures r == Feed(s, data)
  {
    hide Feed, Find, LineStartOf, LineEndOf, Up, Down, Backspace, Insert;
    var st, submit, cancel := s, false, false;
    var i := 0;
    assert data[i..] == data;
    while i < |data|
      invariant 0 <= i <= |data| && Valid(st) && !submit && !cancel
      invariant Feed(st, data[i..]) == Feed(s, data)
      decreases |data| - i
    {
      var rest := data[i..];
      ghost var before := st;
      if st.pasting {
        var end := Find(PASTE_END, rest);
        if end.None? {
          FeedPasting(st, rest);
          st := Insert(st, rest);
          return ComposerResult(st, submit, cancel);
        }
        st := Insert(st, rest[..end.value]).(pasting := false);
        i := i + end.value + |PASTE_END|;
        assert rest[end.value + |PASTE_END|..] == data[i..];
        FeedPastingTo(before, rest, st, data[i..]);
        continue;
      }
      ghost var key := ParseKey(rest);
      ghost var j := i + Length(key);
      KeyFits(rest);
      assert rest[Length(key)..] == data[j..];
      var c := data[i];
      if PASTE_START <= rest {
        st := st.(pasting := true);
        i := i + |PASTE_START|;
      } else if c == '\r' || c == '\n' {
        FeedTyping(st, rest);
        submit := true;
        return ComposerResult(st, submit, cancel);
      } else if c == ESC {
        if [ESC, '\r'] <= rest || [ESC, '\n'] <= rest {
          st := Insert(st, "\n");
          i := i + 2;
        } else if [ESC, '[', 'C'] <= rest {
          st := st.(cursor := Min(|st.value|, st.cursor + 1));
          i := i + 3;
        } else if [ESC, '[', 'D'] <= rest {
          st := st.(cursor := Max(0, st.cursor - 1));
          i := i + 3;
        } else if [ESC, '[', 'A'] <= rest {
          st := Up(st);
          i := i + 3;
        } else if [ESC, '[', 'B'] <= rest {
          st := Down(st);
          i := i + 3;
        } else {
          FeedTyping(st, rest);
          cancel := true;
          return ComposerResult(st, submit, cancel);
        }
      } else if c == '\U{7F}' || c == '\U{08}' {
        st := Backspace(st);
        i := i + 1;
      } else if c == '\U{01}' {
        st := st.(cursor := LineStartOf(st.value, st.cursor));
        i := i + 1;
      } else if c == '\U{05}' {
        st := st.(cursor := LineEndOf(st.value, st.cursor));
        i := i + 1;
      } else if c == '\U{03}' {
        FeedTyping(st, rest);
        cancel := true;
        return ComposerResult(st, submit, cancel);
      } else if c >= ' ' {
        st := Insert(st, [c]);
        i := i + 1;
      } else {
        i := i + 1;
      }
      assert i == j && st == Press(before, key);
      FeedTypingTo(before, rest, st, data[i..]);
    }
    assert data[i..] == "";
    FeedNothing(st);
    return ComposerResult(st, submit, cancel);
  }

  // ---- Chunk boundaries do not matter ---------------------------------------------

  predicate Clean(r: ComposerResult) {
    !r.submit && !r.cancel
  }

  lemma PrefixesAgree(p: string, d1: string, d2: string)
    requires |p| <= |d1|
    ensures p <= d1 + d2 <==> p <= d1
  {
    assert (d1 + d2)[..|p|] == d1[..|p|];
  }

  // A key that is complete in the first chunk is the same key with more bytes behind it.
  lemma KeyIsLocal(d1: string, d2: string)
    requires d1 != "" && ParseKey(d1) != Escape
    ensures ParseKey(d1 + d2) == ParseKey(d1)
  {
    var d := d1 + d2;
    assert d[0] == d1[0];
    if d1[0] == ESC {
      assert |d1| > 1 && d[1] == d1[1];
      PrefixesAgree([ESC, '\r'], d1, d2);
      PrefixesAgree([ESC, '\n'], d1, d2);
      if d1[1] == '[' {
        assert |d1| > 2 && d[2] == d1[2];
        PrefixesAgree([ESC, '[', 'C'], d1, d2);
        PrefixesAgree([ESC, '[', 'D'], d1, d2);
        PrefixesAgree([ESC, '[', 'A'], d1, d2);
        PrefixesAgree([ESC, '[', 'B'], d1, d2);
      }
      if |PASTE_START| <= |d1| { PrefixesAgree(PASTE_START, d1, d2); }
    }
  }

  // A paste still open at the cut goes on in the second chunk.
  lemma PasteGoesOn(s: ComposerState, d1: string, d2: string)
    requires Valid(s) && s.pasting && d1 != "" && d2 != ""
    requires Find(PASTE_END, d1).None? && !Straddles(PASTE_END, d1, d2)
    ensures Feed(s, d1 + d2) == Feed(Insert(s, d1), d2)
  {
    FindInSecond(PASTE_END, d1, d2);
    if Find(PASTE_END, d2).None? {
      FeedPasting(s, d1 + d2);
      FeedPasting(Insert(s, d1), d2);
      InsertTwice(s, d1, d2);
    } else {
      PasteEndsInSecond(s, d1, d2);
    }
  }

  lemma PasteEndsInSecond(s: ComposerState, d1: string, d2: string)
    requires Valid(s) && s.pasting && d1 != "" && d2 != "" && Find(PASTE_END, d2).Some?
    requires Find(PASTE_END, d1 + d2) == Some(|d1| + Find(PASTE_END, d2).value)
    ensures Feed(s, d1 + d2) == Feed(Insert(s, d1), d2)
  {
    hide Find, Feed, Insert;
    var end := Find(PASTE_END, d2).value;
    var part, rest := d2[..end], d2[end + |PASTE_END|..];
    CutBehind(d1, d2, end);
    CutBehind(d1, d2, end + |PASTE_END|);
    FeedPastingAt(s, d1 + d2, d1 + part, rest);
    FeedPastingAt(Insert(s, d1), d2, part, rest);
    InsertTwice(s, d1, part);
  }

  // A paste that ends in the first chunk ends there whatever follows.
  lemma PasteEndsInFirst(s: ComposerState, d1: string, d2: string)
    requires Valid(s) && s.pasting && Find(PASTE_END, d1).Some?
    ensures
      var end := Find(PASTE_END, d1).value;
      var next, n := Insert(s, d1[..end]).(pasting := false), end + |PASTE_END|;
      Feed(s, d1) == Feed(next, d1[n..]) && Feed(s, d1 + d2) == Feed(next, d1[n..] + d2)
  {
    FindInFirst(PASTE_END, d1, d2);
    var end := Find(PASTE_END, d1).value;
    var n := end + |PASTE_END|;
    assert (d1 + d2)[..end] == d1[..end] && (d1 + d2)[n..] == d1[n..] + d2;
    FeedPasting(s, d1);
    FeedPasting(s, d1 + d2);
  }

  // So is a key that is complete in the first chunk.
  lemma KeyInFirst(s: ComposerState, d1: string, d2: string, key: Key)
    requires Valid(s) && !s.pasting && d1 != "" && key == ParseKey(d1) && !EndsPrompt(key)
    ensures 0 < Length(key) <= |d1|
    ensures Feed(s, d1) == Feed(Press(s, key), d1[Length(key)..])
    ensures Feed(s, d1 + d2) == Feed(Press(s, key), d1[Length(key)..] + d2)
  {
    KeyFits(d1);
    KeyIsLocal(d1, d2);
    var n := Length(key);
    assert (d1 + d2)[n..] == d1[n..] + d2;
    FeedTypingTo(s, d1, Press(s, key), d1[n..]);
    FeedTypingTo(s, d1 + d2, Press(s, key), d1[n..] + d2);
  }

  lemma CleanKey(s: ComposerState, data: string)
    requires Valid(s) && !s.pasting && data != "" && Clean(Feed(s, data))
    ensures !EndsPrompt(ParseKey(data))
  {
    FeedTyping(s, data);
  }

  // Main result: feeding two chunks one after the other is feeding their
  // concatenation, unless the first one already ended the prompt or an end-of-paste
  // marker is cut in two.
  lemma {:induction false} FeedInChunks(s: ComposerState, d1: string, d2: string)
    requires Valid(s) && Clean(Feed(s, d1))
    requires Feed(s, d1).state.pasting ==> !Straddles(PASTE_END, d1, d2)
    ensures Feed(s, d1 + d2) == Feed(Feed(s, d1).state, d2)
    decreases |d1|
  {
    if d1 == "" {
      assert d1 + d2 == d2;
    } else if s.pasting && Find(PASTE_END, d1).None? {
      FeedPasting(s, d1);
      if d2 == "" { assert d1 + d2 == d1; } else { PasteGoesOn(s, d1, d2); }
    } else if s.pasting {
      PasteEndsInFirst(s, d1, d2);
      var end := Find(PASTE_END, d1).value;
      var n := end + |PASTE_END|;
      if Straddles(PASTE_END, d1[n..], d2) { StraddlesSuffix(PASTE_END, d1, d2, n); }
      FeedInChunks(Insert(s, d1[..end]).(pasting := false), d1[n..], d2);
    } else {
      CleanKey(s, d1);
      KeyInFirst(s, d1, d2, ParseKey(d1));
      var n := Length(ParseKey(d1));
      if Straddles(PASTE_END, d1[n..], d2) { StraddlesSuffix(PASTE_END, d1, d2, n); }
      FeedInChunks(Press(s, ParseKey(d1)), d1[n..], d2);
    }
  }

  // Editing adds at most as many characters as it is fed.
  lemma {:induction false} FeedGrowth(s: ComposerState, data: string)
    requires Valid(s)
    ensures |Feed(s, data).state.value| <= |s.value| + |data|
    decreases |data|
  {
    hide Find, ParseKey;
    if data == "" {
    } else if s.pasting {
      FeedPasting(s, data);
      if Find(PASTE_END, data).Some? {
        var end := Find(PASTE_END, data).value;
        FeedGrowth(Insert(s, data[..end]).(pasting := false), data[end + |PASTE_END|..]);
      }
    } else {
      FeedTyping(s, data);
      var key := ParseKey(data);
      if !EndsPrompt(key) { FeedGrowth(Press(s, key), data[Length(key)..]); }
    }
  }

  // With an end-of-paste marker cut in two and no other one following, the two ways of
  // feeding differ: the marker ends the paste, or its characters are pasted as well.
  lemma CutMarkerShowsHere(s: ComposerState, d1: string, d2: string)
    requires Valid(s) && s.pasting && Find(PASTE_END, d1).None? && Find(PASTE_END, d2).None?
    requires Straddles(PASTE_END, d1, d2)
    ensures Feed(s, d1 + d2) != Feed(Insert(s, d1), d2)
  {
    hide Find, ParseKey, Press, Feed;
    var d := d1 + d2;
    FindSpec(PASTE_END, d);
    var j :| j < |d1| && |d1| < j + |PASTE_END| && OccursAt(PASTE_END, d, j);
    var end := Find(PASTE_END, d).value;
    FeedPasting(s, d);
    var next := Insert(s, d[..end]).(pasting := false);
    FeedGrowth(next, d[end + |PASTE_END|..]);
    FeedPasting(Insert(s, d1), d2);
  }

  // A key or a paste end that is complete in the first chunk takes no part in a cut marker.
  lemma CutMarkerIsBehind(d1: string, d2: string, n: nat)
    requires n <= |d1| && Straddles(PASTE_END, d1, d2)
    requires forall j :: 0 <= j < n && |d1| < j + |PASTE_END| ==> !OccursAt(PASTE_END, d1 + d2, j)
    ensures Straddles(PASTE_END, d1[n..], d2)
  {
    var j :| j < |d1| && |d1| < j + |PASTE_END| && OccursAt(PASTE_END, d1 + d2, j);
    assert n <= j;
    assert d1 + d2 == d1[..n] + (d1[n..] + d2);
    OccursInSuffix(PASTE_END, d1[..n], d1[n..] + d2, j);
    assert OccursAt(PASTE_END, d1[n..] + d2, j - n);
  }

  lemma KeyHidesNoMarker(d1: string, d2: string, j: nat)
    requires d1 != "" && !EndsPrompt(ParseKey(d1))
    requires j < Length(ParseKey(d1)) && |d1| < j + |PASTE_END|
    ensures !OccursAt(PASTE_END, d1 + d2, j)
  {
    var d := d1 + d2;
    KeyFits(d1);
    assert d[j] == d1[j];
    if d1[j] == ESC {
      assert j == 0 && d[1] == d1[1] && (d1[1] == '[' ==> d[2] == d1[2] != '2');
    }
    if j + |PASTE_END| <= |d| {
      var m := d[j..j + |PASTE_END|];
      assert m[0] == d[j] && m[1] == d[j + 1] && m[2] == d[j + 2];
      assert PASTE_END[0] == ESC && PASTE_END[1] == '[' && PASTE_END[2] == '2';
    }
  }

  lemma PasteEndHidesNoMarker(d1: string, d2: string, j: nat)
    requires Find(PASTE_END, d1).Some? && j < Find(PASTE_END, d1).value + |PASTE_END| && |d1| < j + |PASTE_END|
    ensures !OccursAt(PASTE_END, d1 + d2, j)
  {
    var d, end := d1 + d2, Find(PASTE_END, d1).value;
    FindSpec(PASTE_END, d1);
    assert j > end && d1[end..end + |PASTE_END|][j - end] == d1[j];
    assert d[j] == d1[j] == PASTE_END[j - end] != ESC;
    if j + |PASTE_END| <= |d| { assert d[j..j + |PASTE_END|][0] == d[j]; }
  }

  lemma {:induction false} CutMarkerShows(s: ComposerState, d1: string, d2: string)
    requires Valid(s) && Clean(Feed(s, d1)) && Feed(s, d1).state.pasting
    requires Straddles(PASTE_END, d1, d2) && Find(PASTE_END, d2).None?
    ensures Feed(s, d1 + d2) != Feed(Feed(s, d1).state, d2)
    decreases |d1|
  {
    hide Find, ParseKey, Press, Length;
    if s.pasting && Find(PASTE_END, d1).None? {
      FeedPasting(s, d1);
      CutMarkerShowsHere(s, d1, d2);
    } else if s.pasting {
      PasteEndsInFirst(s, d1, d2);
      var end := Find(PASTE_END, d1).value;
      var n := end + |PASTE_END|;
      forall j | 0 <= j < n && |d1| < j + |PASTE_END| ensures !OccursAt(PASTE_END, d1 + d2, j) {
        PasteEndHidesNoMarker(d1, d2, j);
      }
      CutMarkerIsBehind(d1, d2, n);
      CutMarkerShows(Insert(s, d1[..end]).(pasting := false), d1[n..], d2);
    } else {
      CleanKey(s, d1);
      KeyInFirst(s, d1, d2, ParseKey(d1));
      var n := Length(ParseKey(d1));
      forall j | 0 <= j < n && |d1| < j + |PASTE_END| ensures !OccursAt(PASTE_END, d1 + d2, j) {
        KeyHidesNoMarker(d1, d2, j);
      }
      CutMarkerIsBehind(d1, d2, n);
      CutMarkerShows(Press(s, ParseKey(d1)), d1[n..], d2);
    }
  }

  // The condition is exact for a second chunk without a whole end-of-paste marker (one
  // that has it may erase the difference again).
  lemma ChunksAgreeUnlessMarkerCut(s: ComposerState, d1: string, d2: string)
    requires Valid(s) && Clean(Feed(s, d1)) && Find(PASTE_END, d2).None?
    ensures Feed(s, d1 + d2) == Feed(Feed(s, d1).state, d2)
            <==> !(Feed(s, d1).state.pasting && Straddles(PASTE_END, d1, d2))
  {
    hide *;
    if Feed(s, d1).state.pasting && Straddles(PASTE_END, d1, d2) {
      CutMarkerShows(s, d1, d2);
    } else {
      FeedInChunks(s, d1, d2);
    }
  }

  const ESCAPE_SEQUENCES := [
    PASTE_START, [ESC, '\r'], [ESC, '\n'], [ESC, '[', 'C'], [ESC, '[', 'D'], [ESC, '[', 'A'], [ESC, '[', 'B']]

  // A proper, non-empty beginning of an escape sequence.
  ghost predicate CutEscape(p: string) {
    exists k, n :: 0 <= k < |ESCAPE_SEQUENCES| && 0 < n < |ESCAPE_SEQUENCES[k]| && p == ESCAPE_SEQUENCES[k][..n]
  }

  lemma CutEscapeCancels(s: ComposerState, p: string)
    requires Valid(s) && !s.pasting && CutEscape(p)
    ensures Feed(s, p) == ComposerResult(s, false, true)
  {
    var k, n :| 0 <= k < |ESCAPE_SEQUENCES| && 0 < n < |ESCAPE_SEQUENCES[k]| && p == ESCAPE_SEQUENCES[k][..n];
    assert p[0] == ESC;
    assert n > 1 ==> p[1] == '[';
    assert n > 2 ==> p[2] == '2';
    FeedTyping(s, p);
    assert |p| == n < 6;
  }

  // Outside a paste, an escape sequence cut by the end of a chunk always shows up as a
  // cancel, with everything typed before it kept.
  lemma CutEscapeAlwaysCancels(s: ComposerState, typed: string, p: string)
    requires Valid(s) && Clean(Feed(s, typed)) && !Feed(s, typed).state.pasting && CutEscape(p)
    ensures Feed(s, typed + p) == ComposerResult(Feed(s, typed).state, false, true)
  {
    FeedInChunks(s, typed, p);
    CutEscapeCancels(Feed(s, typed).state, p);
  }

  // The exception is real: an end-of-paste marker, cut anywhere, is pasted as text and
  // the paste does not end.
  lemma CutPasteEndIsText(s: ComposerState, n: nat)
    requires Valid(s) && s.pasting && 0 < n < |PASTE_END|
    ensures Feed(s, PASTE_END[..n]) == ComposerResult(Insert(s, PASTE_END[..n]), false, false)
    ensures Feed(Feed(s, PASTE_END[..n]).state, PASTE_END[n..]) == ComposerResult(Insert(s, PASTE_END), false, false)
  {
    hide Feed, ParseKey, Press, Insert;
    var head, tail := PASTE_END[..n], PASTE_END[n..];
    assert head + tail == PASTE_END;
    FeedPasting(s, head);
    FeedPasting(Insert(s, head), tail);
    InsertTwice(s, head, tail);
  }

  // ---- A bracketed paste is inserted verbatim ---------------------------------------

  function FeedAll(s: ComposerState, chunks: seq<string>): ComposerResult
    requires Valid(s)
    decreases |chunks|
  {
    if chunks == [] then ComposerResult(s, false, false)
    else
      var r := Feed(s, chunks[0]);
      if Clean(r) then FeedAll(r.state, chunks[1..]) else r
  }

  function PasteStream(text: string): string {
    PASTE_START + text + PASTE_END
  }

  // The editor after the first c bytes of a bracketed paste, c not inside a marker.
  function PasteProgress(s: ComposerState, text: string, c: nat): (r: ComposerState)
    requires Valid(s) && !s.pasting && !InsideMarker(text, c) && c <= |PasteStream(text)|
    ensures Valid(r)
  {
    if c == 0 then s
    else if c == |PasteStream(text)| then Insert(s, text)
    else Insert(s, text[..c - |PASTE_START|]).(pasting := true)
  }

  predicate InsideMarker(text: string, c: int) {
    0 < c < |PASTE_START| || |PASTE_START| + |text| < c < |PasteStream(text)|
  }

  lemma StreamParts(text: string, a: nat, b: nat)
    requires |PASTE_START| <= a <= b <= |PasteStream(text)|
    ensures b <= |PASTE_START| + |text| ==>
              PasteStream(text)[a..b] == text[a - |PASTE_START|..b - |PASTE_START|]
    ensures a <= |PASTE_START| + |text| && b == |PasteStream(text)| ==>
              PasteStream(text)[a..b] == text[a - |PASTE_START|..] + PASTE_END
  {
    var m, stream := |PASTE_START|, PasteStream(text);
    assert forall k :: m <= k < m + |text| ==> stream[k] == text[k - m];
    assert forall k :: m + |text| <= k < |stream| ==> stream[k] == PASTE_END[k - m - |text|];
  }

  // Inside the paste, the bytes from a to b move the editor along.
  lemma PasteAdvancesInside(s: ComposerState, text: string, a: nat, b: nat)
    requires Valid(s) && !s.pasting && Find(PASTE_END, text).None?
    requires |PASTE_START| <= a < |PasteStream(text)| && a <= b <= |PASTE_START| + |text|
    requires !InsideMarker(text, a)
    ensures Feed(PasteProgress(s, text, a), PasteStream(text)[a..b])
         == ComposerResult(PasteProgress(s, text, b), false, false)
  {
    hide Find, ParseKey, Press, Feed;
    var m := |PASTE_START|;
    var part := text[a - m..b - m];
    StreamParts(text, a, b);
    var open := s.(pasting := true);
    InsertTwice(open, text[..a - m], part);
    assert text[..a - m] + part == text[..b - m];
    FindInPart(PASTE_END, text, a - m, b - m);
    if part != "" {
      FeedPasting(Insert(open, text[..a - m]), part);
    } else {
      FeedNothing(Insert(open, text[..a - m]));
    }
  }

  // The bytes up to the end of the stream complete the paste.
  lemma PasteEnds(s: ComposerState, text: string, a: nat)
    requires Valid(s) && !s.pasting && Find(PASTE_END, text).None?
    requires |PASTE_START| <= a <= |PASTE_START| + |text|
    ensures Feed(PasteProgress(s, text, a), PasteStream(text)[a..]) == ComposerResult(Insert(s, text), false, false)
  {
    hide Find, ParseKey, Press;
    var m := |PASTE_START|;
    var part := text[a - m..];
    StreamParts(text, a, |PasteStream(text)|);
    assert PasteStream(text)[a..] == PasteStream(text)[a..|PasteStream(text)|];
    var open := s.(pasting := true);
    InsertTwice(open, text[..a - m], part);
    assert text[..a - m] + part == text;
    assert part == text[a - m..|text|];
    FindInPart(PASTE_END, text, a - m, |text|);
    FindAtEnd(PASTE_END, part);
    var chunk := part + PASTE_END;
    assert chunk[..|part|] == part && chunk[|part| + |PASTE_END|..] == "";
    FeedPastingTo(Insert(open, text[..a - m]), chunk, Insert(s, text), "");
  }

  lemma PasteAdvances(s: ComposerState, text: string, a: nat, b: nat)
    requires Valid(s) && !s.pasting && Find(PASTE_END, text).None?
    requires a <= b <= |PasteStream(text)| && !InsideMarker(text, a) && !InsideMarker(text, b)
    ensures Feed(PasteProgress(s, text, a), PasteStream(text)[a..b])
         == ComposerResult(PasteProgress(s, text, b), false, false)
    decreases b - a
  {
    var m := |PASTE_START|;
    var chunk := PasteStream(text)[a..b];
    if a == b {
      assert chunk == "";
    } else if a == 0 {
      FeedTyping(s, chunk);
      assert chunk[..m] == PASTE_START;
      assert chunk[m..] == PasteStream(text)[m..b];
      InsertNothing(s);
      PasteAdvances(s, text, m, b);
    } else if b == |PasteStream(text)| {
      assert chunk == PasteStream(text)[a..];
      PasteEnds(s, text, a);
    } else {
      PasteAdvancesInside(s, text, a, b);
    }
  }

  // The chunks from the k-th on carry the stream from byte a on, and none of the cuts
  // between them falls inside a marker.
  ghost predicate CutsOutsideMarkers(text: string, chunks: seq<string>, a: nat) {
    forall k :: 0 <= k <= |chunks| ==> !InsideMarker(text, a + |Concat(chunks[..k])|)
  }

  lemma {:induction false} PasteFrom(s: ComposerState, text: string, chunks: seq<string>, a: nat)
    requires Valid(s) && !s.pasting && Find(PASTE_END, text).None?
    requires a <= |PasteStream(text)| && Concat(chunks) == PasteStream(text)[a..]
    requires CutsOutsideMarkers(text, chunks, a)
    ensures !InsideMarker(text, a)
    ensures FeedAll(PasteProgress(s, text, a), chunks) == ComposerResult(Insert(s, text), false, false)
  {
    assert chunks[..0] == [];
    if chunks == [] {
      assert a == |PasteStream(text)|;
    } else {
      var b := a + |chunks[0]|;
      assert chunks[..1] == [chunks[0]];
      assert Concat(chunks[..1]) == chunks[0] by { assert chunks[..1][1..] == []; }
      assert !InsideMarker(text, b);
      assert chunks[0] == Concat(chunks)[..|chunks[0]|] == PasteStream(text)[a..b];
      assert Concat(chunks[1..]) == Concat(chunks)[|chunks[0]|..] == PasteStream(text)[b..];
      PasteAdvances(s, text, a, b);
      forall k | 0 <= k <= |chunks[1..]| ensures !InsideMarker(text, b + |Concat(chunks[1..][..k])|) {
        assert chunks[..k + 1][0] == chunks[0] && chunks[..k + 1][1..] == chunks[1..][..k];
        assert Concat(chunks[..k + 1]) == chunks[0] + Concat(chunks[1..][..k]);
        assert !InsideMarker(text, a + |Concat(chunks[..k + 1])|);
      }
      PasteFrom(s, text, chunks[1..], b);
    }
  }

  // Main result: a bracketed paste, however it is chunked outside its markers, inserts
  // exactly its text at the cursor and neither submits nor cancels.
  lemma PasteIsVerbatim(s: ComposerState, text: string, chunks: seq<string>)
    requires Valid(s) && !s.pasting && Find(PASTE_END, text).None?
    requires Concat(chunks) == PasteStream(text)
    requires CutsOutsideMarkers(text, chunks, 0)
    ensures FeedAll(s, chunks) == ComposerResult(Insert(s, text), false, false)
  {
    PasteFrom(s, text, chunks, 0);
  }

  // ---- What the bytes do --------------------------------------------------------------

  // Enter ends the prompt with what was typed; Ctrl-C cancels it, and so does an escape
  // with nothing known behind it. What follows is not looked at.
  lemma BytesThatEnd(s: ComposerState, d: string)
    requires Valid(s) && !s.pasting
    ensures Feed(s, "\r" + d) == ComposerResult(s, true, false)
    ensures Feed(s, "\n" + d) == ComposerResult(s, true, false)
    ensures Feed(s, "\U{03}" + d) == ComposerResult(s, false, true)
  {
    FeedTyping(s, "\r" + d);
    FeedTyping(s, "\n" + d);
    FeedTyping(s, "\U{03}" + d);
  }

  lemma BareEscapeCancels(s: ComposerState, d: string)
    requires Valid(s) && !s.pasting
    requires d != "" ==> d[0] != '\r' && d[0] != '\n'
    requires |d| >= 2 && d[0] == '[' ==> d[1] !in {'A', 'B', 'C', 'D'}
    requires |d| >= 5 ==> d[..5] != "[200~"
    ensures Feed(s, "\U{1B}" + d) == ComposerResult(s, false, true)
  {
    var data := "\U{1B}" + d;
    assert data[0] == '\U{1B}' && data[1..] == d;
    assert forall i :: 0 <= i < |d| ==> data[i + 1] == d[i];
    if |data| >= 6 {
      assert data[..6][1..] == d[..5];
      assert PASTE_START[1..] == "[200~";
    }
    FeedTyping(s, data);
  }

  // The keys that go on, each with what it does to the text and the cursor.
  lemma BytesThatInsert(s: ComposerState, d: string, c: char)
    requires Valid(s) && !s.pasting
    ensures Feed(s, "\U{1B}\r" + d) == Feed(Insert(s, "\n"), d)
    ensures Feed(s, "\U{1B}\n" + d) == Feed(Insert(s, "\n"), d)
    ensures c >= ' ' && c != '\U{7F}' ==> Feed(s, [c] + d) == Feed(Insert(s, [c]), d)
    ensures Feed(s, "\U{1B}[200~" + d) == Feed(s.(pasting := true), d)
  {
    SequencesAreKeys();
    hide Feed, ParseKey, Insert;
    FirstKey(s, "\U{1B}\r", d, Newline);
    FirstKey(s, "\U{1B}\n", d, Newline);
    FirstKey(s, "\U{1B}[200~", d, StartPaste);
    if c >= ' ' && c != '\U{7F}' {
      PlainIsTyped(c);
      FirstKey(s, [c], d, Type(c));
    }
  }

  lemma PlainIsTyped(c: char)
    requires c >= ' ' && c != '\U{7F}'
    ensures ParseKey([c]) == Type(c)
  {
  }

  lemma ArrowIsKey(c: char, key: Key)
    requires (c, key) in {('C', Right), ('D', Left), ('A', UpKey), ('B', DownKey)}
    ensures ParseKey([ESC, '[', c]) == key
  {
    var data := [ESC, '[', c];
    assert data[0] == ESC && data[1] == '[' && data[2] == c;
    assert forall x: char :: [ESC, '[', x] <= data ==> [ESC, '[', x][2] == c;
  }

  lemma SequencesAreKeys()
    ensures ParseKey("\U{1B}\r") == Newline && ParseKey("\U{1B}\n") == Newline
    ensures ParseKey("\U{1B}[200~") == StartPaste
    ensures ParseKey("\U{1B}[C") == Right && ParseKey("\U{1B}[D") == Left
    ensures ParseKey("\U{1B}[A") == UpKey && ParseKey("\U{1B}[B") == DownKey
  {
    ArrowIsKey('C', Right);
    ArrowIsKey('D', Left);
    ArrowIsKey('A', UpKey);
    ArrowIsKey('B', DownKey);
    assert "\U{1B}[C" == [ESC, '[', 'C'] && "\U{1B}[D" == [ESC, '[', 'D'];
    assert "\U{1B}[A" == [ESC, '[', 'A'] && "\U{1B}[B" == [ESC, '[', 'B'];
    assert "\U{1B}\r" == [ESC, '\r'] && "\U{1B}\n" == [ESC, '\n'];
    assert PASTE_START == "\U{1B}[200~";
  }

  lemma InsertedText(s: ComposerState, t: string)
    requires Valid(s)
    ensures Insert(s, t) == ComposerState(s.value[..s.cursor] + t + s.value[s.cursor..], s.cursor + |t|, s.pasting)
  {
  }

  lemma BytesThatMove(s: ComposerState, d: string)
    requires Valid(s) && !s.pasting
    ensures Feed(s, "\U{1B}[C" + d) == Feed(s.(cursor := if s.cursor < |s.value| then s.cursor + 1 else s.cursor), d)
    ensures Feed(s, "\U{1B}[D" + d) == Feed(s.(cursor := if s.cursor > 0 then s.cursor - 1 else 0), d)
    ensures Feed(s, "\U{1B}[A" + d) == Feed(Up(s), d)
    ensures Feed(s, "\U{1B}[B" + d) == Feed(Down(s), d)
  {
    SequencesAreKeys();
    hide Feed, ParseKey, Up, Down;
    FirstKey(s, "\U{1B}[C", d, Right);
    FirstKey(s, "\U{1B}[D", d, Left);
    FirstKey(s, "\U{1B}[A", d, UpKey);
    FirstKey(s, "\U{1B}[B", d, DownKey);
  }

  // Ctrl-A and Ctrl-E go to the ends of the cursor's line (see LineStartIsRight for the
  // one place where the start is not found).
  lemma BytesThatGoToEnds(s: ComposerState, d: string, start: nat, end: nat)
    requires Valid(s) && !s.pasting && IsLineStart(s.value, s.cursor, start) && IsLineEnd(s.value, s.cursor, end)
    ensures !(s.cursor == 0 && s.value != "" && s.value[0] == '\n') ==>
              Feed(s, "\U{01}" + d) == Feed(s.(cursor := start), d)
    ensures s.cursor == 0 && s.value != "" && s.value[0] == '\n' ==>
              Feed(s, "\U{01}" + d) == Feed(s.(cursor := 1), d)
    ensures Feed(s, "\U{05}" + d) == Feed(s.(cursor := end), d)
  {
    LineStartIsRight(s.value, s.cursor);
    LineEndIsRight(s.value, s.cursor);
    LineEndUnique(s.value, s.cursor, end, LineEndOf(s.value, s.cursor));
    if IsLineStart(s.value, s.cursor, LineStartOf(s.value, s.cursor)) {
      LineStartUnique(s.value, s.cursor, start, LineStartOf(s.value, s.cursor));
    }
    FirstKey(s, "\U{01}", d, Home);
    FirstKey(s, "\U{05}", d, EndOfLine);
  }

  // Both erase bytes remove the character before the cursor, if there is one; any other
  // control byte is ignored.
  lemma BytesThatErase(s: ComposerState, d: string, c: char)
    requires Valid(s) && !s.pasting
    ensures
      var erased :=
        if s.cursor == 0 then s
        else ComposerState(s.value[..s.cursor - 1] + s.value[s.cursor..], s.cursor - 1, false);
      Feed(s, "\U{7F}" + d) == Feed(erased, d) && Feed(s, "\U{08}" + d) == Feed(erased, d)
    ensures c < ' ' && c !in {'\U{01}', '\U{03}', '\U{05}', '\U{08}', '\n', '\r', '\U{1B}'} ==>
              Feed(s, [c] + d) == Feed(s, d)
  {
    FirstKey(s, "\U{7F}", d, Erase);
    FirstKey(s, "\U{08}", d, Erase);
    if c < ' ' && c !in {'\U{01}', '\U{03}', '\U{05}', '\U{08}', '\n', '\r', '\U{1B}'} {
      FirstKey(s, [c], d, Ignored);
    }
  }

  // The bytes are a whole key, whatever follows them.
  lemma FirstKey(s: ComposerState, bytes: string, d: string, key: Key)
    requires Valid(s) && !s.pasting && bytes != "" && ParseKey(bytes) == key && Length(key) == |bytes|
    requires !EndsPrompt(key)
    ensures Feed(s, bytes + d) == Feed(Press(s, key), d)
  {
    KeyIsLocal(bytes, d);
    assert (bytes + d)[|bytes|..] == d;
    FeedTypingTo(s, bytes + d, Press(s, key), d);
  }

  // ---- Line movement ----------------------------------------------------------------

  // The start of the line that position cur is on.
  ghost predicate IsLineStart(v: string, cur: nat, p: nat) {
    && p <= cur <= |v|
    && (p == 0 || v[p - 1] == '\n')
    && forall j :: p <= j < cur ==> v[j] != '\n'
  }

  // lineStartOf is the start of the cursor's line, except at the very front of a text
  // that begins with a newline, where the clamped search finds that newline.
  lemma LineStartIsRight(v: string, cur: nat)
    requires cur <= |v|
    ensures IsLineStart(v, cur, LineStartOf(v, cur)) <==> !(cur == 0 && v != "" && v[0] == '\n')
    ensures cur == 0 && v != "" && v[0] == '\n' ==> LineStartOf(v, cur) == 1
  {
  }

  // The end of the line that position cur is on.
  ghost predicate IsLineEnd(v: string, cur: nat, e: nat) {
    && cur <= e <= |v|
    && (e == |v| || v[e] == '\n')
    && forall j :: cur <= j < e ==> v[j] != '\n'
  }

  lemma LineEndIsRight(v: string, cur: nat)
    requires cur <= |v|
    ensures IsLineEnd(v, cur, LineEndOf(v, cur))
  {
  }

  lemma LineStartUnique(v: string, cur: nat, p: nat, q: nat)
    requires IsLineStart(v, cur, p) && IsLineStart(v, cur, q)
    ensures p == q
  {
    assert p == 0 || v[p - 1] == '\n';
    assert q == 0 || v[q - 1] == '\n';
  }

  lemma LineEndUnique(v: string, cur: nat, e: nat, f: nat)
    requires IsLineEnd(v, cur, e) && IsLineEnd(v, cur, f)
    ensures e == f
  {
    assert e == |v| || v[e] == '\n';
    assert f == |v| || v[f] == '\n';
  }

  // Down goes to the same column of the next line, or to that line's end if it is
  // shorter, exactly when the cursor is not in front of a leading newline: there it
  // stays put.
  lemma DownReachesNextLine(s: ComposerState, start: nat, end: nat, nextEnd: nat)
    requires Valid(s) && IsLineStart(s.value, s.cursor, start) && IsLineEnd(s.value, s.cursor, end)
    requires end < |s.value| && IsLineEnd(s.value, end + 1, nextEnd)
    ensures Down(s) == s.(cursor := Min(end + 1 + (s.cursor - start), nextEnd))
            <==> !(s.cursor == 0 && s.value[0] == '\n')
    ensures s.cursor == 0 && s.value[0] == '\n' ==> Down(s) == s
  {
    LineStartIsRight(s.value, s.cursor);
    LineEndIsRight(s.value, s.cursor);
    LineEndIsRight(s.value, end + 1);
    LineEndUnique(s.value, s.cursor, end, LineEndOf(s.value, s.cursor));
    LineEndUnique(s.value, end + 1, nextEnd, LineEndOf(s.value, end + 1));
    if IsLineStart(s.value, s.cursor, LineStartOf(s.value, s.cursor)) {
      LineStartUnique(s.value, s.cursor, start, LineStartOf(s.value, s.cursor));
    }
  }

  // Up goes to the same column of the line above, or to that line's end if it is
  // shorter, always; on the first line nothing happens.
  lemma UpReachesLineAbove(s: ComposerState, start: nat, above: nat)
    requires Valid(s) && IsLineStart(s.value, s.cursor, start)
    requires start > 0 ==> IsLineStart(s.value, start - 1, above)
    ensures Up(s) == if start == 0 then s else s.(cursor := Min(above + (s.cursor - start), start - 1))
  {
    LineStartIsRight(s.value, s.cursor);
    if IsLineStart(s.value, s.cursor, LineStartOf(s.value, s.cursor)) {
      LineStartUnique(s.value, s.cursor, start, LineStartOf(s.value, s.cursor));
      if start > 0 {
        LineStartIsRight(s.value, start - 1);
        if IsLineStart(s.value, start - 1, LineStartOf(s.value, start - 1)) {
          LineStartUnique(s.value, start - 1, above, LineStartOf(s.value, start - 1));
        }
      }
    }
  }

  // Erase takes back what was typed.
  lemma EraseUndoesTyping(s: ComposerState, c: char)
    requires Valid(s)
    ensures Press(Press(s, Type(c)), Erase) == s
  {
    var t := Insert(s, [c]);
    assert t.value[..s.cursor] == s.value[..s.cursor] && t.value[s.cursor + 1..] == s.value[s.cursor..];
  }

  // Typing the erased character again restores the text.
  lemma TypingUndoesErase(s: ComposerState)
    requires Valid(s) && s.cursor > 0
    ensures Press(Press(s, Erase), Type(s.value[s.cursor - 1])) == s
  {
    var n := s.cursor - 1;
    var t := Backspace(s);
    assert t.value[..n] == s.value[..n] && t.value[n..] == s.value[n + 1..];
    assert s.value[..n] + [s.value[n]] + s.value[n + 1..] == s.value;
  }

  lemma LeftUndoesRight(s: ComposerState)
    requires Valid(s)
    ensures Press(Press(s, Right), Left) == s <==> s.cursor < |s.value| || s.cursor == 0 == |s.value|
    ensures s.cursor > 0 ==> Press(Press(s, Left), Right) == s
  {
  }
}
