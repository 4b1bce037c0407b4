// src/adapters/control/protocol.ts: newline-delimited messages over a byte stream.
module LineDecoder {
  import opened Basics
  import opened Text

  // What one complete line yields: a blank or malformed line yields nothing.
  function DecodeLine<T>(parse: string -> Option<T>, line: string): seq<T> {
    var trimmed := Trim(line);
    if trimmed == "" then []
    else match parse(trimmed) case None => [] case Some(v) => [v]
  }

  function DecodeLines<T>(parse: string -> Option<T>, lines: seq<string>): seq<T> {
    if lines == [] then [] else DecodeLine(parse, lines[0]) + DecodeLines(parse, lines[1..])
  }

  // The complete lines of a buffer, and what is left after the last newline.
  function CompleteLines(s: string): seq<string>
    decreases |s|
  {
    var nl := NextOrEnd('\n', s, 0);
    if nl == |s| then [] else [s[..nl]] + CompleteLines(s[nl + 1..])
  }

  function Tail(s: string): string
    decreases |s|
  {
    var nl := NextOrEnd('\n', s, 0);
    if nl == |s| then s else Tail(s[nl + 1..])
  }

  // ---- What the buffer functions mean -------------------------------------------------

  function Unlines(lines: seq<string>): string {
    if lines == [] then "" else lines[0] + "\n" + Unlines(lines[1..])
  }

  ghost predicate NoNewlines(lines: seq<string>) {
    forall l :: l in lines ==> '\n' !in l
  }

  lemma CutFirst(line: string, rest: string)
    requires '\n' !in line
    ensures CompleteLines(line + "\n" + rest) == [line] + CompleteLines(rest)
    ensures Tail(line + "\n" + rest) == Tail(rest)
  {
    var s := line + "\n" + rest;
    FirstNewline(line, rest);
    assert s[..|line|] == line && s[|line| + 1..] == rest;
  }

  lemma CutNone(s: string)
    requires '\n' !in s
    ensures CompleteLines(s) == [] && Tail(s) == s
  {
  }

  lemma DecodeFirst<T>(parse: string -> Option<T>, line: string, lines: seq<string>)
    ensures DecodeLines(parse, [line] + lines) == DecodeLine(parse, line) + DecodeLines(parse, lines)
  {
    assert ([line] + lines)[1..] == lines;
  }

  // The only way to cut a buffer into newline-terminated lines and a newline-free rest.
  lemma {:induction false} LinesAndTail(lines: seq<string>, tail: string)
    requires NoNewlines(lines) && '\n' !in tail
    ensures CompleteLines(Unlines(lines) + tail) == lines
    ensures Tail(Unlines(lines) + tail) == tail
  {
    hide CompleteLines, Tail;
    if lines == [] {
      assert Unlines(lines) + tail == tail;
      CutNone(tail);
    } else {
      var rest := Unlines(lines[1..]) + tail;
      assert Unlines(lines) + tail == lines[0] + "\n" + rest;
      CutFirst(lines[0], rest);
      LinesAndTail(lines[1..], tail);
    }
  }

  lemma {:induction false} EveryBufferSplits(s: string)
    ensures s == Unlines(CompleteLines(s)) + Tail(s)
    ensures NoNewlines(CompleteLines(s)) && '\n' !in Tail(s)
    decreases |s|
  {
    hide CompleteLines, Tail;
    var nl := NextOrEnd('\n', s, 0);
    if nl < |s| {
      var line, rest := s[..nl], s[nl + 1..];
      EveryBufferSplits(rest);
      assert s == line + "\n" + rest;
      CutFirst(line, rest);
      assert ([line] + CompleteLines(rest))[1..] == CompleteLines(rest);
      assert s == line + "\n" + (Unlines(CompleteLines(rest)) + Tail(rest));
    } else {
      CutNone(s);
    }
  }

  lemma {:induction false} UnlinesConcat(a: seq<string>, b: seq<string>)
    ensures Unlines(a + b) == Unlines(a) + Unlines(b)
  {
    if a == [] {
      assert a + b == b;
    } else {
      UnlinesConcat(a[1..], b);
      assert (a + b)[1..] == a[1..] + b;
    }
  }

  lemma {:induction false} DecodeLinesConcat<T>(parse: string -> Option<T>, a: seq<string>, b: seq<string>)
    ensures DecodeLines(parse, a + b) == DecodeLines(parse, a) + DecodeLines(parse, b)
  {
    hide DecodeLine, DecodeLines;
    if a == [] {
      DecodeNothing(parse);
      assert a + b == b;
    } else {
      DecodeLinesConcat(parse, a[1..], b);
      DecodeFirst(parse, a[0], a[1..]);
      DecodeFirst(parse, a[0], a[1..] + b);
      assert [a[0]] + a[1..] == a && [a[0]] + (a[1..] + b) == a + b;
    }
  }

  lemma DecodeNothing<T>(parse: string -> Option<T>)
    ensures DecodeLines(parse, []) == []
  {
  }

  // More bytes only add lines: those already complete stay, the rest is cut again.
  lemma MoreBytes(s: string, t: string)
    ensures CompleteLines(s + t) == CompleteLines(s) + CompleteLines(Tail(s) + t)
    ensures Tail(s + t) == Tail(Tail(s) + t)
  {
    hide CompleteLines, Tail, Unlines;
    EveryBufferSplits(s);
    EveryBufferSplits(Tail(s) + t);
    var lines, more, tail := CompleteLines(s), CompleteLines(Tail(s) + t), Tail(Tail(s) + t);
    UnlinesConcat(lines, more);
    assert s + t == Unlines(lines) + (Tail(s) + t);
    assert s + t == Unlines(lines) + (Unlines(more) + tail) == Unlines(lines + more) + tail;
    LinesAndTail(lines + more, tail);
  }

  class Decoder<T(0)> {
    const parse: string -> Option<T>
    var buf: string

    constructor (parse: string -> Option<T>)
      ensures this.parse == parse && buf == ""
    {
      this.parse := parse;
      buf := "";
    }

    method Feed(chunk: string) returns (out: seq<T>)
      modifies this
      ensures buf == Tail(old(buf) + chunk)
      ensures out == DecodeLines(parse, CompleteLines(old(buf) + chunk))
    {
      hide CompleteLines, Tail, DecodeLines;
      buf := buf + chunk;
      out := [];
      ghost var all := buf;
      var nl := NextOrEnd('\n', buf, 0);
      while nl != |buf|
        invariant nl == NextOrEnd('\n', buf, 0)
        invariant Tail(buf) == Tail(all)
        invariant out + DecodeLines(parse, CompleteLines(buf)) == DecodeLines(parse, CompleteLines(all))
        decreases |buf|
      {
        var line := Trim(buf[..nl]);
        ghost var before := out;
        assert buf == buf[..nl] + "\n" + buf[nl + 1..];
        CutFirst(buf[..nl], buf[nl + 1..]);
        DecodeFirst(parse, buf[..nl], CompleteLines(buf[nl + 1..]));
        buf := buf[nl + 1..];
        if line != "" {
          var parsed := parse(line);
          if parsed.Some? { out := out + [parsed.value]; }
        }
        nl := NextOrEnd('\n', buf, 0);
      }
      CutNone(buf);
      DecodeNothing(parse);
    }
  }

  // ---- Any chunking of the stream ------------------------------------------------------

  // What a decoder starting with this buffer yields for the chunks, and its last buffer.
  function DecodeChunks<T>(parse: string -> Option<T>, buf: string, chunks: seq<string>): (seq<T>, string)
    decreases |chunks|
  {
    if chunks == [] then ([], buf)
    else
      var rest := DecodeChunks(parse, Tail(buf + chunks[0]), chunks[1..]);
      (DecodeLines(parse, CompleteLines(buf + chunks[0])) + rest.0, rest.1)
  }

  lemma {:induction false} ChunksFrom<T>(parse: string -> Option<T>, buf: string, chunks: seq<string>)
    requires '\n' !in buf
    ensures DecodeChunks(parse, buf, chunks)
         == (DecodeLines(parse, CompleteLines(buf + Concat(chunks))), Tail(buf + Concat(chunks)))
    decreases |chunks|
  {
    hide CompleteLines, Tail, DecodeLines;
    if chunks == [] {
      assert buf + Concat(chunks) == buf;
      CutNone(buf);
      DecodeNothing(parse);
    } else {
      var head, rest := buf + chunks[0], Concat(chunks[1..]);
      EveryBufferSplits(head);
      ChunksFrom(parse, Tail(head), chunks[1..]);
      MoreBytes(head, rest);
      assert buf + Concat(chunks) == head + rest;
      DecodeLinesConcat(parse, CompleteLines(head), CompleteLines(Tail(head) + rest));
    }
  }

  // Main result: however the stream is chunked, the decoder yields exactly its
  // non-blank well-formed complete lines and keeps exactly the newline-free rest.
  lemma ChunkingDoesNotMatter<T>(parse: string -> Option<T>, lines: seq<string>, tail: string, chunks: seq<string>)
    requires NoNewlines(lines) && '\n' !in tail
    requires Concat(chunks) == Unlines(lines) + tail
    ensures DecodeChunks(parse, "", chunks) == (DecodeLines(parse, lines), tail)
  {
    ChunksFrom(parse, "", chunks);
    assert "" + Concat(chunks) == Concat(chunks);
    LinesAndTail(lines, tail);
  }

  // What a line yields: the parse of the text between the spaces around it, nothing when
  // it is blank or does not parse.
  lemma WhatALineYields<T>(parse: string -> Option<T>, a: string, text: string, b: string)
    requires Blank(a) && Blank(b)
    requires text != "" ==> !IsSpace(text[0]) && !IsSpace(text[|text| - 1])
    ensures text == "" || parse(text).None? ==> DecodeLine(parse, a + text + b) == []
    ensures text != "" && parse(text).Some? ==> DecodeLine(parse, a + text + b) == [parse(text).value]
  {
    if text == "" {
      assert Blank(a + text + b);
      TrimBlank(a + text + b);
    } else {
      TrimStrips(a, text, b);
    }
  }

  // ---- Encoding and decoding are inverse ------------------------------------------------

  function EncodeLine<T>(serialize: T -> string, msg: T): string {
    serialize(msg) + "\n"
  }

  function EncodeAll<T>(serialize: T -> string, msgs: seq<T>): string {
    if msgs == [] then "" else EncodeLine(serialize, msgs[0]) + EncodeAll(serialize, msgs[1..])
  }

  // The serializer writes trimmed, non-blank, newline-free text that parses back.
  ghost predicate RoundTrips<T(!new)>(serialize: T -> string, parse: string -> Option<T>) {
    forall m :: WritesLine(serialize(m)) && parse(serialize(m)) == Some(m)
  }

  predicate WritesLine(text: string) {
    text != "" && '\n' !in text && Trim(text) == text
  }

  function SerializeAll<T>(serialize: T -> string, msgs: seq<T>): seq<string> {
    if msgs == [] then [] else [serialize(msgs[0])] + SerializeAll(serialize, msgs[1..])
  }

  lemma {:induction false} EncodedLines<T(!new)>(serialize: T -> string, parse: string -> Option<T>, msgs: seq<T>)
    requires RoundTrips(serialize, parse)
    ensures EncodeAll(serialize, msgs) == Unlines(SerializeAll(serialize, msgs))
    ensures NoNewlines(SerializeAll(serialize, msgs))
    ensures DecodeLines(parse, SerializeAll(serialize, msgs)) == msgs
  {
    if msgs != [] {
      EncodedLines(serialize, parse, msgs[1..]);
      assert WritesLine(serialize(msgs[0]));
      assert SerializeAll(serialize, msgs)[1..] == SerializeAll(serialize, msgs[1..]);
    }
  }

  // Main result: encoded messages, cut anywhere, are decoded in order and leave nothing behind.
  lemma DecodeInvertsEncode<T(!new)>(
    serialize: T -> string, parse: string -> Option<T>, msgs: seq<T>, chunks: seq<string>)
    requires RoundTrips(serialize, parse)
    requires Concat(chunks) == EncodeAll(serialize, msgs)
    ensures DecodeChunks(parse, "", chunks) == (msgs, "")
  {
    EncodedLines(serialize, parse, msgs);
    assert Unlines(SerializeAll(serialize, msgs)) + "" == EncodeAll(serialize, msgs);
    ChunkingDoesNotMatter(parse, SerializeAll(serialize, msgs), "", chunks);
  }
}
