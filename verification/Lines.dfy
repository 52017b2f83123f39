/** Line reassembly: the read-buffer loop of the gateway and of the virtual modem. */
module Lines {
  import opened Text

  /** The complete lines of a stream, without their newlines. */
  function Lines(s: string): (lines: seq<string>) {
    if s == "" then []
    else
      var before := s[..|s| - 1];
      if s[|s| - 1] == '\n' then Lines(before) + [Rest(before)] else Lines(before)
  }

  /** What follows the last newline. */
  function Rest(s: string): (rest: string)
    ensures '\n' !in rest
  {
    if s == "" || s[|s| - 1] == '\n' then "" else Rest(s[..|s| - 1]) + [s[|s| - 1]]
  }

  function Unlines(lines: seq<string>): string {
    if lines == [] then "" else lines[0] + ['\n'] + Unlines(lines[1..])
  }

  function Concat(chunks: seq<string>): string {
    if chunks == [] then "" else chunks[0] + Concat(chunks[1..])
  }

  lemma {:induction false} NoLine(s: string)
    requires '\n' !in s
    ensures Lines(s) == [] && Rest(s) == s
  {
    if s != "" {
      NoLine(s[..|s| - 1]);
    }
  }

  /** Reading on: the lines of a longer stream are the lines so far, then those of the leftover. */
  lemma {:induction false} LinesAppend(s: string, t: string)
    ensures Lines(s + t) == Lines(s) + Lines(Rest(s) + t)
    ensures Rest(s + t) == Rest(Rest(s) + t)
  {
    hide Lines, Rest;
    if t == "" {
      assert s + t == s && Rest(s) + t == Rest(s);
      NoLine(Rest(s));
    } else {
      var before, last := t[..|t| - 1], t[|t| - 1];
      LinesAppend(s, before);
      assert s + t == s + before + [last];
      assert Rest(s) + t == Rest(s) + before + [last];
      OneMoreChar(s + before, last);
      OneMoreChar(Rest(s) + before, last);
    }
  }

  lemma OneMoreChar(s: string, c: char)
    ensures Lines(s + [c]) == if c == '\n' then Lines(s) + [Rest(s)] else Lines(s)
    ensures Rest(s + [c]) == if c == '\n' then "" else Rest(s) + [c]
  {
    assert (s + [c])[..|s + [c]| - 1] == s;
  }

  lemma FirstLine(a: string, t: string)
    requires '\n' !in a
    ensures Lines(a + ['\n'] + t) == [a] + Lines(t)
    ensures Rest(a + ['\n'] + t) == Rest(t)
  {
    var s := a + ['\n'];
    assert s[..|s| - 1] == a;
    NoLine(a);
    LinesAppend(s, t);
    assert Rest(s) + t == t;
  }

  lemma CutFirstLine(s: string) returns (a: string, t: string)
    requires '\n' in s
    ensures s == a + ['\n'] + t && '\n' !in a && |t| < |s|
  {
    var i := Find(s, '\n');
    a, t := s[..i], s[i + 1..];
  }

  /** Reassembly loses and invents nothing ... */
  lemma {:induction false} LinesAreTheStream(s: string)
    ensures Unlines(Lines(s)) + Rest(s) == s
    ensures forall k | 0 <= k < |Lines(s)| :: '\n' !in Lines(s)[k]
    decreases |s|
  {
    if '\n' in s {
      var a, u := CutFirstLine(s);
      LinesAreTheStream(u);
      FirstLine(a, u);
      assert Unlines([a] + Lines(u)) == a + ['\n'] + Unlines(Lines(u)) by {
        assert ([a] + Lines(u))[1..] == Lines(u);
      }
    } else {
      NoLine(s);
    }
  }

  /** ... and is the only way to cut the stream at its newlines. */
  lemma {:induction false} LinesOfUnlines(lines: seq<string>, rest: string)
    requires forall k | 0 <= k < |lines| :: '\n' !in lines[k]
    requires '\n' !in rest
    ensures Lines(Unlines(lines) + rest) == lines
    ensures Rest(Unlines(lines) + rest) == rest
  {
    if lines == [] {
      assert Unlines(lines) + rest == rest;
      NoLine(rest);
    } else {
      var tail := Unlines(lines[1..]) + rest;
      LinesOfUnlines(lines[1..], rest);
      assert Unlines(lines) + rest == lines[0] + ['\n'] + tail;
      FirstLine(lines[0], tail);
    }
  }

  /** The read buffer of one port. */
  class LineBuffer {
    var buf: string

    constructor ()
      ensures buf == ""
    {
      buf := "";
    }

    /** Appends a chunk and takes off every complete line. */
    method Feed(chunk: string) returns (lines: seq<string>)
      modifies this
      ensures lines == Lines(old(buf) + chunk)
      ensures buf == Rest(old(buf) + chunk)
    {
      hide Lines, Rest;
      buf := buf + chunk;
      lines := [];
      ghost var all := buf;
      while '\n' in buf
        invariant lines + Lines(buf) == Lines(all)
        invariant Rest(buf) == Rest(all)
        decreases |buf|
      {
        var i := Find(buf, '\n');
        var line, later := buf[..i], buf[i + 1..];
        assert buf == line + ['\n'] + later;
        FirstLine(line, later);
        lines, buf := lines + [line], later;
      }
      NoLine(buf);
    }
  }

  /** What is still to come when the buffer holds `rest` and `chunks` are unread. */
  ghost predicate Remaining(lines: seq<string>, rest: string, chunks: seq<string>, whole: string) {
    && lines + Lines(rest + Concat(chunks)) == Lines(whole)
    && Rest(rest + Concat(chunks)) == Rest(whole)
  }

  lemma ReadOneChunk(lines: seq<string>, rest: string, chunks: seq<string>, whole: string)
    requires chunks != [] && Remaining(lines, rest, chunks, whole)
    ensures Remaining(lines + Lines(rest + chunks[0]), Rest(rest + chunks[0]), chunks[1..], whole)
  {
    var later := Concat(chunks[1..]);
    assert rest + Concat(chunks) == rest + chunks[0] + later;
    LinesAppend(rest + chunks[0], later);
  }

  /**
   Independence of chunking: however the stream is split into reads, the lines handed on and the
   leftover are those of the whole stream.
   */
  method ReadAll(chunks: seq<string>) returns (lines: seq<string>, rest: string)
    ensures lines == Lines(Concat(chunks))
    ensures rest == Rest(Concat(chunks))
  {
    var buffer := new LineBuffer();
    lines := [];
    assert "" + Concat(chunks) == Concat(chunks) && chunks[0..] == chunks;
    var i := 0;
    while i < |chunks|
      invariant 0 <= i <= |chunks|
      invariant Remaining(lines, buffer.buf, chunks[i..], Concat(chunks))
      invariant '\n' !in buffer.buf
    {
      ReadOneChunk(lines, buffer.buf, chunks[i..], Concat(chunks));
      var more := buffer.Feed(chunks[i]);
      lines := lines + more;
      i := i + 1;
    }
    rest := buffer.buf;
    assert rest + Concat(chunks[i..]) == rest;
    NoLine(rest);
  }
}
