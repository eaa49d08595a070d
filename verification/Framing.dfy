/** Splitting the inbound byte stream into Stratum lines (stratum_listener.rs).

    The stream is ASCII, one `char` per byte. */
module Framing {
  import opened Sequences

  const MAX_STRATUM_LINE_BYTES: nat := 64 * 1024
  const READ_SIZE: nat := 1024

  function Filtered(s: string): (r: string)
    ensures |r| <= |s|
  {
    if s == "" then "" else (if s[0] == '\0' then "" else [s[0]]) + Filtered(s[1..])
  }

  function FirstNewline(s: string): (i: nat)
    requires '\n' in s
    ensures i < |s| && s[i] == '\n' && '\n' !in s[..i]
  {
    if s[0] == '\n' then 0 else 1 + FirstNewline(s[1..])
  }

  /** ASCII white space, as `str::trim` removes it. */
  predicate IsSpace(c: char) {
    c == ' ' || c == '\t' || c == '\n' || c == '\r' || c == 11 as char || c == 12 as char
  }

  function TrimStart(s: string): string {
    if s != "" && IsSpace(s[0]) then TrimStart(s[1..]) else s
  }

  function TrimEnd(s: string): string {
    if s != "" && IsSpace(s[|s| - 1]) then TrimEnd(s[..|s| - 1]) else s
  }

  function Trim(s: string): string {
    TrimEnd(TrimStart(s))
  }

  function NonEmpty(line: string): seq<string> {
    if line == "" then [] else [line]
  }

  /** The non-empty trimmed lines of a text, without its unfinished tail. */
  function Lines(s: string): seq<string>
    decreases |s|
  {
    if '\n' !in s then []
    else NonEmpty(Trim(s[..FirstNewline(s)])) + Lines(s[FirstNewline(s) + 1..])
  }

  /** The unfinished tail: what follows the last newline. */
  function Residue(s: string): (r: string)
    ensures '\n' !in r && |r| <= |s|
    decreases |s|
  {
    if '\n' !in s then s else Residue(s[FirstNewline(s) + 1..])
  }

  /** `lines` have been taken off `text` and `left` is still to be split. */
  ghost predicate Splits(text: string, lines: seq<string>, left: string) {
    lines + Lines(left) == Lines(text) && Residue(left) == Residue(text)
  }

  lemma SplitsOneMore(text: string, lines: seq<string>, left: string)
    requires '\n' in left && Splits(text, lines, left)
    ensures Splits(text, lines + NonEmpty(Trim(left[..FirstNewline(left)])), left[FirstNewline(left) + 1..])
  {
    FirstLine(left, left[..FirstNewline(left)], left[FirstNewline(left) + 1..]);
    Associates(lines, NonEmpty(Trim(left[..FirstNewline(left)])), Lines(left[FirstNewline(left) + 1..]));
  }

  class LineReader {
    var lineBuffer: string

    constructor ()
      ensures lineBuffer == ""
    {
      lineBuffer := "";
    }

    /** `append_line_data`. */
    method AppendLineData(data: string) returns (ok: bool)
      modifies this
      ensures ok == (|old(lineBuffer)| + |data| <= MAX_STRATUM_LINE_BYTES)
      ensures lineBuffer == if ok then old(lineBuffer) + data else old(lineBuffer)
    {
      if |lineBuffer| + |data| > MAX_STRATUM_LINE_BYTES {
        return false;
      }
      lineBuffer := lineBuffer + data;
      return true;
    }

    /** One successful read. */
    method Receive(chunk: string) returns (ok: bool, lines: seq<string>)
      modifies this
      ensures ok == Fits(old(lineBuffer), chunk)
      ensures ok ==> lines == Lines(old(lineBuffer) + Filtered(chunk))
      ensures ok ==> lineBuffer == Residue(old(lineBuffer) + Filtered(chunk))
      ensures !ok ==> lines == [] && lineBuffer == old(lineBuffer)
    {
      lines := [];
      var data := Filtered(chunk);
      ok := AppendLineData(data);
      if ok {
        lines := ProcessLines();
      }
    }

    /** Take every complete line off the buffer. */
    method ProcessLines() returns (lines: seq<string>)
      modifies this
      ensures lines == Lines(old(lineBuffer)) && lineBuffer == Residue(old(lineBuffer))
    {
      lines := [];
      ghost var text := lineBuffer;
      while '\n' in lineBuffer
        invariant Splits(text, lines, lineBuffer)
        decreases |lineBuffer|
      {
        var newlinePos := FirstNewline(lineBuffer);
        var line := Trim(lineBuffer[..newlinePos]);
        SplitsOneMore(text, lines, lineBuffer);
        lineBuffer := lineBuffer[newlinePos + 1..];
        lines := lines + NonEmpty(line);
      }
    }

    /** The read loop over the reads the socket returns. */
    method Listen(chunks: seq<string>) returns (connected: bool, lines: seq<string>)
      requires lineBuffer == ""
      modifies this
      ensures connected == Accepted("", chunks)
      ensures lines == Dispatched("", chunks) && lineBuffer == Left("", chunks)
    {
      connected, lines := true, [];
      var i := 0;
      while i < |chunks| && connected
        invariant 0 <= i <= |chunks|
        invariant connected ==> Accepted("", chunks) == Accepted(lineBuffer, chunks[i..])
        invariant connected ==> Dispatched("", chunks) == lines + Dispatched(lineBuffer, chunks[i..])
        invariant connected ==> Left("", chunks) == Left(lineBuffer, chunks[i..])
        invariant !connected ==> !Accepted("", chunks)
        invariant !connected ==> lines == Dispatched("", chunks) && lineBuffer == Left("", chunks)
      {
        var more;
        connected, more := Receive(chunks[i]);
        lines := lines + more;
        assert chunks[i..][1..] == chunks[i + 1..];
        i := i + 1;
      }
    }
  }

  // ---- What a sequence of reads does ------------------------------------------------

  predicate Fits(buffer: string, chunk: string) {
    |buffer| + |Filtered(chunk)| <= MAX_STRATUM_LINE_BYTES
  }

  function AfterRead(buffer: string, chunk: string): string {
    Residue(buffer + Filtered(chunk))
  }

  /** No read overflows the buffer. */
  predicate Accepted(buffer: string, chunks: seq<string>)
    decreases |chunks|
  {
    chunks == [] || (Fits(buffer, chunks[0]) && Accepted(AfterRead(buffer, chunks[0]), chunks[1..]))
  }

  /** The lines dispatched up to the end or the first overflow. */
  function Dispatched(buffer: string, chunks: seq<string>): seq<string>
    decreases |chunks|
  {
    if chunks == [] || !Fits(buffer, chunks[0]) then []
    else Lines(buffer + Filtered(chunks[0])) + Dispatched(AfterRead(buffer, chunks[0]), chunks[1..])
  }

  /** The buffer at that point. */
  function Left(buffer: string, chunks: seq<string>): string
    decreases |chunks|
  {
    if chunks == [] || !Fits(buffer, chunks[0]) then buffer else Left(AfterRead(buffer, chunks[0]), chunks[1..])
  }

  function Joined(chunks: seq<string>): string {
    if chunks == [] then "" else chunks[0] + Joined(chunks[1..])
  }

  predicate IsChunking(chunks: seq<string>, s: string) {
    Joined(chunks) == s && forall i :: 0 <= i < |chunks| ==> |chunks[i]| <= READ_SIZE
  }

  // ---- Lines do not depend on where the text is cut -----------------------------------

  lemma {:induction false} FirstNewlineOf(a: string, b: string)
    requires '\n' in a
    ensures '\n' in a + b && FirstNewline(a + b) == FirstNewline(a)
  {
    assert (a + b)[0] == a[0];
    if a[0] != '\n' {
      FirstNewlineOf(a[1..], b);
      assert (a + b)[1..] == a[1..] + b;
    }
  }

  /** Cutting at the first newline of `a`. */
  lemma CutFirstLine(a: string, b: string)
    requires '\n' in a
    ensures '\n' in a + b
    ensures Lines(a + b) == NonEmpty(Trim(a[..FirstNewline(a)])) + Lines(a[FirstNewline(a) + 1..] + b)
    ensures Residue(a + b) == Residue(a[FirstNewline(a) + 1..] + b)
  {
    FirstNewlineOf(a, b);
    CutConcat(a, b, FirstNewline(a));
    FirstLine(a + b, a[..FirstNewline(a)], a[FirstNewline(a) + 1..] + b);
  }

  lemma FirstLine(s: string, head: string, rest: string)
    requires '\n' in s && head == s[..FirstNewline(s)] && rest == s[FirstNewline(s) + 1..]
    ensures Lines(s) == NonEmpty(Trim(head)) + Lines(rest)
    ensures Residue(s) == Residue(rest)
  {
  }

  lemma CutConcat(a: string, b: string, i: nat)
    requires i < |a|
    ensures (a + b)[..i] == a[..i] && (a + b)[i + 1..] == a[i + 1..] + b
  {
  }

  lemma {:induction false} ResidueOfConcat(a: string, b: string)
    ensures Residue(a + b) == Residue(Residue(a) + b)
    decreases |a|
  {
    if '\n' in a {
      CutFirstLine(a, b);
      ResidueOfConcat(a[FirstNewline(a) + 1..], b);
    }
  }

  lemma {:induction false} LinesOfConcat(a: string, b: string)
    ensures Lines(a + b) == Lines(a) + Lines(Residue(a) + b)
    decreases |a|
  {
    if '\n' in a {
      var rest := a[FirstNewline(a) + 1..];
      LinesOfConcat(rest, b);
      LinesBehind(a, b, rest);
    } else {
      assert Lines(a) == [] && Residue(a) == a;
    }
  }

  /** The first line of `a` goes in front on both sides. */
  lemma LinesBehind(a: string, b: string, rest: string)
    requires '\n' in a && rest == a[FirstNewline(a) + 1..] && Lines(rest + b) == Lines(rest) + Lines(Residue(rest) + b)
    ensures Lines(a + b) == Lines(a) + Lines(Residue(a) + b)
  {
    CutFirstLine(a, b);
    FirstLine(a, a[..FirstNewline(a)], rest);
    Associates(NonEmpty(Trim(a[..FirstNewline(a)])), Lines(rest), Lines(Residue(rest) + b));
  }

  lemma {:induction false} FilteredConcat(a: string, b: string)
    ensures Filtered(a + b) == Filtered(a) + Filtered(b)
  {
    if a == "" {
      assert a + b == b;
    } else {
      FilteredConcat(a[1..], b);
      assert (a + b)[0] == a[0] && (a + b)[1..] == a[1..] + b;
      Associates(if a[0] == '\0' then "" else [a[0]], Filtered(a[1..]), Filtered(b));
    }
  }

  /** Whatever the reads, what has been dispatched and what is left are those of the whole
      filtered stream, and the buffer stays within 64 KiB. */
  lemma {:induction false} FramingIgnoresChunking(buffer: string, chunks: seq<string>)
    requires Accepted(buffer, chunks) && '\n' !in buffer && |buffer| <= MAX_STRATUM_LINE_BYTES
    ensures Dispatched(buffer, chunks) == Lines(buffer + Filtered(Joined(chunks)))
    ensures Left(buffer, chunks) == Residue(buffer + Filtered(Joined(chunks)))
    ensures |Left(buffer, chunks)| <= MAX_STRATUM_LINE_BYTES
    decreases |chunks|
  {
    if chunks == [] {
      assert buffer + "" == buffer;
    } else {
      var head, tail := buffer + Filtered(chunks[0]), Filtered(Joined(chunks[1..]));
      FilteredConcat(chunks[0], Joined(chunks[1..]));
      assert buffer + Filtered(Joined(chunks)) == head + tail;
      LinesOfConcat(head, tail);
      ResidueOfConcat(head, tail);
      FramingIgnoresChunking(AfterRead(buffer, chunks[0]), chunks[1..]);
    }
  }

  // ---- When every chunking is accepted --------------------------------------------------

  function Next(s: string, i: nat): string
    requires i <= |s|
  {
    if |s| - i <= READ_SIZE then s[i..] else s[i..i + READ_SIZE]
  }

  /** A full read at offset `i` of the stream would still fit. */
  predicate RoomAt(s: string, i: nat)
    requires i <= |s|
  {
    |Residue(Filtered(s[..i]))| + |Filtered(Next(s, i))| <= MAX_STRATUM_LINE_BYTES
  }

  ghost predicate AlwaysAccepted(s: string) {
    forall chunks :: IsChunking(chunks, s) ==> Accepted("", chunks)
  }

  lemma {:induction false} AcceptedConcat(buffer: string, a: seq<string>, b: seq<string>)
    ensures Accepted(buffer, a + b) ==> Accepted(buffer, a) && Accepted(Left(buffer, a), b)
    decreases |a|
  {
    if a == [] {
      assert a + b == b;
    } else {
      assert (a + b)[0] == a[0] && (a + b)[1..] == a[1..] + b;
      if Fits(buffer, a[0]) {
        AcceptedConcat(AfterRead(buffer, a[0]), a[1..], b);
      }
    }
  }

  lemma {:induction false} JoinedConcat(a: seq<string>, b: seq<string>)
    ensures Joined(a + b) == Joined(a) + Joined(b)
  {
    if a == [] {
      assert a + b == b;
    } else {
      assert (a + b)[1..] == a[1..] + b;
      JoinedConcat(a[1..], b);
    }
  }

  lemma {:induction false} RoomSuffices(done: string, chunks: seq<string>, s: string)
    requires done + Joined(chunks) == s && forall i :: 0 <= i < |chunks| ==> |chunks[i]| <= READ_SIZE
    requires forall i :: 0 <= i <= |s| ==> RoomAt(s, i)
    ensures Accepted(Residue(Filtered(done)), chunks)
    decreases |chunks|
  {
    if chunks != [] {
      var chunk := chunks[0];
      assert s == done + chunk + Joined(chunks[1..]);
      assert RoomAt(s, |done|);
      assert s[..|done|] == done;
      var next := Next(s, |done|);
      assert next == chunk + next[|chunk|..];
      FilteredConcat(chunk, next[|chunk|..]);
      FilteredConcat(done, chunk);
      ResidueOfConcat(Filtered(done), Filtered(chunk));
      RoomSuffices(done + chunk, chunks[1..], s);
    }
  }

  function Singles(s: string): (chunks: seq<string>)
    ensures forall i :: 0 <= i < |chunks| ==> |chunks[i]| <= READ_SIZE
    ensures Joined(chunks) == s
  {
    if s == "" then [] else [[s[0]]] + Singles(s[1..])
  }

  lemma SplitAt(s: string, i: nat, before: seq<string>, x: string, after: seq<string>)
    requires i + |x| <= |s| && x == s[i..i + |x|]
    requires Joined(before) == s[..i] && Joined(after) == s[i + |x|..]
    ensures Joined(before + ([x] + after)) == s
  {
    JoinedConcat(before, [x] + after);
    JoinedCons(x, after);
    ThreeParts(s, i, |x|);
  }

  lemma JoinedCons(x: string, rest: seq<string>)
    ensures Joined([x] + rest) == x + Joined(rest)
  {
    assert ([x] + rest)[1..] == rest;
  }

  lemma ThreeParts(s: string, i: nat, n: nat)
    requires i + n <= |s|
    ensures s == s[..i] + (s[i..i + n] + s[i + n..])
  {
  }

  lemma RoomIsNeeded(s: string, i: nat)
    requires i <= |s| && !RoomAt(s, i)
    ensures exists chunks :: IsChunking(chunks, s) && !Accepted("", chunks)
  {
    var before, x, after := Singles(s[..i]), Next(s, i), Singles(s[i + |Next(s, i)|..]);
    AcceptedConcat("", before, [x] + after);
    SplitAt(s, i, before, x, after);
    assert IsChunking(before + ([x] + after), s);
    if Accepted("", before) {
      NoRoomLeft(s, i, before);
      assert !Accepted(Left("", before), [x] + after);
    }
  }

  lemma NoRoomLeft(s: string, i: nat, before: seq<string>)
    requires i <= |s| && !RoomAt(s, i) && Joined(before) == s[..i] && Accepted("", before)
    ensures !Fits(Left("", before), Next(s, i))
  {
    FramingIgnoresChunking("", before);
    assert "" + Filtered(s[..i]) == Filtered(s[..i]);
  }

  /** A stream is accepted under every split into reads of at most 1024 bytes exactly when a full
      read fits at every offset. */
  lemma AlwaysAcceptedIff(s: string)
    ensures AlwaysAccepted(s) <==> forall i :: 0 <= i <= |s| ==> RoomAt(s, i)
  {
    if forall i :: 0 <= i <= |s| ==> RoomAt(s, i) {
      forall chunks | IsChunking(chunks, s) ensures Accepted("", chunks) {
        assert "" + Joined(chunks) == s;
        RoomSuffices("", chunks, s);
      }
    } else {
      var i :| 0 <= i <= |s| && !RoomAt(s, i);
      RoomIsNeeded(s, i);
    }
  }

  /** Every line, and the unfinished tail, has at most `n` bytes. */
  predicate LinesWithin(s: string, n: nat)
    decreases |s|
  {
    if '\n' !in s then |s| <= n
    else FirstNewline(s) <= n && LinesWithin(s[FirstNewline(s) + 1..], n)
  }

  lemma {:induction false} TailWithin(a: string, b: string, n: nat)
    requires LinesWithin(a + b, n)
    ensures |Residue(a)| <= n
    decreases |a|
  {
    if '\n' in a {
      FirstNewlineOf(a, b);
      var i := FirstNewline(a);
      assert (a + b)[i + 1..] == a[i + 1..] + b;
      TailWithin(a[i + 1..], b, n);
    } else if '\n' in a + b {
      var i := FirstNewline(a + b);
      assert forall k :: 0 <= k < |a| ==> (a + b)[k] == a[k] && a[k] != '\n';
      assert (a + b)[i] == '\n';
    }
  }

  /** Streams whose lines leave room for one read are framed the same under every chunking: the
      lines dispatched are exactly the non-empty trimmed lines of the NUL-filtered stream. */
  lemma ShortLinesAreFramedExactly(s: string, chunks: seq<string>)
    requires IsChunking(chunks, s) && LinesWithin(Filtered(s), MAX_STRATUM_LINE_BYTES - READ_SIZE)
    ensures Accepted("", chunks)
    ensures Dispatched("", chunks) == Lines(Filtered(s)) && Left("", chunks) == Residue(Filtered(s))
  {
    forall i | 0 <= i <= |s| ensures RoomAt(s, i) {
      assert s == s[..i] + s[i..];
      FilteredConcat(s[..i], s[i..]);
      TailWithin(Filtered(s[..i]), Filtered(s[i..]), MAX_STRATUM_LINE_BYTES - READ_SIZE);
    }
    AlwaysAcceptedIff(s);
    FramingIgnoresChunking("", chunks);
    assert "" + Filtered(s) == Filtered(s);
  }
}
