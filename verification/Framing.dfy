// Newline framing of messages (modules/ipc/stream.go, ReadLine and WriteLine),
// over a buffered reader of any size fed by arrivals cut in any way.
module Framing {
  import opened Strings

  // How a read of one slice ended: at a newline, with the buffer full, or with
  // the connection's end.
  datatype SliceEnd = AtNewline | BufferFull | AtEnd

  datatype Slice = Slice(chunk: Text, how: SliceEnd)

  // What ReadLine returns: a message, or one of its errors.
  datatype Read = Message(bytes: Text) | TooLong | Truncated(bytes: Text) | Ended | Failed

  datatype Outcome = Outcome(read: Read, rest: Text)

  function IndexOfNewline(s: Text): (i: nat)
    ensures i <= |s| && '\n' !in s[..i] && (i < |s| ==> s[i] == '\n')
  {
    if s == "" || s[0] == '\n' then 0
    else
      var i := 1 + IndexOfNewline(s[1..]);
      assert s[..i] == [s[0]] + s[1..][..i - 1];
      i
  }

  function Flatten(parts: seq<Text>): Text { if parts == [] then "" else parts[0] + Flatten(parts[1..]) }

  function NextSlice(rest: Text, size: nat): (s: Slice)
    ensures |s.chunk| <= |rest|
    ensures s.how.BufferFull? ==> |s.chunk| == size
    ensures s.how.AtNewline? <==> s.chunk != "" && s.chunk[|s.chunk| - 1] == '\n'
  {
    var i := IndexOfNewline(rest);
    if i < |rest| && i < size then Slice(rest[..i + 1], AtNewline)
    else if |rest| >= size then Slice(rest[..size], BufferFull)
    else Slice(rest, AtEnd)
  }

  // Everything the buffered reader promises: the next slice is a function of
  // the bytes still to come, however they are split over buffer and arrivals.
  class BufReader {
    const size: nat
    const fails: bool        // the connection ends with an error other than end of file
    var buffered: Text
    var arrivals: seq<Text>

    ghost predicate Valid()
      reads this
    {
      size >= 1 && |buffered| <= size
    }

    ghost function Rest(): Text
      reads this
    {
      buffered + Flatten(arrivals)
    }

    constructor (size: nat, fails: bool, arrivals: seq<Text>)
      requires size >= 1
      ensures Valid() && Rest() == Flatten(arrivals) && this.size == size && this.fails == fails
    {
      this.size, this.fails, this.buffered, this.arrivals := size, fails, "", arrivals;
      assert "" + Flatten(arrivals) == Flatten(arrivals);
    }

    // One read from the connection into the free part of the buffer.
    method Fill()
      requires Valid() && |buffered| < size && arrivals != []
      modifies this`buffered, this`arrivals
      ensures Valid() && Rest() == old(Rest()) && old(buffered) <= buffered
      ensures |arrivals| < |old(arrivals)| || (|arrivals| == |old(arrivals)| && |buffered| > |old(buffered)|)
    {
      var head := arrivals[0];
      var room := size - |buffered|;
      if |head| <= room {
        assert buffered + Flatten(arrivals) == (buffered + head) + Flatten(arrivals[1..]);
        buffered, arrivals := buffered + head, arrivals[1..];
      } else {
        ghost var later := [head[room..]] + arrivals[1..];
        assert later[1..] == arrivals[1..];
        assert buffered + Flatten(arrivals) == (buffered + head[..room]) + Flatten(later);
        buffered, arrivals := buffered + head[..room], [head[room..]] + arrivals[1..];
      }
    }

    method ReadSlice() returns (s: Slice)
      requires Valid()
      modifies this`buffered, this`arrivals
      ensures Valid() && s == NextSlice(old(Rest()), size)
      ensures Rest() == old(Rest())[|s.chunk|..]
    {
      while true
        invariant Valid() && Rest() == old(Rest())
        decreases |arrivals|, size - |buffered|
      {
        var i := IndexOfNewline(buffered);
        FirstInPrefix(buffered, Flatten(arrivals));
        if i < |buffered| {
          s := Slice(buffered[..i + 1], AtNewline);
          buffered := buffered[i + 1..];
          return;
        }
        if |buffered| >= size {
          s := Slice(buffered, BufferFull);
          buffered := "";
          return;
        }
        if arrivals == [] {
          s := Slice(buffered, AtEnd);
          buffered := "";
          return;
        }
        Fill();
      }
    }
  }

  lemma {:induction false} FirstInPrefix(a: Text, b: Text)
    ensures IndexOfNewline(a) < |a| ==> IndexOfNewline(a + b) == IndexOfNewline(a)
    ensures IndexOfNewline(a) == |a| ==> IndexOfNewline(a + b) >= |a|
  {
    if a != "" && a[0] != '\n' {
      FirstInPrefix(a[1..], b);
      assert (a + b)[1..] == a[1..] + b;
    }
  }

  // ---- ReadLine --------------------------------------------------------------------------------

  function StripCr(line: Text): Text {
    if line != "" && line[|line| - 1] == '\r' then line[..|line| - 1] else line
  }

  // What reading one line yields when `got` has been collected already.
  function ReadFrom(rest: Text, size: nat, max: nat, fails: bool, got: Text): Outcome
    requires size >= 1
    decreases |rest|
  {
    var s := NextSlice(rest, size);
    var later := rest[|s.chunk|..];
    if s.how.AtNewline? then
      var line := StripCr(s.chunk[..|s.chunk| - 1]);
      if got == "" || |got + line| <= max then Outcome(Message(got + line), later) else Outcome(TooLong, later)
    else
      var more := got + s.chunk;
      if s.chunk != "" && |more| > max then Outcome(TooLong, later)
      else if s.how.BufferFull? then ReadFrom(later, size, max, fails, more)
      else if fails then Outcome(Failed, later)
      else if more != "" then Outcome(Truncated(more), later)
      else Outcome(Ended, later)
  }

  // One round of the loop.
  lemma ReadStep(rest: Text, size: nat, max: nat, fails: bool, got: Text)
    requires size >= 1
    ensures var s := NextSlice(rest, size);
      var later := rest[|s.chunk|..];
      var r := ReadFrom(rest, size, max, fails, got);
      && (s.how.AtNewline? ==>
            var line := StripCr(s.chunk[..|s.chunk| - 1]);
            r == Outcome(if got == "" || |got + line| <= max then Message(got + line) else TooLong, later))
      && (!s.how.AtNewline? && s.chunk != "" && |got + s.chunk| > max ==> r == Outcome(TooLong, later))
      && (s.how.BufferFull? && |got + s.chunk| <= max ==>
            r == ReadFrom(later, size, max, fails, got + s.chunk) && |later| < |rest|)
      && (s.how.AtEnd? && (s.chunk == "" || |got + s.chunk| <= max) ==>
            r == Outcome(if fails then Failed else if got + s.chunk != "" then Truncated(got + s.chunk) else Ended,
                         later))
  {
  }

  lemma CutLine(chunk: Text)
    requires chunk != ""
    ensures var n := |chunk| - 1;
      StripCr(chunk[..n]) == chunk[..if n > 0 && chunk[n - 1] == '\r' then n - 1 else n]
  {
  }

  class Stream {
    const reader: BufReader
    const max: nat
    var written: Text        // what the peer will receive

    constructor (reader: BufReader, max: nat)
      ensures this.reader == reader && this.max == max && written == ""
    {
      this.reader, this.max, written := reader, max, "";
    }

    method ReadLine() returns (r: Read)
      requires reader.Valid()
      modifies reader`buffered, reader`arrivals
      ensures reader.Valid()
      ensures Outcome(r, reader.Rest()) == ReadFrom(old(reader.Rest()), reader.size, max, reader.fails, "")
    {
      hide ReadFrom, NextSlice, IndexOfNewline, Flatten, StripCr;
      ghost var whole := ReadFrom(reader.Rest(), reader.size, max, reader.fails, "");
      var buf, total := "", 0;
      while true
        invariant reader.Valid() && total == |buf|
        invariant whole == ReadFrom(reader.Rest(), reader.size, max, reader.fails, buf)
        decreases |reader.Rest()|
      {
        ReadStep(reader.Rest(), reader.size, max, reader.fails, buf);
        var s := reader.ReadSlice();
        var chunk := s.chunk;
        assert chunk == "" ==> buf + chunk == buf;
        if |chunk| > 0 {
          var n := |chunk|;
          if chunk[n - 1] == '\n' {
            n := n - 1;
            if n > 0 && chunk[n - 1] == '\r' {
              n := n - 1;
            }
            CutLine(chunk);
            assert total == 0 ==> buf == "" && "" + chunk[..n] == chunk[..n];
            if total == 0 && s.how.AtNewline? {
              return Message(chunk[..n]);
            }
            buf := buf + chunk[..n];
            total := total + n;
            if total > max {
              return TooLong;
            }
            return Message(buf);
          }
          buf := buf + chunk;
          total := total + |chunk|;
          if total > max {
            return TooLong;
          }
        }
        if s.how.BufferFull? {
          continue;
        }
        if reader.fails {
          return Failed;
        }
        if total > 0 {
          return Truncated(buf);
        }
        return Ended;
      }
    }

    method WriteLine(line: Text) returns (ok: bool)
      modifies this`written
      ensures ok <==> |line| <= max
      ensures written == old(written) + if ok then line + "\n" else ""
    {
      if |line| > max {
        return false;
      }
      var buf := new char[|line| + 1];
      for k := 0 to |line|
        invariant buf[..k] == line[..k] && written == old(written)
      {
        buf[k] := line[k];
      }
      buf[|line|] := '\n';
      var frame := buf[..];
      assert frame == line + "\n";
      written := written + frame;
      return true;
    }
  }

  // ---- one line, exactly ---------------------------------------------------------------------------

  lemma ModBlock(a: nat, b: nat, size: nat)
    requires size >= 1 && a % size == 0
    ensures (a + size) % size == 0
    ensures b < size ==> (a + b) % size == b
    ensures a > 0 ==> a >= size
  {
    var q := a / size;
    assert a == q * size;
    assert a + size == (q + 1) * size;
    MulMod(q + 1, 0, size);
    if b < size { MulMod(q, b, size); }
    if a > 0 && a < size { MulMod(0, a, size); }
  }

  lemma MulMod(q: nat, b: nat, size: nat)
    requires b < size
    ensures (q * size + b) % size == b
  {
    var n := q * size + b;
    var d := n / size - q;
    assert n == (n / size) * size + n % size;
    assert d * size == b - n % size by {
      assert d * size == (n / size) * size - q * size;
    }
    if d >= 1 { AtLeastOnce(d, size); }
    if d <= -1 { AtLeastOnce(-d, size); }
  }

  lemma AtLeastOnce(d: int, size: nat)
    requires d >= 1
    ensures d * size >= size && (-d) * size + size <= 0
  {
    assert (d - 1) * size >= 0;
  }

  lemma {:induction false} NewlineAfter(p: Text, more: Text)
    requires OneLine(p)
    ensures IndexOfNewline(p + "\n" + more) == |p|
  {
    var s := p + "\n" + more;
    if p == "" {
      assert s[0] == '\n';
    } else {
      assert s[1..] == p[1..] + "\n" + more;
      NewlineAfter(p[1..], more);
    }
  }

  // A carriage return before the newline is taken for part of the line ending,
  // unless it is the last byte of a full buffer.
  function Received(p: Text, size: nat): Text
    requires size >= 1
  {
    if |p| % size != 0 then StripCr(p) else p
  }

  // Where collecting full buffers first goes over the limit.
  function FirstOver(at: nat, size: nat, max: nat): (r: nat)
    requires size >= 1
    ensures r > max && r >= at
    decreases max - at
  {
    if at > max then at else FirstOver(at + size, size, max)
  }

  ghost predicate ReadsAs(r: Outcome, whole: Text, more: Text, size: nat, max: nat)
    requires size >= 1
  {
    var line, over := Received(whole, size), FirstOver(0, size, max);
    if |whole| >= size && |line| > max then
      r == Outcome(TooLong, if over <= |whole| then whole[over..] + "\n" + more else more)
    else r == Outcome(Message(line), more)
  }

  lemma LastPart(p: Text, more: Text, size: nat, max: nat, fails: bool, got: Text)
    requires size >= 1 && OneLine(p) && |p| < size && |got| % size == 0 && |got| <= max
    requires FirstOver(|got|, size, max) == FirstOver(0, size, max)
    ensures ReadsAs(ReadFrom(p + "\n" + more, size, max, fails, got), got + p, more, size, max)
  {
    hide IndexOfNewline;
    var rest := p + "\n" + more;
    NewlineAfter(p, more);
    assert rest[..|p| + 1] == p + "\n" && rest[|p| + 1..] == more;
    assert (p + "\n")[..|p|] == p;
    ModBlock(|got|, |p|, size);
    assert got + StripCr(p) == Received(got + p, size) by {
      if p != "" { assert (got + p)[..|got + p| - 1] == got + p[..|p| - 1]; }
    }
  }

  // Reading one line of the stream, from its first byte or after any number of
  // full buffers.
  lemma {:induction false} LineExactly(p: Text, more: Text, size: nat, max: nat, fails: bool, got: Text)
    requires size >= 1 && OneLine(p) && |got| % size == 0 && |got| <= max
    requires FirstOver(|got|, size, max) == FirstOver(0, size, max)
    ensures ReadsAs(ReadFrom(p + "\n" + more, size, max, fails, got), got + p, more, size, max)
    decreases |p|
  {
    hide IndexOfNewline;
    if |p| < size {
      LastPart(p, more, size, max, fails, got);
    } else {
      var rest := p + "\n" + more;
      NewlineAfter(p, more);
      var block, tail := p[..size], p[size..];
      assert rest[..size] == block && rest[size..] == tail + "\n" + more;
      assert (got + block) + tail == got + p;
      ModBlock(|got|, 0, size);
      if |got + block| > max {
        assert FirstOver(|got|, size, max) == |got + block|;
        assert (got + p)[|got + block|..] == tail;
        if tail == "" { assert |got + p| % size == 0; }
      } else {
        LineExactly(tail, more, size, max, fails, got + block);
      }
    }
  }

  // ---- streams of messages ----------------------------------------------------------------------------

  function Frames(messages: seq<Text>): Text {
    if messages == [] then "" else messages[0] + "\n" + Frames(messages[1..])
  }

  // `n` calls of ReadLine in a row.
  function ReadAll(rest: Text, size: nat, max: nat, fails: bool, n: nat): seq<Read>
    requires size >= 1
    decreases n
  {
    if n == 0 then []
    else
      var o := ReadFrom(rest, size, max, fails, "");
      [o.read] + ReadAll(o.rest, size, max, fails, n - 1)
  }

  predicate Accepted(p: Text, max: nat) { OneLine(p) && |p| <= max }

  predicate Faithful(p: Text, size: nat)
    requires size >= 1
  {
    |p| % size == 0 || p[|p| - 1] != '\r'
  }

  lemma LineReadBack(p: Text, more: Text, size: nat, max: nat, fails: bool)
    requires size >= 1 && Accepted(p, max)
    ensures ReadFrom(p + "\n" + more, size, max, fails, "") == Outcome(Message(Received(p, size)), more)
  {
    assert "" + p == p;
    LineExactly(p, more, size, max, fails, "");
  }

  // Messages accepted by WriteLine come back one per ReadLine, in order, each
  // at most without one trailing carriage return; then comes the end.
  lemma {:induction false} MessagesReadBack(ps: seq<Text>, size: nat, max: nat, fails: bool)
    requires size >= 1 && forall k :: 0 <= k < |ps| ==> Accepted(ps[k], max)
    ensures |ReadAll(Frames(ps), size, max, fails, |ps| + 1)| == |ps| + 1
    ensures forall k :: 0 <= k < |ps| ==>
      ReadAll(Frames(ps), size, max, fails, |ps| + 1)[k] == Message(Received(ps[k], size))
    ensures ReadAll(Frames(ps), size, max, fails, |ps| + 1)[|ps|] == if fails then Failed else Ended
  {
    hide Received, Accepted, ReadFrom;
    if ps == [] {
      UnfinishedLine("", size, max, fails, "");
      var o := ReadFrom("", size, max, fails, "");
      assert ReadAll("", size, max, fails, 1) == [o.read] + ReadAll(o.rest, size, max, fails, 0);
    } else {
      LineReadBack(ps[0], Frames(ps[1..]), size, max, fails);
      MessagesReadBack(ps[1..], size, max, fails);
      assert Frames(ps) == ps[0] + "\n" + Frames(ps[1..]);
      var tail := ReadAll(Frames(ps[1..]), size, max, fails, |ps|);
      assert ReadAll(Frames(ps), size, max, fails, |ps| + 1) == [Message(Received(ps[0], size))] + tail;
    }
  }

  // The round trip, exactly: every message comes back unchanged precisely when
  // none ends in a carriage return that does not fill the reader's buffer.
  lemma RoundTripExactly(ps: seq<Text>, size: nat, max: nat, fails: bool)
    requires size >= 1 && forall k :: 0 <= k < |ps| ==> Accepted(ps[k], max)
    ensures |ReadAll(Frames(ps), size, max, fails, |ps| + 1)| == |ps| + 1
    ensures (forall k :: 0 <= k < |ps| ==> ReadAll(Frames(ps), size, max, fails, |ps| + 1)[k] == Message(ps[k])) <==>
      (forall k :: 0 <= k < |ps| ==> Faithful(ps[k], size))
  {
    hide ReadAll, Frames, Accepted;
    MessagesReadBack(ps, size, max, fails);
    forall k | 0 <= k < |ps| ensures Received(ps[k], size) == ps[k] <==> Faithful(ps[k], size) {
      ReceivedUnchanged(ps[k], size);
    }
  }

  lemma ReceivedUnchanged(p: Text, size: nat)
    requires size >= 1
    ensures Received(p, size) == p <==> Faithful(p, size)
  {
    if p == "" { MulMod(0, 0, size); }
  }

  // A line short enough for the buffer is never refused, whatever the limit.
  lemma ShortLinesIgnoreTheLimit(p: Text, more: Text, size: nat, max: nat, fails: bool)
    requires size >= 1 && OneLine(p) && |p| < size
    ensures ReadFrom(p + "\n" + more, size, max, fails, "") == Outcome(Message(Received(p, size)), more)
  {
    assert "" + p == p;
    LineExactly(p, more, size, max, fails, "");
  }

  lemma {:induction false} FirstOverIsFull(at: nat, size: nat, max: nat)
    requires size >= 1 && at % size == 0
    ensures FirstOver(at, size, max) % size == 0
    decreases max - at
  {
    if at <= max {
      ModBlock(at, 0, size);
      FirstOverIsFull(at + size, size, max);
    }
  }

  // A refused line leaves its tail in the stream, where the next ReadLine takes
  // it for a message.
  lemma RefusedLineLeavesItsTail(p: Text, more: Text, size: nat, max: nat, fails: bool)
    requires size >= 1 && OneLine(p) && |p| >= FirstOver(0, size, max)
    ensures ReadFrom(p + "\n" + more, size, max, fails, "")
      == Outcome(TooLong, p[FirstOver(0, size, max)..] + "\n" + more)
  {
    hide ReadFrom;
    assert "" + p == p;
    MulMod(0, 0, size);
    LineExactly(p, more, size, max, fails, "");
    FirstOverIsFull(0, size, max);
    ModBlock(FirstOver(0, size, max), 0, size);
  }

  // Without a newline before the end of the connection there is no message.
  lemma {:induction false} UnfinishedLine(p: Text, size: nat, max: nat, fails: bool, got: Text)
    requires size >= 1 && OneLine(p) && |got| <= max
    ensures ReadFrom(p, size, max, fails, got).read ==
      if |got + p| > max then TooLong
      else if fails then Failed
      else if got + p != "" then Truncated(got + p)
      else Ended
    decreases |p|
  {
    assert IndexOfNewline(p) == |p|;
    if |p| >= size {
      assert got + p[..size] + p[size..] == got + p;
      if |got| + size <= max {
        UnfinishedLine(p[size..], size, max, fails, got + p[..size]);
      }
    }
  }
}
