/** Reading lines through a small buffer while a stack trace is printed (symbolize.cc). */
module LineReader {

  // ---------------------------------------------------------------------------------
  // Lines of a text
  // ---------------------------------------------------------------------------------

  /** Place of the first line feed at or behind `pos`; not inside the text if there is none. */
  function NextFeed(text: string, pos: nat): (n: nat)
    ensures pos <= n
    ensures n < |text| ==> text[n] == '\n'
    ensures forall i :: pos <= i < n && i < |text| ==> text[i] != '\n'
    decreases |text| - pos
  {
    if pos >= |text| || text[pos] == '\n' then pos else NextFeed(text, pos + 1)
  }

  lemma NoFeed(text: string, pos: nat, end: nat)
    requires forall i :: pos <= i < end && i < |text| ==> text[i] != '\n'
    requires pos <= end
    ensures NextFeed(text, pos) >= end || NextFeed(text, pos) >= |text|
  {
  }

  lemma FeedIs(text: string, pos: nat, n: nat)
    requires pos <= n < |text| && text[n] == '\n'
    requires forall i :: pos <= i < n ==> text[i] != '\n'
    ensures NextFeed(text, pos) == n
  {
    assert text[NextFeed(text, pos)] == '\n' || NextFeed(text, pos) > n;
  }

  /** The lines from `pos` on that end in a line feed, without it; what follows the last line feed is dropped. */
  function Lines(text: string, pos: nat): seq<string>
    decreases |text| - pos
  {
    var n := NextFeed(text, pos);
    if n >= |text| then [] else [text[pos..n]] + Lines(text, n + 1)
  }

  lemma LinesStep(text: string, pos: nat)
    ensures var n := NextFeed(text, pos);
            if n >= |text| then Lines(text, pos) == []
            else
              && Lines(text, pos) != [] && Lines(text, pos)[0] == text[pos..n]
              && Lines(text, pos)[1..] == Lines(text, n + 1)
  {
    if NextFeed(text, pos) < |text| {
      assert Lines(text, pos)[0] == text[pos..NextFeed(text, pos)];
    }
  }

  ghost predicate Fit(lines: seq<string>, room: nat) {
    forall line :: line in lines ==> |line| + 1 <= room
  }

  lemma MoveOne<T>(done: seq<T>, coming: seq<T>, all: seq<T>)
    requires coming != [] && done + coming == all
    ensures done + [coming[0]] + coming[1..] == all && coming[0] in all
  {
    assert all[|done|] == coming[0];
  }

  lemma Step(text: string, pos: nat, done: seq<string>, coming: seq<string>, all: seq<string>, room: nat)
    requires coming == Lines(text, pos) && done + coming == all && Fit(all, room)
    ensures NextFeed(text, pos) >= |text| ==> done == all
    ensures NextFeed(text, pos) < |text| ==>
              (coming != [] && coming[1..] == Lines(text, NextFeed(text, pos) + 1)
               && done + [text[pos..NextFeed(text, pos)]] + coming[1..] == all && NextFeed(text, pos) - pos + 1 <= room)
  {
    LinesStep(text, pos);
    if coming != [] {
      MoveOne(done, coming, all);
    }
  }

  function Joined(lines: seq<string>): string {
    if lines == [] then "" else lines[0] + "\n" + Joined(lines[1..])
  }

  /** No line holds a line feed, and the lines with their line feeds make up the text, up to a tail without one. */
  lemma {:induction false} LinesMakeText(text: string, pos: nat) returns (tail: string)
    requires pos <= |text|
    ensures Joined(Lines(text, pos)) + tail == text[pos..]
    ensures '\n' !in tail && forall i :: 0 <= i < |Lines(text, pos)| ==> '\n' !in Lines(text, pos)[i]
    decreases |text| - pos
  {
    var n := NextFeed(text, pos);
    if n < |text| {
      tail := LinesMakeText(text, n + 1);
      var rest := Lines(text, n + 1);
      var lines := Lines(text, pos);
      assert lines[0] == text[pos..n] && lines[1..] == rest;
      assert text[pos..] == text[pos..n] + "\n" + text[n + 1..];
      Associates(text[pos..n] + "\n", Joined(rest), tail);
    } else {
      tail := text[pos..];
      assert Joined([]) + tail == tail;
    }
  }

  lemma Associates(a: string, b: string, c: string)
    ensures a + b + c == a + (b + c)
  {
  }

  // ---------------------------------------------------------------------------------
  // The file
  // ---------------------------------------------------------------------------------

  function Available(bytes: string, offset: nat, count: nat): nat {
    if offset >= |bytes| then 0 else if count <= |bytes| - offset then count else |bytes| - offset
  }

  class File {
    const bytes: string
    var failed: bool

    constructor (contents: string)
      ensures bytes == contents && !failed
    {
      bytes := contents;
      failed := false;
    }

    /** pread: any error but an interruption, or any number of the bytes asked for, zero only at the end. */
    method Pread(buf: array<char>, at: nat, count: nat, offset: nat) returns (len: int)
      requires at + count <= buf.Length
      modifies buf, `failed
      ensures len < 0 ==> failed
      ensures len >= 0 ==> (failed == old(failed) && len <= Available(bytes, offset, count))
      ensures len == 0 ==> Available(bytes, offset, count) == 0
      ensures forall i :: at <= i < at + len ==> buf[i] == bytes[offset + (i - at)]
      ensures forall i :: 0 <= i < buf.Length && !(at <= i < at + len) ==> buf[i] == old(buf[i])
    {
      if * {
        failed := true;
        return -1;
      }
      var most := Available(bytes, offset, count);
      if most == 0 {
        return 0;
      }
      var n: nat :| 1 <= n <= most;
      forall i | at <= i < at + n {
        buf[i] := bytes[offset + (i - at)];
      }
      return n;
    }
  }

  /** ReadFromOffset: short reads are put together, so only the end of the file can leave the count short. */
  method ReadFromOffset(file: File, buf: array<char>, at: nat, count: nat, offset: nat) returns (numBytes: int)
    requires at + count <= buf.Length
    modifies buf, file`failed
    ensures numBytes < 0 ==> file.failed
    ensures numBytes >= 0 ==> (file.failed == old(file.failed) && numBytes == Available(file.bytes, offset, count))
    ensures forall i :: at <= i < at + numBytes ==> buf[i] == file.bytes[offset + (i - at)]
    ensures forall i :: 0 <= i < buf.Length && !(at <= i < at + count) ==> buf[i] == old(buf[i])
  {
    numBytes := 0;
    while numBytes < count
      invariant 0 <= numBytes <= Available(file.bytes, offset, count)
      invariant file.failed == old(file.failed)
      invariant forall i :: at <= i < at + numBytes ==> buf[i] == file.bytes[offset + (i - at)]
      invariant forall i :: 0 <= i < buf.Length && !(at <= i < at + count) ==> buf[i] == old(buf[i])
      decreases count - numBytes
    {
      var len := file.Pread(buf, at + numBytes, count - numBytes, offset + numBytes);
      if len < 0 {
        return -1;
      }
      if len == 0 {
        break;
      }
      numBytes := numBytes + len;
    }
  }

  /** memmove to the start of the buffer. */
  method MoveToFront(buf: array<char>, from: nat, n: nat)
    requires from + n <= buf.Length
    modifies buf
    ensures forall i :: 0 <= i < n ==> buf[i] == old(buf[from + i])
  {
    forall i | 0 <= i < n {
      buf[i] := buf[from + i];
    }
  }

  /** The line feed at `eol` gives way to a NUL. */
  method Terminate(buf: array<char>, bol: nat, eol: nat)
    requires bol <= eol < buf.Length
    modifies buf
    ensures buf[eol] == '\0' && buf[bol..eol] == old(buf[bol..eol])
    ensures forall i :: eol < i < buf.Length ==> buf[i] == old(buf[i])
  {
    buf[eol] := '\0';
  }

  // ---------------------------------------------------------------------------------
  // The reader
  // ---------------------------------------------------------------------------------

  class Reader {
    const file: File
    const buf: array<char>
    var offset: nat
    var bol: int
    var eol: int
    var eod: int
    ghost var pos: nat

    /** Between two successful reads: what lies in the buffer behind the last line is the file from `pos`, where the
        next line starts, to `offset`. */
    ghost predicate Valid()
      reads this, buf
    {
      && 0 <= eod <= buf.Length
      && (eod == 0 ==> offset == pos)
      && (eod > 0 ==> 0 <= bol <= eol < eod && Holds(eol + 1))
    }

    /** The buffer from `from` to `eod` is the file from `pos` to `offset`. */
    ghost predicate Holds(from: int)
      requires 0 <= from
      reads this, buf
    {
      && from <= eod <= buf.Length && offset <= |file.bytes| && pos + (eod - from) == offset
      && forall i :: from <= i < eod ==> buf[i] == file.bytes[pos + (i - from)]
    }

    constructor (f: File, b: array<char>, from: nat)
      ensures Valid() && file == f && buf == b && pos == from
    {
      file, buf := f, b;
      offset, bol, eol, eod := from, 0, 0, 0;
      pos := from;
    }

    method FindLineFeed() returns (at: int)
      requires 0 <= bol <= eod <= buf.Length
      ensures at < 0 ==> forall i :: bol <= i < eod ==> buf[i] != '\n'
      ensures at >= 0 ==> (bol <= at < eod && buf[at] == '\n' && forall i :: bol <= i < at ==> buf[i] != '\n')
    {
      for i := bol to eod
        invariant forall j :: bol <= j < i ==> buf[j] != '\n'
      {
        if buf[i] == '\n' {
          return i;
        }
      }
      return -1;
    }

    /** No next line is complete and short enough for the buffer. */
    ghost predicate NothingFits()
      reads this
    {
      var n := NextFeed(file.bytes, pos);
      n >= |file.bytes| || n + 1 - pos > buf.Length
    }

    /** The buffer holds the file from `pos` on, and either it is full, or nothing is left. */
    ghost predicate Full()
      reads this, buf
    {
      0 <= bol && Holds(bol) && eod > 0 && (eod - bol == buf.Length || offset == |file.bytes|)
    }

    /** A full buffer without a line feed, or a read that got nothing. */
    lemma NothingFitsWhen(end: nat)
      requires pos <= end && (end - pos >= buf.Length || end >= |file.bytes|)
      requires forall i :: pos <= i < end && i < |file.bytes| ==> file.bytes[i] != '\n'
      ensures NothingFits()
    {
      NoFeed(file.bytes, pos, end);
    }

    lemma HeldNoFeed()
      requires 0 <= bol && Holds(bol) && forall i :: bol <= i < eod ==> buf[i] != '\n'
      ensures forall k :: pos <= k < offset ==> file.bytes[k] != '\n'
    {
      forall k | pos <= k < offset
        ensures file.bytes[k] != '\n'
      {
        assert buf[bol + (k - pos)] == file.bytes[k];
      }
    }

    lemma HeldFeed(feed: nat)
      requires 0 <= bol <= feed && Holds(bol) && feed < eod && buf[feed] == '\n'
      requires forall i :: bol <= i < feed ==> buf[i] != '\n'
      ensures NextFeed(file.bytes, pos) == pos + (feed - bol) < |file.bytes|
      ensures buf[bol..feed] == file.bytes[pos..pos + (feed - bol)]
    {
      forall k | pos <= k < pos + (feed - bol)
        ensures file.bytes[k] != '\n'
      {
        assert buf[bol + (k - pos)] == file.bytes[k];
      }
      FeedIs(file.bytes, pos, pos + (feed - bol));
    }

    /** First read: as much as the buffer takes. */
    method Fill() returns (ok: bool)
      requires Valid() && eod == 0
      modifies `offset, `eod, `bol, buf, file`failed
      ensures ok ==> Full() && file.failed == old(file.failed)
      ensures !ok ==> file.failed || NothingFits()
    {
      var numBytes := ReadFromOffset(file, buf, 0, buf.Length, offset);
      if numBytes <= 0 {
        if numBytes == 0 {
          NothingFitsWhen(pos);
        }
        return false;
      }
      offset := offset + numBytes;
      eod := numBytes;
      bol := 0;
      return true;
    }

    /** The trailing incomplete line moves to the front of the buffer and the file is read on behind it. */
    method TopUp() returns (ok: bool)
      requires 0 < bol && Holds(bol) && forall i :: bol <= i < eod ==> buf[i] != '\n'
      modifies `offset, `eod, `bol, buf, file`failed
      ensures ok ==> Full() && file.failed == old(file.failed)
      ensures !ok ==> file.failed || NothingFits()
    {
      var incomplete := eod - bol;
      HeldNoFeed();
      MoveToFront(buf, bol, incomplete);
      assert forall i :: 0 <= i < incomplete ==> buf[i] == file.bytes[pos + i];
      hide NextFeed;
      var numBytes := ReadFromOffset(file, buf, incomplete, buf.Length - incomplete, offset);
      if numBytes <= 0 {
        if numBytes == 0 {
          NothingFitsWhen(offset);
        }
        return false;
      }
      offset := offset + numBytes;
      eod := incomplete + numBytes;
      bol := 0;
      return true;
    }

    /** The buffer holds the file from `pos` on, with a whole line or as much of it as there can be. */
    ghost predicate Ready()
      reads this, buf
    {
      0 <= bol && Holds(bol) && eod > 0 && (Full() || exists i :: bol <= i < eod && buf[i] == '\n')
    }

    /** Later reads: on to the next line, topping the buffer up if it is incomplete. */
    method Advance() returns (ok: bool)
      requires Valid() && eod > 0
      modifies `offset, `eod, `bol, buf, file`failed
      ensures ok ==> Ready() && file.failed == old(file.failed)
      ensures !ok ==> file.failed || NothingFits()
    {
      bol := eol + 1;
      assert bol <= eod;
      var feed := FindLineFeed();
      if feed < 0 {
        ok := TopUp();
      } else {
        ok := true;
      }
    }

    /** The end of ReadLine: the line feed is looked up and overwritten. */
    method TakeLine() returns (ok: bool)
      requires Ready()
      modifies `eol, `pos, buf
      ensures ok ==> Valid() && HoldsLineFrom(old(pos))
      ensures !ok ==> pos == old(pos) && NothingFits()
    {
      var feed := FindLineFeed();
      if feed < 0 {
        HeldNoFeed();
        NothingFitsWhen(offset);
        return false;
      }
      HeldFeed(feed);
      eol := feed;
      Terminate(buf, bol, eol);
      pos := pos + (eol - bol) + 1;
      return true;
    }

    /** Between `bol` and `eol` is the line that starts at `from`, ended by a NUL, and `pos` is behind its line feed. */
    ghost predicate HoldsLineFrom(from: nat)
      reads this, buf
    {
      var n := NextFeed(file.bytes, from);
      && n < |file.bytes| && pos == n + 1
      && 0 <= bol <= eol < buf.Length && buf[bol..eol] == file.bytes[from..n] && buf[eol] == '\0'
    }

    /** ReadLine: it succeeds exactly when a next line with its line feed fits the buffer, and returns that line.
        A failed read of the file is the only other way to fail. */
    method ReadLine() returns (ok: bool)
      requires Valid()
      modifies this, buf, file`failed
      ensures ok ==> Valid() && HoldsLineFrom(old(pos)) && file.failed == old(file.failed)
      ensures !ok && !file.failed ==> pos == old(pos) && NothingFits()
    {
      if eod == 0 {
        ok := Fill();
      } else {
        ok := Advance();
      }
      if ok {
        ok := TakeLine();
      }
    }
  }

  /** The loop of a caller that reads until the first failure. With a buffer as long as every line with its line
      feed, and no error from the file, it gets the lines of the text, each once and in order. */
  method ReadAll(reader: Reader) returns (lines: seq<string>)
    requires reader.Valid() && !reader.file.failed
    requires Fit(Lines(reader.file.bytes, reader.pos), reader.buf.Length)
    modifies reader, reader.buf, reader.file`failed
    ensures lines <= Lines(reader.file.bytes, old(reader.pos))
    ensures !reader.file.failed ==> lines == Lines(reader.file.bytes, old(reader.pos))
  {
    lines := [];
    ghost var all := Lines(reader.file.bytes, reader.pos);
    ghost var coming := all;
    while true
      invariant reader.Valid() && !reader.file.failed
      invariant coming == Lines(reader.file.bytes, reader.pos)
      invariant lines + coming == all
      decreases |coming|
    {
      Step(reader.file.bytes, reader.pos, lines, coming, all, reader.buf.Length);
      var ok := reader.ReadLine();
      if !ok {
        return;
      }
      coming := coming[1..];
      lines := lines + [reader.buf[reader.bol..reader.eol]];
    }
  }
}
