/**
 * The thread of `run_rsync` (src/main.rs) that pumps rsync's standard
 * output.  It reads the output up to each '\r' (rsync redraws its progress
 * line with a carriage return), decodes the piece as UTF-8, trims it and
 * splits it into lines, and turns progress lines and file lines into
 * messages for the window.  When the output ends it sends `Finished`.
 *
 * The output is the byte sequence the child process writes; the channel is
 * the sequence of messages sent, in order.
 */
module Pump {
  import opened Wrappers
  import opened Text
  import Utf8
  import Parse = Progress

  type byte = Utf8.byte

  /** A quotient the source computes as an `f32` division, kept exact. */
  datatype Fraction = Fraction(num: nat, den: nat)

  /** The `Progress` struct: what the window shows of the transfer. */
  datatype ProgressState = ProgressState(
    totalProgress: Fraction,  // files done / files in the transfer
    progress: Fraction,       // percentage of the current file / 100
    speed: string,
    time: string,
    bytesSent: nat)

  /** `Progress::default()`: zero fractions and empty texts. */
  const NoProgress := ProgressState(Fraction(0, 1), Fraction(0, 1), "", "", 0)

  /** `StateMessage`: what the worker threads send to the window. */
  datatype StateMessage =
    | Progress(state: ProgressState)
    | NextFile(line: string)
    | Finished
    | Error(line: string)

  const CR: byte := 13

  // ---------------------------------------------------------------------------
  // Reading: `read_until(b'\r', &mut buffer)`

  /** Where the piece `read_until` reads from `pos` ends: just past the next '\r', or at the end. */
  function ChunkEnd(out: seq<byte>, pos: nat): (e: nat)
    requires pos < |out|
    ensures pos < e <= |out|
    decreases |out| - pos
  {
    if out[pos] == CR || pos + 1 == |out| then pos + 1 else ChunkEnd(out, pos + 1)
  }

  /** The piece read from `pos` holds no '\r' but its last byte, and ends with one unless it ends the output. */
  lemma {:induction false} ChunkEndShape(out: seq<byte>, pos: nat)
    requires pos < |out|
    ensures forall k | pos <= k < ChunkEnd(out, pos) - 1 :: out[k] != CR
    ensures ChunkEnd(out, pos) < |out| ==> out[ChunkEnd(out, pos) - 1] == CR
    decreases |out| - pos
  {
    if !(out[pos] == CR || pos + 1 == |out|) {
      ChunkEndShape(out, pos + 1);
    }
  }

  /** The pieces the loop reads, in order, until `read_until` reads nothing. */
  function Chunks(out: seq<byte>): seq<seq<byte>>
    decreases |out|
  {
    if out == [] then []
    else
      var e := ChunkEnd(out, 0);
      [out[..e]] + Chunks(out[e..])
  }

  function Flatten(cs: seq<seq<byte>>): seq<byte> {
    if cs == [] then [] else cs[0] + Flatten(cs[1..])
  }

  /**
   * The pieces put back together are the output; each is non-empty, holds
   * '\r' only as its last byte, and all but the last end with '\r'.
   */
  lemma {:induction false} ChunksCoverOutput(out: seq<byte>)
    ensures Flatten(Chunks(out)) == out
    ensures var cs := Chunks(out);
      forall i | 0 <= i < |cs| ::
        && |cs[i]| > 0
        && (forall k | 0 <= k < |cs[i]| - 1 :: cs[i][k] != CR)
        && (i < |cs| - 1 ==> cs[i][|cs[i]| - 1] == CR)
    decreases |out|
  {
    if out != [] {
      var e := ChunkEnd(out, 0);
      var cs := Chunks(out);
      ChunkEndShape(out, 0);
      ChunksCoverOutput(out[e..]);
      assert cs[1..] == Chunks(out[e..]);
      assert out[..e] + out[e..] == out;
      forall i | 0 <= i < |cs|
        ensures |cs[i]| > 0
        ensures forall k | 0 <= k < |cs[i]| - 1 :: cs[i][k] != CR
        ensures i < |cs| - 1 ==> cs[i][|cs[i]| - 1] == CR
      {
        if i > 0 {
          assert cs[i] == Chunks(out[e..])[i - 1];
        } else if |cs| > 1 {
          assert out[e..] != [];
        }
      }
    }
  }

  // ---------------------------------------------------------------------------
  // Lines: `str::from_utf8`, `trim_end_matches(['\r', '\n'])`, `trim`, `lines`

  /** `trim_end_matches(['\r', '\n'])`: the longest prefix that does not end with '\r' or '\n'. */
  function TrimEndNewlines(s: string): (r: string)
    ensures r <= s
    ensures r == [] || (r[|r| - 1] != '\r' && r[|r| - 1] != '\n')
    ensures forall k | |r| <= k < |s| :: s[k] == '\r' || s[k] == '\n'
  {
    if |s| > 0 && (s[|s| - 1] == '\r' || s[|s| - 1] == '\n') then TrimEndNewlines(s[..|s| - 1]) else s
  }

  /** `trim` after `trim_end_matches(['\r', '\n'])` trims no differently from `trim` alone. */
  lemma {:induction false} TrimAfterNewlines(s: string)
    ensures Trim(TrimEndNewlines(s)) == Trim(s)
    decreases |s|
  {
    if |s| > 0 && (s[|s| - 1] == '\r' || s[|s| - 1] == '\n') {
      TrimAfterNewlines(s[..|s| - 1]);
      TrimDropsTrailingSpace(s);
    }
  }

  /** The lines of one piece; a piece that is not UTF-8 gives none. */
  function ChunkLines(chunk: seq<byte>): (ls: seq<string>)
    ensures forall k | 0 <= k < |ls| :: '\n' !in ls[k]
  {
    match Utf8.Decode(chunk)
    case None => []
    case Some(text) => Lines(Trim(TrimEndNewlines(text)))
  }

  function ChunksLines(cs: seq<seq<byte>>): seq<string> {
    if cs == [] then [] else ChunkLines(cs[0]) + ChunksLines(cs[1..])
  }

  /** Every line the loop handles, in order. */
  function StdoutLines(out: seq<byte>): seq<string> {
    ChunksLines(Chunks(out))
  }

  // ---------------------------------------------------------------------------
  // Messages

  /** `line.starts_with('>') || line.starts_with('<')`: rsync's itemised line for a file. */
  predicate IsFileLine(line: string) {
    |line| > 0 && (line[0] == '>' || line[0] == '<')
  }

  /** How many of `lines` are file lines. */
  function FileCount(lines: seq<string>): nat {
    if lines == [] then 0
    else FileCount(lines[..|lines| - 1]) + (if IsFileLine(lines[|lines| - 1]) then 1 else 0)
  }

  /** The progress message of a parsed progress line, `count` files having started before it. */
  function ProgressMessage(p: Parse.RsyncProgress, count: nat, filesCount: nat): StateMessage {
    Progress(ProgressState(Fraction(count, filesCount), Fraction(p.percentage, 100),
      p.speed, p.estimatedTime, p.bytesTransferred))
  }

  /** The progress message a line sends when it parsed as a progress line. */
  function ProgressPart(parsed: Option<Parse.RsyncProgress>, count: nat, filesCount: nat): seq<StateMessage> {
    match parsed
    case Some(p) => [ProgressMessage(p, count, filesCount)]
    case None => []
  }

  /** The file message a file line sends: the text after its last ' '. */
  function FilePart(line: string): seq<StateMessage> {
    if IsFileLine(line) then [NextFile(LastToken(line))] else []
  }

  /**
   * A reader of progress lines.  The pump uses `Parse.ParseRsyncProgress`;
   * what is proved below about names, counts and `Finished` holds whichever
   * lines the reader accepts.
   */
  type Parser = string -> Option<Parse.RsyncProgress>

  /** What one line sends: a progress message when it parses, then a file message when it is a file line. */
  function LineMessages(parse: Parser, line: string, count: nat, filesCount: nat): seq<StateMessage> {
    ProgressPart(parse(line), count, filesCount) + FilePart(line)
  }

  /**
   * A parsed line sends one progress message, counting `count` files and
   * carrying the parsed fields; a line that did not parse sends none.
   */
  lemma ProgressPartShape(parsed: Option<Parse.RsyncProgress>, count: nat, filesCount: nat)
    ensures var ps := ProgressPart(parsed, count, filesCount);
      && |ps| <= 1
      && (ps != [] <==> parsed.Some?)
      && (ps != [] ==> ps[0].Progress? && ps[0].state.totalProgress == Fraction(count, filesCount))
      && (ps != [] ==> var p := parsed.value;
            ps[0].state.progress == Fraction(p.percentage, 100) && ps[0].state.speed == p.speed
            && ps[0].state.time == p.estimatedTime && ps[0].state.bytesSent == p.bytesTransferred)
  {
  }

  /** The messages `lines` send, in order. */
  function Messages(parse: Parser, lines: seq<string>, filesCount: nat): seq<StateMessage> {
    if lines == [] then []
    else
      var init := lines[..|lines| - 1];
      Messages(parse, init, filesCount) + LineMessages(parse, lines[|lines| - 1], FileCount(init), filesCount)
  }

  lemma MessagesSnoc(parse: Parser, lines: seq<string>, line: string, filesCount: nat)
    ensures Messages(parse, lines + [line], filesCount) == Messages(parse, lines, filesCount) + LineMessages(parse, line, FileCount(lines), filesCount)
    ensures FileCount(lines + [line]) == FileCount(lines) + (if IsFileLine(line) then 1 else 0)
  {
    assert (lines + [line])[..|lines|] == lines;
  }

  lemma ChunksLinesCons(out: seq<byte>)
    requires out != []
    ensures 0 < ChunkEnd(out, 0) <= |out|
    ensures StdoutLines(out) == ChunkLines(out[..ChunkEnd(out, 0)]) + StdoutLines(out[ChunkEnd(out, 0)..])
  {
    var e := ChunkEnd(out, 0);
    assert Chunks(out) == [out[..e]] + Chunks(out[e..]);
    assert (ChunkLines(out[..e]) + StdoutLines(out[e..])) == ChunksLines([out[..e]] + Chunks(out[e..]));
  }

  /**
   * The pump thread: reads the output piece by piece, sends the messages of
   * every line, counting file lines as it goes, and sends `Finished` once
   * the output ends.  Progress lines are read with `ParseRsyncProgress`.
   */
  method PumpStdout(out: seq<byte>, filesCount: nat) returns (sent: seq<StateMessage>)
    ensures sent == Messages(Parse.ParseRsyncProgress, StdoutLines(out), filesCount) + [Finished]
  {
    sent := Pump(Parse.ParseRsyncProgress, out, filesCount);
  }

  /** The loop of the pump thread, over the reader of progress lines it is handed. */
  method Pump(parse: Parser, out: seq<byte>, filesCount: nat) returns (sent: seq<StateMessage>)
    ensures sent == Messages(parse, StdoutLines(out), filesCount) + [Finished]
  {
    var count := 0;
    sent := [];
    var rest := out;
    ghost var seen: seq<string> := [];
    while rest != []
      invariant StdoutLines(out) == seen + StdoutLines(rest)
      invariant count == FileCount(seen)
      invariant sent == Messages(parse, seen, filesCount)
      decreases |rest|
    {
      var e := ChunkEnd(rest, 0);
      ChunksLinesCons(rest);
      var lines := LinesOf(rest[..e]);
      rest := rest[e..];
      sent, count := SendLines(parse, seen, lines, sent, count, filesCount);
      AppendAssoc(seen, lines, StdoutLines(rest));
      seen := seen + lines;
    }
    assert StdoutLines(rest) == [];
    assert seen + [] == seen;
    sent := sent + [Finished];
  }

  /** `str::from_utf8` on the piece, then trimming and splitting; no lines when it is not UTF-8. */
  method LinesOf(chunk: seq<byte>) returns (lines: seq<string>)
    ensures lines == ChunkLines(chunk)
  {
    lines := [];
    var decoded := Utf8.Decode(chunk);
    if decoded.Some? {
      lines := Lines(Trim(TrimEndNewlines(decoded.value)));
    }
  }

  /** The inner loop: the lines of one piece, after the lines `seen` before it. */
  method SendLines(parse: Parser, ghost seen: seq<string>, lines: seq<string>, sent: seq<StateMessage>, count: nat, filesCount: nat)
    returns (sent': seq<StateMessage>, count': nat)
    requires sent == Messages(parse, seen, filesCount) && count == FileCount(seen)
    ensures sent' == Messages(parse, seen + lines, filesCount) && count' == FileCount(seen + lines)
  {
    sent', count' := sent, count;
    assert seen + lines[..0] == seen;
    for i := 0 to |lines|
      invariant sent' == Messages(parse, seen + lines[..i], filesCount)
      invariant count' == FileCount(seen + lines[..i])
    {
      MessagesSnoc(parse, seen + lines[..i], lines[i], filesCount);
      var msgs;
      msgs, count' := SendLine(parse, lines[i], count', filesCount);
      sent' := sent' + msgs;
      TakeOneMore(seen, lines, i);
    }
    assert lines[..|lines|] == lines;
  }

  lemma TakeOneMore(a: seq<string>, b: seq<string>, i: nat)
    requires i < |b|
    ensures a + b[..i + 1] == (a + b[..i]) + [b[i]]
  {
    assert b[..i + 1] == b[..i] + [b[i]];
  }

  lemma AppendAssoc(a: seq<string>, b: seq<string>, c: seq<string>)
    ensures a + (b + c) == (a + b) + c
  {
  }

  /** The body of the inner loop: what one line sends, and the file count after it. */
  method SendLine(parse: Parser, line: string, count: nat, filesCount: nat) returns (msgs: seq<StateMessage>, count': nat)
    ensures msgs == LineMessages(parse, line, count, filesCount)
    ensures count' == count + (if IsFileLine(line) then 1 else 0)
  {
    msgs := [];
    count' := count;
    var p := parse(line);
    if p.Some? {
      msgs := msgs + [ProgressMessage(p.value, count, filesCount)];
    }
    if IsFileLine(line) {
      count' := count' + 1;
      msgs := msgs + [NextFile(LastToken(line))];
    }
  }

  // ---------------------------------------------------------------------------
  // What the messages say

  /** The names a list of messages announces, in order. */
  function Names(msgs: seq<StateMessage>): seq<string> {
    if msgs == [] then []
    else Names(msgs[..|msgs| - 1]) + (if msgs[|msgs| - 1].NextFile? then [msgs[|msgs| - 1].line] else [])
  }

  /** The name rsync's file lines give their files: the text after the last ' '. */
  function FileNames(lines: seq<string>): seq<string> {
    if lines == [] then []
    else FileNames(lines[..|lines| - 1]) + (if IsFileLine(lines[|lines| - 1]) then [LastToken(lines[|lines| - 1])] else [])
  }

  lemma {:induction false} FileNamesCount(lines: seq<string>)
    ensures |FileNames(lines)| == FileCount(lines)
  {
    if lines != [] {
      FileNamesCount(lines[..|lines| - 1]);
    }
  }

  lemma {:induction false} NamesAppend(a: seq<StateMessage>, b: seq<StateMessage>)
    ensures Names(a + b) == Names(a) + Names(b)
    decreases |b|
  {
    if b == [] {
      assert a + b == a;
    } else {
      var b' := b[..|b| - 1];
      assert (a + b)[..|a + b| - 1] == a + b';
      NamesAppend(a, b');
    }
  }

  /** One `NextFile` per file line, naming the file the line names, in order. */
  lemma {:induction false} MessagesName(parse: Parser, lines: seq<string>, filesCount: nat)
    ensures Names(Messages(parse, lines, filesCount)) == FileNames(lines)
  {
    if lines != [] {
      var init := lines[..|lines| - 1];
      var line := lines[|lines| - 1];
      MessagesName(parse, init, filesCount);
      NamesAppend(Messages(parse, init, filesCount), LineMessages(parse, line, FileCount(init), filesCount));
      LineMessagesNames(parse, line, FileCount(init), filesCount);
    }
  }

  lemma NamesOfOne(m: StateMessage)
    ensures Names([m]) == if m.NextFile? then [m.line] else []
  {
    assert [m][..0] == [];
  }

  lemma LineMessagesNames(parse: Parser, line: string, count: nat, filesCount: nat)
    ensures Names(LineMessages(parse, line, count, filesCount)) == if IsFileLine(line) then [LastToken(line)] else []
  {
    var ps := ProgressPart(parse(line), count, filesCount);
    var fs := FilePart(line);
    ProgressPartShape(parse(line), count, filesCount);
    NamesAppend(ps, fs);
    if ps != [] {
      assert ps == [ps[0]];
      NamesOfOne(ps[0]);
    }
    if fs != [] {
      NamesOfOne(fs[0]);
    }
  }

  /** No line sends `Finished`: the pump sends it once, as its last message. */
  lemma {:induction false} NoFinishedBeforeEnd(parse: Parser, lines: seq<string>, filesCount: nat)
    ensures Finished !in Messages(parse, lines, filesCount)
  {
    if lines != [] {
      NoFinishedBeforeEnd(parse, lines[..|lines| - 1], filesCount);
    }
  }

  /**
   * Every progress message reports, as its numerator, the number of files
   * announced before it, over the file count it was given.
   */
  predicate CountsFiles(msgs: seq<StateMessage>, filesCount: nat) {
    forall k | 0 <= k < |msgs| && msgs[k].Progress? ::
      msgs[k].state.totalProgress == Fraction(|Names(msgs[..k])|, filesCount)
  }

  lemma CountsFilesSnoc(msgs: seq<StateMessage>, m: StateMessage, filesCount: nat)
    requires CountsFiles(msgs, filesCount)
    requires m.Progress? ==> m.state.totalProgress == Fraction(|Names(msgs)|, filesCount)
    ensures CountsFiles(msgs + [m], filesCount)
  {
    var all := msgs + [m];
    forall k | 0 <= k < |all| && all[k].Progress?
      ensures all[k].state.totalProgress == Fraction(|Names(all[..k])|, filesCount)
    {
      if k < |msgs| {
        assert all[..k] == msgs[..k];
      } else {
        assert all[..k] == msgs;
      }
    }
  }

  lemma {:induction false} MessagesCountFiles(parse: Parser, lines: seq<string>, filesCount: nat)
    ensures CountsFiles(Messages(parse, lines, filesCount), filesCount)
  {
    if lines != [] {
      var init := lines[..|lines| - 1];
      var line := lines[|lines| - 1];
      var before := Messages(parse, init, filesCount);
      var count := FileCount(init);
      MessagesCountFiles(parse, init, filesCount);
      MessagesName(parse, init, filesCount);
      FileNamesCount(init);
      assert |Names(before)| == count;
      var ps := ProgressPart(parse(line), count, filesCount);
      ProgressPartShape(parse(line), count, filesCount);
      var mid := before;
      if ps != [] {
        CountsFilesSnoc(before, ps[0], filesCount);
        NamesAppend(before, [ps[0]]);
        NamesOfOne(ps[0]);
        mid := before + [ps[0]];
        assert ps == [ps[0]];
      }
      assert mid == before + ps;
      assert CountsFiles(mid, filesCount);
      var fs := FilePart(line);
      var all := mid;
      if fs != [] {
        CountsFilesSnoc(mid, fs[0], filesCount);
        all := mid + [fs[0]];
        assert fs == [fs[0]];
      }
      assert all == mid + fs;
      assert CountsFiles(all, filesCount);
      assert Messages(parse, lines, filesCount) == before + LineMessages(parse, line, count, filesCount);
      assert all == Messages(parse, lines, filesCount);
    }
  }

  /**
   * What the pump sends, in one statement: `Finished` exactly once and last;
   * one `NextFile` per file line, naming its file; every progress message
   * counting the files announced before it.
   */
  lemma PumpStdoutMeaning(parse: Parser, out: seq<byte>, filesCount: nat)
    ensures var sent := Messages(parse, StdoutLines(out), filesCount) + [Finished];
      && sent[|sent| - 1] == Finished
      && Finished !in sent[..|sent| - 1]
      && Names(sent) == FileNames(StdoutLines(out))
      && |Names(sent)| == FileCount(StdoutLines(out))
      && CountsFiles(sent, filesCount)
  {
    var lines := StdoutLines(out);
    var msgs := Messages(parse, lines, filesCount);
    var sent := msgs + [Finished];
    assert sent[..|sent| - 1] == msgs;
    NoFinishedBeforeEnd(parse, lines, filesCount);
    MessagesName(parse, lines, filesCount);
    FileNamesCount(lines);
    NamesAppend(msgs, [Finished]);
    NamesOfOne(Finished);
    MessagesCountFiles(parse, lines, filesCount);
    CountsFilesSnoc(msgs, Finished, filesCount);
  }
}
