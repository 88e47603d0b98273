/** The line-echo handler both servers run on each connection. Reading is
    abstracted into what each `ReadString('\n')` call (after setting the read
    deadline) returned, writing into what each `Write` call (after setting the
    write deadline) returned. */
module Protocol {
  import opened Text

  /** The result of one read step of the handler loop. */
  datatype ReadEvent =
      /** `ReadString` returned a complete line, terminator included. */
    | Line(text: string)
      /** `ReadString` failed with a timeout; the bytes it had read are dropped. */
    | Timeout(partial: string)
      /** `ReadString` failed otherwise (end of stream, reset, closed socket). */
    | Failed(partial: string)
      /** `SetReadDeadline` returned an error before reading. */
    | ReadDeadlineRefused

  /** The result of one write step of the handler loop. */
  datatype WriteEvent =
    | Sent
    | WriteTimeout
    | WriteFailed
      /** `SetWriteDeadline` returned an error before writing. */
    | WriteDeadlineRefused

  /** Why the handler loop returned; `Pending` means the given events ran out
      while the handler was still going. */
  datatype Exit =
    | Pending
    | ReadDeadlineError
    | Disconnected
    | WriteDeadlineError
    | WriteTimedOut
    | WriteError
    | QuitRequested

  /** The responses the handler passed to `Write`, in order, and why it stopped. */
  datatype Transcript = Transcript(responses: seq<string>, exit: Exit)

  /** The response to a trimmed request. */
  function Response(msg: string): (reply: string)
  {
    "Server received: " + msg + "\n"
  }

  /** The handler's behaviour on a stream of read and write results. */
  function Session(rs: seq<ReadEvent>, ws: seq<WriteEvent>): (t: Transcript)
  {
    if rs == [] then Transcript([], Pending)
    else match rs[0]
      case ReadDeadlineRefused => Transcript([], ReadDeadlineError)
      case Timeout(_) => Session(rs[1..], ws)
      case Failed(_) => Transcript([], Disconnected)
      case Line(text) =>
        var msg := TrimSpace(text);
        if ws == [] then Transcript([Response(msg)], Pending)
        else match ws[0]
          case WriteDeadlineRefused => Transcript([], WriteDeadlineError)
          case WriteTimeout => Transcript([Response(msg)], WriteTimedOut)
          case WriteFailed => Transcript([Response(msg)], WriteError)
          case Sent =>
            if IsQuit(msg) then Transcript([Response(msg)], QuitRequested)
            else
              var rest := Session(rs[1..], ws[1..]);
              Transcript([Response(msg)] + rest.responses, rest.exit)
  }

  /** The loop of `handleConnection`: read, trim, write the response, stop on
      `quit`. */
  method Serve(rs: seq<ReadEvent>, ws: seq<WriteEvent>) returns (t: Transcript)
    ensures t == Session(rs, ws)
  {
    var i, j := 0, 0;
    var sent: seq<string> := [];
    while true
      invariant 0 <= i <= |rs| && 0 <= j <= |ws|
      invariant var rest := Session(rs[i..], ws[j..]);
        Session(rs, ws) == Transcript(sent + rest.responses, rest.exit)
      decreases |rs| - i
    {
      if i == |rs| {
        return Transcript(sent, Pending);
      }
      var event := rs[i];
      i := i + 1;
      match event {
        case ReadDeadlineRefused =>
          return Transcript(sent, ReadDeadlineError);
        case Timeout(_) =>
          continue;
        case Failed(_) =>
          return Transcript(sent, Disconnected);
        case Line(text) =>
          var msg := TrimSpace(text);
          if j == |ws| {
            return Transcript(sent + [Response(msg)], Pending);
          }
          var outcome := ws[j];
          j := j + 1;
          if outcome == WriteDeadlineRefused {
            return Transcript(sent, WriteDeadlineError);
          }
          sent := sent + [Response(msg)];
          if outcome == WriteTimeout {
            return Transcript(sent, WriteTimedOut);
          } else if outcome == WriteFailed {
            return Transcript(sent, WriteError);
          }
          if IsQuit(msg) {
            return Transcript(sent, QuitRequested);
          }
      }
    }
  }

  /** The texts of the complete lines among the read results. */
  function Lines(rs: seq<ReadEvent>): (lines: seq<string>)
  {
    if rs == [] then []
    else (if rs[0].Line? then [rs[0].text] else []) + Lines(rs[1..])
  }

  /** The response to each line, in order. */
  function Replies(lines: seq<string>): (r: seq<string>)
    ensures |r| == |lines|
  {
    if lines == [] then [] else [Response(TrimSpace(lines[0]))] + Replies(lines[1..])
  }

  /** Whatever the read and write results, the handler writes exactly the
      responses to the first lines it read, one per line and in order, and
      nothing else. */
  lemma {:induction false} SessionWritesReplies(rs: seq<ReadEvent>, ws: seq<WriteEvent>)
    ensures var t := Session(rs, ws);
      |t.responses| <= |Lines(rs)| && t.responses == Replies(Lines(rs))[..|t.responses|]
  {
    if rs != [] {
      var t := Session(rs, ws);
      SessionWritesReplies(rs[1..], if ws == [] then [] else ws[1..]);
      SessionWritesReplies(rs[1..], ws);
      if rs[0].Line? {
        assert Lines(rs) == [rs[0].text] + Lines(rs[1..]);
        assert Replies(Lines(rs)) == [Response(TrimSpace(rs[0].text))] + Replies(Lines(rs[1..]));
      } else {
        assert Lines(rs) == Lines(rs[1..]);
      }
    }
  }

  /** A line whose lower-cased trimmed text is `quit` gets its response, then
      the handler stops: nothing after it is read. */
  lemma QuitEndsSession(text: string, rest: seq<ReadEvent>, ws: seq<WriteEvent>)
    requires IsQuit(TrimSpace(text))
    ensures Session([Line(text)] + rest, [Sent] + ws)
         == Transcript([Response(TrimSpace(text))], QuitRequested)
  {
  }

  /** A write that fails ends the handler before the `quit` test. */
  lemma WriteErrorEndsSession(text: string, rest: seq<ReadEvent>, w: WriteEvent, ws: seq<WriteEvent>)
    requires w == WriteTimeout || w == WriteFailed
    ensures Session([Line(text)] + rest, [w] + ws).responses == [Response(TrimSpace(text))]
    ensures Session([Line(text)] + rest, [w] + ws).exit != QuitRequested
  {
  }

  /** Once the handler has returned, more input changes nothing: later lines
      are never read and never answered. */
  lemma {:induction false} FinishedSessionIgnoresMore(rs: seq<ReadEvent>, ws: seq<WriteEvent>,
                                                      moreRs: seq<ReadEvent>, moreWs: seq<WriteEvent>)
    requires Session(rs, ws).exit != Pending
    ensures Session(rs + moreRs, ws + moreWs) == Session(rs, ws)
  {
    assert (rs + moreRs)[0] == rs[0];
    assert (rs + moreRs)[1..] == rs[1..] + moreRs;
    match rs[0]
    case Timeout(_) =>
      FinishedSessionIgnoresMore(rs[1..], ws, moreRs, moreWs);
    case Line(text) =>
      assert (ws + moreWs)[0] == ws[0];
      assert (ws + moreWs)[1..] == ws[1..] + moreWs;
      if ws[0] == Sent && !IsQuit(TrimSpace(text)) {
        FinishedSessionIgnoresMore(rs[1..], ws[1..], moreRs, moreWs);
      }
    case Failed(_) =>
    case ReadDeadlineRefused =>
  }

  /** The request `hello` is answered with exactly `Server received: hello`. */
  lemma HelloExample(rest: seq<ReadEvent>, ws: seq<WriteEvent>)
    ensures Session([Line("hello\n")] + rest, [Sent] + ws).responses[..1] == ["Server received: hello\n"]
  {
    assert TrimSpace("hello\n") == "hello" by {
      assert "hello\n" == [] + "hello" + "\n";
      TrimSpaceOf([], "hello", "\n");
    }
    assert ([Line("hello\n")] + rest)[0] == Line("hello\n");
    assert ([Sent] + ws)[0] == Sent;
    assert Response("hello") == "Server received: hello\n";
  }

  /** `  QUIT  ` is echoed trimmed, and then the server closes the connection. */
  lemma QuitExample(rest: seq<ReadEvent>, ws: seq<WriteEvent>)
    ensures Session([Line("  QUIT  \n")] + rest, [Sent] + ws)
         == Transcript(["Server received: QUIT\n"], QuitRequested)
  {
    assert TrimSpace("  QUIT  \n") == "QUIT" by {
      assert "  QUIT  \n" == "  " + "QUIT" + "  \n";
      TrimSpaceOf("  ", "QUIT", "  \n");
    }
    IsQuitExactly("QUIT");
    QuitEndsSession("  QUIT  \n", rest, ws);
    assert Response("QUIT") == "Server received: QUIT\n";
  }

  // The byte stream seen through `ReadString('\n')`.

  /** The read results of a stream that delivers `s` and then ends, with no
      timeouts: each complete line, then the unterminated rest with the
      end-of-stream error. */
  function Split(s: string): (r: seq<ReadEvent>)
    ensures |r| >= 1 && r[|r| - 1].Failed? && '\n' !in r[|r| - 1].partial
    ensures forall i | 0 <= i < |r| - 1 :: r[i].Line?
    decreases |s|
  {
    if '\n' in s then
      var k := LineEnd(s);
      [Line(s[..k + 1])] + Split(s[k + 1..])
    else
      [Failed(s)]
  }

  /** Index of the first line terminator. */
  function LineEnd(s: string): (k: nat)
    requires '\n' in s
    ensures k < |s| && s[k] == '\n' && '\n' !in s[..k]
  {
    if s[0] == '\n' then 0
    else
      assert '\n' in s[1..] by {
        var i :| 0 <= i < |s| && s[i] == '\n';
        assert s[1..][i - 1] == '\n';
      }
      var k := 1 + LineEnd(s[1..]);
      assert s[..k] == [s[0]] + s[1..][..k - 1];
      k
  }

  /** What the reads delivered, the dropped partial reads included. */
  function Delivered(rs: seq<ReadEvent>): (s: string)
  {
    if rs == [] then []
    else
      (match rs[0]
       case Line(text) => text
       case Timeout(p) => p
       case Failed(p) => p
       case ReadDeadlineRefused => "") + Delivered(rs[1..])
  }

  /** Splitting loses nothing and invents nothing: the pieces put back
      together are the stream. */
  lemma {:induction false} SplitDelivers(s: string)
    ensures Delivered(Split(s)) == s
    decreases |s|
  {
    if '\n' in s {
      var k := LineEnd(s);
      var tail := Split(s[k + 1..]);
      SplitDelivers(s[k + 1..]);
      var r := [Line(s[..k + 1])] + tail;
      assert Split(s) == r;
      assert r[0] == Line(s[..k + 1]) && r[1..] == tail;
      assert Delivered(r) == s[..k + 1] + s[k + 1..];
      assert s[..k + 1] + s[k + 1..] == s;
    }
  }

  /** Every complete line of the split ends with its only terminator. */
  lemma {:induction false} SplitLinesTerminated(s: string)
    ensures forall i | 0 <= i < |Split(s)| - 1 ::
      var t := Split(s)[i].text; t != [] && t[|t| - 1] == '\n' && '\n' !in t[..|t| - 1]
    decreases |s|
  {
    if '\n' in s {
      var k := LineEnd(s);
      var r := Split(s);
      var tail := Split(s[k + 1..]);
      SplitLinesTerminated(s[k + 1..]);
      assert r[0] == Line(s[..k + 1]) && r[1..] == tail;
      assert s[..k + 1][..k] == s[..k];
      forall i | 0 <= i < |r| - 1
        ensures var t := r[i].text; t != [] && t[|t| - 1] == '\n' && '\n' !in t[..|t| - 1]
      {
        if i > 0 {
          assert r[i] == tail[i - 1];
        }
      }
    }
  }

  /** A stream of lines, none of them `quit`, all of whose responses are
      written: every complete line is answered, in order, the unterminated
      rest gets no response, and the handler stops at the end of the stream. */
  lemma {:induction false} EchoStream(s: string, ws: seq<WriteEvent>)
    requires forall i | 0 <= i < |Split(s)| - 1 :: !IsQuit(TrimSpace(Split(s)[i].text))
    requires |ws| >= |Split(s)| - 1
    requires forall i | 0 <= i < |ws| :: ws[i] == Sent
    ensures Session(Split(s), ws) == Transcript(Replies(Lines(Split(s))), Disconnected)
    decreases |s|
  {
    var r := Split(s);
    if '\n' in s {
      var k := LineEnd(s);
      assert r[0] == Line(s[..k + 1]) && r[1..] == Split(s[k + 1..]);
      var tail := Split(s[k + 1..]);
      forall i | 0 <= i < |tail| - 1
        ensures !IsQuit(TrimSpace(tail[i].text))
      {
        assert tail[i] == r[i + 1];
      }
      EchoStream(s[k + 1..], ws[1..]);
      assert Lines(r) == [s[..k + 1]] + Lines(r[1..]);
    } else {
      assert r == [Failed(s)];
      assert Lines(r) == [] + Lines(r[1..]);
    }
  }
}
