/**
 * The generator `_stream_openai_response` of backend/api/chat.py as methods:
 * the loop over the upstream lines with its `continue` and `break` exits and
 * the accumulator `full_bot_response`, then the `except` and `finally` blocks
 * and the in-place append to the conversation's history list.
 */
module StreamingRelay {
  import opened Wrappers
  import opened Messages
  import opened RelaySpec

  /** The body of the loop up to its exits: what one line leads to. */
  method ReadLine(chunk: Line, dec: Decoders) returns (st: Step)
    ensures st == Classify(chunk, dec)
  {
    if |chunk| == 0 || !(DataPrefix <= chunk) {
      return Ignore;
    }
    var decoded := dec.utf8(chunk);
    if decoded.None? {
      return Abort;  // UnicodeDecodeError
    }
    var jsonStr := SliceFrom(decoded.value, 6);
    if Strip(jsonStr) == DoneMarker {
      return Finish;
    }
    match dec.json(jsonStr)
    case Malformed => st := Ignore;
    case Piece(p) => st := Fragment(p);
    case Uncaught => st := Abort;
  }

  /** One more fragment: one more content event, and the accumulated text grows by it. */
  lemma AppendPiece(pieces: seq<string>, p: string)
    ensures ContentEvents(pieces + [p]) == ContentEvents(pieces) + [Content(p)]
    ensures Concat(pieces + [p]) == Concat(pieces) + p
  {
    assert (pieces + [p])[..|pieces|] == pieces;
  }

  /** A step that stops the loop leaves it with nothing more yielded. */
  lemma ScanStopsAt(steps: seq<Step>, i: nat, fault: Option<string>)
    requires i < |steps| && (steps[i].Finish? || steps[i].Abort?)
    ensures Scan(steps[i..], fault)
         == Scanned([], if steps[i].Finish? then SawDoneMarker else Raised)
  {
    assert steps[i..][0] == steps[i];
  }

  /** A step the loop passes over leaves what the rest of the loop yields as it is. */
  lemma ScanSkipsAt(steps: seq<Step>, i: nat, fault: Option<string>)
    requires i < |steps| && (steps[i].Ignore? || steps[i] == Fragment(""))
    ensures Scan(steps[i..], fault) == Scan(steps[i + 1..], fault)
  {
    assert steps[i..][0] == steps[i] && steps[i..][1..] == steps[i + 1..];
  }

  /** A non-empty fragment is yielded before whatever the rest of the loop yields. */
  lemma ScanTakesAt(steps: seq<Step>, i: nat, fault: Option<string>, pieces: seq<string>)
    requires i < |steps| && steps[i].Fragment? && steps[i].text != ""
    ensures var rest := Scan(steps[i + 1..], fault);
      && Scan(steps[i..], fault) == Scanned([steps[i].text] + rest.pieces, rest.end)
      && pieces + Scan(steps[i..], fault).pieces == (pieces + [steps[i].text]) + rest.pieces
  {
    assert steps[i..][0] == steps[i] && steps[i..][1..] == steps[i + 1..];
  }

  /**
   * The `for chunk in response.iter_lines()` loop: the content events it
   * yields, the text it accumulates, and how it is left.
   */
  method ReadStream(lines: seq<Line>, fault: Option<string>, dec: Decoders)
    returns (events: seq<Event>, fullBotResponse: string, end: LoopEnd)
    ensures events == ContentEvents(Scan(Steps(lines, dec), fault).pieces)
    ensures fullBotResponse == Concat(Scan(Steps(lines, dec), fault).pieces)
    ensures end == Scan(Steps(lines, dec), fault).end
  {
    ghost var steps := Steps(lines, dec);
    ghost var pieces: seq<string> := [];
    events, fullBotResponse := [], "";
    end := if fault.Some? then TransportFault(fault.value) else Exhausted;
    var i := 0;
    while i < |lines|
      invariant 0 <= i <= |lines|
      invariant Scan(steps, fault)
             == Scanned(pieces + Scan(steps[i..], fault).pieces, Scan(steps[i..], fault).end)
      invariant events == ContentEvents(pieces) && fullBotResponse == Concat(pieces)
      invariant end == if fault.Some? then TransportFault(fault.value) else Exhausted
    {
      var st := ReadLine(lines[i], dec);
      assert st == steps[i];
      if st.Finish? || st.Abort? {
        ScanStopsAt(steps, i, fault);
        end := if st.Finish? then SawDoneMarker else Raised;
        break;
      } else if st.Fragment? && st.text != "" {
        ScanTakesAt(steps, i, fault, pieces);
        AppendPiece(pieces, st.text);
        fullBotResponse := fullBotResponse + st.text;
        events := events + [Content(st.text)];
        pieces := pieces + [st.text];
      } else {
        ScanSkipsAt(steps, i, fault);
      }
      i := i + 1;
    }
    assert Scan(steps, fault) == Scanned(pieces + [], end);
    assert pieces + [] == pieces;
  }

  /**
   * Runs the relay over one upstream response. `events` are the events in the
   * order they are yielded; `raises` says that an exception the generator does
   * not catch leaves it after its final `done`. The reply is appended to
   * `history` exactly when `RelaySpec.Relay` says so.
   */
  method StreamResponse(up: Upstream, dec: Decoders, history: History) returns (events: seq<Event>, raises: bool)
    modifies history
    ensures events == Relay(up, dec).events && raises == Relay(up, dec).raises
    ensures history.messages == old(history.messages)
              + (if Relay(up, dec).appended.Some? then [Relay(up, dec).appended.value] else [])
  {
    var fullBotResponse := "";
    var caught: Option<string> := None;  // the RequestException, when one is raised
    events, raises := [], false;
    match up {
      case ConnectFailed(reason) =>
        caught := Some(reason);
      case Streamed(lines, fault) =>
        var end;
        events, fullBotResponse, end := ReadStream(lines, fault, dec);
        if end.TransportFault? {
          caught := Some(end.reason);
        } else if end.Raised? {
          raises := true;
        }
    }
    if caught.Some? {
      events := events + [Error(caught.value)];
    } else if !raises {
      history.Append(Message(Assistant, fullBotResponse));
    }
    events := events + [Done];
  }
}
