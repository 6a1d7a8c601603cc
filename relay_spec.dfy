/**
 * What the streaming relay `_stream_openai_response` (backend/api/chat.py) yields,
 * as a function of the upstream response.
 *
 * The upstream chat-completion response is abstract: either the request failed
 * (`requests.post` or `raise_for_status` raised a `RequestException`) or a finite
 * list of lines arrived, optionally followed by a `RequestException` raised by
 * `iter_lines` when asked for the next line. UTF-8 decoding and the JSON lookup of
 * `choices[0].delta.content` are library calls and are parameters (`Decoders`).
 */
module RelaySpec {
  import opened Wrappers
  import opened Messages

  newtype byte = x: int | 0 <= x < 256

  /** One line of the upstream body as `iter_lines` hands it over (line break removed). */
  type Line = seq<byte>

  /** The bytes of `b'data: '`. */
  const DataPrefix: Line := [0x64, 0x61, 0x74, 0x61, 0x3A, 0x20]

  /** The upstream's end-of-stream sentinel. */
  const DoneMarker: string := "[DONE]"

  /**
   * What `json.loads(payload)["choices"][0]["delta"].get("content", "")` gives:
   * a decode error or a missing key (both caught, the line is skipped), the
   * fragment (empty when the key is absent or null), or any other exception
   * (an empty `choices` list, a non-string fragment, ...), which is not caught.
   */
  datatype Payload = Malformed | Piece(text: string) | Uncaught

  /** `bytes.decode('utf-8')` (None on invalid input) and the JSON lookup above. */
  datatype Decoders = Decoders(utf8: Line -> Option<string>, json: string -> Payload)

  datatype Upstream =
    | ConnectFailed(reason: string)
    | Streamed(lines: seq<Line>, fault: Option<string>)

  /** The events the relay yields towards the browser. */
  datatype Event = Content(text: string) | Error(reason: string) | Done

  /**
   * One run of the relay: the events in the order they are yielded, the message
   * appended to the conversation's history (if any), and whether an uncaught
   * exception leaves the generator after its final `done` event.
   */
  datatype Run = Run(events: seq<Event>, appended: Option<Message>, raises: bool)

  // ---------------------------------------------------------------------------
  // Python text helpers

  /** `str.isspace` for one character: Unicode whitespace as CPython defines it. */
  predicate IsSpace(c: char) {
    || ('\t' <= c <= '\r')
    || ('\U{1c}' <= c <= ' ')
    || c == '\U{85}' || c == '\U{a0}' || c == '\U{1680}'
    || ('\U{2000}' <= c <= '\U{200a}')
    || c == '\U{2028}' || c == '\U{2029}' || c == '\U{202f}' || c == '\U{205f}' || c == '\U{3000}'
  }

  predicate AllSpace(s: string) {
    forall k :: 0 <= k < |s| ==> IsSpace(s[k])
  }

  /** `str.lstrip()`: drops the leading whitespace and nothing else. */
  function TrimStart(s: string): string
  {
    if s != [] && IsSpace(s[0]) then TrimStart(s[1..]) else s
  }

  /** `str.rstrip()`: drops the trailing whitespace and nothing else. */
  function TrimEnd(s: string): string
  {
    if s != [] && IsSpace(s[|s| - 1]) then TrimEnd(s[..|s| - 1]) else s
  }

  /** `str.strip()`. */
  function Strip(s: string): string {
    TrimEnd(TrimStart(s))
  }

  /** Python's slice `s[n:]`, which is empty when `s` is shorter than `n`. */
  function SliceFrom(s: string, n: nat): string {
    if n <= |s| then s[n..] else []
  }

  lemma {:induction false} TrimStartSkipsSpace(w: string, x: string)
    requires AllSpace(w)
    ensures TrimStart(w + x) == TrimStart(x)
  {
    if w != [] {
      assert (w + x)[0] == w[0] && IsSpace(w[0]);
      assert (w + x)[1..] == w[1..] + x;
      TrimStartSkipsSpace(w[1..], x);
    } else {
      assert w + x == x;
    }
  }

  lemma {:induction false} TrimEndSkipsSpace(y: string, w: string)
    requires AllSpace(w)
    ensures TrimEnd(y + w) == TrimEnd(y)
  {
    if w != [] {
      var s := y + w;
      assert s[|s| - 1] == w[|w| - 1] && IsSpace(w[|w| - 1]);
      assert s[..|s| - 1] == y + w[..|w| - 1];
      TrimEndSkipsSpace(y, w[..|w| - 1]);
    } else {
      assert y + w == y;
    }
  }

  /** `lstrip` keeps a suffix, drops only whitespace, and stops at the first other character. */
  lemma {:induction false} TrimStartDropsLeadingSpace(s: string)
    ensures var r := TrimStart(s);
      && |r| <= |s| && r == s[|s| - |r|..]
      && AllSpace(s[..|s| - |r|])
      && (r != [] ==> !IsSpace(r[0]))
  {
    if s != [] && IsSpace(s[0]) {
      TrimStartDropsLeadingSpace(s[1..]);
      var r := TrimStart(s[1..]);
      assert s[1..][..|s| - 1 - |r|] == s[1..|s| - |r|];
      assert s[..|s| - |r|] == [s[0]] + s[1..|s| - |r|];
    }
  }

  /** `rstrip` keeps a prefix, drops only whitespace, and stops at the last other character. */
  lemma {:induction false} TrimEndDropsTrailingSpace(s: string)
    ensures var r := TrimEnd(s);
      && |r| <= |s| && r == s[..|r|]
      && AllSpace(s[|r|..])
      && (r != [] ==> !IsSpace(r[|r| - 1]))
  {
    if s != [] && IsSpace(s[|s| - 1]) {
      TrimEndDropsTrailingSpace(s[..|s| - 1]);
      var r := TrimEnd(s[..|s| - 1]);
      assert s[..|s| - 1][|r|..] == s[|r|..|s| - 1];
      assert s[|r|..] == s[|r|..|s| - 1] + [s[|s| - 1]];
    }
  }

  /** Whitespace around a word is what `strip` removes, so `" [DONE] "` strips to `"[DONE]"`. */
  lemma StripIgnoresSurroundingSpace(w1: string, word: string, w2: string)
    requires AllSpace(w1) && AllSpace(w2)
    requires word != [] && !IsSpace(word[0]) && !IsSpace(word[|word| - 1])
    ensures Strip(w1 + word + w2) == word
  {
    assert w1 + word + w2 == w1 + (word + w2);
    TrimStartSkipsSpace(w1, word + w2);
    assert (word + w2)[0] == word[0];
    TrimEndSkipsSpace(word, w2);
  }

  // ---------------------------------------------------------------------------
  // One line of the upstream body

  /** What the loop body does with one line. */
  datatype Step =
    | Ignore              // `continue`: not an event line, or a malformed payload
    | Finish              // the payload strips to "[DONE]": `break`
    | Fragment(text: string) // a decoded fragment, yielded when non-empty
    | Abort               // an uncaught exception leaves the loop

  function Classify(line: Line, dec: Decoders): Step {
    if |line| == 0 || !(DataPrefix <= line) then Ignore
    else match dec.utf8(line)
      case None => Abort
      case Some(text) =>
        var payload := SliceFrom(text, 6);
        if Strip(payload) == DoneMarker then Finish
        else match dec.json(payload)
          case Malformed => Ignore
          case Piece(p) => Fragment(p)
          case Uncaught => Abort
  }

  /** The step taken for each line, in order. */
  function Steps(lines: seq<Line>, dec: Decoders): (r: seq<Step>)
    ensures |r| == |lines|
  {
    seq(|lines|, i requires 0 <= i < |lines| => Classify(lines[i], dec))
  }

  /** The step lets the loop go on to the next line. */
  predicate Continues(st: Step) {
    st.Ignore? || st.Fragment?
  }

  predicate AllContinue(steps: seq<Step>) {
    forall i :: 0 <= i < |steps| ==> Continues(steps[i])
  }

  /**
   * The non-empty fragments carried by the steps, in arrival order, whether or
   * not the loop gets that far: the reference the relay's output is compared with.
   */
  function Fragments(steps: seq<Step>): (r: seq<string>)
    ensures forall i :: 0 <= i < |r| ==> r[i] != ""
    ensures |r| <= |steps|
  {
    if steps == [] then []
    else
      (if steps[0].Fragment? && steps[0].text != "" then [steps[0].text] else [])
      + Fragments(steps[1..])
  }

  // ---------------------------------------------------------------------------
  // The loop over the lines

  /** How the `for chunk in response.iter_lines()` loop is left. */
  datatype LoopEnd =
    | SawDoneMarker
    | Exhausted
    | TransportFault(reason: string)
    | Raised

  datatype Scanned = Scanned(pieces: seq<string>, end: LoopEnd)

  /**
   * The loop, given the step each line leads to and the fault (if any) that
   * `iter_lines` raises once the lines run out: the non-empty fragments it
   * yields and how it is left.
   */
  function Scan(steps: seq<Step>, fault: Option<string>): Scanned
  {
    if steps == [] then
      Scanned([], if fault.Some? then TransportFault(fault.value) else Exhausted)
    else
      var rest := Scan(steps[1..], fault);
      match steps[0]
      case Ignore => rest
      case Finish => Scanned([], SawDoneMarker)
      case Fragment(p) => if p == "" then rest else Scanned([p] + rest.pieces, rest.end)
      case Abort => Scanned([], Raised)
  }

  function ContentEvents(pieces: seq<string>): (r: seq<Event>)
  {
    seq(|pieces|, i requires 0 <= i < |pieces| => Content(pieces[i]))
  }

  /** `"".join(pieces)`. */
  function Concat(pieces: seq<string>): string {
    if pieces == [] then "" else Concat(pieces[..|pieces| - 1]) + pieces[|pieces| - 1]
  }

  /** The text of the `content` events of a stream, joined in order. */
  function ContentText(events: seq<Event>): string {
    if events == [] then ""
    else
      var last := events[|events| - 1];
      ContentText(events[..|events| - 1]) + (if last.Content? then last.text else "")
  }

  // ---------------------------------------------------------------------------
  // The whole relay

  /**
   * `_stream_openai_response`: a request failure or a transport fault is caught
   * and becomes one `error` event; the `finally` block always yields `done`; the
   * assistant reply is appended only when the `try` block runs to its end.
   */
  function Relay(up: Upstream, dec: Decoders): Run {
    match up
    case ConnectFailed(reason) => Run([Error(reason), Done], None, false)
    case Streamed(lines, fault) => AfterLoop(Scan(Steps(lines, dec), fault))
  }

  /** What follows the loop: the `except` and `finally` blocks and the history append. */
  function AfterLoop(s: Scanned): Run {
    var shown := ContentEvents(s.pieces);
    match s.end
    case SawDoneMarker => Run(shown + [Done], Some(Message(Assistant, Concat(s.pieces))), false)
    case Exhausted => Run(shown + [Done], Some(Message(Assistant, Concat(s.pieces))), false)
    case TransportFault(reason) => Run(shown + [Error(reason), Done], None, false)
    case Raised => Run(shown + [Done], None, true)
  }
}
