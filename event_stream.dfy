/**
 * The text the relay writes for each event (backend/api/chat.py, lines 56-58,
 * 64 and 67): `data: `, the event as `json.dumps` writes it, and a separator;
 * and a reader that splits the body on that separator and parses each
 * `data: ` part, as the browser client does (frontend/src/App.jsx, lines 47-52).
 *
 * Both sides write the separator as the four characters backslash, `n`,
 * backslash, `n`: the Python f-string and the JavaScript literal both say
 * `\\n\\n`. `json.dumps` writes a line break inside the text as backslash,
 * `n`, so a fragment holding a paragraph break contains the separator and is
 * cut apart by the reader (`WrittenSeparatorSplitsParagraphBreak`). The blank
 * line of the Server-Sent Events format, two real line breaks, cannot occur in
 * `json.dumps` output, and with it the reader gets every event back
 * (`BodyReadBack`).
 */
module EventStream {
  import opened Wrappers
  import opened RelaySpec
  import opened JsonString

  // ---------------------------------------------------------------------------
  // Writing

  /** `json.dumps` of the three event dictionaries: keys in insertion order, separators `", "` and `": "`. */
  const ContentHead: string := "{\"type\": \"content\", \"content\": \""
  const ErrorHead: string := "{\"type\": \"error\", \"content\": \""
  const DoneJson: string := "{\"type\": \"done\"}"
  const Closing: string := "\"}"

  function EventJson(e: Event): string {
    match e
    case Content(text) => ContentHead + Escape(text) + Closing
    case Error(reason) => ErrorHead + Escape(reason) + Closing
    case Done => DoneJson
  }

  const DataField: string := "data: "

  /** The separator chat.py writes after each event: backslash, `n`, backslash, `n`. */
  const WrittenSeparator: string := "\\n\\n"

  /** The blank line that ends an event in the Server-Sent Events format. */
  const BlankLine: string := "\n\n"

  /** One yielded chunk without its separator. */
  function FrameText(e: Event): string {
    DataField + EventJson(e)
  }

  /** The chunks written for `events`, without separators. */
  function FrameTexts(events: seq<Event>): seq<string> {
    if events == [] then [] else [FrameText(events[0])] + FrameTexts(events[1..])
  }

  /** The parts, each followed by the separator. */
  function Join(parts: seq<string>, sep: string): string {
    if parts == [] then "" else parts[0] + (sep + Join(parts[1..], sep))
  }

  /** Everything the generator yields, one chunk after the other. */
  function Body(events: seq<Event>, sep: string): string {
    Join(FrameTexts(events), sep)
  }

  // ---------------------------------------------------------------------------
  // Reading

  /** The first position at which `sep` occurs in `s`. */
  function Find(s: string, sep: string): (r: Option<nat>)
    requires sep != []
    ensures r.Some? ==> r.value + |sep| <= |s|
    decreases |s|
  {
    if |s| < |sep| then None
    else if s[..|sep|] == sep then Some(0)
    else match Find(s[1..], sep)
      case Some(k) => Some(k + 1)
      case None => None
  }

  /** JavaScript's `s.split(sep)`: the parts between the occurrences of `sep`. */
  function Split(s: string, sep: string): (parts: seq<string>)
    requires sep != []
    decreases |s|
  {
    match Find(s, sep)
    case None => [s]
    case Some(k) => [s[..k]] + Split(s[k + |sep|..], sep)
  }

  /** Reads back the JSON of one event; anything else is not an event. */
  function ParseEventJson(j: string): Option<Event> {
    if j == DoneJson then Some(Done)
    else if ContentHead <= j then
      match ParseBody(j[|ContentHead|..])
      case Some(p) => if p.rest == "}" then Some(Content(p.value)) else None
      case None => None
    else if ErrorHead <= j then
      match ParseBody(j[|ErrorHead|..])
      case Some(p) => if p.rest == "}" then Some(Error(p.value)) else None
      case None => None
    else None
  }

  /** The events of the parts that start with `data: ` and parse; the other parts are dropped. */
  function Collect(parts: seq<string>): seq<Event> {
    if parts == [] then [] else PartEvents(parts[0]) + Collect(parts[1..])
  }

  /** The event one part holds, if any. */
  function PartEvents(p: string): seq<Event> {
    if DataField <= p then
      match ParseEventJson(p[|DataField|..])
      case Some(e) => [e]
      case None => []
    else []
  }

  function ReadBody(body: string, sep: string): seq<Event>
    requires sep != []
  {
    Collect(Split(body, sep))
  }

  // ---------------------------------------------------------------------------
  // Reading what was written

  lemma ContentJsonRead(text: string)
    ensures ParseEventJson(EventJson(Content(text))) == Some(Content(text))
  {
    var j := EventJson(Content(text));
    assert j == ContentHead + (Escape(text) + "\"" + "}");
    assert j != DoneJson by { assert |j| > |DoneJson|; }
    assert ContentHead <= j;
    assert j[|ContentHead|..] == Escape(text) + "\"" + "}";
    EscapeRoundTrip(text, "}");
  }

  lemma ErrorJsonRead(reason: string)
    ensures ParseEventJson(EventJson(Error(reason))) == Some(Error(reason))
  {
    var j := EventJson(Error(reason));
    assert j == ErrorHead + (Escape(reason) + "\"" + "}");
    assert j != DoneJson by { assert |j| > |DoneJson|; }
    assert !(ContentHead <= j) by { assert j[10] == 'e' && ContentHead[10] == 'c'; }
    assert ErrorHead <= j;
    assert j[|ErrorHead|..] == Escape(reason) + "\"" + "}";
    EscapeRoundTrip(reason, "}");
  }

  lemma ParseEventJsonRoundTrip(e: Event)
    ensures ParseEventJson(EventJson(e)) == Some(e)
  {
    match e
    case Content(text) => ContentJsonRead(text);
    case Error(reason) => ErrorJsonRead(reason);
    case Done =>
  }

  /** What a frame holds is printable ASCII, so it has no line break. */
  lemma FrameTextIsPrintable(e: Event)
    ensures Printable(FrameText(e))
  {
    assert Printable(DataField);
    match e
    case Content(text) =>
      assert Printable(ContentHead) && Printable(Closing);
      EscapeIsPrintable(text);
      PrintableAppend(ContentHead, Escape(text));
      PrintableAppend(ContentHead + Escape(text), Closing);
      PrintableAppend(DataField, EventJson(e));
    case Error(reason) =>
      assert Printable(ErrorHead) && Printable(Closing);
      EscapeIsPrintable(reason);
      PrintableAppend(ErrorHead, Escape(reason));
      PrintableAppend(ErrorHead + Escape(reason), Closing);
      PrintableAppend(DataField, EventJson(e));
    case Done =>
      assert Printable(DoneJson);
      PrintableAppend(DataField, DoneJson);
  }

  /** `c` does not occur in `s`. */
  predicate Avoids(s: string, c: char) {
    forall i :: 0 <= i < |s| ==> s[i] != c
  }

  /** A prefix without the separator's first character only shifts where the separator is found. */
  lemma {:induction false} FindSkips(head: string, tail: string, sep: string)
    requires sep != [] && Avoids(head, sep[0])
    ensures Find(head + tail, sep) == match Find(tail, sep)
                                      case Some(k) => Some(|head| + k)
                                      case None => None
  {
    if head != [] {
      var s := head + tail;
      assert s[0] == head[0];
      if |s| >= |sep| {
        assert s[..|sep|] != sep by { assert s[..|sep|][0] != sep[0]; }
      }
      assert s[1..] == head[1..] + tail;
      FindSkips(head[1..], tail, sep);
      if |s| < |sep| {
        assert Find(tail, sep) == None;
      }
    } else {
      assert head + tail == tail;
    }
  }

  /** A part that cannot hold the separator, followed by the separator, is split off whole. */
  lemma SplitAfter(head: string, rest: string, sep: string)
    requires sep != [] && Avoids(head, sep[0])
    ensures Split(head + (sep + rest), sep) == [head] + Split(rest, sep)
  {
    var tail := sep + rest;
    FindSkips(head, tail, sep);
    assert tail[..|sep|] == sep;
    assert Find(tail, sep) == Some(0);
    var s := head + tail;
    assert s[..|head|] == head;
    assert s[|head| + |sep|..] == rest;
  }

  /** Every part avoids `c`. */
  predicate AllAvoid(parts: seq<string>, c: char) {
    forall k :: 0 <= k < |parts| ==> Avoids(parts[k], c)
  }

  lemma AllAvoidTail(parts: seq<string>, c: char)
    requires parts != [] && AllAvoid(parts, c)
    ensures Avoids(parts[0], c) && AllAvoid(parts[1..], c)
  {
    forall k | 0 <= k < |parts[1..]| ensures Avoids(parts[1..][k], c) {
      assert parts[1..][k] == parts[k + 1];
    }
  }

  /** Parts that cannot hold the separator, each followed by it, split back into those parts. */
  lemma {:induction false} SplitJoin(parts: seq<string>, sep: string)
    requires sep != [] && AllAvoid(parts, sep[0])
    ensures Split(Join(parts, sep), sep) == parts + [""]
  {
    if parts == [] {
      assert Join(parts, sep) == "";
      assert Find("", sep) == None;
    } else {
      var head, tail := parts[0], parts[1..];
      var rest := Join(tail, sep);
      AllAvoidTail(parts, sep[0]);
      SplitAfter(head, rest, sep);
      SplitJoin(tail, sep);
      calc {
        Split(Join(parts, sep), sep);
        Split(head + (sep + rest), sep);
        [head] + Split(rest, sep);
        [head] + (tail + [""]);
        { assert [head] + tail == parts; }
        parts + [""];
      }
    }
  }

  /** No written event contains a line break. */
  lemma {:induction false} FramesHaveNoLineBreak(events: seq<Event>)
    ensures AllAvoid(FrameTexts(events), '\n')
  {
    if events != [] {
      FrameTextIsPrintable(events[0]);
      FramesHaveNoLineBreak(events[1..]);
      assert FrameTexts(events) == [FrameText(events[0])] + FrameTexts(events[1..]);
    }
  }

  /** With the blank line as separator, the body splits into exactly the frames. */
  lemma SplitBody(events: seq<Event>)
    ensures Split(Body(events, BlankLine), BlankLine) == FrameTexts(events) + [""]
  {
    FramesHaveNoLineBreak(events);
    SplitJoin(FrameTexts(events), BlankLine);
  }

  /** A written event is read back as itself. */
  lemma FrameRead(e: Event)
    ensures PartEvents(FrameText(e)) == [e]
  {
    assert DataField <= FrameText(e);
    assert FrameText(e)[|DataField|..] == EventJson(e);
    ParseEventJsonRoundTrip(e);
  }

  lemma CollectCons(p: string, ps: seq<string>)
    ensures Collect([p] + ps) == PartEvents(p) + Collect(ps)
  {
    assert ([p] + ps)[0] == p && ([p] + ps)[1..] == ps;
  }

  lemma CollectFour(a: string, b: string, c: string, d: string)
    ensures Collect([a, b, c, d]) == PartEvents(a) + PartEvents(b) + PartEvents(c) + PartEvents(d)
  {
    CollectCons(d, []);
    CollectCons(c, [d]);
    CollectCons(b, [c, d]);
    CollectCons(a, [b, c, d]);
    assert [d] + [] == [d] && [c] + [d] == [c, d] && [b] + [c, d] == [b, c, d] && [a] + [b, c, d] == [a, b, c, d];
  }

  lemma {:induction false} CollectFrames(events: seq<Event>)
    ensures Collect(FrameTexts(events) + [""]) == events
  {
    if events == [] {
      assert FrameTexts(events) + [""] == [""] + [];
      CollectCons("", []);
      assert PartEvents("") == [];
    } else {
      var e, more := events[0], events[1..];
      assert FrameTexts(events) + [""] == [FrameText(e)] + (FrameTexts(more) + [""]);
      CollectCons(FrameText(e), FrameTexts(more) + [""]);
      FrameRead(e);
      CollectFrames(more);
      assert [e] + more == events;
    }
  }

  /** Separated by blank lines, the events the relay yields are read back exactly, in order. */
  lemma BodyReadBack(events: seq<Event>)
    ensures ReadBody(Body(events, BlankLine), BlankLine) == events
  {
    SplitBody(events);
    CollectFrames(events);
  }

  /** Everything the relay yields, written with blank lines, reaches the client as it was yielded. */
  lemma RelayBodyReadBack(up: Upstream, dec: Decoders)
    ensures ReadBody(Body(Relay(up, dec).events, BlankLine), BlankLine) == Relay(up, dec).events
  {
    BodyReadBack(Relay(up, dec).events);
  }

  // ---------------------------------------------------------------------------
  // The separator as written

  /** `json.dumps` writes a paragraph break as the written separator itself. */
  lemma ParagraphBreakEscapesToSeparator()
    ensures Escape("\n\n") == WrittenSeparator
  {
    assert Escape("\n") == "\\n";
    assert "\n\n"[1..] == "\n";
  }

  /** The three parts the reader cuts such a body into hold no backslash. */
  lemma CutPartsHaveNoBackslash()
    ensures AllAvoid([DataField + ContentHead, Closing, FrameText(Done)], '\\')
  {
    var parts := [DataField + ContentHead, Closing, FrameText(Done)];
    assert Avoids(ContentHead, '\\') && Avoids(DataField, '\\');
    forall i | 0 <= i < |DataField + ContentHead|
      ensures (DataField + ContentHead)[i] != '\\'
    {
      if i >= |DataField| {
        assert (DataField + ContentHead)[i] == ContentHead[i - |DataField|];
      }
    }
    assert Avoids(FrameText(Done), '\\') && Avoids(Closing, '\\');
    assert parts[0] == DataField + ContentHead && parts[1] == Closing && parts[2] == FrameText(Done);
  }

  /** A part that holds the separator reads, once joined, as two parts. */
  lemma JoinCutsAtSeparator(a: string, b: string, c: string, sep: string)
    ensures Join([a + sep + b, c], sep) == Join([a, b, c], sep)
  {
    assert [a + sep + b, c][1..] == [c] && [a, b, c][1..] == [b, c] && [b, c][1..] == [c];
    assert (a + sep + b) + (sep + Join([c], sep)) == a + (sep + (b + (sep + Join([c], sep))));
  }

  lemma WrittenFrameTexts(t: string)
    requires Escape(t) == WrittenSeparator
    ensures FrameTexts([Content(t), Done])
         == [DataField + ContentHead + WrittenSeparator + Closing, FrameText(Done)]
  {
    var events := [Content(t), Done];
    assert EventJson(events[0]) == ContentHead + WrittenSeparator + Closing;
    assert FrameText(events[0]) == DataField + ContentHead + WrittenSeparator + Closing;
    assert events[1..] == [Done] && [Done][1..] == [];
    assert FrameTexts([Done]) == [FrameText(Done)];
  }

  /** The body written for such a fragment and `done` is three backslash-free parts, each followed by the separator. */
  lemma WrittenBodyShape(t: string)
    requires Escape(t) == WrittenSeparator
    ensures Body([Content(t), Done], WrittenSeparator)
         == Join([DataField + ContentHead, Closing, FrameText(Done)], WrittenSeparator)
  {
    WrittenFrameTexts(t);
    JoinCutsAtSeparator(DataField + ContentHead, Closing, FrameText(Done), WrittenSeparator);
  }

  /** Where the reader cuts the body written for such a fragment and `done`. */
  lemma WrittenBodySplit(t: string)
    requires Escape(t) == WrittenSeparator
    ensures Split(Body([Content(t), Done], WrittenSeparator), WrittenSeparator)
         == [DataField + ContentHead, Closing, FrameText(Done), ""]
  {
    WrittenBodyShape(t);
    CutPartsHaveNoBackslash();
    assert WrittenSeparator[0] == '\\';
    SplitJoin([DataField + ContentHead, Closing, FrameText(Done)], WrittenSeparator);
  }

  /** The opening of a content event, cut off before its text, is not an event. */
  lemma CutHeadIsNoEvent()
    ensures PartEvents(DataField + ContentHead) == []
  {
    var head := DataField + ContentHead;
    assert head[|DataField|..] == ContentHead;
    assert ContentHead != DoneJson by { assert |ContentHead| != |DoneJson|; }
    assert ContentHead[|ContentHead|..] == "";
    assert ParseBody("") == None;
  }

  /** The closing quote and brace of a content event, cut off from it, are not an event. */
  lemma CutClosingIsNoEvent()
    ensures PartEvents(Closing) == []
  {
    assert !(DataField <= Closing) by { assert |Closing| < |DataField|; }
  }

  /**
   * A fragment that `json.dumps` writes as the separator itself is cut in two
   * by the reader: neither half parses, and only the `done` event that follows
   * it is read back.
   */
  lemma SeparatorFragmentLost(t: string)
    requires Escape(t) == WrittenSeparator
    ensures ReadBody(Body([Content(t), Done], WrittenSeparator), WrittenSeparator) == [Done]
  {
    WrittenBodySplit(t);
    CollectFour(DataField + ContentHead, Closing, FrameText(Done), "");
    CutHeadIsNoEvent();
    CutClosingIsNoEvent();
    FrameRead(Done);
    assert PartEvents("") == [];
  }

  /**
   * A fragment that is one paragraph break (two line breaks, as a model often
   * streams it) is written as backslash, `n`, backslash, `n`, which is the
   * written separator: the reader cuts the content event in two and only the
   * `done` event survives.
   */
  lemma WrittenSeparatorSplitsParagraphBreak()
    ensures ReadBody(Body([Content("\n\n"), Done], WrittenSeparator), WrittenSeparator) == [Done]
  {
    ParagraphBreakEscapesToSeparator();
    SeparatorFragmentLost("\n\n");
  }
}
