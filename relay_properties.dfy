/**
 * Properties of the streaming relay of backend/api/chat.py, stated about
 * `RelaySpec.Relay` for every upstream response and every decoder.
 */
module RelayProperties {
  import opened Wrappers
  import opened Messages
  import opened RelaySpec

  // ---------------------------------------------------------------------------
  // The loop, step by step

  /** A step the loop passes over leaves the rest of the loop exactly as it was. */
  lemma {:induction false} ScanSkipsStep(xs: seq<Step>, st: Step, ys: seq<Step>, fault: Option<string>)
    requires st == Ignore || st == Fragment("")
    ensures Scan(xs + [st] + ys, fault) == Scan(xs + ys, fault)
  {
    if xs == [] {
      assert xs + [st] + ys == [st] + ys && ([st] + ys)[0] == st && ([st] + ys)[1..] == ys;
      assert xs + ys == ys;
    } else {
      assert (xs + [st] + ys)[0] == xs[0] && (xs + [st] + ys)[1..] == xs[1..] + [st] + ys;
      assert (xs + ys)[0] == xs[0] && (xs + ys)[1..] == xs[1..] + ys;
      ScanSkipsStep(xs[1..], st, ys, fault);
    }
  }

  /** While no step stops the loop, it yields exactly the steps' fragments, in order. */
  lemma {:induction false} ScanThroughContinuing(xs: seq<Step>, ys: seq<Step>, fault: Option<string>)
    requires AllContinue(xs)
    ensures Scan(xs + ys, fault) == Scanned(Fragments(xs) + Scan(ys, fault).pieces, Scan(ys, fault).end)
  {
    if xs == [] {
      assert xs + ys == ys;
    } else {
      assert Continues(xs[0]);
      assert (xs + ys)[0] == xs[0] && (xs + ys)[1..] == xs[1..] + ys;
      assert AllContinue(xs[1..]) by {
        forall i | 0 <= i < |xs[1..]| ensures Continues(xs[1..][i]) {
          assert xs[1..][i] == xs[i + 1];
        }
      }
      ScanThroughContinuing(xs[1..], ys, fault);
    }
  }

  /** Fragments of consecutive parts of the stream follow each other. */
  lemma {:induction false} FragmentsInArrivalOrder(xs: seq<Step>, ys: seq<Step>)
    ensures Fragments(xs + ys) == Fragments(xs) + Fragments(ys)
  {
    if xs == [] {
      assert xs + ys == ys;
    } else {
      assert (xs + ys)[0] == xs[0] && (xs + ys)[1..] == xs[1..] + ys;
      FragmentsInArrivalOrder(xs[1..], ys);
    }
  }

  lemma StepsOfSplice(xs: seq<Line>, l: Line, ys: seq<Line>, dec: Decoders)
    ensures Steps(xs + [l] + ys, dec) == Steps(xs, dec) + [Classify(l, dec)] + Steps(ys, dec)
    ensures Steps(xs + ys, dec) == Steps(xs, dec) + Steps(ys, dec)
  {
  }

  lemma {:induction false} ContentTextOfFragments(ps: seq<string>)
    ensures ContentText(ContentEvents(ps)) == Concat(ps)
  {
    if ps != [] {
      var front := ps[..|ps| - 1];
      assert ContentEvents(ps)[..|ps| - 1] == ContentEvents(front);
      ContentTextOfFragments(front);
    }
  }

  lemma ContentTextIgnoresTail(ev: seq<Event>, tail: seq<Event>)
    requires forall i :: 0 <= i < |tail| ==> !tail[i].Content?
    ensures ContentText(ev + tail) == ContentText(ev)
    decreases |tail|
  {
    if tail != [] {
      var front := tail[..|tail| - 1];
      assert (ev + tail)[..|ev + tail| - 1] == ev + front;
      ContentTextIgnoresTail(ev, front);
    } else {
      assert ev + tail == ev;
    }
  }

  // ---------------------------------------------------------------------------
  // The shape of every run

  /** The `finally` block: `done` is the last event and appears nowhere else. */
  lemma DoneIsLastAndUnique(up: Upstream, dec: Decoders)
    ensures var ev := Relay(up, dec).events;
      && |ev| >= 1
      && ev[|ev| - 1] == Done
      && forall i :: 0 <= i < |ev| - 1 ==> !ev[i].Done?
  {
  }

  /** At most one `error` event, and only `done` may follow it. */
  lemma ErrorOnlyJustBeforeDone(up: Upstream, dec: Decoders)
    ensures var ev := Relay(up, dec).events;
      forall i :: 0 <= i < |ev| && ev[i].Error? ==> i == |ev| - 2
  {
  }

  /** An `error` event is emitted exactly when the request or the transport failed. */
  lemma ErrorExactlyOnRequestFailure(up: Upstream, dec: Decoders)
    ensures var ev := Relay(up, dec).events;
      (exists i :: 0 <= i < |ev| && ev[i].Error?)
      <==> (up.ConnectFailed? || (up.Streamed? && Scan(Steps(up.lines, dec), up.fault).end.TransportFault?))
  {
    var ev := Relay(up, dec).events;
    if up.ConnectFailed? {
      assert ev[0].Error?;
    } else if Scan(Steps(up.lines, dec), up.fault).end.TransportFault? {
      assert ev[|ev| - 2].Error?;
    }
  }

  /** The reply is stored exactly when the run ends with neither an error event nor an exception. */
  lemma ReplyStoredOnlyOnCleanEnd(up: Upstream, dec: Decoders)
    ensures var r := Relay(up, dec);
      r.appended.Some? <==> (!r.raises && forall i :: 0 <= i < |r.events| ==> !r.events[i].Error?)
  {
    var r := Relay(up, dec);
    if up.ConnectFailed? {
      assert r.events[0].Error?;
    } else if Scan(Steps(up.lines, dec), up.fault).end.TransportFault? {
      assert r.events[|r.events| - 2].Error?;
    }
  }

  /** The stored reply is an assistant message holding every emitted fragment, joined in order. */
  lemma StoredReplyIsEmittedText(up: Upstream, dec: Decoders)
    ensures var r := Relay(up, dec);
      r.appended.Some? ==> r.appended.value == Message(Assistant, ContentText(r.events))
  {
    var r := Relay(up, dec);
    if r.appended.Some? {
      var s := Scan(Steps(up.lines, dec), up.fault);
      ContentTextIgnoresTail(ContentEvents(s.pieces), [Done]);
      ContentTextOfFragments(s.pieces);
    }
  }

  // ---------------------------------------------------------------------------
  // Individual lines

  /** A line that is empty or does not start with `data: ` changes nothing. */
  lemma NonEventLineIgnored(xs: seq<Line>, l: Line, ys: seq<Line>, fault: Option<string>, dec: Decoders)
    requires |l| == 0 || !(DataPrefix <= l)
    ensures Relay(Streamed(xs + [l] + ys, fault), dec) == Relay(Streamed(xs + ys, fault), dec)
  {
    assert Classify(l, dec) == Ignore;
    StepsOfSplice(xs, l, ys, dec);
    ScanSkipsStep(Steps(xs, dec), Classify(l, dec), Steps(ys, dec), fault);
  }

  /** A payload JSON decoding rejects (or whose keys are missing) is skipped; its neighbours are not. */
  lemma MalformedPayloadSkipped(xs: seq<Line>, l: Line, ys: seq<Line>, fault: Option<string>, dec: Decoders)
    requires DataPrefix <= l && dec.utf8(l).Some?
    requires Strip(SliceFrom(dec.utf8(l).value, 6)) != DoneMarker
    requires dec.json(SliceFrom(dec.utf8(l).value, 6)) == Malformed
    ensures Relay(Streamed(xs + [l] + ys, fault), dec) == Relay(Streamed(xs + ys, fault), dec)
  {
    assert Classify(l, dec) == Ignore;
    StepsOfSplice(xs, l, ys, dec);
    ScanSkipsStep(Steps(xs, dec), Classify(l, dec), Steps(ys, dec), fault);
  }

  /** A payload whose fragment is empty yields no event and adds nothing to the reply. */
  lemma EmptyFragmentSkipped(xs: seq<Line>, l: Line, ys: seq<Line>, fault: Option<string>, dec: Decoders)
    requires DataPrefix <= l && dec.utf8(l).Some?
    requires Strip(SliceFrom(dec.utf8(l).value, 6)) != DoneMarker
    requires dec.json(SliceFrom(dec.utf8(l).value, 6)) == Piece("")
    ensures Relay(Streamed(xs + [l] + ys, fault), dec) == Relay(Streamed(xs + ys, fault), dec)
  {
    assert Classify(l, dec) == Fragment("");
    StepsOfSplice(xs, l, ys, dec);
    ScanSkipsStep(Steps(xs, dec), Classify(l, dec), Steps(ys, dec), fault);
  }

  // ---------------------------------------------------------------------------
  // How a stream ends

  /**
   * A payload that strips to `[DONE]` ends the loop: later lines and a later
   * transport fault are never looked at, the reply so far is stored, `done` follows.
   */
  lemma DoneMarkerEndsStream(xs: seq<Line>, l: Line, ys: seq<Line>, fault: Option<string>, dec: Decoders,
                             w1: string, w2: string)
    requires AllContinue(Steps(xs, dec))
    requires DataPrefix <= l && dec.utf8(l).Some?
    requires AllSpace(w1) && AllSpace(w2) && SliceFrom(dec.utf8(l).value, 6) == w1 + DoneMarker + w2
    ensures Relay(Streamed(xs + [l] + ys, fault), dec)
         == Run(ContentEvents(Fragments(Steps(xs, dec))) + [Done],
                Some(Message(Assistant, Concat(Fragments(Steps(xs, dec))))), false)
  {
    StripIgnoresSurroundingSpace(w1, DoneMarker, w2);
    assert Classify(l, dec) == Finish;
    var before, after := Steps(xs, dec), [Finish] + Steps(ys, dec);
    StepsOfSplice(xs, l, ys, dec);
    assert Steps(xs + [l] + ys, dec) == before + after;
    ScanThroughContinuing(before, after, fault);
    assert after[0] == Finish && Scan(after, fault) == Scanned([], SawDoneMarker);
    assert Fragments(before) + [] == Fragments(before);
  }

  /** An input that runs out normally: every fragment in order, the reply stored, then `done`. */
  lemma ExhaustedStreamCompletes(lines: seq<Line>, dec: Decoders)
    requires AllContinue(Steps(lines, dec))
    ensures Relay(Streamed(lines, None), dec)
         == Run(ContentEvents(Fragments(Steps(lines, dec))) + [Done],
                Some(Message(Assistant, Concat(Fragments(Steps(lines, dec))))), false)
  {
    var steps := Steps(lines, dec);
    ScanThroughContinuing(steps, [], None);
    assert steps + [] == steps;
    assert Fragments(steps) + [] == Fragments(steps);
  }

  /**
   * A transport fault after some lines: their fragments are still relayed, then
   * one `error` and `done`; no reply is stored.
   */
  lemma MidStreamFaultReported(lines: seq<Line>, reason: string, dec: Decoders)
    requires AllContinue(Steps(lines, dec))
    ensures Relay(Streamed(lines, Some(reason)), dec)
         == Run(ContentEvents(Fragments(Steps(lines, dec))) + [Error(reason), Done], None, false)
  {
    var steps := Steps(lines, dec);
    ScanThroughContinuing(steps, [], Some(reason));
    assert steps + [] == steps;
    assert Fragments(steps) + [] == Fragments(steps);
  }

  /**
   * Invalid UTF-8, or a payload whose lookup raises something other than a
   * decode error or a missing key: the loop stops, `done` is still yielded, no
   * reply is stored, and the exception then leaves the generator.
   */
  lemma UncaughtExceptionAfterDone(xs: seq<Line>, l: Line, ys: seq<Line>, fault: Option<string>, dec: Decoders)
    requires AllContinue(Steps(xs, dec))
    requires DataPrefix <= l
    requires || dec.utf8(l).None?
             || (&& Strip(SliceFrom(dec.utf8(l).value, 6)) != DoneMarker
                 && dec.json(SliceFrom(dec.utf8(l).value, 6)) == Uncaught)
    ensures Relay(Streamed(xs + [l] + ys, fault), dec)
         == Run(ContentEvents(Fragments(Steps(xs, dec))) + [Done], None, true)
  {
    assert Classify(l, dec) == Abort;
    var before, after := Steps(xs, dec), [Abort] + Steps(ys, dec);
    StepsOfSplice(xs, l, ys, dec);
    assert Steps(xs + [l] + ys, dec) == before + after;
    ScanThroughContinuing(before, after, fault);
    assert after[0] == Abort && Scan(after, fault) == Scanned([], Raised);
    assert Fragments(before) + [] == Fragments(before);
  }

  // ---------------------------------------------------------------------------
  // Worked examples

  /** Fragments "Hel" and "lo", then the terminator: two content events, `done`, and "Hello" stored. */
  lemma HelloExample(l1: Line, l2: Line, l3: Line, fault: Option<string>, dec: Decoders)
    requires Classify(l1, dec) == Fragment("Hel")
    requires Classify(l2, dec) == Fragment("lo")
    requires Classify(l3, dec) == Finish
    ensures Relay(Streamed([l1, l2, l3], fault), dec)
         == Run([Content("Hel"), Content("lo"), Done], Some(Message(Assistant, "Hello")), false)
  {
    var steps := Steps([l1, l2, l3], dec);
    assert steps == [Fragment("Hel"), Fragment("lo"), Finish];
    assert steps[1..] == [Fragment("lo"), Finish] && steps[2..] == [Finish];
    assert Scan(steps[2..], fault) == Scanned([], SawDoneMarker);
    assert Scan(steps[1..], fault) == Scanned(["lo"], SawDoneMarker);
    assert Scan(steps, fault) == Scanned(["Hel"] + ["lo"], SawDoneMarker);
    assert ["Hel"] + ["lo"] == ["Hel", "lo"];
    assert ContentEvents(["Hel", "lo"]) == [Content("Hel"), Content("lo")];
    assert ["Hel", "lo"][..1] == ["Hel"] && ["Hel"][..0] == [];
    assert Concat(["Hel", "lo"]) == "Hel" + "lo" == "Hello";
    assert Relay(Streamed([l1, l2, l3], fault), dec) == AfterLoop(Scanned(["Hel", "lo"], SawDoneMarker));
    assert [Content("Hel"), Content("lo")] + [Done] == [Content("Hel"), Content("lo"), Done];
  }

  /** An unparsable line between two fragments does not interrupt them. */
  lemma MalformedBetweenFragments(l1: Line, bad: Line, l2: Line, dec: Decoders)
    requires Classify(l1, dec) == Fragment("Hel")
    requires Classify(bad, dec) == Ignore
    requires Classify(l2, dec) == Fragment("lo")
    ensures Relay(Streamed([l1, bad, l2], None), dec).events == [Content("Hel"), Content("lo"), Done]
  {
    var steps := Steps([l1, bad, l2], dec);
    assert steps == [Fragment("Hel")] + [Ignore] + [Fragment("lo")];
    ScanSkipsStep([Fragment("Hel")], Ignore, [Fragment("lo")], None);
    assert [Fragment("Hel")] + [Fragment("lo")] == [Fragment("Hel"), Fragment("lo")];
    assert [Fragment("Hel"), Fragment("lo")][1..] == [Fragment("lo")];
    assert Scan([Fragment("Hel"), Fragment("lo")], None).pieces == ["Hel", "lo"];
  }
}
