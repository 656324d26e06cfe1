/** Encoding payloads as event-stream blocks and decoding them again. */
module SseRoundTrip {
  import opened Types
  import opened SseClient

  /** One event on the wire: other lines (event names, ids, comments, even empty ones), then a data line,
      with or without the optional space, then an empty line. */
  datatype Event = Event(preamble: seq<Bytes>, spaced: bool, json: Bytes)

  predicate PlainLine(line: Bytes) {
    !StartsWith(line, DATA) && forall i | 0 <= i < |line| :: line[i] != NL
  }

  predicate WellFormed(ev: Event) {
    IsPayload(ev.json) && forall i | 0 <= i < |ev.preamble| :: PlainLine(ev.preamble[i])
  }

  function Lines(ls: seq<Bytes>): Bytes {
    if ls == [] then [] else ls[0] + [NL] + Lines(ls[1..])
  }

  function Prefix(spaced: bool): Bytes {
    if spaced then DATA_SP else DATA
  }

  function DataBlock(spaced: bool, json: Bytes): Bytes {
    Prefix(spaced) + json + [NL, NL]
  }

  function Encode(events: seq<Event>): Bytes {
    if events == [] then []
    else Lines(events[0].preamble) + (DataBlock(events[0].spaced, events[0].json) + Encode(events[1..]))
  }

  function Jsons(events: seq<Event>): seq<Bytes> {
    if events == [] then [] else [events[0].json] + Jsons(events[1..])
  }

  // ----- Text without data lines -------------------------------------------------------------

  predicate LineStart(a: Bytes, i: nat) {
    i <= |a| && (i == 0 || a[i - 1] == NL)
  }

  /** No line begins with "data:". */
  ghost predicate Dataless(a: Bytes) {
    forall i: nat | LineStart(a, i) :: !StartsWith(a[i..], DATA)
  }

  predicate EndsLine(a: Bytes) {
    a == [] || a[|a| - 1] == NL
  }

  lemma DatalessFrom(a: Bytes, n: nat)
    requires Dataless(a) && LineStart(a, n)
    ensures Dataless(a[n..])
    ensures EndsLine(a) ==> EndsLine(a[n..])
  {
    var t := a[n..];
    forall i: nat | LineStart(t, i)
      ensures !StartsWith(t[i..], DATA)
    {
      assert LineStart(a, n + i);
      assert t[i..] == a[n + i..];
    }
  }

  lemma DatalessUpTo(a: Bytes, n: nat)
    requires Dataless(a) && n <= |a|
    ensures Dataless(a[..n])
  {
    forall i: nat | LineStart(a[..n], i)
      ensures !StartsWith(a[..n][i..], DATA)
    {
      assert LineStart(a, i);
      StartsWithLonger(a[..n][i..], a[n..], DATA);
      assert a[..n][i..] + a[n..] == a[i..];
    }
  }

  lemma StartsWithLonger(s: Bytes, more: Bytes, prefix: Bytes)
    ensures StartsWith(s, prefix) ==> StartsWith(s + more, prefix)
    ensures |prefix| <= |s| ==> (StartsWith(s, prefix) <==> StartsWith(s + more, prefix))
  {
    if |prefix| <= |s| {
      assert (s + more)[..|prefix|] == s[..|prefix|];
    }
  }

  lemma NoDataNoJson(line: Bytes)
    requires !StartsWith(line, DATA)
    ensures DataOfLine(line) == None
  {
    SpacedIsData(line);
  }

  lemma SpacedIsData(line: Bytes)
    ensures StartsWith(line, DATA_SP) ==> StartsWith(line, DATA)
  {
    if |line| >= 6 {
      assert line[..5] == line[..6][..5];
    }
  }

  lemma {:induction false} DatalessYieldsNothing(a: Bytes)
    requires Dataless(a)
    ensures ExtractDataLine(a) == None
    decreases |a|
  {
    var n := FirstNewline(a);
    DatalessUpTo(a, n);
    assert LineStart(a[..n], 0) && a[..n][0..] == a[..n];
    NoDataNoJson(a[..n]);
    if n < |a| {
      DatalessFrom(a, n + 1);
      DatalessYieldsNothing(a[n + 1..]);
    }
  }

  lemma DatalessBlock(a: Bytes, n: nat)
    requires Dataless(a) && EndsLine(a) && FindDoubleNewline(a).Some? && n == FindDoubleNewline(a).value + 2
    ensures Decode(a).0 == Decode(a[n..]).0 && Decode(a).1 == Decode(a[n..]).1
    ensures Dataless(a[n..]) && EndsLine(a[n..])
  {
    DatalessFrom(a, n);
    assert PayloadOf(a[..n]) == [] by {
      DatalessUpTo(a, n);
      DatalessYieldsNothing(a[..n]);
    }
    DrainOne(a, [], n);
  }

  /** Text without data lines carries no payload, however it is cut into blocks. */
  lemma {:induction false} DatalessDecodesToNothing(a: Bytes)
    requires Dataless(a) && EndsLine(a)
    ensures Decode(a).0 == []
    ensures Dataless(Decode(a).1) && EndsLine(Decode(a).1) && FindDoubleNewline(Decode(a).1) == None
    decreases |a|
  {
    var pos := FindDoubleNewline(a);
    if pos.Some? {
      var n := pos.value + 2;
      DatalessBlock(a, n);
      DatalessDecodesToNothing(a[n..]);
    } else {
      DecodeIncomplete(a);
    }
  }

  lemma ShortLine(line: Bytes, rest: Bytes)
    requires |line| < 5
    ensures !StartsWith(line + [NL] + rest, DATA)
  {
    var a := line + [NL] + rest;
    if |a| >= 5 {
      assert a[..5][|line|] == NL && DATA[|line|] != NL;
    }
  }

  lemma PlainLineThenMore(line: Bytes, rest: Bytes)
    requires PlainLine(line) && Dataless(rest)
    ensures Dataless(line + [NL] + rest)
  {
    var a := line + [NL] + rest;
    forall i: nat | LineStart(a, i)
      ensures !StartsWith(a[i..], DATA)
    {
      if i == 0 {
        assert a[0..] == line + ([NL] + rest);
        if |line| >= 5 {
          StartsWithLonger(line, [NL] + rest, DATA);
        } else {
          ShortLine(line, rest);
        }
      } else if i > |line| {
        assert LineStart(rest, i - |line| - 1);
        assert a[i..] == rest[i - |line| - 1..];
      }
    }
  }

  lemma {:induction false} PreambleIsDataless(ls: seq<Bytes>)
    requires forall i | 0 <= i < |ls| :: PlainLine(ls[i])
    ensures Dataless(Lines(ls)) && EndsLine(Lines(ls))
  {
    if ls != [] {
      PreambleIsDataless(ls[1..]);
      PlainLineThenMore(ls[0], Lines(ls[1..]));
    }
  }

  // ----- One data block ----------------------------------------------------------------------

  lemma DataLineIsData(spaced: bool, json: Bytes)
    requires IsPayload(json)
    ensures DataOfLine(Prefix(spaced) + json) == Some(json)
  {
    var line := Prefix(spaced) + json;
    if spaced {
      assert line[..6] == DATA_SP && line[6..] == json;
    } else {
      assert line[..5] == DATA && line[5..] == json;
      assert line[..6][5] == json[0] && DATA_SP[5] != json[0];
    }
  }

  lemma PrefixHasNoNewline(spaced: bool)
    ensures forall i | 0 <= i < |Prefix(spaced)| :: Prefix(spaced)[i] != NL
  {
  }

  lemma BlockLine(spaced: bool, json: Bytes)
    requires IsPayload(json)
    ensures ExtractDataLine(DataBlock(spaced, json)) == Some(json)
  {
    var block, line := DataBlock(spaced, json), Prefix(spaced) + json;
    PrefixHasNoNewline(spaced);
    assert forall i | 0 <= i < |line| :: block[i] == line[i] != NL;
    assert block[|line|] == NL;
    assert FirstNewline(block) == |line| && block[..|line|] == line;
    DataLineIsData(spaced, json);
  }

  /** Lines without data in front of a data line do not hide it. */
  lemma {:induction false} ExtractBehindPreamble(r: Bytes, spaced: bool, json: Bytes)
    requires Dataless(r) && EndsLine(r) && IsPayload(json)
    ensures ExtractDataLine(r + DataBlock(spaced, json)) == Some(json)
    decreases |r|
  {
    var block := r + DataBlock(spaced, json);
    if r == [] {
      BlockLine(spaced, json);
      assert block == DataBlock(spaced, json);
    } else {
      var n := FirstNewline(r);
      DatalessUpTo(r, n);
      assert LineStart(r[..n], 0) && r[..n][0..] == r[..n];
      NoDataNoJson(r[..n]);
      SkipLine(r, n, DataBlock(spaced, json));
      DatalessFrom(r, n + 1);
      ExtractBehindPreamble(r[n + 1..], spaced, json);
    }
  }

  lemma {:induction false} SkipLine(r: Bytes, n: nat, more: Bytes)
    requires n == FirstNewline(r) < |r| && DataOfLine(r[..n]) == None
    ensures ExtractDataLine(r + more) == ExtractDataLine(r[n + 1..] + more)
  {
    var block := r + more;
    assert forall i | 0 <= i < n :: block[i] == r[i];
    assert block[n] == r[n];
    assert FirstNewline(block) == n && block[..n] == r[..n];
    assert block[n + 1..] == r[n + 1..] + more;
  }

  /** The block that starts with an incomplete preamble ends right behind the data line. */
  lemma BlockEnd(r: Bytes, spaced: bool, json: Bytes)
    requires EndsLine(r) && FindDoubleNewline(r) == None && IsPayload(json)
    ensures var body := r + DataBlock(spaced, json);
            IsBlock(body)
  {
    var line, body := Prefix(spaced) + json, r + DataBlock(spaced, json);
    var x, end := body, |body| - 2;
    PrefixHasNoNewline(spaced);
    assert forall i | 0 <= i < |r| :: x[i] == r[i];
    assert forall i | |r| <= i < end :: x[i] == line[i - |r|] != NL;
    NoBreakBefore(r);
    assert forall i: nat | i + 1 < |r| :: BreakAt(x, i) <==> BreakAt(r, i);
    assert BreakAt(x, end);
    FirstBreakIsFound(x, end);
  }

  lemma DecodeOneEvent(r: Bytes, spaced: bool, json: Bytes, rest: Bytes)
    requires Dataless(r) && EndsLine(r) && FindDoubleNewline(r) == None && IsPayload(json)
    ensures Decode(r + (DataBlock(spaced, json) + rest)).0 == [json] + Decode(rest).0
    ensures Decode(r + (DataBlock(spaced, json) + rest)).1 == Decode(rest).1
  {
    var body := r + DataBlock(spaced, json);
    assert r + (DataBlock(spaced, json) + rest) == body + rest;
    BlockEnd(r, spaced, json);
    ExtractBehindPreamble(r, spaced, json);
    DecodeCons(body, rest);
  }

  // ----- Round trips -------------------------------------------------------------------------

  /** Decoding what was encoded returns exactly the payloads, in order, and leaves nothing over. */
  lemma {:induction false} RoundTrip(events: seq<Event>)
    requires forall i | 0 <= i < |events| :: WellFormed(events[i])
    ensures Decode(Encode(events)).0 == Jsons(events)
    ensures Decode(Encode(events)).1 == []
  {
    if events != [] {
      var ev, lines := events[0], Lines(events[0].preamble);
      var wire := DataBlock(ev.spaced, ev.json) + Encode(events[1..]);
      RoundTrip(events[1..]);
      PreambleIsDataless(ev.preamble);
      DatalessDecodesToNothing(lines);
      DecodeSplit(lines, wire);
      DecodeOneEvent(Decode(lines).1, ev.spaced, ev.json, Encode(events[1..]));
    }
  }

  /** ... and so does feeding it in chunks of any size. */
  lemma {:induction false} RoundTripInChunks(events: seq<Event>, chunks: seq<Bytes>)
    requires forall i | 0 <= i < |events| :: WellFormed(events[i])
    requires Concat(chunks) == Encode(events)
    ensures FedAll([], chunks) == (Jsons(events), [])
  {
    RoundTrip(events);
    FedAllIsDecode([], chunks);
    assert [] + Concat(chunks) == Encode(events);
  }

  function Plain(jsons: seq<Bytes>): seq<Event> {
    if jsons == [] then [] else [Event([], true, jsons[0])] + Plain(jsons[1..])
  }

  lemma {:induction false} PlainIsWellFormed(jsons: seq<Bytes>)
    requires forall i | 0 <= i < |jsons| :: IsPayload(jsons[i])
    ensures Jsons(Plain(jsons)) == jsons
    ensures forall i | 0 <= i < |Plain(jsons)| :: WellFormed(Plain(jsons)[i])
  {
    if jsons != [] {
      PlainIsWellFormed(jsons[1..]);
    }
  }

  lemma {:induction false} PayloadsArePayloads(blocks: seq<Bytes>)
    ensures forall i | 0 <= i < |Payloads(blocks)| :: IsPayload(Payloads(blocks)[i])
  {
    if blocks != [] {
      PayloadsArePayloads(blocks[1..]);
    }
  }

  /** Whatever the bytes received, the payloads decoded from them survive being encoded again. */
  lemma DecodedPayloadsSurvive(wire: Bytes)
    ensures Decode(Encode(Plain(Decode(wire).0))).0 == Decode(wire).0
  {
    PayloadsArePayloads(Blocks(wire).0);
    PlainIsWellFormed(Decode(wire).0);
    RoundTrip(Plain(Decode(wire).0));
  }
}
