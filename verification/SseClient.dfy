/** Incremental framing of the event stream: a byte buffer is fed by arbitrary chunks, blocks are cut at
    the first empty line, and the JSON data line of a block is extracted.  The wire format is a restriction
    of sections 9.2.5 and 9.2.6 of the WHATWG HTML Living Standard. */
module SseClient {
  import opened Types

  type Byte = U8
  type Bytes = seq<Byte>

  const NL: Byte := 0x0A
  const BRACE: Byte := 0x7B
  const DATA: Bytes := [0x64, 0x61, 0x74, 0x61, 0x3A]              // "data:"
  const DATA_SP: Bytes := [0x64, 0x61, 0x74, 0x61, 0x3A, 0x20]     // "data: "

  /** The bytes of an ASCII text. */
  function Ascii(text: string): (r: seq<int>)
    ensures |r| == |text| && forall i | 0 <= i < |text| :: r[i] == text[i] as int
  {
    seq(|text|, i requires 0 <= i < |text| => text[i] as int)
  }

  lemma WireFormat()
    ensures [NL] == Ascii("\n") && [BRACE] == Ascii("{") && DATA == Ascii("data:") && DATA_SP == Ascii("data: ")
  {
  }

  predicate StartsWith(s: Bytes, prefix: Bytes) {
    |prefix| <= |s| && s[..|prefix|] == prefix
  }

  /** An empty line: two newlines at `i` and `i + 1`. */
  predicate BreakAt(buf: Bytes, i: nat) {
    i + 1 < |buf| && buf[i] == NL && buf[i + 1] == NL
  }

  /** Position of the first double newline at or behind `from`. */
  function FindFrom(buf: Bytes, from: nat): (r: Option<nat>)
    ensures r.Some? ==> from <= r.value && BreakAt(buf, r.value)
    decreases |buf| - from
  {
    if from + 1 >= |buf| then None
    else if BreakAt(buf, from) then Some(from)
    else FindFrom(buf, from + 1)
  }

  function FindDoubleNewline(buf: Bytes): (r: Option<nat>)
    ensures r.Some? ==> BreakAt(buf, r.value)
  {
    FindFrom(buf, 0)
  }

  /** The position found is that of the first empty line; if none is found, there is none. */
  lemma {:induction false} FindsFirstBreak(buf: Bytes, from: nat, i: nat)
    ensures from <= i && BreakAt(buf, i) ==> FindFrom(buf, from).Some? && FindFrom(buf, from).value <= i
    decreases |buf| - from
  {
    if from < i && from + 1 < |buf| {
      FindsFirstBreak(buf, from + 1, i);
    }
  }

  /** A break with none before it is the one found. */
  lemma FirstBreakIsFound(buf: Bytes, end: nat)
    requires BreakAt(buf, end) && forall i: nat | i < end :: !BreakAt(buf, i)
    ensures FindDoubleNewline(buf) == Some(end)
  {
    FindsFirstBreak(buf, 0, end);
  }

  lemma NoBreakBefore(buf: Bytes)
    ensures FindDoubleNewline(buf).Some? ==> forall i: nat | i < FindDoubleNewline(buf).value :: !BreakAt(buf, i)
    ensures FindDoubleNewline(buf).None? ==> forall i: nat :: !BreakAt(buf, i)
  {
    forall i: nat | BreakAt(buf, i)
      ensures FindDoubleNewline(buf).Some? && FindDoubleNewline(buf).value <= i
    {
      FindsFirstBreak(buf, 0, i);
    }
  }

  function NewlineFrom(s: Bytes, from: nat): (n: nat)
    requires from <= |s|
    ensures from <= n <= |s|
    ensures n < |s| ==> s[n] == NL
    ensures forall i | from <= i < n :: s[i] != NL
    decreases |s| - from
  {
    if from == |s| || s[from] == NL then from else NewlineFrom(s, from + 1)
  }

  /** Where the first line ends. */
  function FirstNewline(s: Bytes): (n: nat)
    ensures n <= |s|
    ensures n < |s| ==> s[n] == NL
    ensures forall i | 0 <= i < n :: s[i] != NL
  {
    NewlineFrom(s, 0)
  }

  /** The JSON object of one line, if the line is a data line that carries one. */
  function DataOfLine(line: Bytes): Option<Bytes> {
    var json := if StartsWith(line, DATA_SP) then Some(line[6..])
                else if StartsWith(line, DATA) then Some(line[5..]) else None;
    if json.Some? && json.value != [] && json.value[0] == BRACE then json else None
  }

  /** The first JSON data line of a block. */
  function ExtractDataLine(block: Bytes): (r: Option<Bytes>)
    ensures r.Some? ==> IsPayload(r.value)
    decreases |block|
  {
    var n := FirstNewline(block);
    var json := DataOfLine(block[..n]);
    if json.Some? then
      assert forall i | 0 <= i < |json.value| :: json.value[i] in block[..n];
      json
    else if n == |block| then None
    else ExtractDataLine(block[n + 1..])
  }

  /** What can be offered: a JSON object without raw newlines. */
  predicate IsPayload(json: Bytes) {
    json != [] && json[0] == BRACE && forall i | 0 <= i < |json| :: json[i] != NL
  }

  lemma SpaceIsSixth(line: Bytes)
    ensures StartsWith(line, DATA_SP) ==> |line| >= 6 && line[5] == 0x20
  {
    if StartsWith(line, DATA_SP) {
      assert line[5] == line[..6][5];
    }
  }

  /** What a line carries: a JSON object behind the field name, with or without the space. */
  lemma DataLinesAre(line: Bytes, json: Bytes)
    ensures DataOfLine(line) == Some(json)
       <==> json != [] && json[0] == BRACE && (line == DATA_SP + json || line == DATA + json)
  {
    if DataOfLine(line) == Some(json) {
      assert line == if StartsWith(line, DATA_SP) then DATA_SP + line[6..] else DATA + line[5..];
    } else if json != [] && line == DATA_SP + json {
      assert line[..6] == DATA_SP && line[6..] == json;
    } else if json != [] && json[0] == BRACE && line == DATA + json {
      assert line[5] == BRACE && line[..5] == DATA && line[5..] == json;
      SpaceIsSixth(line);
    }
  }

  /** The lines of a block. */
  function LinesOf(block: Bytes): (lines: seq<Bytes>)
    ensures lines != [] && Joined(lines) == block
    ensures forall k, i | 0 <= k < |lines| && 0 <= i < |lines[k]| :: lines[k][i] != NL
    decreases |block|
  {
    var n := FirstNewline(block);
    if n == |block| then [block]
    else
      var rest := LinesOf(block[n + 1..]);
      assert block == block[..n] + ([NL] + block[n + 1..]);
      assert ([block[..n]] + rest)[1..] == rest;
      [block[..n]] + rest
  }

  /** Lines with a newline between each two of them. */
  function Joined(lines: seq<Bytes>): Bytes
    requires lines != []
  {
    if |lines| == 1 then lines[0] else lines[0] + ([NL] + Joined(lines[1..]))
  }

  lemma {:induction false} FirstLineDecides(block: Bytes)
    ensures var n := FirstNewline(block);
            var first := DataOfLine(block[..n]);
            if n == |block| then LinesOf(block) == [block[..n]] && ExtractDataLine(block) == first
            else
              && LinesOf(block) == [block[..n]] + LinesOf(block[n + 1..])
              && ExtractDataLine(block) == if first.Some? then first else ExtractDataLine(block[n + 1..])
  {
    assert FirstNewline(block) == |block| ==> block[..FirstNewline(block)] == block;
  }

  /** `k` is the first line that carries something, if there is one, and `json` is what it carries. */
  ghost predicate IsFirstData(lines: seq<Bytes>, k: nat, json: Option<Bytes>) {
    && k <= |lines| && (forall i | 0 <= i < k :: DataOfLine(lines[i]) == None)
    && if k < |lines| then json.Some? && DataOfLine(lines[k]) == json else json == None
  }

  lemma FirstDataBehind(line: Bytes, lines: seq<Bytes>, k: nat, json: Option<Bytes>)
    requires DataOfLine(line) == None && IsFirstData(lines, k, json)
    ensures IsFirstData([line] + lines, k + 1, json)
  {
  }

  /** What is extracted from a block is the object of its first line that carries one; nothing, if none does. */
  lemma {:induction false} ExtractsTheFirst(block: Bytes) returns (k: nat)
    ensures IsFirstData(LinesOf(block), k, ExtractDataLine(block))
    decreases |block|
  {
    var n := FirstNewline(block);
    FirstLineDecides(block);
    if DataOfLine(block[..n]).Some? {
      k := 0;
    } else if n == |block| {
      k := 1;
    } else {
      k := ExtractsTheFirst(block[n + 1..]);
      FirstDataBehind(block[..n], LinesOf(block[n + 1..]), k, ExtractDataLine(block[n + 1..]));
      k := k + 1;
    }
  }

  function PayloadOf(block: Bytes): seq<Bytes> {
    var json := ExtractDataLine(block);
    if json.Some? then [json.value] else []
  }

  function Payloads(blocks: seq<Bytes>): seq<Bytes> {
    if blocks == [] then [] else PayloadOf(blocks[0]) + Payloads(blocks[1..])
  }

  function Concat(parts: seq<Bytes>): Bytes {
    if parts == [] then [] else parts[0] + Concat(parts[1..])
  }

  // ----- The batch decoder -------------------------------------------------------------------

  /** All complete blocks of a byte stream, and what is left over. */
  function Blocks(buf: Bytes): (seq<Bytes>, Bytes)
    decreases |buf|
  {
    var pos := FindDoubleNewline(buf);
    if pos.None? then ([], buf)
    else
      var (blocks, rest) := Blocks(buf[pos.value + 2..]);
      ([buf[..pos.value + 2]] + blocks, rest)
  }

  function Decode(buf: Bytes): (seq<Bytes>, Bytes) {
    (Payloads(Blocks(buf).0), Blocks(buf).1)
  }

  /** A block ends with its first empty line. */
  predicate IsBlock(b: Bytes) {
    |b| >= 2 && FindDoubleNewline(b) == Some(|b| - 2)
  }

  predicate IsFraming(buf: Bytes, blocks: seq<Bytes>, rest: Bytes) {
    && Concat(blocks) + rest == buf
    && (forall i | 0 <= i < |blocks| :: IsBlock(blocks[i]))
    && FindDoubleNewline(rest) == None
  }

  lemma FirstBreakStays(buf: Bytes, more: Bytes)
    requires FindDoubleNewline(buf).Some?
    ensures FindDoubleNewline(buf + more) == FindDoubleNewline(buf)
  {
    var end, x := FindDoubleNewline(buf).value, buf + more;
    NoBreakBefore(buf);
    assert forall i: nat | i <= end :: BreakAt(x, i) <==> BreakAt(buf, i);
    FirstBreakIsFound(x, end);
  }

  lemma FirstBlockIsBlock(buf: Bytes)
    requires FindDoubleNewline(buf).Some?
    ensures IsBlock(buf[..FindDoubleNewline(buf).value + 2])
  {
    var end := FindDoubleNewline(buf).value;
    var block := buf[..end + 2];
    NoBreakBefore(buf);
    assert forall i: nat | i <= end :: BreakAt(block, i) <==> BreakAt(buf, i);
    FirstBreakIsFound(block, end);
  }

  lemma {:induction false} ConcatCons(first: Bytes, blocks: seq<Bytes>, rest: Bytes)
    ensures Concat([first] + blocks) + rest == first + (Concat(blocks) + rest)
  {
    assert ([first] + blocks)[1..] == blocks;
  }

  lemma {:induction false} BlocksCons(first: Bytes, tail: Bytes)
    requires IsBlock(first)
    ensures Blocks(first + tail).0 == [first] + Blocks(tail).0
    ensures Blocks(first + tail).1 == Blocks(tail).1
  {
    FirstBreakStays(first, tail);
    assert (first + tail)[..|first|] == first && (first + tail)[|first|..] == tail;
  }

  /** Cutting a stream into blocks that each end with their first empty line, with a rest that has none,
      is possible in exactly one way, and the decoder finds it. */
  lemma {:induction false} FramingIsUnique(buf: Bytes, blocks: seq<Bytes>, rest: Bytes)
    ensures IsFraming(buf, blocks, rest) <==> blocks == Blocks(buf).0 && rest == Blocks(buf).1
    decreases |blocks|
  {
    FramingExists(buf);
    if IsFraming(buf, blocks, rest) {
      if blocks == [] {
        assert Concat(blocks) + rest == rest;
      } else {
        var first, more := blocks[0], blocks[1..];
        var tail := Concat(more) + rest;
        assert blocks == [first] + more;
        ConcatCons(first, more, rest);
        assert forall i | 0 <= i < |more| :: more[i] == blocks[i + 1];
        FramingIsUnique(tail, more, rest);
        BlocksCons(first, tail);
      }
    }
  }

  lemma {:induction false} FramingExists(buf: Bytes)
    ensures IsFraming(buf, Blocks(buf).0, Blocks(buf).1)
    decreases |buf|
  {
    var pos := FindDoubleNewline(buf);
    if pos.Some? {
      var block, tail := buf[..pos.value + 2], buf[pos.value + 2..];
      FramingExists(tail);
      FirstBlockIsBlock(buf);
      ConcatCons(block, Blocks(tail).0, Blocks(tail).1);
      assert block + tail == buf;
    }
  }

  // ----- Chunking independence ---------------------------------------------------------------

  lemma {:induction false} BlocksSplit(a: Bytes, b: Bytes)
    ensures Blocks(a + b).0 == Blocks(a).0 + Blocks(Blocks(a).1 + b).0
    ensures Blocks(a + b).1 == Blocks(Blocks(a).1 + b).1
    decreases |a|
  {
    var pos := FindDoubleNewline(a);
    if pos.Some? {
      var block, tail := a[..pos.value + 2], a[pos.value + 2..];
      BlocksSplit(tail, b);
      FirstBlockIsBlock(a);
      BlocksSplitCons(block, tail, b);
      assert block + tail == a;
    }
  }

  lemma {:induction false} BlocksSplitCons(block: Bytes, tail: Bytes, b: Bytes)
    requires IsBlock(block)
    requires Blocks(tail + b).0 == Blocks(tail).0 + Blocks(Blocks(tail).1 + b).0
    ensures Blocks(block + tail + b).0 == Blocks(block + tail).0 + Blocks(Blocks(block + tail).1 + b).0
    ensures Blocks(block + tail + b).1 == Blocks(tail + b).1 && Blocks(block + tail).1 == Blocks(tail).1
  {
    BlocksCons(block, tail + b);
    BlocksCons(block, tail);
    Append3(block, tail, b);
    Append3([block], Blocks(tail).0, Blocks(Blocks(tail).1 + b).0);
  }

  lemma {:induction false} PayloadsCons(block: Bytes, blocks: seq<Bytes>)
    ensures Payloads([block] + blocks) == PayloadOf(block) + Payloads(blocks)
  {
    assert ([block] + blocks)[1..] == blocks;
  }

  lemma {:induction false} PayloadsSplit(a: seq<Bytes>, b: seq<Bytes>)
    ensures Payloads(a + b) == Payloads(a) + Payloads(b)
  {
    if a == [] {
      assert a + b == b;
    } else {
      PayloadsSplit(a[1..], b);
      ConsSplit(a, b);
      PayloadsCons(a[0], a[1..] + b);
    }
  }

  lemma ConsSplit<T>(a: seq<T>, b: seq<T>)
    requires a != []
    ensures a + b == [a[0]] + (a[1..] + b)
  {
  }

  /** One block in front of a stream. */
  lemma DecodeCons(block: Bytes, tail: Bytes)
    requires IsBlock(block)
    ensures Decode(block + tail).0 == PayloadOf(block) + Decode(tail).0
    ensures Decode(block + tail).1 == Decode(tail).1
  {
    BlocksCons(block, tail);
    PayloadsCons(block, Blocks(tail).0);
  }

  /** Draining the first block off a buffer. */
  lemma DrainOne(buf: Bytes, got: seq<Bytes>, n: nat)
    requires FindDoubleNewline(buf).Some? && n == FindDoubleNewline(buf).value + 2
    ensures got + Decode(buf).0 == got + PayloadOf(buf[..n]) + Decode(buf[n..]).0
    ensures Decode(buf).1 == Decode(buf[n..]).1
  {
    FirstBlockIsBlock(buf);
    assert buf[..n] + buf[n..] == buf;
    DecodeCons(buf[..n], buf[n..]);
  }

  /** Decoding can stop anywhere and resume with what is left over. */
  lemma DecodeSplit(a: Bytes, b: Bytes)
    ensures Decode(a + b).0 == Decode(a).0 + Decode(Decode(a).1 + b).0
    ensures Decode(a + b).1 == Decode(Decode(a).1 + b).1
  {
    BlocksSplit(a, b);
    PayloadsSplit(Blocks(a).0, Blocks(Blocks(a).1 + b).0);
  }

  // ----- The client --------------------------------------------------------------------------

  /** What one turn of the receive loop observes: the stop flag, the watchdog's reconnect flag, and a chunk
      or a stream error (`None`). */
  datatype Input = Input(stop: bool, reconnect: bool, chunk: Option<Bytes>)

  /** How many turns feed their chunk before the connection ends: up to the first turn that sees `stop` or the
      reconnect flag, or fails. */
  function Turns(inputs: seq<Input>): (n: nat)
    ensures n <= |inputs|
    ensures forall i | 0 <= i < n :: !inputs[i].stop && !inputs[i].reconnect && inputs[i].chunk.Some?
    ensures n < |inputs| ==> inputs[n].stop || inputs[n].reconnect || inputs[n].chunk.None?
  {
    if inputs == [] || inputs[0].stop || inputs[0].reconnect || inputs[0].chunk.None? then 0
    else 1 + Turns(inputs[1..])
  }

  /** No other number of turns is like that. */
  lemma {:induction false} TurnsAre(inputs: seq<Input>, n: nat)
    requires n <= |inputs|
    requires forall i | 0 <= i < n :: !inputs[i].stop && !inputs[i].reconnect && inputs[i].chunk.Some?
    requires n < |inputs| ==> inputs[n].stop || inputs[n].reconnect || inputs[n].chunk.None?
    ensures n == Turns(inputs)
  {
  }

  function Chunks(inputs: seq<Input>): (chunks: seq<Bytes>)
    requires forall i | 0 <= i < |inputs| :: inputs[i].chunk.Some?
    ensures |chunks| == |inputs| && forall i | 0 <= i < |inputs| :: chunks[i] == inputs[i].chunk.value
  {
    seq(|inputs|, i requires 0 <= i < |inputs| => inputs[i].chunk.value)
  }

  /** What a connection that sees `inputs` receives, decoded as a whole. */
  function Decoded(inputs: seq<Input>): (seq<Bytes>, Bytes) {
    Decode(Concat(Chunks(inputs[..Turns(inputs)])))
  }

  lemma {:induction false} ConcatLast(chunks: seq<Bytes>, chunk: Bytes)
    ensures Concat(chunks + [chunk]) == Concat(chunks) + chunk
  {
    if chunks == [] {
      assert chunks + [chunk] == [chunk] && [chunk][1..] == [];
    } else {
      ConcatLast(chunks[1..], chunk);
      assert (chunks + [chunk])[1..] == chunks[1..] + [chunk];
    }
  }

  /** The first `i` turns have been decoded into `payloads`, with `buf` left over. */
  ghost predicate Progress(inputs: seq<Input>, i: nat, payloads: seq<Bytes>, buf: Bytes)
    requires i <= |inputs| && forall k | 0 <= k < i :: inputs[k].chunk.Some?
  {
    Decode(Concat(Chunks(inputs[..i]))) == (payloads, buf)
  }

  lemma ProgressAtStart(inputs: seq<Input>)
    ensures Progress(inputs, 0, [], [])
  {
    DecodeIncomplete([]);
    assert Chunks(inputs[..0]) == [];
  }

  lemma ProgressStep(inputs: seq<Input>, i: nat, payloads: seq<Bytes>, buf: Bytes)
    requires i < |inputs| && forall k | 0 <= k <= i :: inputs[k].chunk.Some?
    requires Progress(inputs, i, payloads, buf)
    ensures var d := Decode(buf + inputs[i].chunk.value);
            Progress(inputs, i + 1, payloads + d.0, d.1)
  {
    assert Chunks(inputs[..i + 1]) == Chunks(inputs[..i]) + [inputs[i].chunk.value];
    ConcatLast(Chunks(inputs[..i]), inputs[i].chunk.value);
    DecodeSplit(Concat(Chunks(inputs[..i])), inputs[i].chunk.value);
  }

  /** `offered` are the payloads handed to the channel, in order. */
  class Client {
    var buf: Bytes
    var offered: seq<Bytes>

    constructor ()
      ensures buf == [] && offered == []
    {
      buf, offered := [], [];
    }

    /** Appends a chunk and drains every complete block from the buffer. */
    method Feed(chunk: Bytes)
      modifies this
      ensures buf == Decode(old(buf) + chunk).1
      ensures offered == old(offered) + Decode(old(buf) + chunk).0
      ensures FindDoubleNewline(buf) == None
    {
      buf := buf + chunk;
      ghost var payloads, rest := Decode(buf).0, Decode(buf).1;
      var pos := FindDoubleNewline(buf);
      while pos.Some?
        invariant pos == FindDoubleNewline(buf)
        invariant rest == Decode(buf).1
        invariant old(offered) + payloads == offered + Decode(buf).0
        decreases |buf|
      {
        DrainOne(buf, offered, pos.value + 2);
        var block := buf[..pos.value + 2];
        buf := buf[pos.value + 2..];
        Offer(block);
        pos := FindDoubleNewline(buf);
      }
      DecodeIncomplete(buf);
    }

    /** Hands the payload of a block, if it has one, to the channel. */
    method Offer(block: Bytes)
      modifies this`offered
      ensures offered == old(offered) + PayloadOf(block)
    {
      var json := ExtractDataLine(block);
      if json.Some? {
        offered := offered + [json.value];
      }
    }

    /** One connection: a fresh buffer, fed until the stream ends, fails, or a flag is seen.  However the
        bytes are cut into chunks, the payloads are those of the batch decoder on the chunks of the `n` turns
        before that. */
    method Connection(inputs: seq<Input>) returns (stopped: bool, ghost n: nat)
      modifies this
      ensures n <= |inputs|
      ensures forall i | 0 <= i < n :: !inputs[i].stop && !inputs[i].reconnect && inputs[i].chunk.Some?
      ensures n < |inputs| ==> inputs[n].stop || inputs[n].reconnect || inputs[n].chunk.None?
      ensures stopped <==> n < |inputs| && inputs[n].stop
      ensures buf == Decode(Concat(Chunks(inputs[..n]))).1
      ensures offered == old(offered) + Decode(Concat(Chunks(inputs[..n]))).0
    {
      buf := [];
      ghost var payloads: seq<Bytes> := [];
      var i := 0;
      ProgressAtStart(inputs);
      while i < |inputs| && !inputs[i].stop && !inputs[i].reconnect && inputs[i].chunk.Some?
        invariant 0 <= i <= |inputs|
        invariant forall k | 0 <= k < i :: !inputs[k].stop && !inputs[k].reconnect && inputs[k].chunk.Some?
        invariant Progress(inputs, i, payloads, buf)
        invariant offered == old(offered) + payloads
      {
        ghost var more := Decode(buf + inputs[i].chunk.value).0;
        ProgressStep(inputs, i, payloads, buf);
        Append3(old(offered), payloads, more);
        payloads := payloads + more;
        Feed(inputs[i].chunk.value);
        i := i + 1;
      }
      n := i;
      stopped := i < |inputs| && inputs[i].stop;
    }

    /** The outer loop: every connection starts over with an empty buffer, until `stop` is seen.  The first `m`
        connections were made, and what they received was decoded one by one. */
    method Run(connections: seq<seq<Input>>) returns (ghost m: nat)
      modifies this
      ensures m <= |connections|
      ensures forall k | 0 <= k < m - 1 :: !Stops(connections[k])
      ensures m < |connections| ==> m > 0 && Stops(connections[m - 1])
      ensures offered == old(offered) + OfferedBy(connections[..m])
    {
      var i, stopped := 0, false;
      while i < |connections| && !stopped
        invariant 0 <= i <= |connections|
        invariant stopped ==> i > 0 && Stops(connections[i - 1])
        invariant forall k | 0 <= k < (if stopped then i - 1 else i) :: !Stops(connections[k])
        invariant offered == old(offered) + OfferedBy(connections[..i])
      {
        ghost var n;
        stopped, n := Connection(connections[i]);
        TurnsAre(connections[i], n);
        StopsAtTheEnd(connections[i]);
        OfferedOneMore(old(offered), connections, i);
        i := i + 1;
      }
      m := i;
    }
  }

  /** `stop` ends the connection, and with it the client. */
  predicate Stops(inputs: seq<Input>) {
    exists n :: 0 <= n < |inputs| && inputs[n].stop &&
      forall i | 0 <= i < n :: !inputs[i].stop && !inputs[i].reconnect && inputs[i].chunk.Some?
  }

  /** The payloads of some connections: one by one, what the batch decoder finds. */
  function OfferedBy(connections: seq<seq<Input>>): seq<Bytes> {
    if connections == [] then []
    else OfferedBy(connections[..|connections| - 1]) + Decoded(connections[|connections| - 1]).0
  }

  lemma {:induction false} StopsAtTheEnd(inputs: seq<Input>)
    ensures Stops(inputs) <==> Turns(inputs) < |inputs| && inputs[Turns(inputs)].stop
  {
  }

  lemma OfferedOneMore(before: seq<Bytes>, connections: seq<seq<Input>>, i: nat)
    requires i < |connections|
    ensures before + OfferedBy(connections[..i + 1])
         == before + OfferedBy(connections[..i]) + Decoded(connections[i]).0
  {
    assert connections[..i + 1][..i] == connections[..i];
    Append3(before, OfferedBy(connections[..i]), Decoded(connections[i]).0);
  }

  /** Feeding chunks one by one: what is offered, and what stays in the buffer. */
  function FedAll(buf: Bytes, chunks: seq<Bytes>): (seq<Bytes>, Bytes)
    decreases |chunks|
  {
    if chunks == [] then ([], buf)
    else
      var d, more := Decode(buf + chunks[0]), FedAll(Decode(buf + chunks[0]).1, chunks[1..]);
      (d.0 + more.0, more.1)
  }

  lemma {:induction false} FedAllIsDecode(buf: Bytes, chunks: seq<Bytes>)
    requires FindDoubleNewline(buf) == None
    ensures FedAll(buf, chunks) == Decode(buf + Concat(chunks))
    decreases |chunks|
  {
    if chunks == [] {
      DecodeIncomplete(buf);
      assert buf + Concat(chunks) == buf;
    } else {
      ResidualHasNoBreak(buf + chunks[0]);
      FedAllIsDecode(Decode(buf + chunks[0]).1, chunks[1..]);
      FedOneMore(buf, chunks);
    }
  }

  lemma {:induction false} ConcatHead(buf: Bytes, chunks: seq<Bytes>)
    requires chunks != []
    ensures buf + Concat(chunks) == buf + chunks[0] + Concat(chunks[1..])
  {
  }

  lemma {:induction false} FedOneMore(buf: Bytes, chunks: seq<Bytes>)
    requires chunks != []
    requires var rest := Decode(buf + chunks[0]).1;
             FedAll(rest, chunks[1..]) == Decode(rest + Concat(chunks[1..]))
    ensures FedAll(buf, chunks).0 == Decode(buf + Concat(chunks)).0
    ensures FedAll(buf, chunks).1 == Decode(buf + Concat(chunks)).1
  {
    ConcatHead(buf, chunks);
    DecodeSplit(buf + chunks[0], Concat(chunks[1..]));
  }

  lemma DecodeIncomplete(buf: Bytes)
    requires FindDoubleNewline(buf) == None
    ensures Decode(buf) == ([], buf)
  {
  }

  lemma ResidualHasNoBreak(a: Bytes)
    ensures FindDoubleNewline(Decode(a).1) == None
  {
    FramingExists(a);
  }

  /** Chunking independence: any two ways of cutting the same bytes into chunks offer the same payloads
      and leave the same residual, namely those of the batch decoder. */
  lemma {:induction false} ChunkingDoesNotMatter(a: seq<Bytes>, b: seq<Bytes>)
    requires Concat(a) == Concat(b)
    ensures FedAll([], a) == FedAll([], b) == Decode(Concat(a))
  {
    FedAllIsDecode([], a);
    FedAllIsDecode([], b);
    assert [] + Concat(a) == Concat(a) && [] + Concat(b) == Concat(b);
  }
}
