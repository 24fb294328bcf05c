/** The chat stream: what the server prints, and how the browser cuts the received
    text into events whatever the chunks it arrives in. */
module EventStream {
  import opened Basics

  // ---- framing ----

  datatype Cut = NoCut | Cut(block: string, rest: string)

  /** Cuts at the first blank line. */
  function FirstCut(text: string): Cut {
    if |text| < 2 then NoCut
    else if text[0] == '\n' && text[1] == '\n' then Cut("", text[2..])
    else match FirstCut(text[1..])
      case NoCut => NoCut
      case Cut(block, rest) => Cut([text[0]] + block, rest)
  }

  ghost predicate HasSeparator(text: string) {
    exists i :: 0 <= i < |text| - 1 && text[i] == '\n' && text[i + 1] == '\n'
  }

  lemma SeparatorInTail(c: char, tail: string)
    ensures HasSeparator([c] + tail) <==> (|tail| > 0 && c == '\n' && tail[0] == '\n') || HasSeparator(tail)
  {
    var text := [c] + tail;
    if i :| 0 <= i < |tail| - 1 && tail[i] == '\n' && tail[i + 1] == '\n' {
      assert text[i + 1] == '\n' && text[i + 2] == '\n';
    }
    if i :| 1 <= i < |text| - 1 && text[i] == '\n' && text[i + 1] == '\n' {
      assert tail[i - 1] == '\n' && tail[i] == '\n';
    }
    if |tail| > 0 && c == '\n' && tail[0] == '\n' { assert text[0] == '\n' && text[1] == '\n'; }
  }

  lemma {:induction false} CutJoins(text: string)
    requires FirstCut(text).Cut?
    ensures text == FirstCut(text).block + "\n\n" + FirstCut(text).rest
  {
    if text[0] == '\n' && text[1] == '\n' {
      assert text == "\n\n" + text[2..];
    } else {
      CutJoins(text[1..]);
      assert text == [text[0]] + text[1..];
    }
  }

  /** The cut is at the first blank line, if there is one. */
  lemma {:induction false} CutIsFirst(text: string)
    ensures FirstCut(text).NoCut? <==> !HasSeparator(text)
    ensures FirstCut(text).Cut? ==>
      text == FirstCut(text).block + "\n\n" + FirstCut(text).rest && !HasSeparator(FirstCut(text).block)
  {
    if FirstCut(text).Cut? { CutJoins(text); }
    if |text| >= 2 {
      var tail := text[1..];
      CutIsFirst(tail);
      SeparatorInTail(text[0], tail);
      assert [text[0]] + tail == text;
      if FirstCut(text).Cut? && FirstCut(text).block != "" {
        var block := FirstCut(tail).block;
        SeparatorInTail(text[0], block);
        if |block| > 0 { assert tail[0] == block[0] by { CutJoins(tail); } }
      }
    }
  }

  lemma {:induction false} CutExtends(a: string, b: string)
    requires FirstCut(a).Cut?
    ensures FirstCut(a + b) == Cut(FirstCut(a).block, FirstCut(a).rest + b)
  {
    if a[0] == '\n' && a[1] == '\n' {
      assert (a + b)[2..] == a[2..] + b;
    } else {
      assert (a + b)[1..] == a[1..] + b;
      CutExtends(a[1..], b);
    }
  }

  datatype Framed = Framed(blocks: seq<string>, buffer: string)

  /** Every complete block of a text, and what stays buffered. */
  function Frame(text: string): Framed
    decreases |text|
  {
    match FirstCut(text)
    case NoCut => Framed([], text)
    case Cut(block, rest) =>
      CutIsFirst(text);
      var f := Frame(rest);
      Framed([block] + f.blocks, f.buffer)
  }

  function Concat(chunks: seq<string>): string {
    if |chunks| == 0 then "" else Concat(chunks[..|chunks| - 1]) + chunks[|chunks| - 1]
  }

  function Reassembled(blocks: seq<string>): string {
    if |blocks| == 0 then "" else blocks[0] + "\n\n" + Reassembled(blocks[1..])
  }

  lemma FrameUnfolds(text: string)
    ensures var c := FirstCut(text);
      if c.NoCut? then Frame(text) == Framed([], text)
      else |c.rest| < |text| && Frame(text) == Framed([c.block] + Frame(c.rest).blocks, Frame(c.rest).buffer)
  {
    hide HasSeparator, FirstCut;
    CutIsFirst(text);
  }

  lemma ReassembledUnfolds(block: string, blocks: seq<string>, buffer: string)
    ensures Reassembled([block] + blocks) + buffer == block + "\n\n" + (Reassembled(blocks) + buffer)
  {
    assert ([block] + blocks)[1..] == blocks;
  }

  /** Blocks and buffer always add up to the text, and the buffer holds no blank line. */
  lemma {:induction false} FramingLosesNothing(text: string)
    ensures Reassembled(Frame(text).blocks) + Frame(text).buffer == text
    ensures !HasSeparator(Frame(text).buffer)
    ensures forall b :: b in Frame(text).blocks ==> !HasSeparator(b)
    decreases |text|
  {
    hide HasSeparator, Frame, FirstCut;
    CutIsFirst(text);
    FrameUnfolds(text);
    var c := FirstCut(text);
    if c.Cut? {
      FramingLosesNothing(c.rest);
      ReassembledUnfolds(c.block, Frame(c.rest).blocks, Frame(c.rest).buffer);
    }
  }

  /** Reading on from the buffer gives the blocks of the whole text. */
  lemma {:induction false} FramingContinues(a: string, b: string)
    ensures Frame(a + b)
        == Framed(Frame(a).blocks + Frame(Frame(a).buffer + b).blocks, Frame(Frame(a).buffer + b).buffer)
    decreases |a|
  {
    hide HasSeparator, Frame, FirstCut;
    FrameUnfolds(a);
    var c := FirstCut(a);
    if c.Cut? {
      CutExtends(a, b);
      FrameUnfolds(a + b);
      FramingContinues(c.rest, b);
      var more := Frame(Frame(a).buffer + b).blocks;
      assert [c.block] + (Frame(c.rest).blocks + more) == ([c.block] + Frame(c.rest).blocks) + more;
    }
  }

  // ---- one block ----

  predicate LineEnd(c: char) {
    c == '\n' || c == '\r' || c == '\U{2028}' || c == '\U{2029}'
  }

  function Line(text: string): string {
    if |text| == 0 || LineEnd(text[0]) then "" else [text[0]] + Line(text[1..])
  }

  /** First occurrence of the field that is followed by at least one character on its line. */
  function Match(text: string, field: string): Option<string>
    decreases |text|
  {
    if |text| <= |field| then None
    else if field <= text && !LineEnd(text[|field|]) then Some(Line(text[|field|..]))
    else Match(text[1..], field)
  }

  datatype Payload = Payload(content: string, error: string)
  datatype Chat =
    | Reading(result: string, finished: bool, shown: seq<string>)
    | Thrown(message: string, shown: seq<string>)

  /** What the client does with one block; `decode` is the JSON parser. */
  function Handle(chat: Chat, block: string, decode: string -> Option<Payload>): Chat {
    if chat.Thrown? then chat
    else
      var event, raw := Match(block, "event: "), Match(block, "data: ");
      if raw.None? then chat
      else match decode(raw.value)
        case None => Thrown("invalid JSON", chat.shown)
        case Some(data) =>
          if event == Some("error") then Thrown(data.error, chat.shown)
          else if event == Some("content") || event == Some("done")
          then Reading(data.content, chat.finished || event == Some("done"), chat.shown + [data.content])
          else chat
  }

  function HandleAll(chat: Chat, blocks: seq<string>, decode: string -> Option<Payload>): Chat
    decreases |blocks|
  {
    if |blocks| == 0 then chat else HandleAll(Handle(chat, blocks[0], decode), blocks[1..], decode)
  }

  const OPENING := Reading("", false, [])

  lemma {:induction false} HandlesInOrder(chat: Chat, a: seq<string>, b: seq<string>, decode: string -> Option<Payload>)
    ensures HandleAll(chat, a + b, decode) == HandleAll(HandleAll(chat, a, decode), b, decode)
    decreases |a|
  {
    hide Handle;
    if |a| == 0 {
      assert a + b == b;
    } else {
      assert (a + b)[1..] == a[1..] + b;
      HandlesInOrder(Handle(chat, a[0], decode), a[1..], b, decode);
    }
  }

  lemma {:induction false} ThrownStays(chat: Chat, blocks: seq<string>, decode: string -> Option<Payload>)
    requires chat.Thrown?
    ensures HandleAll(chat, blocks, decode) == chat
  {
    if |blocks| > 0 { ThrownStays(chat, blocks[1..], decode); }
  }

  /** The reading loops of the client. The outcome is a function of the received text
      alone: any chunking of it gives the same events in the same order. */
  method StreamChat(chunks: seq<string>, decode: string -> Option<Payload>) returns (chat: Chat)
    ensures chat == HandleAll(OPENING, Frame(Concat(chunks)).blocks, decode)
  {
    hide Handle, HasSeparator;
    chat := OPENING;
    var buffer := "";
    for i := 0 to |chunks|
      invariant chat.Reading?
      invariant chat == HandleAll(OPENING, Frame(Concat(chunks[..i])).blocks, decode)
      invariant buffer == Frame(Concat(chunks[..i])).buffer
    {
      ghost var seen := chunks[..i];
      buffer := buffer + chunks[i];
      ghost var text := buffer;
      assert chunks[..i + 1][..i] == seen;
      FramingContinues(Concat(seen), chunks[i]);
      HandlesInOrder(OPENING, Frame(Concat(seen)).blocks, Frame(text).blocks, decode);
      ghost var entry := chat;
      var cut := FirstCut(buffer);
      while cut.Cut?
        invariant chat.Reading? && cut == FirstCut(buffer)
        invariant HandleAll(chat, Frame(buffer).blocks, decode) == HandleAll(entry, Frame(text).blocks, decode)
        invariant Frame(buffer).buffer == Frame(text).buffer
        decreases |buffer|
      {
        CutIsFirst(buffer);
        chat := Handle(chat, cut.block, decode);
        assert Frame(buffer).blocks[1..] == Frame(cut.rest).blocks;
        buffer := cut.rest;
        if chat.Thrown? {
          ThrownStays(chat, Frame(buffer).blocks, decode);
          LaterChunksAreIgnored(chunks, i + 1, chat, decode);
          return;
        }
        cut := FirstCut(buffer);
      }
    }
    assert chunks[..|chunks|] == chunks;
  }

  lemma {:induction false} LaterChunksAreIgnored(chunks: seq<string>, i: nat, chat: Chat,
                                                 decode: string -> Option<Payload>)
    requires i <= |chunks| && chat.Thrown? && chat == HandleAll(OPENING, Frame(Concat(chunks[..i])).blocks, decode)
    ensures chat == HandleAll(OPENING, Frame(Concat(chunks)).blocks, decode)
    decreases |chunks| - i
  {
    hide Handle, HandleAll, FirstCut, Frame;
    if i == |chunks| {
      assert chunks[..i] == chunks;
    } else {
      var seen, next := Concat(chunks[..i]), chunks[i];
      assert chunks[..i + 1][..i] == chunks[..i];
      FramingContinues(seen, next);
      var more := Frame(Frame(seen).buffer + next).blocks;
      HandlesInOrder(OPENING, Frame(seen).blocks, more, decode);
      ThrownStays(chat, more, decode);
      LaterChunksAreIgnored(chunks, i + 1, chat, decode);
    }
  }

  // ---- the server's side ----

  /** The lines of one event; the printer appends a blank line. */
  function Body(name: string, data: string): string {
    "event: " + name + "\ndata: " + data
  }

  predicate OneLine(text: string) {
    |text| > 0 && forall c :: c in text ==> !LineEnd(c)
  }

  predicate EventName(name: string) {
    OneLine(name) && ':' !in name
  }

  lemma {:induction false} LineStops(line: string, rest: string)
    requires forall c :: c in line ==> !LineEnd(c)
    requires |rest| == 0 || LineEnd(rest[0])
    ensures Line(line + rest) == line
  {
    if |line| == 0 {
      assert line + rest == rest;
    } else {
      assert (line + rest)[1..] == line[1..] + rest && line[0] in line;
      LineStops(line[1..], rest);
    }
  }

  lemma {:induction false} MatchSkips(text: string, k: nat, field: string)
    requires k + |field| < |text| && forall i :: 0 <= i < k ==> !(field <= text[i..])
    ensures Match(text, field) == Match(text[k..], field)
    decreases k
  {
    if k > 0 {
      assert text[0..] == text && !(field <= text[0..]);
      forall i | 0 <= i < k - 1 ensures !(field <= text[1..][i..]) { assert text[1..][i..] == text[i + 1..]; }
      MatchSkips(text[1..], k - 1, field);
      assert text[1..][k - 1..] == text[k..];
    }
  }

  lemma NameIsMatched(name: string, data: string)
    requires OneLine(name)
    ensures Match(Body(name, data), "event: ") == Some(name)
  {
    var text, rest := Body(name, data), "\ndata: " + data;
    assert text == "event: " + (name + rest);
    assert text[|"event: "|..] == name + rest;
    assert name[0] in name && text[7] == name[0];
    LineStops(name, rest);
  }

  lemma DataIsMatched(name: string, data: string)
    requires EventName(name) && OneLine(data)
    ensures Match(Body(name, data), "data: ") == Some(data)
  {
    hide Match;
    var text, prefix := Body(name, data), "event: " + name + "\n";
    var k := |prefix|;
    assert text == prefix + ("data: " + data);
    forall i | 0 <= i < k ensures !("data: " <= text[i..]) {
      NotYet(name, data, i);
    }
    MatchSkips(text, k, "data: ");
    assert text[k..] == "data: " + data;
    MatchAtOnce("data: ", data);
  }

  lemma MatchAtOnce(field: string, line: string)
    requires OneLine(line)
    ensures Match(field + line, field) == Some(line)
  {
    assert (field + line)[|field|..] == line && line[0] in line;
    LineStops(line, "");
    assert line + "" == line;
  }

  lemma NotYet(name: string, data: string, i: nat)
    requires EventName(name) && OneLine(data) && i < 8 + |name|
    ensures !("data: " <= Body(name, data)[i..])
  {
    var text := Body(name, data);
    assert forall j :: 7 <= j < 7 + |name| ==> text[j] == name[j - 7];
    assert forall j :: 7 <= j < 7 + |name| ==> text[j] in name;
    assert text[7 + |name|..] == "\ndata: " + data;
    assert text[7 + |name|] == '\n' && text[8 + |name|] == 'd' && text[9 + |name|] == 'a'
        && text[10 + |name|] == 't' && text[11 + |name|] == 'a';
    assert text[1] == 'v';
    FieldChars(text, i);
  }

  lemma FieldChars(text: string, i: nat)
    requires i < |text|
    ensures "data: " <= text[i..] ==> i + 4 < |text| && text[i] == 'd' && text[i + 4] == ':'
  {
    assert "data: " <= text[i..] ==> text[i..][4] == ':' && text[i..][0] == 'd';
  }

  lemma {:induction false} CutOf(block: string, rest: string)
    requires !HasSeparator(block) && (|block| == 0 || block[|block| - 1] != '\n')
    ensures FirstCut(block + "\n\n" + rest) == Cut(block, rest)
  {
    var text := block + "\n\n" + rest;
    if |block| == 0 {
      assert text[2..] == rest;
    } else {
      var tail := block[1..] + "\n\n" + rest;
      assert text[1..] == tail && [block[0]] + block[1..] == block;
      SeparatorInTail(block[0], block[1..]);
      CutOf(block[1..], rest);
      assert !(text[0] == '\n' && text[1] == '\n') by {
        if |block| > 1 { assert text[1] == block[1] && block[1] == block[1..][0]; }
      }
    }
  }

  lemma BodyIsOneBlock(name: string, data: string)
    requires OneLine(name) && OneLine(data)
    ensures !HasSeparator(Body(name, data)) && |Body(name, data)| > 0
    ensures Body(name, data)[|Body(name, data)| - 1] != '\n'
  {
    var text, k := Body(name, data), 7 + |name|;
    assert text == ("event: " + name) + ("\ndata: " + data);
    var head, tail := "event: " + name, "\ndata: " + data;
    forall j | 0 <= j < |text| && j != k ensures text[j] != '\n' {
      if j < k {
        assert text[j] == head[j];
        assert j >= 7 ==> head[j] == name[j - 7] && head[j] in name;
      } else {
        assert text[j] == tail[j - k];
        assert j >= k + 7 ==> tail[j - k] == data[j - k - 7] && tail[j - k] in data;
      }
    }
  }

  /** An event as the server sends it. */
  datatype Said = Said(name: string, payload: Payload)

  function Bodies(events: seq<Said>, encode: Payload -> string): seq<string> {
    if |events| == 0 then []
    else [Body(events[0].name, encode(events[0].payload))] + Bodies(events[1..], encode)
  }

  function Printed(events: seq<Said>, encode: Payload -> string): string {
    if |events| == 0 then ""
    else Body(events[0].name, encode(events[0].payload)) + "\n\n" + Printed(events[1..], encode)
  }

  /** Names without a colon, and an encoder whose output is one line that parses back. */
  ghost predicate Sendable(events: seq<Said>, encode: Payload -> string, decode: string -> Option<Payload>) {
    && (forall e :: e in events ==> EventName(e.name))
    && (forall p :: OneLine(encode(p)) && decode(encode(p)) == Some(p))
  }

  lemma {:induction false} PrintedFrames(events: seq<Said>,
                                         encode: Payload -> string, decode: string -> Option<Payload>)
    requires Sendable(events, encode, decode)
    ensures Frame(Printed(events, encode)) == Framed(Bodies(events, encode), "")
  {
    hide HasSeparator, Body, FirstCut, Frame;
    if |events| == 0 {
      FrameUnfolds("");
      CutIsFirst("");
      assert FirstCut("").NoCut? by { ShortTextHasNoCut(); }
    } else {
      var e, rest := events[0], Printed(events[1..], encode);
      assert e in events && forall x :: x in events[1..] ==> x in events;
      PrintedFrames(events[1..], encode, decode);
      var body := Body(e.name, encode(e.payload));
      BodyIsOneBlock(e.name, encode(e.payload));
      CutOf(body, rest);
      FrameUnfolds(body + "\n\n" + rest);
    }
  }

  lemma ShortTextHasNoCut()
    ensures FirstCut("").NoCut?
  {}

  /** What a client should make of the events, whatever their encoding. */
  function Receive(chat: Chat, e: Said): Chat {
    if chat.Thrown? then chat
    else if e.name == "error" then Thrown(e.payload.error, chat.shown)
    else if e.name == "content" || e.name == "done"
    then Reading(e.payload.content, chat.finished || e.name == "done", chat.shown + [e.payload.content])
    else chat
  }

  function ReceiveAll(chat: Chat, events: seq<Said>): Chat
    decreases |events|
  {
    if |events| == 0 then chat else ReceiveAll(Receive(chat, events[0]), events[1..])
  }

  lemma {:induction false} BodiesAreReceived(chat: Chat, events: seq<Said>,
                                             encode: Payload -> string, decode: string -> Option<Payload>)
    requires Sendable(events, encode, decode)
    ensures HandleAll(chat, Bodies(events, encode), decode) == ReceiveAll(chat, events)
    decreases |events|
  {
    hide Match, Body, OneLine;
    if |events| > 0 {
      var e := events[0];
      assert e in events && forall x :: x in events[1..] ==> x in events;
      NameIsMatched(e.name, encode(e.payload));
      DataIsMatched(e.name, encode(e.payload));
      var bodies := Bodies(events, encode);
      assert bodies[1..] == Bodies(events[1..], encode);
      BodiesAreReceived(Receive(chat, e), events[1..], encode, decode);
    }
  }

  /** Parsing what the server prints returns the original events, for every chunking. */
  lemma PrintedEventsAreReceived(events: seq<Said>, chunks: seq<string>,
                                 encode: Payload -> string, decode: string -> Option<Payload>)
    requires Sendable(events, encode, decode) && Concat(chunks) == Printed(events, encode)
    ensures HandleAll(OPENING, Frame(Concat(chunks)).blocks, decode) == ReceiveAll(OPENING, events)
  {
    PrintedFrames(events, encode, decode);
    BodiesAreReceived(OPENING, events, encode, decode);
  }

  // ---- complete and interrupted answers ----

  function Contents(texts: seq<string>): seq<Said> {
    if |texts| == 0 then [] else [Said("content", Payload(texts[0], ""))] + Contents(texts[1..])
  }

  /** A successful answer: a status, the growing content, the final text. */
  function Answer(texts: seq<string>, answer: string): seq<Said> {
    [Said("status", Payload("", ""))] + (Contents(texts) + [Said("done", Payload(answer, ""))])
  }

  lemma {:induction false} ContentsAreReceived(chat: Chat, texts: seq<string>, more: seq<Said>)
    requires chat.Reading?
    ensures ReceiveAll(chat, Contents(texts) + more)
         == ReceiveAll(Reading(if |texts| == 0 then chat.result else texts[|texts| - 1], chat.finished,
                                chat.shown + texts), more)
    decreases |texts|
  {
    var all := Contents(texts) + more;
    if |texts| == 0 {
      assert all == more && chat.shown + texts == chat.shown;
    } else {
      assert all[1..] == Contents(texts[1..]) + more;
      ContentsAreReceived(Receive(chat, all[0]), texts[1..], more);
      assert chat.shown + [texts[0]] + texts[1..] == chat.shown + texts;
    }
  }

  /** The client ends with the server's final text, having shown every step once. */
  lemma AnswerIsDelivered(texts: seq<string>, answer: string, chunks: seq<string>,
                          encode: Payload -> string, decode: string -> Option<Payload>)
    requires Sendable(Answer(texts, answer), encode, decode)
    requires Concat(chunks) == Printed(Answer(texts, answer), encode)
    ensures HandleAll(OPENING, Frame(Concat(chunks)).blocks, decode) == Reading(answer, true, texts + [answer])
  {
    var events := Answer(texts, answer);
    PrintedEventsAreReceived(events, chunks, encode, decode);
    var more := [Said("done", Payload(answer, ""))];
    assert events[1..] == Contents(texts) + more;
    assert ReceiveAll(OPENING, events) == ReceiveAll(OPENING, events[1..]);
    ContentsAreReceived(OPENING, texts, more);
    assert [] + texts == texts;
    hide Printed, Frame, HandleAll, Contents;
    assert more[1..] == [];
  }

  /** A failed answer: a status, the growing content, and the error. */
  function Failure(texts: seq<string>, message: string): seq<Said> {
    [Said("status", Payload("", ""))] + (Contents(texts) + [Said("error", Payload("", message))])
  }

  /** The client ends with the server's error, having shown every step before it once. */
  lemma ErrorIsDelivered(texts: seq<string>, message: string, chunks: seq<string>,
                         encode: Payload -> string, decode: string -> Option<Payload>)
    requires Sendable(Failure(texts, message), encode, decode)
    requires Concat(chunks) == Printed(Failure(texts, message), encode)
    ensures HandleAll(OPENING, Frame(Concat(chunks)).blocks, decode) == Thrown(message, texts)
  {
    var events := Failure(texts, message);
    PrintedEventsAreReceived(events, chunks, encode, decode);
    var more := [Said("error", Payload("", message))];
    assert events[1..] == Contents(texts) + more;
    assert ReceiveAll(OPENING, events) == ReceiveAll(OPENING, events[1..]);
    ContentsAreReceived(OPENING, texts, more);
    assert [] + texts == texts;
    hide Printed, Frame, HandleAll, Contents;
    assert more[1..] == [];
  }

  /** Data that does not parse ends the stream with an error, whatever the event's name. */
  lemma MalformedDataIsThrown(chat: Chat, name: string, data: string, decode: string -> Option<Payload>)
    requires chat.Reading? && EventName(name) && OneLine(data) && decode(data).None?
    ensures Handle(chat, Body(name, data), decode) == Thrown("invalid JSON", chat.shown)
  {
    DataIsMatched(name, data);
    hide Match, Body;
  }

  lemma {:induction false} NothingFinishesEarly(chat: Chat, events: seq<Said>)
    requires chat.Reading? ==> !chat.finished
    requires forall e :: e in events ==> e.name != "done"
    ensures var c := ReceiveAll(chat, events); c.Reading? ==> !c.finished
    decreases |events|
  {
    if |events| > 0 {
      assert events[0] in events && forall e :: e in events[1..] ==> e in events;
      NothingFinishesEarly(Receive(chat, events[0]), events[1..]);
    }
  }

  lemma {:induction false} BodiesOfPrefix(events: seq<Said>, encode: Payload -> string, k: nat)
    requires k <= |Bodies(events, encode)|
    ensures |Bodies(events, encode)| == |events| && Bodies(events, encode)[..k] == Bodies(events[..k], encode)
    decreases |events|
  {
    hide Body;
    if |events| > 0 && k > 0 {
      BodiesOfPrefix(events[1..], encode, k - 1);
      assert events[..k][1..] == events[1..][..k - 1] && events[..k][0] == events[0];
    } else if |events| > 0 {
      BodiesOfPrefix(events[1..], encode, 0);
      assert Bodies(events, encode)[..0] == [] && events[..0] == [];
    }
  }

  /** Of a stream cut off before its end, fewer blocks arrive than were printed. */
  lemma BlocksOfPrefix(events: seq<Said>, received: string, lost: string,
                       encode: Payload -> string, decode: string -> Option<Payload>)
    requires Sendable(events, encode, decode) && received + lost == Printed(events, encode) && lost != ""
    ensures var k := |Frame(received).blocks|;
      k < |events| && Frame(received).blocks == Bodies(events[..k], encode)
  {
    PrintedFrames(events, encode, decode);
    FramingContinues(received, lost);
    hide Frame, Printed, HasSeparator, FirstCut, Body, Sendable, Reassembled;
    var f := Frame(received);
    var rest := Frame(f.buffer + lost);
    BodiesOfPrefix(events, encode, 0);
    assert Bodies(events, encode) == f.blocks + rest.blocks && rest.buffer == "";
    BodiesOfPrefix(events, encode, |f.blocks|);
    SomethingIsFramed(f.buffer + lost);
  }

  lemma SomethingIsFramed(text: string)
    requires text != ""
    ensures Frame(text).blocks != [] || Frame(text).buffer != ""
  {
    FramingLosesNothing(text);
    hide Frame, HasSeparator;
  }

  /** A stream cut off anywhere before its end never counts as finished. */
  lemma InterruptedIsNotFinished(events: seq<Said>, last: Said, received: string, lost: string,
                                 encode: Payload -> string, decode: string -> Option<Payload>)
    requires Sendable(events + [last], encode, decode) && forall e :: e in events ==> e.name != "done"
    requires received + lost == Printed(events + [last], encode) && lost != ""
    ensures var c := HandleAll(OPENING, Frame(received).blocks, decode); c.Reading? ==> !c.finished
  {
    var all := events + [last];
    BlocksOfPrefix(all, received, lost, encode, decode);
    hide Frame, Printed, HandleAll, ReceiveAll;
    var k := |Frame(received).blocks|;
    assert all[..k] == events[..k];
    BodiesAreReceived(OPENING, events[..k], encode, decode);
    NothingFinishesEarly(OPENING, events[..k]);
  }
}
