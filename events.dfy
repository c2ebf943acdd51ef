/**
 * Macro events in both directions: an event the encoder writes reads back
 * with its duration cut to 12 bits, every event the decoder accepts is
 * written back byte for byte, and a bank record reads back its events.
 */
module EventCodec {
  import opened Wire
  import opened Device
  import opened Macros
  import opened Decode
  import opened Encode
  import opened Codec

  /** The first byte of an event carries the state, the type and the top of the duration, each in its own bits. */
  lemma HeadBits(up: bv8, typ: bv8, hi: bv8)
    requires up <= 1 && typ < 8
    ensures var b := (up << 7) | (typ << 4) | (hi & 0xf);
      && b >> 7 == up && (b >> 4) & 7 == typ && b & 0xf == hi & 0xf
      && (b & 0x80 != 0 <==> up == 1)
  {
  }

  /** A first byte is put together again from its state bit, its type and its low nibble. */
  lemma HeadParts(b0: bv8, b1: bv8)
    ensures var d := (((b0 & 0xf) as bv16) << 8) | (b1 as bv16);
      && ((if b0 & 0x80 != 0 then 1 << 7 else 0 << 7) | (((b0 >> 4) & 7) << 4) | (((d >> 8) as bv8) & 0xf)) == b0
      && (d & 0xff) as bv8 == b1
  {
  }

  /** The 12-bit duration is the low nibble of the high byte followed by the low byte. */
  lemma DurationBits(d: bv16)
    ensures (((((d >> 8) as bv8) & 0xf) as bv16) << 8) | (((d & 0xff) as bv8) as bv16) == d & 0xfff
  {
  }

  /** The code of an event's type is set exactly as the decoder expects, and a code of that type passes. */
  lemma TypeCodes(t: EventType)
    ensures var c := EventTypeCode(t);
      && c < 8
      && (t.Mouse? <==> c == 1) && (t.Keyboard? <==> c == 5) && (t.Modifier? <==> c == 6)
  {
  }

  /** What each bit of an event's three bytes holds. */
  lemma EventBytesFields(e: Event)
    ensures var bs := EventBytes(e);
      && |bs| == 3
      && (bs[0] & 0x80 != 0 <==> e.state == Up)
      && (bs[0] >> 4) & 7 == EventTypeCode(e.evtype)
      && (((bs[0] & 0xf) as bv16) << 8) | (bs[1] as bv16) == e.duration & 0xfff
      && bs[2] == EventCode(e.evtype)
  {
    var typ := EventTypeCode(e.evtype);
    TypeCodes(e.evtype);
    var up: bv8 := if e.state == Up then 1 else 0;
    HeadBits(up, typ, (e.duration >> 8) as bv8);
    assert (if e.state == Up then 1 << 7 else 0 << 7) == up << 7;
    DurationBits(e.duration);
  }

  /** An event type is fixed by its kind and its code. */
  lemma EventTypeDetermined(t: EventType, u: EventType)
    requires EventTypeCode(t) == EventTypeCode(u) && EventCode(t) == EventCode(u)
    ensures t == u
  {
  }

  /** An event the encoder writes reads back, with only the low 12 bits of its duration kept. */
  lemma EventRoundTrip(inp: seq<bv8>, at: nat, e: Event)
    requires At(inp, at, EventBytes(e))
    ensures ParseEvent(inp, at) == Ok((e.(duration := e.duration & 0xfff), at + 3))
  {
    var bs := EventBytes(e);
    EventBytesFields(e);
    AtIndex(inp, at, bs, 0);
    AtIndex(inp, at, bs, 1);
    AtIndex(inp, at, bs, 2);
    EventDecode(inp, at, e);
  }

  /** Three bytes whose bits hold an event's fields decode to that event, its duration cut to 12 bits. */
  lemma EventDecode(inp: seq<bv8>, at: nat, e: Event)
    requires at + 3 <= |inp|
    requires inp[at] & 0x80 != 0 <==> e.state == Up
    requires (inp[at] >> 4) & 7 == EventTypeCode(e.evtype)
    requires (((inp[at] & 0xf) as bv16) << 8) | (inp[at + 1] as bv16) == e.duration & 0xfff
    requires inp[at + 2] == EventCode(e.evtype)
    ensures ParseEvent(inp, at) == Ok((e.(duration := e.duration & 0xfff), at + 3))
  {
    TypeCodes(e.evtype);
    assert ValidEventRecord(inp, at);
    var r := ParseEvent(inp, at).value.0;
    TypeCodes(r.evtype);
    EventTypeDetermined(r.evtype, e.evtype);
  }

  /** Every event record the decoder accepts is exactly what the encoder writes for the event it gives. */
  lemma EventReencode(inp: seq<bv8>, at: nat)
    requires ParseEvent(inp, at).Ok?
    ensures at + 3 <= |inp|
    ensures EventBytes(ParseEvent(inp, at).value.0) == inp[at..at + 3]
  {
    var e := ParseEvent(inp, at).value.0;
    var bs := EventBytes(e);
    EventBytesFields(e);
    HeadParts(inp[at], inp[at + 1]);
    TypeCodes(e.evtype);
    assert bs[0] == inp[at];
    assert bs[1] == inp[at + 1];
  }

  /** Which records the decoder refuses, and with which error. */
  lemma EventErrors(inp: seq<bv8>, at: nat)
    requires at + 3 <= |inp|
    ensures var typ := (inp[at] >> 4) & 7;
      !(typ == 1 || typ == 5 || typ == 6) ==> ParseEvent(inp, at) == Err(UnknownEventType)
    ensures (inp[at] >> 4) & 7 == 1 && inp[at + 2] & !MouseButtonBits != 0 ==>
      ParseEvent(inp, at) == Err(UnknownMouseButton)
    ensures (inp[at] >> 4) & 7 == 6 && inp[at + 2] & !ModifierBits != 0 ==>
      ParseEvent(inp, at) == Err(UnknownModifier)
  {
  }

  /** The durations fit the 12 bits an event record has for them. */
  predicate DurationsFit(es: seq<Event>)
  {
    forall i :: 0 <= i < |es| ==> es[i].duration < 4096
  }

  /** A run of events is its first event followed by the rest. */
  lemma EventsStep(inp: seq<bv8>, at: nat, es: seq<Event>)
    requires 0 < |es| && at + 3 <= |inp|
    requires ParseEvent(inp, at) == Ok((es[0], (at + 3) as nat))
    requires ParseEvents(inp, at + 3, |es[1..]|) == Ok((es[1..], at + 3 + 3 * |es[1..]|))
    ensures ParseEvents(inp, at, |es|) == Ok((es, at + 3 * |es|))
  {
    assert [es[0]] + es[1..] == es;
  }

  /** The first record of a run reads back as its event, and the rest of the run follows it. */
  lemma EventsHead(inp: seq<bv8>, at: nat, es: seq<Event>)
    requires 0 < |es| && At(inp, at, Flatten(es, EventBytes)) && DurationsFit(es)
    ensures at + 3 <= |inp|
    ensures ParseEvent(inp, at) == Ok((es[0], (at + 3) as nat))
    ensures At(inp, at + 3, Flatten(es[1..], EventBytes)) && DurationsFit(es[1..])
  {
    AtFlattenHead(inp, at, es, EventBytes);
    DurationsFitTail(es);
    FittingEventRoundTrip(inp, at, es[0]);
  }

  /** An event whose duration fits 12 bits reads back unchanged. */
  lemma FittingEventRoundTrip(inp: seq<bv8>, at: nat, e: Event)
    requires At(inp, at, EventBytes(e)) && e.duration < 4096
    ensures ParseEvent(inp, at) == Ok((e, at + 3))
  {
    EventRoundTrip(inp, at, e);
    assert e.duration & 0xfff == e.duration;
  }

  lemma DurationsFitTail(es: seq<Event>)
    requires 0 < |es| && DurationsFit(es)
    ensures es[0].duration < 4096 && DurationsFit(es[1..])
  {
    forall i | 0 <= i < |es| - 1 ensures es[1..][i].duration < 4096 {
      assert es[1..][i] == es[i + 1];
    }
  }

  /** Events written one after the other read back as the same events. */
  lemma {:induction false} EventsRoundTrip(inp: seq<bv8>, at: nat, es: seq<Event>)
    requires At(inp, at, Flatten(es, EventBytes)) && DurationsFit(es)
    ensures at <= |inp|
    ensures ParseEvents(inp, at, |es|) == Ok((es, at + 3 * |es|))
    decreases |es|
  {
    if |es| > 0 {
      EventsHead(inp, at, es);
      EventsRoundTrip(inp, at + 3, es[1..]);
      EventsStep(inp, at, es);
    }
  }

  /**
   * A macro-bank record laid out as the decoder reads it: any eight header
   * bytes, the bank number, a reserved byte, the event count and the
   * events.
   */
  function MacroRecord(header: seq<bv8>, bank: bv8, reserved: bv8, es: seq<Event>): seq<bv8>
    requires |es| < 256
  {
    header + [bank, reserved, ByteOf(|es|)] + Flatten(es, EventBytes)
  }

  /** The bytes after a prefix sit right after it. */
  lemma AtSuffix(a: seq<bv8>, b: seq<bv8>)
    ensures At(a + b, |a|, b)
  {
    forall j | 0 <= j < |b| ensures (a + b)[|a| + j] == b[j] {
    }
  }

  /** The decoder's steps on a bank record whose events are known to read back. */
  lemma MacroDecodeSteps(inp: seq<bv8>, bank: bv8, es: seq<Event>)
    requires 11 <= |inp| && inp[8] == bank && inp[10] as nat == |es|
    requires ParseEvents(inp, 11, |es|) == Ok((es, 11 + 3 * |es|))
    ensures ParseMacro(inp) == Ok((Macro(bank, es), 11 + 3 * |es|))
  {
  }

  /** A bank record of at most 255 events reads back as the bank and its events. */
  lemma MacroRoundTrip(header: seq<bv8>, bank: bv8, reserved: bv8, es: seq<Event>)
    requires |header| == 8 && |es| < 256 && DurationsFit(es)
    ensures ParseMacro(MacroRecord(header, bank, reserved, es)) == Ok((Macro(bank, es), 11 + 3 * |es|))
  {
    var count := ByteOf(|es|);
    var pre := header + [bank, reserved, count];
    var events := Flatten(es, EventBytes);
    var inp := MacroRecord(header, bank, reserved, es);
    assert inp == pre + events;
    assert inp[8] == bank && inp[10] == count;
    AtSuffix(pre, events);
    EventsRoundTrip(inp, 11, es);
    MacroDecodeSteps(inp, bank, es);
  }
}
