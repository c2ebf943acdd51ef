/**
 * The button-map report in both directions: every action the encoder
 * writes for a button reads back as that action, the report holds the
 * header and twenty 4-byte slots, and the decoder's slot errors.
 */
module ButtonCodec {
  import opened Wire
  import opened Device
  import opened ButtonMap
  import opened Decode
  import opened Encode
  import opened Codec

  /** A signed byte and its two's-complement byte determine each other. */
  lemma ScrollRoundTrip(x: I8, b: bv8)
    ensures ScrollFromByte(ScrollByte(x)) == x
    ensures ScrollByte(ScrollFromByte(b)) == b
  {
    ByteInjective(ScrollByte(ScrollFromByte(b)), b);
  }

  /** The three low bytes of a 24-bit value, high byte first. */
  function MediaBytes(x: bv32): seq<bv8>
  {
    [((x >> 16) & 0xff) as bv8, ((x >> 8) & 0xff) as bv8, (x & 0xff) as bv8]
  }

  /** A value below 2^24 survives being split into three bytes and joined again. */
  lemma MediaRoundTrip(x: bv32, b0: bv8, b1: bv8, b2: bv8)
    ensures x < 0x100_0000 ==> Media24(MediaBytes(x)[0], MediaBytes(x)[1], MediaBytes(x)[2]) == x
    ensures MediaBytes(Media24(b0, b1, b2)) == [b0, b1, b2]
    ensures ActionBytes(MediaButton(x)) == [0x22] + MediaBytes(x)
  {
  }

  /**
   * The actions the decoder can give back: a media-key value must fit the
   * three bytes of its slot and be a defined flag combination.
   */
  predicate ActionEncodable(a: ButtonAction, mediaBits: bv32)
  {
    match a
    case MediaButton(x) => x < 0x100_0000 && IsDefinedMedia(x, mediaBits)
    case _ => true
  }

  /** An action whose slot bytes are its fields as they are reads back. */
  lemma PlainActionRoundTrip(inp: seq<bv8>, at: nat, a: ButtonAction, mediaBits: bv32)
    requires a.MouseButton? || a.RepeatButton? || a.KeyboardShortcut? || a.Disabled?
    requires at + 4 <= |inp| && inp[at..at + 4] == ActionBytes(a)
    ensures ParseButtonAction(inp, at, mediaBits) == Ok((a, at + 4))
  {
    SlotBytes(inp, at, ActionBytes(a));
  }

  /** The four bytes of a slot from `at` on. */
  lemma SlotBytes(inp: seq<bv8>, at: nat, bs: seq<bv8>)
    requires at + 4 <= |inp| && |bs| == 4 && inp[at..at + 4] == bs
    ensures inp[at] == bs[0] && inp[at + 1] == bs[1] && inp[at + 2] == bs[2] && inp[at + 3] == bs[3]
  {
    assert inp[at..at + 4][0] == inp[at] && inp[at..at + 4][1] == inp[at + 1];
    assert inp[at..at + 4][2] == inp[at + 2] && inp[at..at + 4][3] == inp[at + 3];
  }

  lemma DpiSwitchActionRoundTrip(inp: seq<bv8>, at: nat, sw: DpiSwitch, mediaBits: bv32)
    requires at + 4 <= |inp| && inp[at..at + 4] == ActionBytes(DpiSwitch(sw))
    ensures ParseButtonAction(inp, at, mediaBits) == Ok((DpiSwitch(sw), at + 4))
  {
    SlotBytes(inp, at, ActionBytes(DpiSwitch(sw)));
  }

  lemma MacroActionRoundTrip(inp: seq<bv8>, at: nat, bank: bv8, mode: MacroMode, mediaBits: bv32)
    requires at + 4 <= |inp| && inp[at..at + 4] == ActionBytes(Macro(bank, mode))
    ensures ParseButtonAction(inp, at, mediaBits) == Ok((Macro(bank, mode), at + 4))
  {
    SlotBytes(inp, at, ActionBytes(Macro(bank, mode)));
  }

  lemma ScrollActionRoundTrip(inp: seq<bv8>, at: nat, x: I8, mediaBits: bv32)
    requires at + 4 <= |inp| && inp[at..at + 4] == ActionBytes(Scroll(x))
    ensures ParseButtonAction(inp, at, mediaBits) == Ok((Scroll(x), at + 4))
  {
    SlotBytes(inp, at, ActionBytes(Scroll(x)));
    ScrollRoundTrip(x, 0);
  }

  lemma DpiLockActionRoundTrip(inp: seq<bv8>, at: nat, d: Dpi, mediaBits: bv32)
    requires at + 4 <= |inp| && inp[at..at + 4] == ActionBytes(DpiLock(d))
    ensures ParseButtonAction(inp, at, mediaBits) == Ok((DpiLock(d), at + 4))
  {
    SlotBytes(inp, at, ActionBytes(DpiLock(d)));
    DpiRoundTrip(d, DpiEncode(d));
  }

  lemma MediaActionRoundTrip(inp: seq<bv8>, at: nat, x: bv32, mediaBits: bv32)
    requires x < 0x100_0000 && IsDefinedMedia(x, mediaBits)
    requires at + 4 <= |inp| && inp[at..at + 4] == ActionBytes(MediaButton(x))
    ensures ParseButtonAction(inp, at, mediaBits) == Ok((MediaButton(x), at + 4))
  {
    SlotBytes(inp, at, ActionBytes(MediaButton(x)));
    MediaBytesAt(inp, at + 1, x);
    MediaSlot(inp, at, x, mediaBits);
  }

  /** The three bytes the encoder writes for a value below 2^24 join to that value. */
  lemma MediaBytesAt(inp: seq<bv8>, at: nat, x: bv32)
    requires x < 0x100_0000 && at + 3 <= |inp|
    requires inp[at] == ((x >> 16) & 0xff) as bv8 && inp[at + 1] == ((x >> 8) & 0xff) as bv8
    requires inp[at + 2] == (x & 0xff) as bv8
    ensures Media24(inp[at], inp[at + 1], inp[at + 2]) == x
  {
    MediaRoundTrip(x, 0, 0, 0);
  }

  /** A media slot holding a defined value reads back as that media button. */
  lemma MediaSlot(inp: seq<bv8>, at: nat, x: bv32, mediaBits: bv32)
    requires at + 4 <= |inp| && inp[at] == 0x22
    requires Media24(inp[at + 1], inp[at + 2], inp[at + 3]) == x && IsDefinedMedia(x, mediaBits)
    ensures ParseButtonAction(inp, at, mediaBits) == Ok((MediaButton(x), at + 4))
  {
  }

  /** Every action the encoder writes into a slot reads back as that action, using the four bytes. */
  lemma ActionRoundTrip(inp: seq<bv8>, at: nat, a: ButtonAction, mediaBits: bv32)
    requires At(inp, at, ActionBytes(a)) && ActionEncodable(a, mediaBits)
    ensures ParseButtonAction(inp, at, mediaBits) == Ok((a, at + 4))
  {
    AtSlice(inp, at, ActionBytes(a));
    match a {
      case Scroll(x) => ScrollActionRoundTrip(inp, at, x, mediaBits);
      case DpiLock(d) => DpiLockActionRoundTrip(inp, at, d, mediaBits);
      case MediaButton(x) => MediaActionRoundTrip(inp, at, x, mediaBits);
      case DpiSwitch(sw) => DpiSwitchActionRoundTrip(inp, at, sw, mediaBits);
      case Macro(bank, mode) => MacroActionRoundTrip(inp, at, bank, mode, mediaBits);
      case _ => PlainActionRoundTrip(inp, at, a, mediaBits);
    }
  }

  /** Slots written one after the other read back as the same actions. */
  lemma {:induction false} ActionsRoundTrip(inp: seq<bv8>, at: nat, actions: seq<ButtonAction>, mediaBits: bv32)
    requires At(inp, at, Flatten(actions, ActionBytes))
    requires AllEncodable(actions, mediaBits)
    ensures at <= |inp|
    ensures ParseButtonActions(inp, at, |actions|, mediaBits) == Ok((actions, at + 4 * |actions|))
    decreases |actions|
  {
    if |actions| > 0 {
      ActionsHead(inp, at, actions, mediaBits);
      ActionsRoundTrip(inp, at + 4, actions[1..], mediaBits);
      ActionsStep(inp, at, actions, mediaBits);
    }
  }

  /** The first slot of a run reads back as its action, and the rest of the run follows it. */
  lemma ActionsHead(inp: seq<bv8>, at: nat, actions: seq<ButtonAction>, mediaBits: bv32)
    requires 0 < |actions| && At(inp, at, Flatten(actions, ActionBytes))
    requires AllEncodable(actions, mediaBits)
    ensures at + 4 <= |inp|
    ensures ParseButtonAction(inp, at, mediaBits) == Ok((actions[0], (at + 4) as nat))
    ensures At(inp, at + 4, Flatten(actions[1..], ActionBytes)) && AllEncodable(actions[1..], mediaBits)
  {
    AtFlattenHead(inp, at, actions, ActionBytes);
    AllEncodableTail(actions, mediaBits);
    ActionRoundTrip(inp, at, actions[0], mediaBits);
  }

  /** Every action of the run can be written and read back. */
  predicate AllEncodable(actions: seq<ButtonAction>, mediaBits: bv32)
  {
    forall i :: 0 <= i < |actions| ==> ActionEncodable(actions[i], mediaBits)
  }

  lemma AllEncodableTail(actions: seq<ButtonAction>, mediaBits: bv32)
    requires 0 < |actions| && AllEncodable(actions, mediaBits)
    ensures ActionEncodable(actions[0], mediaBits) && AllEncodable(actions[1..], mediaBits)
  {
    forall i | 0 <= i < |actions| - 1 ensures ActionEncodable(actions[1..][i], mediaBits) {
      assert actions[1..][i] == actions[i + 1];
    }
  }

  /** A run of slots is its first slot followed by the rest. */
  lemma ActionsStep(inp: seq<bv8>, at: nat, actions: seq<ButtonAction>, mediaBits: bv32)
    requires 0 < |actions| && at + 4 <= |inp|
    requires ParseButtonAction(inp, at, mediaBits) == Ok((actions[0], (at + 4) as nat))
    requires ParseButtonActions(inp, at + 4, |actions[1..]|, mediaBits) == Ok((actions[1..], at + 4 + 4 * |actions[1..]|))
    ensures ParseButtonActions(inp, at, |actions|, mediaBits) == Ok((actions, at + 4 * |actions|))
  {
    assert [actions[0]] + actions[1..] == actions;
  }

  /** The slot that pads the map, and that a disabled button gets. */
  const DisabledSlot: seq<bv8> := [0x50, 0x01, 0x00, 0x00]

  /** Slot `k` of the button-map content. */
  function Slot(content: seq<bv8>, k: nat): seq<bv8>
    requires 8 + 4 * k + 4 <= |content|
  {
    content[8 + 4 * k .. 8 + 4 * k + 4]
  }

  /** Slot `k` of a header, six slots and fourteen more lies in the six or in the fourteen. */
  lemma SlotInParts(header: seq<bv8>, first: seq<bv8>, rest: seq<bv8>, k: nat)
    requires |header| == 8 && |first| == 24 && |rest| == 56 && k < 20
    ensures k < 6 ==> Slot(header + first + rest, k) == first[4 * k .. 4 * k + 4]
    ensures 6 <= k ==> Slot(header + first + rest, k) == rest[4 * (k - 6) .. 4 * (k - 6) + 4]
  {
    var content := header + first + rest;
    if k < 6 {
      assert content[8..32] == first;
      assert Slot(content, k) == content[8..32][4 * k .. 4 * k + 4];
    } else {
      assert content[32..] == rest;
      assert Slot(content, k) == content[32..][4 * (k - 6) .. 4 * (k - 6) + 4];
    }
  }

  /** Bytes `k * i` to `k * i + k` of a flattening with `k` bytes per element are element `i`'s. */
  lemma FlattenElement<T>(s: seq<T>, f: T -> seq<bv8>, k: nat, i: nat)
    requires forall x :: x in s ==> |f(x)| == k
    requires i < |s|
    ensures |Flatten(s, f)| == k * |s| && k * i + k <= k * |s|
    ensures Flatten(s, f)[k * i .. k * i + k] == f(s[i])
  {
    FlattenLengthIn(s, f, k);
    MulStep(k, |s| - i);
    assert k * (|s| - i) == k * |s| - k * i;
    forall j | 0 <= j < k
      ensures Flatten(s, f)[k * i .. k * i + k][j] == f(s[i])[j]
    {
      FlattenIndex(s, f, k, i, j);
    }
  }

  /**
   * The button-map content is 88 bytes: the fixed header, then twenty
   * slots, the first six holding the mapping's actions and the other
   * fourteen disabled.
   */
  lemma ButtonmapLayout(m: ButtonMapping)
    ensures |ButtonmapContent(m)| == 8 + 4 * ButtonmapSlots == 88
    ensures ButtonmapContent(m)[..8] == [0x04, 0x12, 0x00, 0x00, 0x00, 0x00, 0x06, 0x00]
    ensures forall k :: 0 <= k < 6 ==> Slot(ButtonmapContent(m), k) == ActionBytes(m[k])
    ensures forall k :: 6 <= k < ButtonmapSlots ==> Slot(ButtonmapContent(m), k) == DisabledSlot
  {
    var content := ButtonmapContent(m);
    var pads := seq(ButtonmapSlots - |m|, _ => Disabled);
    var actions := Flatten(m, ActionBytes);
    var padding := Flatten(pads, ActionBytes);
    FlattenLength(m, ActionBytes, 4);
    FlattenLength(pads, ActionBytes, 4);
    assert content == ButtonmapHeader + actions + padding;
    forall k | 0 <= k < 6
      ensures Slot(content, k) == ActionBytes(m[k])
    {
      FlattenElement(m, ActionBytes, 4, k);
      SlotInParts(ButtonmapHeader, actions, padding, k);
    }
    forall k | 6 <= k < ButtonmapSlots
      ensures Slot(content, k) == DisabledSlot
    {
      FlattenElement(pads, ActionBytes, 4, k - 6);
      SlotInParts(ButtonmapHeader, actions, padding, k);
    }
  }

  /**
   * Decoding the button-map report the encoder writes gives back the
   * mapping, reading exactly the header and the first six slots.
   */
  lemma ButtonmapRoundTrip(m: ButtonMapping, mediaBits: bv32)
    requires AllEncodable(m, mediaBits)
    ensures |ButtonmapContent(m)| == 88
    ensures ParseButtonmap(Padded(ButtonmapContent(m)), mediaBits) == Ok((m, 32))
  {
    var pads := seq(ButtonmapSlots - |m|, _ => Disabled);
    var actions := Flatten(m, ActionBytes);
    var padding := Flatten(pads, ActionBytes);
    FlattenLength(m, ActionBytes, 4);
    FlattenLength(pads, ActionBytes, 4);
    var content := ButtonmapContent(m);
    assert content == ButtonmapHeader + actions + padding;
    var inp := Padded(content);
    AtPadded(content);
    AtAppend(inp, 0, ButtonmapHeader + actions, padding);
    AtAppend(inp, 0, ButtonmapHeader, actions);
    ActionsRoundTrip(inp, 8, m, mediaBits);
  }

  /**
   * The source's decoder loses the key of every shortcut the encoder
   * writes: it reads back as key 0, so no shortcut with a key reads back.
   */
  lemma ShortcutKeyLost(m: Modifiers, k: bv8)
    ensures ParseShortcutAsWritten(ActionBytes(KeyboardShortcut(m, k)), 0) == Ok((KeyboardShortcut(m, 0), 4))
    ensures k != 0 ==> ParseShortcutAsWritten(ActionBytes(KeyboardShortcut(m, k)), 0) != Ok((KeyboardShortcut(m, k), 4))
  {
  }

  /** The encodings the protocol fixes for a few actions. */
  lemma ActionEncodingExamples(bank: bv8, c: bv8)
    ensures ActionBytes(DpiSwitch(Up)) == [0x41, 0x01, 0x00, 0x00]
    ensures ActionBytes(Macro(bank, Burst(c))) == [0x70, bank, 0x01, c]
    ensures ActionBytes(Macro(bank, RepeatUntilRelease)) == [0x70, bank, 0x04, 0x01]
    ensures ActionBytes(Disabled) == DisabledSlot
  {
  }

  /** Which error a malformed slot gives. */
  lemma SlotErrors(inp: seq<bv8>, at: nat, mediaBits: bv32)
    requires at + 4 <= |inp|
    ensures !KnownActionTag(inp[at]) ==> ParseButtonAction(inp, at, mediaBits) == Err(UnknownActionTag)
    ensures inp[at] == 0x11 && inp[at + 1] & !MouseButtonBits != 0 ==>
      ParseButtonAction(inp, at, mediaBits) == Err(UnknownMouseButton)
    ensures inp[at] == 0x41 && inp[at + 1] > 2 ==> ParseButtonAction(inp, at, mediaBits) == Err(UnknownDpiSwitch)
    ensures inp[at] == 0x22 && !IsDefinedMedia(Media24(inp[at + 1], inp[at + 2], inp[at + 3]), mediaBits) ==>
      ParseButtonAction(inp, at, mediaBits) == Err(UnknownMediaBitmask)
    ensures inp[at] == 0x21 && inp[at + 1] & !ModifierBits != 0 ==>
      ParseButtonAction(inp, at, mediaBits) == Err(UnknownModifier)
    ensures inp[at] == 0x70 && !(inp[at + 2] == 1 || inp[at + 2] == 2 || inp[at + 2] == 4) ==>
      ParseButtonAction(inp, at, mediaBits) == Err(UnknownMacroMode)
  {
  }
}
