# gloryctl configuration codec, in Dafny

This project models the codec with which gloryctl talks to the Glorious
Model O mouse. The codec turns the device's fixed 520-byte feature reports
into typed values and back. It has four parts:

- The **configuration report**, 131 bytes of content:
  - a 9-byte opaque header and the sensor id;
  - two nibble-packed bytes: axis independence with the polling rate, and the current profile with the profile count;
  - the inverted enable mask, the 16-byte DPI region and eight profile colours (R,G,B);
  - the effect selector and the ten effect-parameter blocks (colours R,B,G), with a 12-byte opaque gap after the constant-RGB block;
  - the lift-off distance and a trailer byte.
- The **button-map report**: an 8-byte header and twenty 4-byte tagged slots. The decoder reads the first six.
- **Macro events**: three bytes each. They hold a state bit, a 3-bit type, a 12-bit duration and a code byte. A macro-bank record holds the bank, a reserved byte, a count and that many events.
- The zero-padding **byte buffer** the encoder writes into, and the derived-field normaliser `fix_profile_count`.

Modules:
- `Wire` (wire.dfy): bytes and errors, padding to 520 bytes, primitive readers, nibbles and `Flatten`.
- `Device`, `Rgb`, `Params`, `ButtonMap`, `Macros` (device.dfy): the data model and the closed enums with their codes.
- `DeviceConfig` (config.dfy): the configuration, its derived fields and their normalisers.
- `Decode` (decode.dfy): the decoder. Every parser is a pure function over `seq<bv8>` and a position. It returns the value and the next position, or an `Error`.
- `Encode` (encode.dfy): the encoder. A `ByteBuffer` class holds a growing `seq<bv8>`. Every `put` is a method that appends to it, and the loops carry their invariants. Specification functions (`ConfigContent`, `ActionBytes`, `EventBytes`, …) give the bytes each method appends.
- `Codec` (codec.dfy): the round trip of the configuration report, with the parameter blocks and the DPI profiles.
- `ButtonCodec` (buttons.dfy) and `EventCodec` (events.dfy): the round trips of the button map and the macro events.
- `Reports` (reports.dfy): `from_raw`/`to_raw`, what every decoded configuration looks like, and the normalisation of the derived fields.

Three choices follow the code as written, where a reader might expect otherwise:
- The encoder writes the derived fields as stored; it does not recompute them.
- The colour lists are fixed-capacity vectors. The encoder writes as many colours as a list holds, and the decoder always reads a full list.
- The source's decoder reads `config_report` as one chain of steps. The model groups that chain into `ParseDpiSettings` (bytes 10–52) and `ParseLighting` (bytes 53–128). The bytes are read in the same order, and the same failures occur.

## Model

| member | source | states |
|---|---|---|
| Wire.Padded | src/protocol/encode.rs:26-35 | the report starts with the content and is zero after it, 520 bytes in all |
| Wire.Take | src/protocol/decode.rs:234 | reading `n` bytes succeeds exactly when they are there, and gives those bytes and the position after them |
| Wire.Pack | src/protocol/encode.rs:125-126 | a byte packed from two nibbles below 16 gives them back as its high and low nibble |
| Device.PollingRateFromCode | src/device.rs:43-50 | a polling rate is named exactly by the bytes 1 to 4, and the rate's code is that byte |
| Device.PollingRateCodes | src/device.rs:43-50 | code and conversion are inverse: every rate's code converts back to it, and a byte converts to a rate exactly when it is that rate's code |
| Rgb.EffectFromCode | src/device.rs:61-75 | an effect is named exactly by the bytes 0 to 10, and the effect's code is that byte |
| Rgb.EffectCodes | src/device.rs:61-75 | effect code and conversion are inverse in both directions |
| Device.MouseButtonsFromBits | src/protocol/decode.rs:285-290 | a flag byte converts to mouse buttons exactly when it has no bit outside L,R,M,B,F, and keeps its bits |
| Device.ModifiersFromBits | src/protocol/decode.rs:285-290 | a flag byte converts to modifiers exactly when it has no bit outside Ctrl,Shift,Alt,Win |
| DeviceConfig.EnabledCount | src/device.rs:192-194 | the number of enabled profiles is at most their number, zero exactly when none is enabled, all exactly when all are |
| DeviceConfig.FixProfileCount | src/device.rs:192-194 | counting the enabled profiles in a loop sets the profile count to that number (at most 8), changes no other field, and keeps a configuration's report shape |
| DeviceConfig.FixAxesIndependent | src/protocol/encode.rs:141 | the model's own normaliser for the axes flag that this line reads (no function of the source sets it): the flag is set to whether some profile has two values, nothing else changes; a report-shaped configuration is left as it is, and one whose flag was the wrong way round becomes report-shaped; it serves to state `Reports.NormalisedRoundTrip` |
| DeviceConfig.ReportShapedFlagConsistent | src/protocol/encode.rs:132-143 | in a report-shaped configuration the axes flag agrees with the profiles |
| Decode.ParseNibblePair | src/protocol/decode.rs:25-28 | one byte read as its high and low nibble |
| Decode.ParseColorRgb | src/protocol/decode.rs:32-35 | three bytes read as red, green, blue |
| Decode.ParseColorRbg | src/protocol/decode.rs:37-40 | three bytes read as red, blue, green |
| Decode.ParseColorsRgb | src/protocol/decode.rs:241 | `n` colours succeed exactly when `3n` bytes are there, and colour `i` is bytes `3i` to `3i+2` in R,G,B order |
| Decode.ParseColorsRbg | src/protocol/decode.rs:122 | `n` colours, colour `i` from bytes `3i` to `3i+2` in R,B,G order (`RbgColorsAt`) |
| Decode.ParsePollingRate | src/protocol/decode.rs:42-51 | a 4-bit code gives a rate exactly when it is 1 to 4, the rate whose code it is; otherwise the unknown-rate error |
| Decode.DpiDecode | src/protocol/decode.rs:305-307 | `(b+1)*100` is a DPI value (a multiple of 100 from 100 to 25600) from which `v/100 - 1` recovers `b` |
| Codec.DpiRoundTrip | src/protocol/decode.rs:305-307 | the DPI value of a byte and the byte of a DPI value are inverse in both directions |
| Decode.ParseEffect | src/protocol/decode.rs:72-83 | the effect byte succeeds exactly when it is at most 10, gives the effect with that code, and otherwise the unknown-effect error |
| Decode.ParseGlorious | src/protocol/decode.rs:85-98 | speed is the low nibble of the control byte, direction the next byte; 2 bytes |
| Decode.ParseSingleColor | src/protocol/decode.rs:100-113 | brightness is the high nibble, then one R,B,G colour; 4 bytes |
| Decode.ParseBreathing | src/protocol/decode.rs:115-130 | speed is the low nibble, then the count byte and exactly seven colours, colour `i` from bytes `at+2+3i` on in R,B,G order; 23 bytes |
| Decode.ParseTail | src/protocol/decode.rs:132-144 | speed and brightness are the low and high nibble of one byte |
| Decode.ParseSeamlessBreathing | src/protocol/decode.rs:146-157 | speed is the low nibble of one byte |
| Decode.ParseConstantRgb | src/protocol/decode.rs:159-171 | the control byte is skipped, then exactly six colours, colour `i` from bytes `at+1+3i` on in R,B,G order; 19 bytes |
| Decode.ParseRave | src/protocol/decode.rs:173-187 | speed and brightness from one byte, then exactly two colours, colour `i` from bytes `at+1+3i` on in R,B,G order; 7 bytes |
| Decode.ParseRandom | src/protocol/decode.rs:189-200 | speed is the low nibble of one byte |
| Decode.ParseWave | src/protocol/decode.rs:202-214 | speed and brightness are the low and high nibble of one byte |
| Decode.ParseSingleBreathing | src/protocol/decode.rs:216-229 | speed is the low nibble, then one R,B,G colour; 4 bytes |
| Decode.ParseEffectBlocks | src/protocol/decode.rs:244-254 | the ten blocks with the 12-byte gap succeed exactly when 75 bytes are there, and read exactly 75 |
| Decode.DpiProfilesFromRaw | src/protocol/decode.rs:53-70 | always eight profiles |
| Reports.ProfileDecoding | src/protocol/decode.rs:59-68 | profile `i` is enabled exactly when mask bit `i` is clear, has colour `i`, and has `Double` from region bytes `2i`,`2i+1` when the axes are independent, `Single` from byte `i` otherwise |
| Reports.SingleIgnoresUpperBytes | src/protocol/decode.rs:63-67 | with shared axes, region bytes 8 to 15 do not affect the profiles |
| Reports.DpiSettingsIgnoreUpperRegion | src/protocol/decode.rs:235-241 | with a zero high nibble in byte 10, two inputs that differ only in bytes 21 to 28 (the upper half of the DPI region) read as the same DPI settings |
| Reports.MaskExample | src/protocol/decode.rs:62 | mask 0b00000101 leaves exactly profiles 0 and 2 disabled |
| Reports.ColorOrderExample | src/protocol/decode.rs:32-40 | `10 20 30` is green 20, blue 30 as R,G,B and green 30, blue 20 as R,B,G |
| Decode.ParseDpiSettings | src/protocol/decode.rs:235-241 | bytes 10–52 succeed exactly when 43 bytes are there and the rate nibble is 1 to 4, read exactly 43, and otherwise fail with the unknown-rate error; the result is what the bytes hold (`DpiSettingsRead`): the axes are independent exactly when the high nibble of the first byte is non-zero, the rate's code is its low nibble, current profile and count are the next byte's nibbles, and the profiles are `DpiProfilesFromRaw` of that flag, the mask, the 16 region bytes and the eight R,G,B colours |
| Decode.ParseLighting | src/protocol/decode.rs:242-252 | bytes 53–128 succeed exactly when 76 bytes are there and the effect byte is at most 10, and otherwise fail with the unknown-effect error; the effect is the one whose code is the first byte, and the blocks and gap are those `ParseEffectBlocks` reads from the next byte |
| Decode.ParseConfigReport | src/protocol/decode.rs:230-283 | the report decodes exactly when it has 131 bytes, a rate nibble of 1 to 4 and an effect byte of at most 10; it then reads exactly 131 bytes; each failure gives its own error; the configuration is what the bytes hold (`ConfigRead`): header bytes 0–8, sensor id byte 9, the DPI settings from byte 10, the effect code byte 53, blocks and gap from byte 54, lift-off distance byte 129 and trailing byte 130 |
| Decode.ParseMouseButtons | src/protocol/decode.rs:285-290 | a flag byte is read as mouse buttons exactly when it is there and has no bit outside L,R,M,B,F; the buttons are that byte and one byte is read |
| Decode.ParseModifiers | src/protocol/decode.rs:285-290 | a flag byte is read as modifiers exactly when it is there and has no bit outside Ctrl,Shift,Alt,Win; the modifiers are that byte and one byte is read |
| Decode.Media24 | src/protocol/decode.rs:295 | the big-endian 24-bit value of three bytes is below 2^24 and gives back each of the three bytes |
| Decode.ParseMediaButton | src/protocol/decode.rs:292-303 | the value is `b0<<16 OR b1<<8 OR b2`, below 2^24, accepted exactly when it is a defined flag combination, else the unknown-media error |
| Decode.ScrollFromByte | src/protocol/decode.rs:313 | a byte read as a two's-complement signed byte |
| ButtonCodec.ScrollRoundTrip | src/protocol/encode.rs:168 | a signed byte and its two's-complement byte determine each other |
| Decode.ParseButtonAction | src/protocol/decode.rs:309-345 | a slot decodes exactly when its tag is known and its fields are valid (buttons, DPI-switch mode 0–2, media bits, modifiers, macro mode 1, 2 or 4); it reads exactly 4 bytes; an unknown tag gives the unknown-tag error |
| Decode.ButtonActionRead | src/protocol/decode.rs:309-345 | a decoded slot is `SlotAction` of its significant bytes: the buttons, the scroll byte, the three repeat bytes, the switch mode, the DPI byte, the 24-bit media value, the modifiers and the key (from the third byte, see Findings), or the bank, mode and burst count; the bytes an action does not use do not matter |
| ButtonCodec.SlotErrors | src/protocol/decode.rs:309-345 | which error each malformed slot gives: unknown tag, mouse button, DPI switch, media bits, modifier, macro mode |
| Decode.ParseButtonActions | src/protocol/decode.rs:349 | `n` decoded slots give `n` actions and read `4n` bytes |
| Decode.ButtonActionsElements | src/protocol/decode.rs:349 | action `k` of a decoded run is the slot decoded at `at+4k`, which ends at `at+4k+4` |
| Decode.ButtonActionsAccepted | src/protocol/decode.rs:349 | `n` slots decode exactly when `4n` bytes are there and every slot is valid |
| Decode.ParseButtonmap | src/protocol/decode.rs:347-352 | a decoded button map reads exactly 32 bytes |
| Decode.ButtonmapAccepted | src/protocol/decode.rs:347-352 | the button map decodes exactly when 32 bytes are there and the six slots after the 8-byte header are valid |
| Decode.ParseEvent | src/protocol/decode.rs:354-387 | an event decodes exactly when 3 bytes are there and the type is 1, 5 or 6 with valid flags; state is bit 7, duration `(b0&0xf)<<8 OR b1` below 4096, the type follows bits 4–6 and its code is byte 2 |
| EventCodec.EventErrors | src/protocol/decode.rs:369-377 | an unknown type, unknown mouse bits or unknown modifier bits each give their error |
| Decode.ParseEvents | src/protocol/decode.rs:397 | `n` decoded records give `n` events and read `3n` bytes |
| Decode.EventsElements | src/protocol/decode.rs:397 | event `k` of a decoded run is the record decoded at `at+3k`, which ends at `at+3k+3` |
| Decode.EventsAccepted | src/protocol/decode.rs:397 | `n` events decode exactly when `3n` bytes are there and every record is valid |
| Decode.ParseMacro | src/protocol/decode.rs:389-401 | a decoded bank has the bank byte at 8 and as many events as byte 10 says, and reads `11 + 3 * count` bytes |
| Decode.MacroAccepted | src/protocol/decode.rs:389-401 | a bank record decodes exactly when its 11 header bytes and all counted events are there and every event is valid |
| Encode.DpiEncode | src/protocol/encode.rs:134-137 | the byte of a DPI value is the `b` with `(b+1)*100 == v` |
| Encode.ByteBuffer.WithCapacity | src/protocol/encode.rs:12-16 | a new buffer is empty |
| Encode.ByteBuffer.PutByte | src/protocol/encode.rs:18-20 | appends one byte |
| Encode.ByteBuffer.PutBytes | src/protocol/encode.rs:22-24 | appends the bytes |
| Encode.ByteBuffer.ToRawConfig | src/protocol/encode.rs:26-35 | for content of at most 520 bytes, gives the 520-byte report that starts with the content and is zero after it |
| Encode.PaddedUnique | src/protocol/encode.rs:26-35 | that report is unique: it is `Padded(content)` |
| Encode.PutRgb | src/protocol/encode.rs:39-41 | appends red, green, blue |
| Encode.PutRbg | src/protocol/encode.rs:43-45 | appends red, blue, green |
| Encode.PutGlorious | src/protocol/encode.rs:48-53 | appends `speed OR 0x40` and the direction |
| Encode.PutSingleColor | src/protocol/encode.rs:55-60 | appends `brightness << 4` and the colour R,B,G |
| Encode.PutColorsRbg | src/protocol/encode.rs:66-68 | appends every colour of the list in order, each R,B,G, as the colour loops of breathing, constant RGB and rave do |
| Encode.PutBreathing | src/protocol/encode.rs:62-70 | appends `speed OR 0x40`, the count and every colour of the list |
| Encode.PutTail | src/protocol/encode.rs:72-76 | appends `speed OR brightness << 4` |
| Encode.PutSeamlessBreathing | src/protocol/encode.rs:78-82 | appends `speed OR 0x40` |
| Encode.PutConstantRgb | src/protocol/encode.rs:84-91 | appends 0 and every colour of the list |
| Encode.PutRave | src/protocol/encode.rs:93-100 | appends `speed OR brightness << 4` and every colour of the list |
| Encode.PutRandom | src/protocol/encode.rs:102-106 | appends the speed byte as it is |
| Encode.PutWave | src/protocol/encode.rs:108-112 | appends `speed OR brightness << 4` |
| Encode.PutSingleBreathing | src/protocol/encode.rs:114-119 | appends the speed byte as it is, then the colour R,B,G |
| Encode.PutPreamble | src/protocol/encode.rs:123-131 | appends the header, the sensor id, the two packed bytes and the enable mask |
| Encode.PutEnabledMask | src/protocol/encode.rs:127-131 | the mask OR-ed together in a loop is the mask with one bit per disabled profile |
| Codec.EnabledMaskBit | src/protocol/encode.rs:127-131 | mask bit `i` is clear exactly when profile `i` is enabled or absent |
| Encode.PutDpiValue | src/protocol/encode.rs:133-139 | appends one encoded byte for a single value, the x then the y byte for a pair (`DpiValueBytes`) |
| Encode.PutDpiRegion | src/protocol/encode.rs:132-143 | appends each profile's one or two value bytes, then eight zeros when the axes are shared |
| Codec.RegionIndex | src/protocol/encode.rs:132-143 | with 8 profiles of the flag's kind the region is 16 bytes, with profile `i`'s bytes at `2i`,`2i+1` or at `i` |
| Reports.RegionUpperZeros | src/protocol/encode.rs:141-143 | with 8 single-valued profiles, bytes 8 to 15 of the region are zero |
| Encode.PutProfileColors | src/protocol/encode.rs:144-146 | appends each profile's colour R,G,B |
| Encode.PutEffectBlocks | src/protocol/encode.rs:148-158 | appends the ten blocks in their order, with the gap after the constant-RGB block |
| Encode.ConfigContentFits | src/protocol/encode.rs:30 | even at full capacity the content is at most 139 bytes, so padding never fails |
| Encode.ConfigReport | src/protocol/encode.rs:121-162 | the report is the padded configuration content |
| Codec.ConfigContentLength | src/protocol/encode.rs:121-162 | with every fixed-size part full the content is 131 bytes |
| Codec.GloriousRoundTrip | src/protocol/encode.rs:48-53 | a Glorious block with speed below 16 reads back |
| Codec.SingleColorRoundTrip | src/protocol/encode.rs:55-60 | a single-colour block with brightness below 16 reads back |
| Codec.BreathingRoundTrip | src/protocol/encode.rs:62-70 | a breathing block with speed below 16 and seven colours reads back |
| Codec.TailRoundTrip | src/protocol/encode.rs:72-76 | a tail block with both nibbles below 16 reads back |
| Codec.SeamlessBreathingRoundTrip | src/protocol/encode.rs:78-82 | a seamless-breathing block with speed below 16 reads back |
| Codec.ConstantRgbRoundTrip | src/protocol/encode.rs:84-91 | a constant-RGB block with six colours reads back |
| Codec.RaveRoundTrip | src/protocol/encode.rs:93-100 | a rave block with both nibbles below 16 and two colours reads back |
| Codec.RandomRoundTrip | src/protocol/encode.rs:102-106 | a random block with speed below 16 reads back |
| Codec.WaveRoundTrip | src/protocol/encode.rs:108-112 | a wave block with both nibbles below 16 reads back |
| Codec.SingleBreathingRoundTrip | src/protocol/encode.rs:114-119 | a single-breathing block with speed below 16 reads back |
| Codec.EffectBlocksRoundTrip | src/protocol/encode.rs:148-158 | the ten blocks and the gap read back, 75 bytes |
| Codec.ProfilesRoundTrip | src/protocol/encode.rs:127-146 | the mask, the region and the colours of 8 profiles of the flag's kind read back as those profiles |
| Codec.NibblesReadBack | src/protocol/encode.rs:125-126 | bytes 10 and 11 give back the axes flag, the rate, the current profile and the count |
| Codec.ConfigRoundTrip | src/protocol/encode.rs:121-162 | decoding the encoded report of a report-shaped configuration gives it back, reading 131 bytes |
| Reports.FromRaw | src/device.rs:178-186 | a report reads as a configuration exactly when its rate nibble is 1 to 4 and its effect byte at most 10, else the matching error; the configuration is the one its bytes hold, field by field (`ConfigRead`) |
| Reports.ToRaw | src/device.rs:188-190 | the report is the padded content, and it reads back as the configuration when that has report shape |
| Reports.DecodedIsReportShaped | src/protocol/decode.rs:231-283 | every decoded configuration has report shape |
| Reports.ReencodeStable | src/device.rs:178-190 | reading a report, writing it out and reading again gives the same configuration |
| Reports.NormalisedRoundTrip | src/device.rs:192-194 | with both derived fields set from the profiles, both agree with the profiles and the configuration reads back from its report |
| Encode.ActionBytes | src/protocol/encode.rs:164-202 | every action takes exactly one 4-byte slot |
| Encode.PutButtonAction | src/protocol/encode.rs:164-202 | appends the slot of the action |
| ButtonCodec.ActionEncodingExamples | src/protocol/encode.rs:174-199 | `DpiSwitch(Up)` is `41 01 00 00`, `Burst(c)` is `70 bank 01 c`, repeat-until-release is `70 bank 04 01`, Disabled is `50 01 00 00` |
| ButtonCodec.MediaRoundTrip | src/protocol/encode.rs:184-187 | a value below 2^24 and its three low bytes, high first, determine each other, and they are the three bytes after the tag 0x22 in a media slot |
| ButtonCodec.PlainActionRoundTrip | src/protocol/decode.rs:312-334 | mouse-button, repeat, shortcut and disabled slots read back as written; a shortcut's key comes from the byte the encoder puts it in |
| ButtonCodec.ActionRoundTrip | src/protocol/encode.rs:164-202 | every action the encoder writes reads back as that action, when a media value is a defined combination under 2^24 |
| ButtonCodec.ActionsRoundTrip | src/protocol/encode.rs:207-209 | slots written one after another read back as the same actions |
| Encode.PutActions | src/protocol/encode.rs:207-209 | appends the slots of the actions in order |
| Encode.PutDisabledPadding | src/protocol/encode.rs:210-212 | appends `n` disabled slots |
| Encode.Buttonmap | src/protocol/encode.rs:204-214 | the report is the padded header, actions and padding |
| ButtonCodec.ButtonmapLayout | src/protocol/encode.rs:204-214 | the content is 88 bytes: the header `04 12 00 00 00 00 06 00`, the six actions' slots, then fourteen disabled slots |
| ButtonCodec.ButtonmapRoundTrip | src/protocol/encode.rs:204-214 | the button map the encoder writes reads back as the mapping, reading 32 bytes |
| Encode.PutEvent | src/protocol/encode.rs:216-235 | building the first byte field by field appends the event's three bytes |
| EventCodec.EventBytesFields | src/protocol/encode.rs:216-235 | bit 7 of byte 0 is set exactly for Up, bits 4–6 are the type, the low nibble and byte 1 are the low 12 bits of the duration, byte 2 is the code |
| EventCodec.EventRoundTrip | src/protocol/encode.rs:216-235 | a written event reads back with the low 12 bits of its duration |
| EventCodec.FittingEventRoundTrip | src/protocol/encode.rs:216-235 | an event with a duration below 4096 reads back unchanged |
| EventCodec.EventReencode | src/protocol/decode.rs:354-387 | every event record the decoder accepts is exactly the bytes the encoder writes for the event it gives |
| EventCodec.EventsRoundTrip | src/protocol/decode.rs:397 | events written one after another with durations below 4096 read back |
| EventCodec.MacroRoundTrip | src/protocol/decode.rs:389-401 | a bank record of at most 255 such events reads back as the bank and its events |
| Encode.DpiByteAsWritten | src/protocol/encode.rs:134-137 | the byte the source writes for a stored DPI value is that value modulo 256 |
| Codec.DpiAsWrittenDrifts | src/protocol/encode.rs:134-137 | the DPI 100 is written as the byte 100 and read back as 10100 |
| Decode.ParseShortcutAsWritten | src/protocol/decode.rs:330-333 | the source's decoder takes a shortcut's key from the fourth byte of the slot |
| ButtonCodec.ShortcutKeyLost | src/protocol/decode.rs:330-333 | every shortcut the encoder writes reads back with key 0 under that decoder, so none with a key reads back |

## Left out

- `GloriousDevice` (HID discovery, feature-report I/O, the write magic in byte 3 and the 20 ms sleep) is I/O and timing. It is not part of this model.
- `version` decodes a firmware string through UTF-8 validation, which the model has no counterpart for.
- The command-line entry points and the macro-dump script are outside the codec.
- nom's error kinds and remaining-input slices: each parser returns a position and one `Error` value per kind of failure.
- MediaButton's flag values are not in the repository's code. The decoder takes the union of the defined flags as a parameter `mediaBits`.
- The macro-bank write path does not exist in the source; only one event's `put` does. `EventCodec.MacroRecord` is a reference layout of a bank record, used to state `MacroRoundTrip`.
- The capacities of the fixed-capacity vectors are subset types. A list longer than its capacity cannot be built, so there is no capacity-exceeded path.
- DeviceConfig.FixAxesIndependent: the source has no function that sets the axes flag from the profiles; src/protocol/encode.rs:141 only reads it. This normaliser is the model's own, used to state `Reports.NormalisedRoundTrip`.
- DeviceConfig.FixProfileCount: returns the updated configuration instead of updating it in place.
- DeviceConfig.FixProfileCount: counts into a number and stores it as a byte, as `count() as u8` does. With at most 8 profiles no truncation can happen.
- Codec.ConfigRoundTrip: holds only for report-shaped configurations:
  - the header, the profile list and the gap are full;
  - the current profile and the count are below 16;
  - every profile has the kind of value the axes flag announces;
  - every speed and brightness is below 16 and every colour list is full.
  The encoder, as written, writes shorter colour lists as they are, which shifts every later field.
- ButtonCodec.ActionRoundTrip: a media value must be below 2^24 and a defined flag combination. The encoder drops the top byte.
- EventCodec.EventRoundTrip: the duration's bits above 12 are lost. The event reads back with `duration & 0xfff`.
- ButtonCodec.ScrollRoundTrip: the source's scroll value is written as a byte (src/protocol/encode.rs:168) but read as an `i8` (src/protocol/decode.rs:313). The model takes the byte as the two's-complement form of the signed value, both ways (`ScrollByte`, `ScrollFromByte`).
- Decode.ParseButtonAction: reads a shortcut's key from the third byte of the slot, where the encoder writes it, not from the fourth as the source does. See Findings.
- Encode.DpiEncode: the DPI values are actual DPI values, and the encoder writes `v/100 - 1`, not the stored number. See Findings.

## Findings

| source | as written | input that shows it | evidently intended | confidence | as-written member | corrected member |
|---|---|---|---|---|---|---|
| src/protocol/decode.rs:330-333 | a keyboard-shortcut slot's key is read from `v[1]`, the fourth byte of the slot, while src/protocol/encode.rs:189 writes the key into the third byte and zero into the fourth | the slot `21 00 04 00` for KeyboardShortcut(no modifiers, key 4) reads back as key 0 | read the key from `v[0]`, the byte the encoder writes | high, not executed | Decode.ParseShortcutAsWritten, ButtonCodec.ShortcutKeyLost | Decode.ParseButtonAction, ButtonCodec.PlainActionRoundTrip |
| src/protocol/encode.rs:134-137, src/protocol/encode.rs:183 | the encoder writes the stored DPI value as the byte, while src/protocol/decode.rs:64-66 and :328 store `(b+1)*100` | the byte 0 reads as DPI 100; 100 is written as the byte 100, which reads as 10100 | write `v/100 - 1`, the inverse of `dpi_decode` | medium, not executed | Encode.DpiByteAsWritten, Codec.DpiAsWrittenDrifts | Encode.DpiEncode, Codec.DpiRoundTrip |
