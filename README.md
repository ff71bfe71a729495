# pyWXT5xx message codec, modelled and verified in Dafny

This project models the message codec of pyWXT5xx, a Python 2 driver for
the Vaisala WXT5xx weather transmitters. The codec lives in
`wxt5xx/message.py`. It speaks the transmitter's ASCII protocol and covers:

- **CRC.** The three-character CRC-16 (`crc16`) that guards a frame.
- **Frame check and dispatch.** `MessageParser.check_crc` checks a frame.
  `parse_message` then hands the rest to an ordered list of nine parsers:
  - the Wind, PTU, Rain and Status data replies (`r1`, `r2`, `r3`, `r5`);
  - the connection-info reply (`xU`/`XXU`);
  - the command response (`tX`);
  - the PTU, precipitation and supervisor settings replies (`xTU`, `xRU`,
    `xSU`).
- **Data fields.** Each data reply's fields are read into a `label -> token`
  map (`create_lookup`). `parse_unit` resolves each unit character through a
  label-selected unit table. `add_field` adds optional fields.
- **Settings messages.** These are decoded by `SettingsMessageParser.parse`
  and encoded by `create_message`. The `R` field packs the Requested and
  Composite flags as two bitmasks over a fixed field order.
- **Command frames.** The builders of `Message`, `ASCIIMessage` and
  `SDI12Message` produce the command frames. The optional CRC goes before
  the terminator.

Python strings are byte strings, modelled as `string` (`seq<char>`).
Exceptions become the `Failure` case of `Common.Result`, with one `Error`
constructor per raise site.

## Modules

| file | module | what it holds |
|---|---|---|
| `common.dfy` | `Common` | `Option`, `Result`, `Error` |
| `text.dfy` | `Text` | Python's `split`, `join`, `strip`, `upper` and `str(int)` on byte strings |
| `crc.dfy` | `Crc` | the CRC register as a function, with the loop of `crc16` proved equal to it |
| `units.dfy` | `Units` | the unit tables and `parse_unit` |
| `fields.dfy` | `Fields` | `create_lookup`, `add_field`, and the dict that `add_field` changes in place |
| `settings.dfy` | `Settings` | settings decoding and encoding, the settings dict that `create_message` rewrites, and the round trip |
| `parsers.dfy` | `Parsers` | the four data parsers, the connection-info and command-response parsers, and the dispatch chain |
| `frames.dfy` | `Frames` | `check_crc`, `parse_message` and its loop over the parsers |
| `commands.dfy` | `Commands` | the protocol tables, the `Message` command builders and `set_communication_settings` |
| `exchange.dfy` | `Exchange` | builder and parser together: frames pass the CRC check, and a settings command parses back |

The source's imperative code takes three forms in the model:

- **Loops.** The loops of `crc16`, `create_lookup`, `add_field`, the
  settings parser, `create_message` and `parse_message` are methods with
  loop invariants. Each is proved equal to a specification function.
- **Step sequences.** `set_communication_settings` has no loop. It is a
  fixed sequence of check-then-append steps, one per parameter, and is a
  straight-line method (`Commands.AppendParams`) proved equal to a
  specification function.
- **In-place updates.** Objects the source changes in place are classes:
  - the dict that `add_field` fills, as `Fields.FieldGroup`;
  - the settings dict whose `R` entry `create_message` overwrites, as
    `Settings.SettingsDict`;
  - the command builder with its address, as `Commands.Message`.

## Model

| member | source | states |
|---|---|---|
| Crc.Register | wxt5xx/message.py:126-135 | The CRC register never exceeds the model's 21-bit width. For byte input it stays within 16 bits. |
| Crc.Fold | wxt5xx/message.py:136-137 | The folded CRC is three characters, each with bit 0x40 set. For a 16-bit register the first is in '@'..'O' and the other two are at most 0x7f. |
| Crc.Checksum | wxt5xx/message.py:126-137 | The CRC text is exactly three characters, none of them whitespace. |
| Crc.ChecksumShape | wxt5xx/message.py:126-137 | For a byte string, the CRC is 3 characters: the first in '@'..'O', the others in '@'..DEL. |
| Crc.Crc16 | wxt5xx/message.py:126-137 | The per-character loop of 8 shift/XOR steps with polynomial 0xA001 computes `Checksum`. |
| Text.Split | wxt5xx/message.py:170 | Python's `str.split(sep)` gives at least one part, none containing the separator, and joining the parts gives the input back. |
| Text.SplitJoin | wxt5xx/message.py:424 | Splitting parts joined with a separator they do not contain gives the parts back. |
| Text.StripSpaceTail | wxt5xx/message.py:464 | `strip()` removes a whitespace terminator after text that neither starts nor ends with whitespace. |
| Text.NatToStringValue | wxt5xx/message.py:613 | `str(n)` of a natural number reads back as the same number. |
| Units.TableFor | wxt5xx/message.py:175-200 | No table is chosen, and the unit stays '', exactly for a label that starts with none of T, S, D, V, does not end in 'd', and is none of Pa, Ua, Ri, Rp, Rc, Hi, Hp, Hc. |
| Units.ParseUnit | wxt5xx/message.py:152-206 | A token without exactly one '=' is a ValueError. The result is None exactly for `Id` with a non-empty value. A reading's value is the field's value without its last character. |
| Units.TableForIsFirstMatch | wxt5xx/message.py:175-200 | The unit table chosen for a label is the one of the first matching rule, in the order T*, S*, D*, Pa, Ua, *d, Ri/Rp, Rc, Hi/Hp, Hc, Vh, V*. `ParseUnit` handles `Id` before any table is chosen. |
| Units.ParseUnitSplit | wxt5xx/message.py:170-206 | For `label=value` with a non-empty value: `Id` gives None, an empty label fails, and any other label gives the value without its last character plus a unit looked up from that character. A label with no table gets unit ''. |
| Units.EmptyValueRejected | wxt5xx/message.py:170-176 | A field with an empty value is an error for every label, `Id` included. |
| Units.NoTableHasSentinel | wxt5xx/message.py:153-167 | No unit table has an entry for '#'. |
| Units.SentinelResolvesToInvalid | wxt5xx/message.py:201-203 | A '#' unit character resolves to 'invalid' when the label selects a table, and to '' when it does not. |
| Units.UnresolvableIff | wxt5xx/message.py:201-205 | `parse_unit` fails with a ValueError exactly when the label selects a table that lacks the character and the character is not '#'. |
| Fields.Lookup | wxt5xx/message.py:213-218 | The field map exists exactly when every token has a single '='. Every token's label is then a key, and each key maps to a token carrying that label. |
| Fields.LookupDrawn | wxt5xx/message.py:213-218 | Every value of the map is one of the input tokens, so the map has no keys other than the tokens' labels. |
| Fields.LookupLastWins | wxt5xx/message.py:215-217 | A later token with the same label overrides an earlier one. |
| Fields.CreateLookup | wxt5xx/message.py:213-218 | The loop that fills the map computes `Lookup`. |
| Fields.CollectOkIff | wxt5xx/message.py:222-227 | For a list of labels, the list is built exactly when the reading of every present label succeeds. |
| Fields.CollectPresent | wxt5xx/message.py:222-227 | A built list holds the transformed readings of exactly the present labels, in declared order. |
| Fields.AddedField | wxt5xx/message.py:220-230 | `add_field` leaves every other key unchanged. A scalar label that is absent leaves the dict unchanged, and one that is present succeeds exactly when its reading does, and then stores it. A list of labels always sets the key, to the collected list. |
| Fields.FieldGroup.constructor | wxt5xx/message.py:241-253 | A result dict starts empty. |
| Fields.FieldGroup.AddField | wxt5xx/message.py:220-230 | Updating the dict in place leaves it as `AddedField` describes, or unchanged with the error. |
| Settings.Order | wxt5xx/message.py:426-444 | Each kind's field order has between 1 and 8 distinct labels. |
| Settings.Pairs | wxt5xx/message.py:394-396 | The settings fields are read exactly when every token has a single '='. Every token's label is then a key. |
| Settings.PairsDrawn | wxt5xx/message.py:394-396 | Each entry `key=value` of the fields is one of the tokens, so there are no other keys. |
| Settings.PairsLastWins | wxt5xx/message.py:394-396 | A label maps to the value of its last token. |
| Settings.PairsSnoc | wxt5xx/message.py:394-396 | One more `key=value` token binds `key` to `value` and keeps every other entry. |
| Settings.Bits | wxt5xx/message.py:399-400 | A bitmask is read exactly when all its characters are '0' or '1', and each becomes `true` exactly for '1'. |
| Settings.Assign | wxt5xx/message.py:407-409 | Assigning the flags over a field order defines exactly the labels of that order. Each label gets the bit of its last position. |
| Settings.UnpackR | wxt5xx/message.py:398-409 | `R` decodes exactly when it has two '&'-separated halves, both bit strings at least as long as the field order. Both maps then hold exactly the order's labels, and the label at position i (its last position) is set exactly when digit i of that half is '1'. |
| Settings.DecodeR | wxt5xx/message.py:398-409 | The splitting, digit-reading and assigning loops compute `UnpackR`. |
| Settings.ParseSettings | wxt5xx/message.py:389-412 | The result is None exactly when the first field is not the kind's tag. A decoded reply has no `R` field, and both flag maps hold exactly the labels of the kind's order. |
| Settings.NonBitRejected | wxt5xx/message.py:399-400 | A digit other than 0 or 1 in either half of `R` makes decoding fail. |
| Settings.DecodeSettings | wxt5xx/message.py:389-412 | The parser's loops compute `ParseSettings`: None for another tag, the plain fields plus the decoded `R` maps otherwise. |
| Settings.DecodePairs | wxt5xx/message.py:394-396 | The field-reading loop computes `Pairs`. |
| Settings.DecodeBits | wxt5xx/message.py:399-400 | The digit-reading loop computes `Bits`. |
| Settings.AssignFlags | wxt5xx/message.py:407-409 | The assignment loop computes `Assign` for both halves. |
| Settings.Digits | wxt5xx/message.py:416-417 | A packed half has one 0/1 digit per label of the order. |
| Settings.DigitsSpec | wxt5xx/message.py:416-417 | Packing succeeds exactly when every label of the order has a flag, and digit i is '1' exactly when the flag of label i is set. |
| Settings.OrderMatters | wxt5xx/message.py:416-417 | Swapping two labels whose flags differ changes the packed digits. |
| Settings.Zeros | wxt5xx/message.py:418 | The padding is `8 - len(order)` zeros, and none for a longer order. |
| Settings.PackR | wxt5xx/message.py:415-418 | A packed `R` holds only '0', '1' and '&'. |
| Settings.PtuPackExample | wxt5xx/message.py:418 | For PTU, Requested {Pa, Ta} and nothing composite, `R` packs to `11000000&00000000`. |
| Settings.PackRHalves | wxt5xx/message.py:415-418 | A packed `R` is two bit strings joined by '&'. Digit i of each half is the flag of label i, and each half is padded with zeros. |
| Settings.RAfter | wxt5xx/message.py:415-418 | After `create_message`, `R` is plain exactly when packing succeeds, and then holds the packed text. When the Composite half fails, `R` is unchanged. When only the Requested half fails, the Composite half is already replaced by its digits. |
| Settings.PackUnpackR | wxt5xx/message.py:398-418 | For an order of at most 8 labels, packing Requested and Composite and then decoding gives back both maps restricted to the order. |
| Settings.PlainFields | wxt5xx/message.py:420-422 | The fields emitted never include an ignored label. |
| Settings.PairsOfTokens | wxt5xx/message.py:419-422 | The emitted `key=value` tokens read back as exactly the non-ignored fields. |
| Settings.TokensNoComma | wxt5xx/message.py:419-422 | The emitted tokens contain no ','. |
| Settings.CreatedMessage | wxt5xx/message.py:414-424 | A dict without `R` raises KeyError. A message is produced exactly when the dict has an `R` whose value packs. |
| Settings.EntriesAfter | wxt5xx/message.py:415-418 | After `create_message`, the dict has the same keys in the same order. |
| Settings.SettingsDict.CreateMessage | wxt5xx/message.py:414-424 | Gives the message of `CreatedMessage` and leaves the dict rewritten as `EntriesAfter` says: the `R` entry packed (only its Composite half when Requested lacks a label, as in the source), the other entries unchanged. On success the dict stays well formed. |
| Settings.EmitTokens | wxt5xx/message.py:419-422 | The emitting loop builds the tokens of the non-ignored fields in dict order. |
| Settings.SplitTagged | wxt5xx/message.py:390 | Splitting `tag + "," + joined tokens` gives the tag and then the tokens. |
| Settings.SettingsRoundTrip | wxt5xx/message.py:389-424 | Parsing `tag + "," + create_message(settings)` gives the non-ignored plain fields, and the Requested/Composite maps restricted to the kind's order. |
| Parsers.ApplyStepsOk | wxt5xx/message.py:255-361 | A data reply's fields are filled exactly when every add_field step succeeds. |
| Parsers.ApplyStepsKeys | wxt5xx/message.py:255-361 | Each result group holds exactly the names of the steps whose labels were present. |
| Parsers.ApplyStepsValue | wxt5xx/message.py:255-361 | A stored name holds the transformed reading of its label, unless a later step overwrites it. |
| Parsers.FillGroups | wxt5xx/message.py:255-361 | The add_field calls, run in order, compute `ApplySteps`. |
| Parsers.ParseData | wxt5xx/message.py:236-363 | A data parser returns None exactly when the first field is not its tag. Any reply it returns is a data reply of its own kind. |
| Parsers.Run | wxt5xx/message.py:236-412 | A parser returns None exactly when it does not recognise the message's first field. Any reply it returns is of its own kind. |
| Parsers.ChainDisjoint | wxt5xx/message.py:447-457 | No two parsers of the chain recognise the same first field. |
| Parsers.DispatchFrom | wxt5xx/message.py:478-486 | A reply of the loop from position i on comes from a parser at or after i that recognises the first field, and is of that parser's kind. |
| Parsers.Dispatch | wxt5xx/message.py:478-486 | A reply comes from a parser of the chain that recognises the first field, and is of that parser's kind. |
| Parsers.DispatchFromSkips | wxt5xx/message.py:479-482 | Parsers that decline are passed over until the one that recognises the message. |
| Parsers.DispatchFromNone | wxt5xx/message.py:484-486 | When no remaining parser recognises the message, it is rejected. |
| Parsers.DispatchByTag | wxt5xx/message.py:447-486 | `parse_message` returns the answer of the parser that recognises the first field, or is rejected when none does. |
| Frames.CheckCrc | wxt5xx/message.py:463-465 | A stripped frame shorter than three characters has an empty body and fails the check. |
| Frames.ParseFrame | wxt5xx/message.py:467-491 | In CRC mode a frame that fails the check is rejected with InvalidCRC. An empty checked frame is rejected. A reply comes from a parser that recognises the first field after the address, and is of that parser's kind. |
| Frames.CheckFrame | wxt5xx/message.py:463-465 | Running `crc16` on the stripped body computes `CheckCrc`. |
| Frames.CheckCrcSplits | wxt5xx/message.py:463-465 | For a body, three non-space characters and a whitespace terminator, the check gives the body back. It passes exactly when the three characters are the body's CRC. |
| Frames.CrcRoundTrip | wxt5xx/message.py:463-465 | A body followed by its CRC and "\r\n" passes the check and gives the body back. |
| Frames.CorruptedCrcRejected | wxt5xx/message.py:467-491 | In CRC mode a frame whose last three characters are not the CRC of the rest is rejected with InvalidCRC. |
| Frames.MessageParser.constructor | wxt5xx/message.py:459-460 | The parser keeps its CRC mode. |
| Frames.MessageParser.ParseMessage | wxt5xx/message.py:467-491 | Computes `ParseFrame`, so an answer comes from a parser that recognises the first field. A failed CRC check consults no parser, and an answer consults at least one. |
| Frames.RunChain | wxt5xx/message.py:479-486 | The loop with early exit computes the dispatch of the chain, and its answer comes from a recognising parser. |
| Commands.LookupProtocol | wxt5xx/message.py:65-67 | A protocol has a message class exactly when it is one of A, a, P, p, and that class is the ASCII one. |
| Commands.HasCrc | wxt5xx/message.py:70-73 | A protocol has CRC only if it is an ASCII protocol in lower case. Every valid protocol without CRC is upper case. |
| Commands.TermSpace | wxt5xx/message.py:20-21 | The terminator is all whitespace exactly for the ASCII variant. |
| Commands.EnumerateDevices | wxt5xx/message.py:628-651 | The address query is '?' followed by the variant's terminator. That terminator is all whitespace exactly for ASCII. |
| Commands.Params | wxt5xx/message.py:597-623 | The parameters are accepted exactly when each given argument lies in its domain. The domains are the protocol set, the interface set, 0..3600, the baud-rate table, and the table given for data bits. At most five tokens are sent. |
| Commands.ParamsRefused | wxt5xx/message.py:597-623 | A refused call fails with `InvalidParameter` of the first argument outside its domain. The order is protocol, serial interface, composite repeat, baud rate, data bits. |
| Commands.DecimalDigits | wxt5xx/message.py:613 | `str` of a non-negative argument is digits without ',' or '=' and reads back as the argument. |
| Commands.AppendOpt | wxt5xx/message.py:601 | Appending `,key=value` for a given argument extends the parameter list by that one part. |
| Commands.PairsOpt | wxt5xx/message.py:601 | Reading back the appended part adds exactly that key. |
| Commands.ParamsSplit | wxt5xx/message.py:595-623 | The parameter text splits at ',' into an empty leader and the `key=value` parts. |
| Commands.ParamsPairs | wxt5xx/message.py:595-623 | The parts read back as a map from each given parameter's letter to its text. |
| Commands.ReadSent | wxt5xx/message.py:595-623 | Reading that map back as arguments gives every sent argument. |
| Commands.SentKeys | wxt5xx/message.py:76-89 | Only the letters M, C, I, B and D are sent, all of them in `CommunicationParameters`. |
| Commands.CommParamsRoundTrip | wxt5xx/message.py:595-623 | The text after the command splits into `key=value` fields whose letters are among M, C, I, B and D. Reading them back gives every sent argument. P, S, L and H (parity, stop bits, line delay, lock) are not keys. |
| Commands.DataBitsFinding | wxt5xx/message.py:620-623 | As written, data bits are checked against the baud-rate table. `data_bits=8` is refused and `data_bits=9600` is sent. With the data-bit table the reverse holds. |
| Commands.DataBitsCorrected | wxt5xx/message.py:620-623 | With the data-bit table, only 7 or 8 data bits are sent, as `D=7` or `D=8`. |
| Commands.AppendParams | wxt5xx/message.py:595-623 | The check-and-append steps for M, C, I, B and D give the `,key=value` text of the accepted parameters in that order. The first refused argument gives its error and no text. Data bits are checked against the table passed in. |
| Commands.Message.constructor | wxt5xx/message.py:494-499 | A builder keeps its address, its checksum setting and its variant. |
| Commands.Message.SetAddress | wxt5xx/message.py:501-502 | Only the address changes. |
| Commands.Message.WithChecksum | wxt5xx/message.py:508-511 | The payload is kept as a prefix. With checksum, exactly `Checksum(payload)` follows: three non-whitespace CRC characters, whatever the terminator. Without checksum, nothing is added. |
| Commands.Message.Framed | wxt5xx/message.py:508-511 | An ASCII frame with checksum passes the CRC check and gives the payload back. Without checksum the frame is the payload plus the terminator. |
| Commands.Message.Reset | wxt5xx/message.py:516-517 | An ASCII builder with checksum sends a frame that passes the CRC check and gives back address + "xZ". Without checksum the frame is that command plus the terminator. |
| Commands.Message.GetConnectionInfo | wxt5xx/message.py:525-526 | Likewise for address + "xU", for both variants. |
| Commands.Message.GetCommunicationSettings | wxt5xx/message.py:528-529 | Likewise for the address and the variant's communication-settings command ("xU" for ASCII). |
| Commands.Message.GetSettings | wxt5xx/message.py:532-533 | Likewise for the address and the kind's settings tag. |
| Commands.Message.SettingsFrame | wxt5xx/message.py:535-541 | A frame is built exactly when `create_message` succeeds; otherwise its error is returned. A checkable builder's frame passes the CRC check and gives back address + tag + "," + message. |
| Commands.Message.CommSettingsFrame | wxt5xx/message.py:585-625 | A frame is built exactly when every argument is accepted; otherwise the first refusal's error is returned. A checkable builder's frame passes the CRC check and gives back address + "xU" + parameter text. |
| Commands.Message.SetSettings | wxt5xx/message.py:535-541 | The frame is `address + tag + "," + create_message(settings)`, framed. The dict is left rewritten as `create_message` leaves it. |
| Commands.Message.SetCommunicationSettings | wxt5xx/message.py:585-625 | Computes `CommSettingsFrame` for the data-bit table passed in. On success the frame is `address + comms command + parameter text`, framed. Any refused argument gives its error and no frame. |
| Commands.ChecksumOnlyWhereSent | wxt5xx/message.py:513-533 | Read-data and the two precipitation resets are the same with or without checksum. Reset, connection info, the communication-settings query and each settings query grow by the 3 CRC characters. |
| Exchange.SettingsFrameOf | wxt5xx/message.py:535-541 | A settings command whose message decodes is accepted by `parse_message` as the settings reply. |
| Exchange.SettingsFrameChecks | wxt5xx/message.py:463-465 | A settings command frame passes the CRC check, and its text after the address is `tag + "," + message`. |
| Exchange.DispatchSettings | wxt5xx/message.py:447-457 | A message led by a settings tag is answered by that kind's settings parser. |
| Exchange.SettingsCommandRoundTrip | wxt5xx/message.py:535-541 | `parse_message(set_*_settings(settings))` in CRC mode gives the non-ignored plain fields, and the Requested/Composite maps restricted to the kind's order. |

## Left out

- `wxt5xx/comms.py` and `wxt5xx/cli.py` are not part of this model. They cover serial I/O, timing, the device-enumeration handshake and the command line.
- `setup.py` is packaging only.
- Logging calls are side effects with no bearing on the results.
- The `is_valid` methods build their valid lists by scanning the class `__dict__` once and caching the result. The model uses the constant sets `{A, a, P, p, N, Q}`, `{1, 2, 3, 4}` and the parameter letters directly; the answers are the same.
- The `int()` coercion of string arguments in `set_communication_settings` is left out. Numeric arguments are integers, and `str()` of them is decimal text.
- `Commands.Message.SetCommunicationSettings` and `Commands.AppendParams` take the data-bit table as an argument. Passing `ValidBaudRates` gives the code as written. Passing `ValidDataBits` gives the intended check. `Commands.DataBitsFinding` shows where the two differ (see Findings).
- The three commands that are never checksummed (`Commands.Message.ReadAllData`, `ResetPrecipitationIntensity` and `ResetPrecipitationCounter`) have no contract of their own. Each is the literal address + command + terminator. What sets them apart, that they ignore the checksum setting, is stated by `Commands.ChecksumOnlyWhereSent`.
- The PTU parser fills `data['Data']['Temperature']` (Ambient, Internal) and `data['Data']` itself (Humidity, Pressure). The model's `First` group is the first dict and `Second` the second. In the source the second dict also holds the first under the key "Temperature"; the model keeps the two groups apart and does not repeat that nesting.
- `parity`, `stop_bits`, `rs485_line_delay` and `lock` are accepted and never sent. The model carries them as arguments and proves (`Commands.CommParamsRoundTrip`) that their letters P, S, L and H are not keys of the output.
- Python 2 dicts have no guaranteed iteration order. `create_message` emits fields in the order of the model's entry sequence.
- Settings values are modelled as strings and the `R` dict only. Flag values are booleans.
- `str(int(flag))` is therefore '0' or '1'. Other truthy values, such as 2, would pack as other digits.
- The nested `R` dict is modelled as a value. Aliasing of that dict by the caller is not modelled.
- The base `Message` class has no terminator and its `enumerate_devices` raises. Only the ASCII and SDI-12 variants are modelled.
- `.encode()` in `crc16` only matters for the Python 2 / 3 split. On the byte strings used here it is the identity.
- `parse_message` passes the address to each parser, and every parser ignores it. The model does not pass it.
- Without CRC, `parse_message` does not strip the frame; the serial layer does that. The model follows the code.
- `Exchange.SettingsCommandRoundTrip` is proved for a one-character address. Device addresses are single characters, and the parser takes exactly one character as the address.
- `Frames.CheckCrc` states only the short-frame case in its own contract. The full pass/fail behaviour is stated by `Frames.CheckCrcSplits` and `Frames.CrcRoundTrip`.

## Findings

| source | as written | input that shows it | evidently intended | confidence | as-written member | corrected member |
|---|---|---|---|---|---|---|
| wxt5xx/message.py:621 | `data_bits` is checked against `valid_baud_rates` | `set_communication_settings(data_bits=8)` raises "Invalid Data Bits", while `data_bits=9600` sends `D=9600` | check against `valid_data_bits` (7 or 8), as the error message itself lists | not executed | Commands.DataBitsFinding | Commands.DataBitsCorrected |
