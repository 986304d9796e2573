# Server query client and game IPC of the open.mp launcher

This project models two parts of the launcher's Tauri back end:

- the SA-MP/open.mp UDP query client (`src-tauri/src/query.rs`), which covers:
  - resolving the target address;
  - building the `SAMP` request datagram;
  - classifying what comes back;
  - decoding the info, extra-info, player and rule payloads;
  - the process-wide three-second cooldown on extra-info requests;
  - the `query_server` command that runs the requested facets in order and
    collects one response;
- the per-connection IPC worker (`src-tauri/src/ipc.rs`), which covers:
  - parsing the newline-terminated `init:`, `pos:`, `show_overlay:` and
    `hide_overlay:` commands;
  - the effect of each command on the shared registry of game connections
    and on the overlay windows;
  - `send_message_to_game`.

## Layout

The modules are listed in dependency order:

- `Wrappers` holds `Option` and `Result`.
- `Bytes` holds little-endian integers.
- `Text` covers decimal formatting, `i32` parsing as Rust's `str::parse`, `trim`, and `split`/`join`.
- `Cursors` holds the byte cursor class.
- `Packets` is the wire format as functions: parsers, encoders and round trips.
- `Decoders` holds the `build_*_packet` methods over a cursor, each proved equal to its parser.
- `Address` models `Query::new`'s address handling.
- `QueryClient` models the socket, `Query::send` and `Query::recv`.
- `Cooldown` models the extra-info gate.
- `Orchestrator` models `query_server`.
- `IpcCommands` is the line parser.
- `IpcHub` holds the shared state, the worker loop and message delivery.

Imperative code becomes imperative Dafny:

- The cursor, the socket, the cooldown map and the IPC state are classes.
- The decoders and the worker are methods with loops.
- Each method is proved against a function. Those functions carry the properties, which are proved as lemmas.

The string decoder `helpers::decode_buffer` is a parameter `dec` of type `Bytes -> string`.

Two behaviours of the code that the model keeps as written:

- A decoder that runs out of bytes calls `unwrap()` and panics. The panic ends the whole `query_server` call (`Aborted`); no facet gets an error entry for a short payload.
- The cooldown check subtracts `u64` values, and that subtraction wraps when the clock goes back (release build). The model writes the wrap out.

## Model

| member | source | states |
|---|---|---|
| Bytes.TakeBytes | src-tauri/src/query.rs:174-175 | reading n bytes succeeds exactly when n bytes remain, and yields them and the rest |
| Bytes.TakeU8 | src-tauri/src/query.rs:230 | reading one byte succeeds exactly when one remains |
| Bytes.TakeU16 | src-tauri/src/query.rs:168-169 | a little-endian u16 read succeeds exactly when two bytes remain, yields a value below 2^16 and consumes two bytes |
| Bytes.TakeU32 | src-tauri/src/query.rs:173 | a little-endian u32 read succeeds exactly when four bytes remain, yields a value below 2^32 and consumes four bytes |
| Bytes.AsI32 | src-tauri/src/query.rs:235 | reinterpreting a u32 as i32 gives an i32, negative exactly when the top bit is set |
| Bytes.TakeI32 | src-tauri/src/query.rs:235 | a little-endian i32 read succeeds exactly when four bytes remain and yields an i32 |
| Bytes.EncodeU16 | src-tauri/src/query.rs:168 | the little-endian encoding of a u16 is two bytes |
| Bytes.EncodeU32 | src-tauri/src/query.rs:173 | the little-endian encoding of a u32 is four bytes |
| Bytes.EncodeI32 | src-tauri/src/query.rs:235 | the two's-complement little-endian encoding of an i32 is four bytes |
| Bytes.TakeBytesRoundTrip | src-tauri/src/query.rs:174-175 | reading as many bytes as b holds from b + tail yields b and leaves tail |
| Bytes.U16RoundTrip | src-tauri/src/query.rs:168 | reading a u16 from its encoding gives the value back and leaves what follows |
| Bytes.U32RoundTrip | src-tauri/src/query.rs:173 | reading a u32 from its encoding gives the value back and leaves what follows |
| Bytes.I32RoundTrip | src-tauri/src/query.rs:235 | reading an i32 from its encoding gives the value back, negatives included |
| Bytes.U16Inverse | src-tauri/src/query.rs:168 | any two or more bytes are the encoding of the u16 read from them followed by the rest |
| Bytes.U32Inverse | src-tauri/src/query.rs:173 | any four or more bytes are the encoding of the u32 read from them followed by the rest |
| Text.DigitChar | src-tauri/src/ipc.rs:22 | each decimal digit has a character whose value is that digit |
| Text.FormatNat | src-tauri/src/ipc.rs:22 | the decimal text of a natural is non-empty digits without a leading zero, of at most 1, 2, 3 characters below 10, 100, 1000 |
| Text.FormatNatValue | src-tauri/src/ipc.rs:22 | the decimal text of n reads back as n |
| Text.FormatInt | src-tauri/src/ipc.rs:22 | the decimal text of an integer is digits with an optional leading minus |
| Text.ParseI32 | src-tauri/src/ipc.rs:75 | a successful `parse::<i32>` yields a value within the i32 range |
| Text.ParseFormatI32 | src-tauri/src/ipc.rs:75 | parsing the decimal text of any i32 gives it back |
| Text.TrimStart | src-tauri/src/ipc.rs:86 | trimming the start drops exactly the leading whitespace: the result is a suffix, everything dropped is whitespace, and the result does not start with whitespace |
| Text.TrimEnd | src-tauri/src/ipc.rs:86 | trimming the end drops exactly the trailing whitespace |
| Text.Trim | src-tauri/src/ipc.rs:75 | trimming keeps the middle of the text: everything dropped before and after it is whitespace, and what is kept neither starts nor ends with whitespace |
| Text.TrimNewline | src-tauri/src/ipc.rs:112 | trimming a line without surrounding whitespace removes only its terminating newline |
| Text.FirstIndex | src-tauri/src/ipc.rs:86 | the first position of a separator holds it and none comes before it |
| Text.Split | src-tauri/src/ipc.rs:86 | splitting always yields at least one piece |
| Text.SplitSeparatorFree | src-tauri/src/ipc.rs:86 | no piece of a split contains the separator |
| Text.SplitJoin | src-tauri/src/ipc.rs:86 | splitting the joined pieces gives the pieces back when none holds the separator |
| Text.JoinSplit | src-tauri/src/ipc.rs:86 | joining the pieces of a split gives the text back |
| Cursors.Cursor.constructor | src-tauri/src/query.rs:149 | a new cursor is positioned at the start of its data |
| Cursors.Cursor.Remaining | src-tauri/src/query.rs:212 | `remaining()` is the number of unread bytes |
| Cursors.Cursor.ReadExact | src-tauri/src/query.rs:174-175 | `read_exact` succeeds and advances exactly when enough bytes remain, as `TakeBytes` |
| Cursors.Cursor.ReadU8 | src-tauri/src/query.rs:230 | `read_u8` advances one byte as `TakeU8` |
| Cursors.Cursor.ReadU16Le | src-tauri/src/query.rs:168 | `read_u16::<LittleEndian>` advances as `TakeU16` |
| Cursors.Cursor.ReadU32Le | src-tauri/src/query.rs:173 | `read_u32::<LittleEndian>` advances as `TakeU32` |
| Cursors.Cursor.ReadI32Le | src-tauri/src/query.rs:235 | `read_i32::<LittleEndian>` advances as `TakeI32` |
| Packets.TakeText32 | src-tauri/src/query.rs:173-176 | a u32-length-prefixed text read never grows the rest |
| Packets.TakeText8 | src-tauri/src/query.rs:230-233 | a u8-length-prefixed text read always consumes at least its length byte |
| Packets.ParseExtraInfo | src-tauri/src/query.rs:191-220 | a packet is produced only when three length-prefixed texts can be read, so from at least 12 bytes, and its discord link is the first of them |
| Packets.ParseInfo | src-tauri/src/query.rs:165-189 | a decoded info packet has password set exactly when the first byte is non-zero, and u16 player counts |
| Packets.TakePlayer | src-tauri/src/query.rs:230-235 | a decoded player's score is an i32 |
| Packets.TakePlayers | src-tauri/src/query.rs:227-236 | reading n players yields exactly n |
| Packets.ParsePlayers | src-tauri/src/query.rs:222-239 | a decoded player list has exactly the count announced by the leading little-endian u16 |
| Packets.TakeRule | src-tauri/src/query.rs:246-258 | a rule is a pair of name and value |
| Packets.TakeRules | src-tauri/src/query.rs:245-259 | reading n rules yields n pairs |
| Packets.ParseRules | src-tauri/src/query.rs:241-262 | a decoded rule list has exactly the announced count, each a name and value pair |
| Packets.EncodeText32 | src-tauri/src/query.rs:173-175 | a u32-length-prefixed text takes four bytes more than its content |
| Packets.EncodeText8 | src-tauri/src/query.rs:230-232 | a u8-length-prefixed text takes one byte more than its content |
| Packets.Text32RoundTrip | src-tauri/src/query.rs:173-176 | reading a u32-prefixed text from its encoding decodes the content and leaves what follows |
| Packets.Text8RoundTrip | src-tauri/src/query.rs:230-233 | reading a u8-prefixed text from its encoding decodes the content and leaves what follows |
| Packets.InfoRoundTrip | src-tauri/src/query.rs:165-189 | decoding an encoded info payload, trailing bytes or not, gives the packet's fields back |
| Packets.PlayerRoundTrip | src-tauri/src/query.rs:230-235 | one encoded player reads back as its name and score |
| Packets.PlayerEntriesRoundTrip | src-tauri/src/query.rs:227-236 | n encoded players read back, in order, as those n players |
| Packets.TakePlayersStep | src-tauri/src/query.rs:227-236 | reading one more player extends the list read so far by that player |
| Packets.PlayersRoundTrip | src-tauri/src/query.rs:222-239 | decoding an encoded player list gives the list back |
| Packets.RuleRoundTrip | src-tauri/src/query.rs:246-258 | one encoded rule reads back as its name and value |
| Packets.RuleEntriesRoundTrip | src-tauri/src/query.rs:245-259 | n encoded rules read back, in order |
| Packets.TakeRulesStep | src-tauri/src/query.rs:245-259 | reading one more rule extends the list read so far by that rule |
| Packets.RulesRoundTrip | src-tauri/src/query.rs:241-262 | decoding an encoded rule list gives the list back |
| Packets.ExtraInfoWithoutLogo | src-tauri/src/query.rs:191-220 | three texts and nothing after them decode with an empty logo URL |
| Packets.ExtraInfoWithLogo | src-tauri/src/query.rs:212-217 | when bytes remain after the three texts, a fourth text is the logo URL |
| Packets.ExtraInfoShortTrailer | src-tauri/src/query.rs:212-213 | one to three stray bytes after the three texts make the logo length read fail |
| Packets.U8Prefix | src-tauri/src/query.rs:230 | a cut encoding reads its first byte exactly when the cut keeps it |
| Packets.U16Prefix | src-tauri/src/query.rs:168 | a cut encoding reads its u16 exactly when the cut keeps both bytes |
| Packets.Text32Prefix | src-tauri/src/query.rs:173-175 | a cut u32-prefixed text reads back exactly when the cut keeps it whole |
| Packets.InfoTruncated | src-tauri/src/query.rs:165-189 | every proper prefix of an encoded info payload fails to decode: a length field that overruns the buffer is never partly read |
| Packets.InfoPrefixUnreadable | src-tauri/src/query.rs:165-189 | no proper prefix of an info encoding has all its fields readable |
| Packets.InfoPrefixTexts | src-tauri/src/query.rs:173-186 | a prefix reaching into the texts of an info encoding holds a prefix of the text encodings |
| Packets.InfoLayoutTexts | src-tauri/src/query.rs:165-186 | an info encoding is the flag, the two counts and the three texts in order |
| Packets.EncodeTexts | src-tauri/src/query.rs:173-186 | a run of u32-prefixed texts takes four bytes per text at least |
| Packets.ThreeTexts | src-tauri/src/query.rs:173-186 | three texts encode as the three encodings one after another |
| Packets.TextsPrefix | src-tauri/src/query.rs:173-186 | no proper prefix of a run of text encodings reads as that many texts |
| Packets.Text32Inverse | src-tauri/src/query.rs:173-176 | whatever a u32-prefixed text read accepts is an encoding of some content followed by the rest |
| Packets.InfoOnlyFromEncoding | src-tauri/src/query.rs:165-189 | whatever decodes as an info packet starts with an encoding of exactly that packet |
| Packets.InfoReadable | src-tauri/src/query.rs:165-189 | a decodable info payload has all six fields readable |
| Packets.InfoSplit | src-tauri/src/query.rs:165-189 | a payload with all fields readable is an info encoding followed by a tail |
| Packets.InfoLayout | src-tauri/src/query.rs:165-186 | the info encoding is the concatenation of its field encodings in read order |
| Packets.Text8Inverse | src-tauri/src/query.rs:230-233 | whatever a u8-prefixed text read accepts is an encoding of some content followed by the rest |
| Packets.I32Inverse | src-tauri/src/query.rs:235 | any four bytes are the little-endian encoding of the i32 they read as |
| Packets.PlayerInverse | src-tauri/src/query.rs:230-235 | whatever reads as a player entry is the encoding of a valid name and score followed by the rest |
| Packets.PlayerEntriesInverse | src-tauri/src/query.rs:227-236 | whatever reads as n player entries is the encoding of n valid entries, decoded in order, followed by the rest |
| Packets.PlayersOnlyFromEncoding | src-tauri/src/query.rs:222-239 | whatever decodes as a player list starts with the encoding of exactly that list |
| Packets.PlayerEntriesExtend | src-tauri/src/query.rs:227-236 | bytes after readable player entries do not change what is read and are left over |
| Packets.PlayersTruncated | src-tauri/src/query.rs:222-239 | every proper prefix of an encoded players payload fails to decode |
| Packets.PlayerEntriesCut | src-tauri/src/query.rs:227-236 | no proper prefix of n encoded player entries reads as n entries |
| Packets.PlayerEntriesWhole | src-tauri/src/query.rs:227-236 | n entries read from a prefix of an encoding of n entries use all of it |
| Packets.RuleInverse | src-tauri/src/query.rs:246-258 | whatever reads as a rule entry is the encoding of a valid name and value followed by the rest |
| Packets.RuleEntriesInverse | src-tauri/src/query.rs:245-259 | whatever reads as n rule entries is the encoding of n valid entries, decoded in order, followed by the rest |
| Packets.RulesOnlyFromEncoding | src-tauri/src/query.rs:241-262 | whatever decodes as a rule list starts with the encoding of exactly that list |
| Packets.RuleEntriesExtend | src-tauri/src/query.rs:245-259 | bytes after readable rule entries do not change what is read and are left over |
| Packets.RulesTruncated | src-tauri/src/query.rs:241-262 | every proper prefix of an encoded rules payload fails to decode |
| Packets.RuleEntriesCut | src-tauri/src/query.rs:245-259 | no proper prefix of n encoded rule entries reads as n entries |
| Packets.RuleEntriesWhole | src-tauri/src/query.rs:245-259 | n entries read from a prefix of an encoding of n entries use all of it |
| Packets.ExtraInfoTexts | src-tauri/src/query.rs:191-220 | after the three banner texts the logo is read from what follows: nothing gives an empty logo URL, a readable text gives that text, anything else gives no packet |
| Packets.ExtraInfoRoundTrip | src-tauri/src/query.rs:191-220 | decoding an encoded extra-info payload gives its four fields back, an absent logo as the empty URL |
| Packets.ThreeTextsInverse | src-tauri/src/query.rs:197-210 | three readable texts are the encodings of their contents followed by the rest |
| Packets.ExtraInfoOnlyFromEncoding | src-tauri/src/query.rs:191-220 | whatever decodes as an extra-info packet starts with the encoding of exactly its fields, and an absent logo means nothing followed the three texts |
| Packets.ExtraInfoTruncated | src-tauri/src/query.rs:191-220 | every proper prefix of an encoded extra-info payload fails to decode, except the cut right before the logo, which decodes as the same packet with an empty logo URL |
| Decoders.ReadText32 | src-tauri/src/query.rs:173-176 | reading a length, then that many bytes, then decoding them agrees with `TakeText32` |
| Decoders.ReadText8 | src-tauri/src/query.rs:230-233 | the u8-length text read agrees with `TakeText8` |
| Decoders.ReadPlayer | src-tauri/src/query.rs:230-235 | one player read fails exactly when `TakePlayer` does and otherwise advances as it |
| Decoders.BuildInfoPacket | src-tauri/src/query.rs:165-189 | `build_info_packet` yields the packet `ParseInfo` describes, and fails where a read runs out |
| Decoders.BuildExtraInfoPacket | src-tauri/src/query.rs:191-220 | `build_extra_info_packet`, with its optional logo, yields what `ParseExtraInfo` describes |
| Decoders.BuildPlayersPacket | src-tauri/src/query.rs:222-239 | `build_players_packet` yields the list `ParsePlayers` describes |
| Decoders.FillPlayers | src-tauri/src/query.rs:225-236 | filling the pre-sized player array succeeds exactly when all players are readable, and then holds them in order |
| Decoders.ReadPlayerInto | src-tauri/src/query.rs:228-235 | one loop step writes the next player into its slot and keeps the loop invariant |
| Decoders.BuildRulesPacket | src-tauri/src/query.rs:241-262 | `build_rules_packet` yields the list `ParseRules` describes |
| Decoders.TakePlayersStuck | src-tauri/src/query.rs:227-236 | once a player read fails, reading more players fails too |
| Decoders.TakeRulesStuck | src-tauri/src/query.rs:245-259 | once a rule read fails, reading more rules fails too |
| Address.PatternOctet | src-tauri/src/query.rs:68 | a group matching the octet alternation is one to three digits |
| Address.DottedQuadShape | src-tauri/src/query.rs:68-70 | text passing the address pattern is 7 to 15 characters, all digits or dots, with exactly three dots |
| Address.Glue | src-tauri/src/query.rs:68 | gluing two digit-and-dot texts with a dot adds their lengths and dot counts plus one |
| Address.PatternOctetMeaning | src-tauri/src/query.rs:68 | an octet of the address regex is one to three digits with value at most 255 |
| Address.ThreeDigits | src-tauri/src/query.rs:68 | the value of up to three digits, place by place |
| Address.ParseIpv4 | src-tauri/src/query.rs:99 | only dotted-quad text parses as an IPv4 address |
| Address.ParseFields | src-tauri/src/query.rs:99 | only four regex-shaped fields parse as octets |
| Address.StrictIsPattern | src-tauri/src/query.rs:68 | an octet `Ipv4Addr` accepts also matches the regex |
| Address.FormatIpv4 | src-tauri/src/query.rs:83 | an address prints as digits and dots |
| Address.Ipv4RoundTrip | src-tauri/src/query.rs:83-99 | parsing the printed form of an address gives it back |
| Address.OctetRoundTrip | src-tauri/src/query.rs:83-99 | the printed octet is strict and reads back as itself |
| Address.OctetTexts | src-tauri/src/query.rs:83 | the printed address is its four digit fields joined by dots |
| Address.FieldsRoundTrip | src-tauri/src/query.rs:83-99 | the printed fields of an address parse back to it |
| Address.LeadingZeroPassesPatternOnly | src-tauri/src/query.rs:68-99 | a field with a leading zero passes the regex but fails the `Ipv4Addr` parse |
| Address.HostPartIsAddress | src-tauri/src/query.rs:83-85 | the text before ':' of a printed IPv4 socket address is the address |
| Address.LastIpv4 | src-tauri/src/query.rs:79-88 | the text left by the lookup loop is empty or a valid IPv4 address |
| Address.SelectIpv4 | src-tauri/src/query.rs:79-88 | the lookup loop keeps the host part of the last IPv4 result, or "" when there is none |
| Address.LastIpv4Parses | src-tauri/src/query.rs:79-88 | with no IPv4 result the text is empty; otherwise it is the last IPv4 result's address |
| Address.ResolvedText | src-tauri/src/query.rs:70-96 | text matching the regex is used as it is |
| Address.ResolveAddress | src-tauri/src/query.rs:67-99 | `Query::new` settles on an address exactly when the chosen text parses, and fails with the parse error message otherwise; the address settled on is the parse of that text |
| Address.LiteralAddress | src-tauri/src/query.rs:70-99 | a printed IPv4 address resolves to itself without a lookup |
| Address.FailedLookup | src-tauri/src/query.rs:90-99 | a failed lookup of a non-address leaves "" and so the invalid-address error |
| QueryClient.Socket.constructor | src-tauri/src/query.rs:101 | a new socket has sent nothing and has the server's answers ahead |
| QueryClient.Socket.Send | src-tauri/src/query.rs:128 | sending appends the datagram to what was sent |
| QueryClient.Socket.Receive | src-tauri/src/query.rs:134-142 | receiving takes the next arrival, or silence when none is left |
| QueryClient.RequestPacket | src-tauri/src/query.rs:111-127 | a request is 11 bytes, 15 for ping |
| QueryClient.OpcodeByte | src-tauri/src/query.rs:119 | `query_type as u8` keeps the low byte of the character code, which is the code itself for an ASCII opcode |
| QueryClient.ParseRequest | src-tauri/src/query.rs:117-118 | the port read back from a request is a u16 |
| QueryClient.RequestRoundTrip | src-tauri/src/query.rs:111-127 | a request carries `SAMP`, the four octets, the port's low 16 bits little-endian and the opcode, then for ping four zero bytes |
| QueryClient.PortBytes | src-tauri/src/query.rs:117-118 | the two port bytes, low first, make up the port modulo 2^16 |
| QueryClient.Dispatch | src-tauri/src/query.rs:148-162 | the tag dispatch is `no_data` exactly for a tag outside i, c, r, o, p; an answer's kind is the one its tag selects; a ping never panics |
| QueryClient.Classify | src-tauri/src/query.rs:132-163 | silence or a receive error is an error; only a non-empty datagram can panic; an answer needs at least 11 bytes and has the kind selected by the byte at offset 10 |
| QueryClient.ClassifyTruncates | src-tauri/src/query.rs:133-136 | only the first 1500 bytes of a datagram matter, as `recv` behaves on Unix |
| QueryClient.ClassifyByTag | src-tauri/src/query.rs:144-163 | an empty datagram or an unknown tag is `no_data`; ping answers `pong` exactly on tag 'p'; only a non-empty datagram can panic |
| QueryClient.InfoReplyRoundTrip | src-tauri/src/query.rs:148-151 | an 'i' reply carrying an encoded info packet is answered with that packet |
| QueryClient.PlayersReplyRoundTrip | src-tauri/src/query.rs:148-153 | a 'c' reply carrying an encoded player list is answered with that list |
| QueryClient.RulesReplyRoundTrip | src-tauri/src/query.rs:148-155 | an 'r' reply carrying an encoded rule list is answered with that list |
| QueryClient.ExtraInfoReplyRoundTrip | src-tauri/src/query.rs:148-157 | an 'o' reply carrying encoded extra info is answered with its texts, an absent logo as the empty URL |
| QueryClient.Kept | src-tauri/src/query.rs:133-149 | the payload `recv` keeps is the whole payload when the datagram fits the 1500-byte buffer, and never more |
| QueryClient.ReplyCut | src-tauri/src/query.rs:148-162 | a reply is decoded by the decoder its tag selects, run on the payload bytes `recv` keeps |
| QueryClient.InfoReplyTruncatedPanics | src-tauri/src/query.rs:148-151 | an 'i' reply whose payload is cut short panics the decoder, which aborts the call |
| QueryClient.PlayersReplyTruncatedPanics | src-tauri/src/query.rs:148-153 | a 'c' reply whose payload is cut short panics the decoder |
| QueryClient.RulesReplyTruncatedPanics | src-tauri/src/query.rs:148-155 | an 'r' reply whose payload is cut short panics the decoder |
| QueryClient.ExtraInfoReplyTruncated | src-tauri/src/query.rs:148-157 | an 'o' reply whose payload is cut short panics the decoder, save a cut right after the three banner texts, which answers with an empty logo |
| QueryClient.Query.constructor | src-tauri/src/query.rs:98-102 | a query holds its address, port and socket |
| QueryClient.Query.Send | src-tauri/src/query.rs:111-130 | `send` puts exactly the request datagram on the socket and returns its length |
| QueryClient.Query.Recv | src-tauri/src/query.rs:132-163 | `recv` takes the next arrival and answers what `Classify` says of it |
| QueryClient.ReceiveInto | src-tauri/src/query.rs:133-142 | the 1500-byte buffer holds the first `amt` bytes of the datagram, `amt` capped at 1500 |
| QueryClient.Decode | src-tauri/src/query.rs:150-162 | the tag dispatch calls the decoder for 'i', 'c', 'r', 'o', answers `pong` for 'p', and `no_data` otherwise |
| QueryClient.Open | src-tauri/src/query.rs:67-109 | opening succeeds exactly when the address resolves, with that address, else it fails with the address error |
| Cooldown.Key | src-tauri/src/query.rs:330 | a key is the address as given, a colon, then the port text with no colon in it |
| Cooldown.KeyInjective | src-tauri/src/query.rs:330 | two endpoints with i32 ports share a key only when address and port are equal |
| Cooldown.Admits | src-tauri/src/query.rs:332-338 | a new key is admitted; for a recorded time not after now, admitted exactly when three seconds have passed; for a recorded time after now, admitted unless the wrapped difference is under three |
| Cooldown.ElapsedSecs | src-tauri/src/query.rs:336 | elapsed seconds are `now - last`, wrapping modulo 2^64 when the clock went back |
| Cooldown.Gate | src-tauri/src/query.rs:332-345 | the gate admits exactly when the key is new or three seconds have elapsed; when it admits it records `now` for the key, when it refuses the map is unchanged, and other keys are never touched |
| Cooldown.CooldownTable.constructor | src-tauri/src/query.rs:17-18 | the process-wide map starts empty |
| Cooldown.CooldownTable.Admit | src-tauri/src/query.rs:332-345 | the check-and-set under the lock answers and updates as `Gate` |
| Cooldown.FirstRequestAdmitted | src-tauri/src/query.rs:340-343 | a key never seen is admitted and recorded |
| Cooldown.RepeatWithinCooldown | src-tauri/src/query.rs:335-338 | a second request for the same key less than three seconds later is refused |
| Cooldown.AdmittedAfterCooldown | src-tauri/src/query.rs:335-343 | a request three or more seconds after the last is admitted and re-recorded |
| Cooldown.ClockBackAdmitted | src-tauri/src/query.rs:336 | when the clock went back, the wrapped difference is large and the request is admitted |
| Orchestrator.Settled | src-tauri/src/query.rs:287-372 | the ping entry is a u32 time, the elapsed time when answered in range and 9999 when not; other entries hold data exactly when the reply was an answer |
| Orchestrator.Step | src-tauri/src/query.rs:285-322 | a facet block adds one request exactly when requested and nothing panicked before, keeping the earlier requests and the cooldown map |
| Orchestrator.ExtraStep | src-tauri/src/query.rs:324-359 | the extra-info block adds one request exactly when requested, nothing panicked and the gate admits; the map is left or becomes the gate's |
| Orchestrator.Facets | src-tauri/src/query.rs:285-372 | at most five requests go out; the map is left or becomes the gate's, and is left when extra info was not asked for |
| Orchestrator.Serve | src-tauri/src/query.rs:266-378 | a call sends at most five requests, changes the map only through the gate, and when rejected carries the address error, sent nothing and left the map |
| Orchestrator.PlanEntries | src-tauri/src/query.rs:277-372 | a plan run from the start without a panic fills in exactly its facets, each from its own answer |
| Orchestrator.Record | src-tauri/src/query.rs:287-295 | recording a reply sets that facet's entry to the payload, error text or ping time and leaves the others alone |
| Orchestrator.ResultOf | src-tauri/src/query.rs:287-294 | a facet holds the payload exactly when the reply answered, and otherwise the error's text |
| Orchestrator.Ask | src-tauri/src/query.rs:285-296 | one facet block sends its own request once, takes one arrival, leaves the cooldown map alone, and panics exactly when that arrival does |
| Orchestrator.ReplyTo | src-tauri/src/query.rs:132-163 | the reply to each arrival is what `recv` classifies it as |
| Orchestrator.QueryServer | src-tauri/src/query.rs:266-378 | the command's outcome, datagrams sent and cooldown map are exactly those of `Serve` |
| Orchestrator.RunStep | src-tauri/src/query.rs:285-322 | a facet's block runs only when requested and keeps the state in step with the session |
| Orchestrator.RunExtraStep | src-tauri/src/query.rs:324-359 | the extra-info block asks the gate first and runs only when admitted |
| Orchestrator.RunFacet | src-tauri/src/query.rs:285-296 | one facet sends its request, receives and records the reply, or panics |
| Orchestrator.Opt | src-tauri/src/query.rs:285 | an optional facet is in the plan exactly when its flag holds |
| Orchestrator.PlanFacts | src-tauri/src/query.rs:285-372 | the plan runs exactly the requested facets, extra info only when admitted, each once, in the order info, players, rules, extra info, ping |
| Orchestrator.OrderedJoin | src-tauri/src/query.rs:285-372 | two ordered runs of facets join into an ordered run |
| Orchestrator.AskFacts | src-tauri/src/query.rs:285-296 | one facet sends one request, consumes one arrival, leaves the cooldown map alone and panics exactly when that arrival does |
| Orchestrator.RunPlanSent | src-tauri/src/query.rs:285-372 | the requests go out in plan order, one arrival per request, all of them unless one panics |
| Orchestrator.RunPlanPanics | src-tauri/src/query.rs:285-372 | a run stops right after the first arrival that panics |
| Orchestrator.RunPlanEntries | src-tauri/src/query.rs:285-372 | a run without a panic fills in each facet of the plan from the arrival answering its request and no other entry |
| Orchestrator.RunPlanKeepsTable | src-tauri/src/query.rs:285-322 | running facets never touches the cooldown map |
| Orchestrator.FacetsIsPlan | src-tauri/src/query.rs:285-372 | the five blocks of `query_server` are the plan run until the first panic, and the gate changes the map only when its block is reached |
| Orchestrator.FacetsTable | src-tauri/src/query.rs:332-358 | the cooldown map records the call exactly when an extra-info request went out |
| Orchestrator.ExtraInPlanRun | src-tauri/src/query.rs:332-358 | the extra-info request goes out exactly when it was asked for, the gate admitted it and the facets before it did not panic |
| Orchestrator.ExtraSent | src-tauri/src/query.rs:324-359 | the extra-info request goes out exactly when the facets before it did not panic |
| Orchestrator.RunPlanCount | src-tauri/src/query.rs:285-372 | a run sends the whole plan, or up to and including the request whose answer panicked |
| Orchestrator.FacetsTrace | src-tauri/src/query.rs:285-372 | the requests sent are a prefix of the plan, the whole plan unless an answer panicked, and then that answer was the last one taken |
| Orchestrator.FacetsEntries | src-tauri/src/query.rs:277-372 | without a panic, exactly the planned facets get entries, each from its own answer |
| Orchestrator.ServeRejected | src-tauri/src/query.rs:275-376 | the call fails with the address error exactly when address resolution fails, sending nothing and leaving the map alone |
| Orchestrator.ServeTrace | src-tauri/src/query.rs:266-378 | what a call sends and how it changes the cooldown map, and that an aborted call ends at the first panicking answer |
| Orchestrator.ServeAnswered | src-tauri/src/query.rs:266-378 | an answered call sent the whole plan and holds an entry for exactly the planned facets, each the payload or error text of its own answer (an error does not stop later facets), ping as the elapsed time mod 2^32 or 9999 |
| Orchestrator.ExtraInfoSuppressed | src-tauri/src/query.rs:332-358 | when the gate refuses, no extra-info request goes out, the map is unchanged and the extra-info entry stays unset |
| Orchestrator.NoExtraRequest | src-tauri/src/query.rs:347-348 | a plan without extra info sends no request with the 'o' opcode |
| IpcCommands.ParseCommand | src-tauri/src/ipc.rs:72-138 | a line is unknown exactly when it starts with none of the four prefixes; a recognised command's numbers are i32, and a hide field holds no ':' |
| IpcCommands.InitCommand | src-tauri/src/ipc.rs:73-76 | `init` registers exactly when its trimmed argument parses as i32 |
| IpcCommands.PosCommand | src-tauri/src/ipc.rs:86-94 | `pos` acts exactly when there are five fields and all parse as i32 |
| IpcCommands.ShowCommand | src-tauri/src/ipc.rs:112-114 | `show_overlay` acts exactly when a second ':'-field exists and parses as i32 |
| IpcCommands.HideCommand | src-tauri/src/ipc.rs:123-126 | `hide_overlay` acts on the second ':'-field as text whenever it exists |
| IpcCommands.FormatCommand | src-tauri/src/ipc.rs:72-122 | every well-formed command prints as a line with a known prefix |
| IpcCommands.PrefixesExclusive | src-tauri/src/ipc.rs:72-122 | a line starts with at most one of the four prefixes, so the test order does not matter |
| IpcCommands.FormatIntPlain | src-tauri/src/ipc.rs:86-112 | a printed integer holds no ',' or ':' and no surrounding whitespace |
| IpcCommands.ParseFormat | src-tauri/src/ipc.rs:72-138 | a printed well-formed command followed by a newline parses back to itself |
| IpcCommands.ParseInitLine | src-tauri/src/ipc.rs:72-76 | `init:` followed by a printed i32 and a newline parses as that pid |
| IpcCommands.InitLine | src-tauri/src/ipc.rs:72-76 | `init:` followed by any text `parse::<i32>` accepts parses as that pid |
| IpcCommands.ParsePosLine | src-tauri/src/ipc.rs:84-94 | `pos:` followed by five printed i32 values joined by ',' parses as those five values |
| IpcCommands.PosLine | src-tauri/src/ipc.rs:84-86 | a `pos:` line with plain coordinates is judged on those coordinates split on ',' |
| IpcCommands.PosFields | src-tauri/src/ipc.rs:87-94 | five fields that parse give the position command with their values in order |
| IpcCommands.ParseShowLine | src-tauri/src/ipc.rs:111-114 | `show_overlay:` followed by a printed i32 parses as that pid |
| IpcCommands.ShowLine | src-tauri/src/ipc.rs:111-114 | `show_overlay:` followed by any plain text `parse::<i32>` accepts parses as that pid |
| IpcCommands.ParseHideLine | src-tauri/src/ipc.rs:122-126 | `hide_overlay:` followed by a plain field parses as that field, number or not |
| IpcCommands.DispatchInit | src-tauri/src/ipc.rs:72-76 | an `init:` line parses its trimmed remainder |
| IpcCommands.DispatchPos | src-tauri/src/ipc.rs:84-86 | a `pos:` line splits its trimmed remainder on ',' |
| IpcCommands.DispatchShow | src-tauri/src/ipc.rs:111-112 | a `show_overlay:` line splits the whole trimmed line on ':' |
| IpcCommands.DispatchHide | src-tauri/src/ipc.rs:122-123 | a `hide_overlay:` line splits the whole trimmed line on ':' |
| IpcCommands.FieldLine | src-tauri/src/ipc.rs:112-123 | a name, ':', a plain field and a newline split into exactly the name and the field |
| IpcCommands.FieldPresent | src-tauri/src/ipc.rs:113-124 | the `parts.len() >= 2` guard always holds for a show or hide line |
| IpcCommands.InitTrimsArgument | src-tauri/src/ipc.rs:75 | spaces around the `init` argument are ignored |
| IpcCommands.LeadingSpaceRejected | src-tauri/src/ipc.rs:75 | an i32 parse rejects leading whitespace |
| IpcCommands.PosDoesNotTrimFields | src-tauri/src/ipc.rs:86-94 | a `pos` field with whitespace at its start makes the line malformed, since fields are not trimmed one by one |
| IpcHub.OverlayLabel | src-tauri/src/ipc.rs:96 | an overlay label is the fixed prefix followed by the id text |
| IpcHub.OverlayLabelInjective | src-tauri/src/ipc.rs:96 | different id texts give different labels |
| IpcHub.WrapI32 | src-tauri/src/ipc.rs:99-100 | release-build i32 arithmetic is the value modulo 2^32 in the i32 range, the value itself when in range |
| IpcHub.AsU32 | src-tauri/src/ipc.rs:104-105 | `as u32` is the value modulo 2^32, the value itself when in range |
| IpcHub.Placed | src-tauri/src/ipc.rs:98-106 | a placed window keeps its URL, gets a size and an i32 position |
| IpcHub.Opened | src-tauri/src/ipc.rs:14-42 | opening adds the label with an off-screen window at (-1000, -1000) showing the attached id; an existing label keeps its window; other windows are untouched |
| IpcHub.WorkHalts | src-tauri/src/ipc.rs:67-70 | the worker stops at a zero-byte read or a read error |
| IpcHub.WorkOn | src-tauri/src/ipc.rs:67-140 | on a line the worker applies it and reads on |
| IpcHub.Send | src-tauri/src/ipc.rs:148-166 | delivery to an unregistered id fails with `no_stream_found` and writes nothing; otherwise the message and a newline are appended to the registered connection only |
| IpcHub.Hub.constructor | src-tauri/src/ipc.rs:12 | the registry and the windows start empty |
| IpcHub.Hub.CreateOverlayWindow | src-tauri/src/ipc.rs:14-42 | `create_overlay_window` changes the windows as `Opened` |
| IpcHub.Hub.ProcessLine | src-tauri/src/ipc.rs:72-138 | handling one line changes the shared state as `Step` and writes nothing |
| IpcHub.Hub.Execute | src-tauri/src/ipc.rs:72-138 | carrying out a parsed command changes the shared state as `Apply` |
| IpcHub.Hub.RunWorker | src-tauri/src/ipc.rs:66-141 | the worker loop changes the shared state as `Work` over what the connection sends |
| IpcHub.Hub.SendMessageToGame | src-tauri/src/ipc.rs:148-166 | `send_message_to_game` answers and writes as `Send`, leaving registry and windows alone |
| IpcHub.InitLineEffect | src-tauri/src/ipc.rs:72-82 | an `init:` line with a valid pid registers this connection for that pid, overwriting any earlier one, and changes nothing else |
| IpcHub.Apply | src-tauri/src/ipc.rs:72-138 | only `init` changes the registry, inserting or overwriting its pid with this connection; a malformed or unknown command changes nothing; `init` and `pos` keep the set of windows, `show_overlay` only adds and `hide_overlay` only removes |
| IpcHub.Step | src-tauri/src/ipc.rs:72-138 | a line with none of the four prefixes leaves the state as it was, and lines other than `init:` never change the registry |
| IpcHub.PosEffect | src-tauri/src/ipc.rs:84-110 | a valid `pos` line moves and sizes the pid's window if it exists, ignoring x and y, and does nothing otherwise |
| IpcHub.PlacedInRange | src-tauri/src/ipc.rs:98-106 | for sizes that do not overflow, the window goes to (-w-1000, -h-1000) with size (w, h) |
| IpcHub.PlacedWraps | src-tauri/src/ipc.rs:99 | for the largest i32 width the x position wraps to a large positive value |
| IpcHub.ShowEffect | src-tauri/src/ipc.rs:111-121 | a valid `show_overlay` line opens the pid's overlay window if absent |
| IpcHub.HideEffect | src-tauri/src/ipc.rs:122-135 | a `hide_overlay` line closes the window labelled by its field if it exists, and otherwise changes nothing |
| IpcHub.ShowThenHide | src-tauri/src/ipc.rs:111-135 | showing and then hiding a new pid's overlay restores the state |
| IpcHub.OpenThenClose | src-tauri/src/ipc.rs:111-135 | opening then closing a new pid's overlay restores the state |
| IpcHub.HideMatchesTextNotPid | src-tauri/src/ipc.rs:125-126 | `hide_overlay` matches the label by text, so `+7` or `007` leaves the window for pid 7 open |
| IpcHub.Work | src-tauri/src/ipc.rs:66-141 | a worker never unregisters any pid |
| IpcHub.WorkRegistersOwnConnection | src-tauri/src/ipc.rs:66-141 | every pid a worker adds or changes is mapped to its own connection |
| IpcHub.IgnoredAfterStop | src-tauri/src/ipc.rs:67-70 | nothing after a close or read error has any effect |
| IpcHub.InitThenSend | src-tauri/src/ipc.rs:72-166 | after a connection sends `init:<pid>`, delivery to that pid succeeds and writes the message and a newline to that connection |

## Left out

- UDP I/O is not modelled; what the server sends back is a sequence of arrivals given in advance. The two-second receive deadline is not timed: a reply missing by then is the arrival `Silence`, answered with the error text `timed out`.
- Binding and connecting the UDP socket and their errors are not modelled, and neither is the `unwrap` on a failed send. Connecting uses the caller's text, not the resolved address.
- DNS lookup is a parameter: either a list of socket addresses or an error.
- The wall clock and the ping's measured milliseconds are parameters.
- JSON serialisation by serde is not modelled: facet entries are datatypes (payload or error text) rather than JSON strings.
- `helpers::decode_buffer` is not part of this model; it is a parameter.
- The mutex locks and lock poisoning are not modelled; the cooldown map and the stream registry are single sequential maps.
- Concurrency between worker threads is not modelled, and neither is concurrency between `query_server` calls.
- `listen_for_ipc`'s TCP listener, bind failure, accept loop and thread spawning are not modelled; the model is one worker per connection id. A failed `try_clone` of a stream is also not modelled.
- The Tauri window flags and title are not modelled, nor a build error other than an existing label, which keeps the existing window.
- A failed `write_all` to a registered stream is not modelled.
- `println!` logging is not modelled.
- QueryClient.Classify: follows `recv` as it behaves on Unix, where a datagram longer than the 1500-byte buffer is cut to 1500 bytes and then decoded (so does QueryClient.ReceiveInto). On Windows the same `recv` fails with WSAEMSGSIZE, and the facet gets an error entry instead; that platform's behaviour is not modelled.
- IpcHub.Placed: models the release build's wrapping i32 arithmetic at ipc.rs:99-100. A debug build would panic on overflow there.
- Cooldown.ElapsedSecs: models the release build's wrapping u64 subtraction. A debug build would panic when the clock goes back.
- `src-tauri/src/main.rs` is not part of this model.
