# cheapl in Dafny

cheapl is an xPL sound service. It listens for xPL `x10.basic` commands on
UDP and answers each "on" or "off" command for a device by playing a WAVE
file. This project models the logic at its core as pure Dafny functions and
proves properties about it. The modelled parts are:

- **The xPL datagram parser** (`datagramparser.h`, `datagramparser.cpp`),
  in module `DatagramParser`. It is a five-state line automaton that folds
  trimmed lines into a message: type, `{`, header lines, `}`, schema, `{`,
  body lines, `}`. The `key = value` pattern is written out as a predicate
  (`Splits`). Whitespace trimming and newline tokenising live in `Text`. The
  message record is in `XplMessage`.
- **The xPL protocol engine** (`xpl_application_service.cpp`), in modules
  `XplWire` and `XplService`.
  - `XplWire` covers `to_string`. It iterates map keys in `std::map` order,
    which is modelled in `KeyOrder`.
  - `XplService` covers:
    - the handler table and `register_*`;
    - `send` stamping the `source` header;
    - the receive path of `start_read` and `handle_message`, including the
      target filter, the "connected" detection and dispatch;
    - the literal heartbeat text;
    - the heartbeat schedule of `run`, `discovery_heartbeat` and `heartbeat`.
  - The socket is replaced by two lists of datagrams, one for `send_to`
    and one for `send`. The timer is replaced by an absolute deadline in
    seconds.
- **The sound service** (`cheaplservice.cpp`), in modules `Cheapl` and
  `Playback`. It covers:
  - file-name classification and pruning in `scan_files`;
  - `handle_command` and its two replies;
  - `bitsize_to_pcm_format`;
  - the frame arithmetic and write loop of `play_wav`.
- **The RIFF/WAVE parser** (`audiofiles/wav_parser.cpp`) and the `next(n)[p]`
  directive (`audiofiles/next_directive.hpp`), in modules `WavParser` and
  `NextDirective`. Parsers return `Match(value, consumed)`, `NoMatch` (an
  ordinary failure) or `Abort` (an expectation failure from `>`). The record
  types of `audiofiles/include/wav_file.hpp` and the little-endian fields are
  in `WavTypes`. `WavEncoding` builds WAVE files from chunk descriptions and
  proves what the parser makes of them.

Each operation has a partner: an inverse (parser and serialiser, decoder and
encoder), a reference predicate (`Chunked`, `Matches`, `Splits`), or an
invariant it keeps. An all-inputs lemma connects the two.

Where the code and the comments around it disagree, the model follows the
code:

- `handle_command` catches `std::range_error`. The `map::at` lookups throw
  `std::out_of_range` instead. That exception leaves `handle_command` and is
  swallowed by `handle_message`. A missing key therefore means no sound and
  no reply, which is what the comment intends, but by a different route.
- `parse_wavfile` is documented to succeed only on a completely parsed file,
  but it accepts an empty stream, and it never records where the samples
  start. See "## Findings". `Playback.PlayWav` and the service use it as
  written; `Playback.PlayWavFixed` is play_wav over the corrected parser.

## Model

| member | source | states |
|---|---|---|
| DatagramParser.Fresh | datagramparser.h:53-54 | a new parser expects a message type, is not ready and holds the empty message |
| DatagramParser.Reset | datagramparser.h:29-32 | reset goes back to expecting a message type, is not ready, and keeps the message accumulated so far |
| DatagramParser.ReadyIsFinal | datagramparser.h:34-42 | once is_ready() holds it keeps holding whatever lines follow, and get_message() keeps returning the same message |
| DatagramParser.FeedLine | datagramparser.cpp:15-55 | states only move forward, by at most one step; Ready ignores every line; only a trimmed "{" (type and schema states) or "}" (header and body states) changes the state, and then the message is unchanged; each state writes only its own field; header and body keys are never removed |
| DatagramParser.FeedLines | datagramparser.cpp:22-54 | over any line sequence the state never moves back, Ready absorbs everything after it, and keys are never removed |
| DatagramParser.FeedLinesAppend | xpl_application_service.cpp:256-261 | feeding a + b equals feeding a and then b with the same parser |
| DatagramParser.NameValue | datagramparser.cpp:20 | a key=value split, when found, is a non-empty key without '=' or space, optional whitespace, '=', optional whitespace, and a value that is the rest of the line and does not start with whitespace |
| DatagramParser.NameValueComplete | datagramparser.cpp:20 | every line the pattern describes is split, and exactly into that key and value (the split is unique) |
| DatagramParser.NameValueOfPair | datagramparser.cpp:20 | "k=v" with a key of key characters splits into k and v, so "a=b=c" gives key "a" and value "b=c" |
| DatagramParser.NoKeyNoMatch | datagramparser.cpp:20 | an empty line, or one that starts with '=' or a space, has no split |
| DatagramParser.NoEqualsNoMatch | datagramparser.cpp:20 | a line without '=' has no split |
| DatagramParser.UnmatchedLineIgnored | datagramparser.cpp:28-53 | in the header and body states, a line that is neither "}" nor a key=value line changes nothing |
| DatagramParser.BraceIsTrimmed | datagramparser.cpp:19-25 | a "{" surrounded by whitespace opens the header block |
| DatagramParser.LastTypeLineWins | datagramparser.cpp:24-27 | before the first "{", the last line fed becomes the message type and the headers are untouched |
| DatagramParser.RankBoundedByBraces | datagramparser.cpp:22-54 | each "}" advances the parser by at most two states, so its progress is bounded by the closing braces fed |
| DatagramParser.MissingBraceNeverReady | datagramparser.cpp:43-44 | lines with fewer than two "}" never make a fresh parser ready |
| Text.Trim | datagramparser.cpp:19 | the trimmed line neither starts nor ends with whitespace |
| Text.TrimExtent | datagramparser.cpp:19 | trimming keeps exactly the part of the line between its leading and trailing whitespace runs |
| Text.Tokenize | xpl_application_service.cpp:253-255 | splitting a datagram on '\n' yields only non-empty lines without newlines |
| Text.TrimOfPadded | datagramparser.cpp:19 | trimming removes exactly the surrounding whitespace of a trimmed string |
| Text.TokenizeJoinLines | xpl_application_service.cpp:253-255 | splitting newline-joined lines on '\n' gives back the lines with the empty ones dropped |
| KeyOrder.SortedKeys | xpl_application_service.cpp:52-55 | the keys of a std::map in iteration order: each key once, in strictly increasing lexicographic order |
| KeyOrder.SortedKeysUnique | xpl_application_service.cpp:52-55 | a strictly sorted sequence of exactly the keys is the iteration order |
| XplWire.ToStringLayout | xpl_application_service.cpp:48-64 | to_string is the type line, "{", one key=value line per header in key order, "}", the schema line, "{", the body lines, "}", each ended by a newline |
| XplWire.WireTokens | xpl_application_service.cpp:253-255 | splitting to_string(m) on newlines gives the type, "{", the header lines, "}", the schema, "{", the body lines, "}" |
| XplWire.PairLineParses | datagramparser.cpp:19-20 | a key=value line of a safe key and value is already trimmed, is not "}", and splits back into that key and value |
| XplWire.FeedPairLines | datagramparser.cpp:28-53 | feeding the lines of a map in a header or body state stays in that state and overlays the map onto that block |
| XplWire.RoundTrip | xpl_application_service.cpp:48-64 | feeding the tokens of to_string(m) to a fresh parser makes it ready with exactly m, when the type and schema are trimmed and not "{", keys have no '=', space or newline, and values are trimmed and newline-free |
| XplService.NewService | xpl_application_service.cpp:92-99 | a new service is not connected, has sent nothing, and has exactly one handler: the heartbeat request handler for (xpl-cmnd, hbeat.request) |
| XplService.Register | xpl_application_service.cpp:206-226 | registration installs the handler for one (type, schema) pair, replacing any earlier one, and changes nothing else |
| XplService.RegisterCommand | xpl_application_service.cpp:206-211 | register_command installs the handler for (xpl-cmnd, schema) and changes nothing else |
| XplService.RegisterStatus | xpl_application_service.cpp:215-218 | register_status installs the handler for (xpl-stat, schema) and changes nothing else |
| XplService.RegisterTrigger | xpl_application_service.cpp:222-226 | register_trigger installs the handler for (xpl-trig, schema) and changes nothing else |
| XplService.RegisterReplaces | xpl_application_service.cpp:204-205 | registering twice for one pair is the same as registering only the second handler |
| XplService.Stamp | xpl_application_service.cpp:229-231 | the message send writes has source set to the application id; every other header, the type, the schema and the body are unchanged |
| XplService.Send | xpl_application_service.cpp:229-236 | send queues exactly one datagram after those already queued and changes nothing else; a peer parsing it gets the message back with our id as source |
| XplService.SendRoundTrip | xpl_application_service.cpp:229-236 | a peer parsing the text send queued gets back the stamped message |
| XplService.HeartbeatTextIsToString | xpl_application_service.cpp:167-182 | the literal heartbeat text is exactly to_string of the xpl-stat hbeat.app message with headers hop, source, target and body interval, port, remote-ip, version |
| XplService.SendHeartbeat | xpl_application_service.cpp:167-182 | send_heartbeat_message adds exactly one datagram: to_string of the heartbeat message |
| XplService.HandleMessage | xpl_application_service.cpp:274-300 | a message with no target, another target, or (while not connected) a heartbeat without source changes nothing; connected becomes true exactly on an accepted own heartbeat; the registered handler for (type, schema) runs once if it is set; only the heartbeat request handler sends anything |
| XplService.Receive | xpl_application_service.cpp:247-267 | a datagram changes only the connected flag and the sent list, and has any effect only when the parser reaches Ready on it with a message addressed to us; it connects us only if that message is our own heartbeat |
| XplService.ReceiveToString | xpl_application_service.cpp:247-267 | receiving the text to_string(m) handles exactly m |
| XplService.OwnHeartbeatConnects | xpl_application_service.cpp:283-286 | receiving our own heartbeat text back connects the service |
| XplService.ConnectedStays | xpl_application_service.cpp:283-286 | once connected, no message, datagram, send, run or timer tick disconnects the service |
| XplService.HeartbeatRequestAnswered | xpl_application_service.cpp:289-293 | an addressed hbeat.request command sends one heartbeat and calls no application handler |
| XplService.RegisteredHandlerCalled | xpl_application_service.cpp:289-293 | after registering a handler, every accepted message of its type and schema is dispatched to it |
| XplService.Run | xpl_application_service.cpp:103-109 | run sends one heartbeat and arms the first discovery tick 3 s from now, changing nothing else |
| XplService.RegularTick | xpl_application_service.cpp:144-162 | heartbeat() sends one heartbeat and re-arms itself 5 min after the old deadline when connected, 30 s when not |
| XplService.DiscoveryTick | xpl_application_service.cpp:120-136 | a discovery tick while lonely with counter below 40 sends one heartbeat and ticks again 3 s later; otherwise it hands over to heartbeat(), sending two heartbeats and waiting 5 min if connected or 30 s if not |
| XplService.OnTimer | xpl_application_service.cpp:120-162 | a failed wait ends the service; otherwise the armed tick's heartbeats are appended to the sent list, the timer becomes the tick's next timer, the deadline is the old deadline plus the tick's delay (so strictly later), and nothing else changes |
| XplService.LonelyDiscovery | xpl_application_service.cpp:120-136 | while lonely, k discovery ticks after run have sent k + 1 heartbeats, each 3 s after the one before |
| XplService.LonelyHandOver | xpl_application_service.cpp:120-162 | a lonely service hands over on tick 41, at run + 123 s, having sent 43 heartbeats, and then waits 30 s |
| XplService.ConnectedTick | xpl_application_service.cpp:144-162 | a connected service beats every 5 minutes, sending two heartbeats on a hand-over tick and one otherwise |
| XplService.LonelyTick | xpl_application_service.cpp:144-162 | while not connected, each regular tick sends one heartbeat and moves the deadline 30 s on |
| Cheapl.ClassifyFileMatches | cheaplservice.cpp:245-253 | a file name is classified as (command, device) exactly when it is "on" or "off" in any case, a non-empty dot-free device name, and ".wav" in any case; the command is lower-cased and the device kept as written |
| Cheapl.RecordEffect | cheaplservice.cpp:251-255 | recording one directory entry adds or overwrites exactly the entry its name classifies to |
| Cheapl.Collect | cheaplservice.cpp:246-256 | every device the directory loop records has one or both of the commands "on" and "off" and nothing else |
| Cheapl.CollectFinds | cheaplservice.cpp:246-256 | the scan holds an entry for (device, command) exactly when some file name classifies to it |
| Cheapl.CollectLastWins | cheaplservice.cpp:246-256 | the file kept for (device, command) is the last name in directory order that classifies to it |
| Cheapl.Prune | cheaplservice.cpp:258-270 | pruning keeps exactly the devices with both an "on" and an "off" file, with their entries unchanged |
| Cheapl.ScanFiles | cheaplservice.cpp:240-271 | every device left after the scan has exactly the two commands "on" and "off" |
| Cheapl.ScanFilesKeeps | cheaplservice.cpp:240-271 | a device survives the scan exactly when both an on-file and an off-file name it, and each command maps to the last such file |
| Cheapl.Reply | cheaplservice.cpp:215-217 | the reply is the command with type xpl-trig and target "*"; every other header, the schema and the body are unchanged |
| Cheapl.HandleCommand | cheaplservice.cpp:205-233 | a command plays a file exactly when body command is "on" or "off" and the device and command are in the lights map; it then plays that file and sends two replies, the second with schema x10.confirm |
| Cheapl.PlaysMatchingFile | cheaplservice.cpp:208-214 | the file handle_command plays after a scan is the last directory entry whose name matches the command and device |
| Cheapl.NewCheapl | cheaplservice.cpp:134-155 | the constructed service is not connected, handles exactly hbeat.request and x10.basic commands, and its lights map is the scan of the directory |
| Cheapl.OnDatagram | cheaplservice.cpp:151-152 | handling a datagram never changes the lights map |
| Cheapl.Answer | cheaplservice.cpp:214-223 | an ignored command changes nothing; a failed play ends the service with its outcome; a played file queues the two replies, each stamped with our id |
| Cheapl.CommandReceived | xpl_application_service.cpp:247-293 | an addressed x10.basic command sent as text reaches handle_command as it was sent |
| Cheapl.CommandAnswered | cheaplservice.cpp:205-233 | a received x10.basic command that cannot be played leaves the service as it was; a playable one plays its file and then queues the stamped replies, or ends the service if playing fails |
| Cheapl.ReplyRoundTrip | cheaplservice.cpp:215-223 | a reply, once stamped and sent, parses back as a trigger to "*" from our id, with the command's body |
| Cheapl.RepliesRoundTrip | cheaplservice.cpp:215-223 | both replies handle_command sends parse back to exactly the stamped messages |
| Playback.BitsizeToPcmFormat | cheaplservice.cpp:63-70 | a format is chosen exactly for sizes up to 32 bits, and it is the narrowest format that holds the size |
| Playback.EveryFormatChosen | cheaplservice.cpp:63-70 | each format is chosen for its own width |
| Playback.Chunking | cheaplservice.cpp:100-106 | the writes of the loop cover every frame, none is empty or longer than a period, and only the last may be short |
| Playback.ChunkedUnique | cheaplservice.cpp:100-106 | there is only one write sequence with those properties |
| Playback.ChunkLoop | cheaplservice.cpp:97-106 | the loop, with frames to go strictly decreasing, writes exactly that sequence |
| Playback.PlayFrames | cheaplservice.cpp:97-106 | the write loop plays from the data position with the given format and frame size and writes all whole frames in period-sized chunks; it only fails to end when the period is zero |
| Playback.PlayParsed | cheaplservice.cpp:89-106 | a played file uses the format for its bit size, its rate and channels, a frame size of channels * bits / 8, starts at the data position, and writes all data.size / framesize frames in period-sized chunks; sizes above 32 bits are an error |
| Playback.PlayWav | cheaplservice.cpp:83-109 | play_wav throws a parse error exactly when parse_wavfile rejects the file; an empty (or missing) file is accepted and leads to reading an unwritten format; a played file uses the parsed format, rate and channels, writes all its frames, and starts at offset 0 |
| Playback.PlayWavFixed | cheaplservice.cpp:83-109 | with the corrected parser, an empty file is a parse error and a played file starts at the recorded data position |
| Cheapl.Player | cheaplservice.cpp:83-87 | playing a name missing from the directory reads an unwritten format; playing fails to parse only for a present file that parse_wavfile rejects |
| Playback.PlayedReadsInsideData | cheaplservice.cpp:97-106 | the bytes played lie inside the data chunk |
| Playback.PlayedReadsInsideFile | cheaplservice.cpp:97-106 | with the corrected parser, the bytes played lie inside the file |
| WavTypes.WordRoundTrip | audiofiles/wav_parser.cpp:90 | reading back an encoded little-endian word gives the value |
| WavTypes.DwordRoundTrip | audiofiles/wav_parser.cpp:89 | reading back an encoded little-endian double word gives the value |
| WavTypes.DwordEncodesBack | audiofiles/wav_parser.cpp:89 | encoding the double word read at an offset gives back those four bytes |
| NextDirective.Next | audiofiles/next_directive.hpp:100-103 | next(n)[p] fails when fewer than n bytes remain |
| NextDirective.NextShortIgnoresParser | audiofiles/next_directive.hpp:100-103 | with fewer than n bytes the inner parser is not consulted |
| NextDirective.NextSeesOnlyWindow | audiofiles/next_directive.hpp:106-111 | the result is the inner parser's result on the first n bytes, whatever follows them |
| NextDirective.NextStaysInWindow | audiofiles/next_directive.hpp:106-111 | a match never consumes past the window |
| NextDirective.NextMayStopEarly | audiofiles/next_directive.hpp:109-111 | a match may stop short of the end of the window |
| WavParser.Header | audiofiles/wav_parser.cpp:70-72 | the header matches exactly "RIFF", a length and "WAVE", consuming 12 bytes; without "RIFF" it does not match, and after "RIFF" anything else is an expectation failure |
| WavParser.FmtBody | audiofiles/wav_parser.cpp:78-86 | the format body matches when it holds 16 bytes, reads them as the six fields and skips the rest; fewer than 2 bytes is no match, 2 to 15 an expectation failure |
| WavParser.Fmt | audiofiles/wav_parser.cpp:74-87 | a fmt chunk consumes 8 + size + size % 2 bytes and yields the six fields after the size, and needs a padded size of at least 16 |
| WavParser.Data | audiofiles/wav_parser.cpp:91-92 | a data chunk consumes 8 + size + size % 2 bytes and records the size; the as-written rule leaves the position 0 |
| WavParser.ChunkAt | audiofiles/wav_parser.cpp:63-66 | a chunk does not match exactly when neither "fmt " nor "data" starts the input, and a match consumes at least its 8-byte head |
| WavParser.Store | audiofiles/wav_parser.cpp:64-65 | a fmt chunk replaces only the format and a data chunk only the data |
| WavParser.Chunks | audiofiles/wav_parser.cpp:63-66 | the repetition never fails softly and never consumes past its input; with the corrected rule every data chunk recorded lies inside the input |
| WavParser.Riff | audiofiles/wav_parser.cpp:60-68 | the riff rule does not match exactly when "RIFF" is missing or no chunk follows the header; a match has a header and at least one chunk |
| WavParser.ParseWavFile | audiofiles/wav_parser.cpp:121-132 | parse_wavfile succeeds exactly when the riff rule consumes the whole input, or the input is empty, which leaves the record unwritten; no data chunk it records carries a sample position |
| WavParser.ParseWavFileFixed | audiofiles/include/wav_parser.hpp:14-16 | the corrected parse succeeds only on a RIFF/WAVE file of at least 20 bytes, with the data chunk inside the file |
| WavEncoding.FieldBytesRoundTrip | audiofiles/wav_file_fusion.hpp:16-24 | the six format fields encoded in file order are read back as the same fields |
| WavEncoding.ParseOfEncoding | audiofiles/wav_parser.cpp:51-92 | any RIFF file built from one or more fmt and data chunks parses to the record the chunks describe, with either parser |
| WavEncoding.TrailingBytesRejected | audiofiles/wav_parser.cpp:121-132 | such a file followed by bytes that start no chunk is rejected by both parsers |
| WavEncoding.LengthFieldIgnored | audiofiles/wav_parser.cpp:70-72 | the RIFF length field does not affect the result |
| WavEncoding.LastFmtWins | audiofiles/wav_parser.cpp:55-65 | the format recorded is that of the last fmt chunk |
| WavEncoding.LastDataWins | audiofiles/wav_parser.cpp:55-65 | the data recorded is the size of the last data chunk, and with the corrected rule its sample offset |
| WavEncoding.EmptyStreamAccepted | audiofiles/wav_parser.cpp:121-132 | the empty stream is accepted as written, with nothing written to the record, and rejected by the corrected parser |
| WavEncoding.CanonicalAsWritten | audiofiles/wav_parser.cpp:91-92 | a canonical 44-byte-header file parses as written with sample position 0, where the header starts |
| WavEncoding.CanonicalFixed | audiofiles/include/wav_file.hpp:26 | the corrected parser gives the canonical file's samples position 44, where they actually are |
| Playback.CanonicalPlayback | cheaplservice.cpp:97-98 | on a canonical file, play_wav as written plays from offset 0, the RIFF header, where the corrected one plays from offset 44 |

## Left out

- The UDP transport is left out because it is I/O: socket options, `send_to`, `io_service::post` and the asynchronous receive. Datagrams are strings. Sent and queued datagrams are two lists in the service state.
- The 512-byte receive buffer is left out because it is transport behaviour. Datagram truncation by that buffer is not modelled.
- The listening port and local IP address are left out because they come from the socket. They are parameters of the service.
- Clocks and the deadline timer are left out because they are time. A timer expiry is one call of `XplService.OnTimer`, and a failed wait is a flag. Times are whole seconds.
- The console output of received lines and heartbeats is left out because it does not affect behaviour.
- `send_termination_message` is left out because it is called by `signoff` but defined nowhere in the source.
- ALSA is left out because it is a foreign library:
  - card lookup, opening, hardware parameters, `commit_parameters`, `writei` and `drain`;
  - the device errors these can throw.
  - The period size the device grants is a parameter.
- `set_parameters_from_wav` is left out for the same reason. Only its use of `bitsize_to_pcm_format` is modelled.
- The file system is left out because it is I/O:
  - Directory iteration is a sequence of file names, in the order the iterator yields them.
  - A file's path is its name.
  - The file's contents are a byte sequence. A missing file opens as an empty stream, as an `std::ifstream` that failed to open reads.
  - Reading, seeking, short reads and the sample buffer are not modelled: the played bytes are identified by offset and frame counts.
- Undefined and indeterminate behaviour in `play_wav` is not given a value:
  - reading a record field the parser never wrote is the outcome `Indeterminate`;
  - signed overflow or a zero frame size is `Undefined`;
  - a zero period is `NeverEnds`.
- `cheapl_main.cpp` and `list_cards` are left out because they are program entry and console output.
- Boost.Spirit debug nodes and the `on_error` message are left out because they only print.
- Text.Lower: only ASCII letters are case-folded, as `regex::icase` does in the "C" locale. Locale-dependent folding of other characters is not modelled.
- Cheapl.HandleCommand: the application handler is named by `Callback(name)` rather than called. `Cheapl.OnDatagram` makes the call.
- Playback.PlayWav: it returns the frame counts written, not the sample bytes. The bytes are the file's bytes from `start` onward.

## Findings

| source | as written | input that shows it | evidently intended | confidence | as-written member | corrected member |
|---|---|---|---|---|---|---|
| audiofiles/wav_parser.cpp:121-132 | success is "the input position reached the end". A failed parse leaves the position at the start, so an empty stream is accepted with nothing written to the record. | the empty byte sequence | success only when the whole input is a WAVE file (audiofiles/include/wav_parser.hpp:14-16) | not executed | WavEncoding.EmptyStreamAccepted | WavParser.ParseWavFileFixed |
| audiofiles/wav_parser.cpp:91-92 | the data rule records only the chunk size, so `data.pos` keeps its initial value 0. play_wav then seeks to it (cheaplservice.cpp:98) and plays the RIFF header as samples. | a canonical file: a 12-byte header, a 24-byte fmt chunk, then a data chunk whose samples start at offset 44 | `pos` is the position of the samples in the file (audiofiles/include/wav_file.hpp:26) | not executed | WavEncoding.CanonicalAsWritten | WavEncoding.CanonicalFixed |
