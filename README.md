# go-parsesyslog in Dafny

A model of the decoding core of go-parsesyslog, a Go library that reads
syslog messages from a byte stream into one record type, `LogMsg`. The
model covers two formats:

- RFC 3164, the BSD format: `<PRI>`, a 15-byte `Mmm dd HH:MM:SS`
  timestamp, a hostname, then a tag heuristic limited to 32 bytes.
- RFC 5424 over octet counting (section 4.3 of RFC 5425): `MSG-LEN SP`,
  then the header, the structured data and the message, all read within
  MSG-LEN bytes.

It also models the older revision of both decoders that the repository
still carries (`data.go`, `rfc3164.go`, `rfc5424.go`).

The project is organised as follows:

- `types.dfy` (`SyslogTypes`): bytes, `Option`/`Result`, the errors of the
  package, and a few sequence lemmas.
- `logmsg.dfy` (`LogMessage`): the record, its string accessors, and
  facility and severity.
- `cursor.dfy` (`Cursor`): a `Reader` class over an immutable byte
  sequence and a position. It stands for the buffered, limited and plain
  readers of the Go standard library that the decoders call.
- `common.dfy` (`Common`): `Atoi`, reading up to a space, `<PRI>`, and the
  length prefix.
- `rfc3164_date.dfy` (`Rfc3164Date`): the RFC 3164 timestamp.
- `rfc3164.dfy` (`Rfc3164`): the RFC 3164 decoder. It is a class because
  the Go decoder keeps scratch buffers and an end-of-line flag between
  calls.
- `sd.dfy` (`StructuredData`): the structured-data state machine, which
  both revisions use.
- `rfc5424.dfy` (`Rfc5424`): the RFC 5424 decoder.
- `legacy_data.dfy` (`LegacyData`), `legacy_rfc3164.dfy` (`LegacyRfc3164`)
  and `legacy_rfc5424.dfy` (`LegacyRfc5424`): the older revision.

Each decoding step has two forms:

- A specification function. From the bytes of the input, the position the
  step starts at and the state before it, it gives what the step records,
  the state it leaves, its error and where it stops reading.
- A method with the Go code's own loops and branches over a `Reader`. The
  method's postcondition ties its result, the reader's new position and the
  object's new fields to that function.

Lemmas then state what the functions promise: error sets, what a step
leaves alone, byte budgets and round trips.

Two things the Go code gets from its environment are parameters of the
model:

- The current time, for the year of an RFC 3164 timestamp.
- The decoding of RFC 3339 and of the older `Jan _2 15:04:05 ` layout. Each
  is a function parameter that returns a time or nothing.

The model follows the code where the code is looser than the RFCs:

- No priority range is checked.
- Any integer is a version.
- Structured data has no escape handling.
- A `-` field is NILVALUE by its first byte alone.
- The length prefix only limits the reader; nothing checks that the frame
  is exactly that long.
- When fewer than 3 bytes follow the structured data, the peek for the
  byte order mark fails and the decode succeeds with an empty message
  (rfc5424/rfc5424.go:78-80).

## Model

| member | source | states |
|---|---|---|
| LogMessage.LogMsg.Hostname | logmsg.go:52-54 | the string has one character per host byte, of that byte's value and in order; it is empty while the host is unset |
| LogMessage.LogMsg.AppName | logmsg.go:57-59 | one character per app-name byte, of equal value and in order; empty while unset |
| LogMessage.LogMsg.ProcID | logmsg.go:62-64 | one character per process-id byte, of equal value and in order; empty while unset |
| LogMessage.SDElement.IDString | logmsg.go:67-69 | one character per SD-ID byte, of equal value and in order |
| LogMessage.SDParam.Name | logmsg.go:72-74 | one character per byte of the parameter name, of equal value and in order |
| LogMessage.SDParam.Value | logmsg.go:77-79 | one character per byte of the parameter value, of equal value and in order |
| LogMessage.GoString | logmsg.go:52-79 | the Go string conversion gives one character per byte, of equal value and in order |
| LogMessage.GoStringRoundTrip | logmsg.go:52-79 | converting a byte field to a string and back gives the bytes unchanged |
| LogMessage.PriorityDecomposes | common.go:84-86 | facility * 8 + severity is the priority; for a non-negative priority the severity is 0..7, below 192 the facility is below 24, and a negative priority gives a severity in -7..0, as truncating division does |
| LogMessage.PriorityRoundTrip | common.go:84-86 | packing a facility and a severity below 8 into a priority and unpacking gives both back |
| Common.AtoiResult | common.go:91-103 | Atoi fails exactly when some byte lies above ':', and its error names such a byte |
| Common.LastRejected | common.go:91-103 | the rightmost byte Atoi rejects, every byte after it accepted |
| Common.Atoi | common.go:91-103 | the right-to-left conversion loop returns what AtoiResult says, for every input |
| Common.AtoiOfDigits | common.go:91-103 | on decimal digits Atoi is the decimal value, below 10^length |
| Common.AtoiDecimalRoundTrip | common.go:91-103 | Atoi reads back the decimal digits of every natural number |
| Common.AtoiLooseInputs | common.go:96-97 | the loose byte check accepts "" as 0, ":" as 10 and "-1" as -29, and rejects ';' |
| Common.UntilSpaceSpec | common.go:26-35 | with a space ahead the field is the bytes before it, and the count includes the space; with none it is all remaining bytes with end of input; it never holds a space |
| Common.UntilSpace | common.go:26-35 | the read stays within the input; on success the field is the bytes from the start up to a space, and the count takes in that space; otherwise it is end of input with every remaining byte |
| Common.UntilSpaceAt | common.go:26-35 | a run without a space, followed by a space, is read as exactly that run, and the read ends after the space |
| Common.ReadBytesUntilSpace | common.go:26-35 | the slice read returns the bytes, count, error and new position that UntilSpace gives |
| Common.ReadBytesUntilSpaceOrNilValue | common.go:40-57 | the byte loop reads exactly what ReadBytesUntilSpace reads: its NILVALUE exit tests a buffered byte for a space, which the buffer never holds; the older reader at data.go:42-60 is the same loop |
| Common.PriorityOfSpec | common.go:61-88 | no input is a raw EOF, a first byte other than '<' is a format error, no '>' is EOF after all bytes; otherwise the field is '<' bytes '>' and the priority is Atoi of the bytes, or an invalid priority |
| Common.PriorityOf | common.go:61-88 | the read stays within the input, and a priority is only decoded from a field of at least 2 bytes that starts with '<' and ends with '>' |
| Common.PriorityAt | common.go:61-88 | '<', bytes holding no '>', then '>' gives those bytes and their Atoi value, or an invalid priority, and the read ends after '>' |
| Common.WithPriority | common.go:84-86 | sets the priority, the facility to the priority divided by 8 and the severity to its remainder by 8 (FacilityFromPrio, SeverityFromPrio), so that facility * 8 + severity equals it; nothing else changes |
| Common.ParsePriority | common.go:61-88 | the method's buffer, record, error and new position are those of PriorityOf |
| Common.ReadUntilClose | common.go:71-80 | the loop collects the bytes before the next '>' and consumes the '>' when there is one; without one it stops at the end of the input |
| Common.PriorityExamples | common.go:80-87 | no range check: "<999>" is 999 and "<>" is 0; "0" is a format error and "<x>" an invalid priority |
| Common.MsgLengthSpec | common.go:15-21 | the prefix ends after the first space and its value is Atoi of the bytes before it; with no space it is end of input |
| Common.MsgLengthOf | common.go:15-21 | the read stays within the input, and a length is only decoded from bytes that end with a space |
| Common.ReadMsgLength | common.go:15-21 | the method's value, error and position are those of MsgLengthOf, and 0 on error |
| Common.MsgLengthRoundTrip | common.go:15-21 | a printed length followed by a space reads back as that length, whatever follows |
| Rfc3164Date.ParseMonth | rfc3164/date.go:91-139 | -1 exactly for the bytes that are not one of the twelve case-sensitive abbreviations; otherwise the month whose abbreviation they are |
| Rfc3164Date.ParseDoubleDigit | rfc3164/date.go:157-162 | -1 exactly unless the first byte is 0..6 and the second a digit; otherwise 0..69 with those two digits |
| Rfc3164Date.ParseDay | rfc3164/date.go:143-154 | a space-padded digit gives its value, otherwise the two-digit reading |
| Rfc3164Date.InferYear | rfc3164/date.go:76-84 | the same month, day and time, in the current year or the year before, the year before exactly when the candidate lies more than 31 days ahead |
| Rfc3164Date.ParseTimestamp | rfc3164/date.go:36-87 | only a 15-byte input is decoded; ParseTimestampSpec states each outcome |
| Rfc3164Date.ParseTimestampSpec | rfc3164/date.go:36-87 | a wrong length, then misplaced separators, then an unknown month are reported first; past the month, an unreadable day is BadNumber and only it is; a readable day outside 1..31 is OutOfRange; with the day in range, an unreadable hour, minute or second, or one outside 0..23, 0..59 or 0..60, is OutOfRange; with every field in range the result is the year inference of the parsed fields; no other errors; a decoded time has its fields in range and its month spelt by the first three bytes |
| Rfc3164Date.MonthNamesRoundTrip | rfc3164/date.go:91-139 | every abbreviation reads back as its month number |
| Rfc3164Date.StampRoundTrip | rfc3164/date.go:36-87 | a printed in-range timestamp reads back with its month, day and time of day |
| Rfc3164Date.BadFormatExample | rfc3164/date.go:40-42 | a misplaced separator is a format error |
| Rfc3164Date.BadMonthExample | rfc3164/date.go:45-48 | an unknown abbreviation is a month error |
| Rfc3164Date.BadNumberExample | rfc3164/date.go:51-54 | day "99" is unreadable (first digit above 6) |
| Rfc3164Date.OutOfRangeExamples | rfc3164/date.go:55-63 | day 00 and hour 25 are out of range |
| Rfc3164.Classify | rfc3164/rfc3164.go:188-205 | sorting a tag byte keeps the bytes read and the flags that are not its own |
| Rfc3164.Advance | rfc3164/rfc3164.go:178-187 | every scanned byte goes to the scratch buffer |
| Rfc3164.ScanTag | rfc3164/rfc3164.go:173-206 | the scan reads at most 32 bytes and no more than are left |
| Rfc3164.ScanTagPrefix | rfc3164/rfc3164.go:173-179 | the scratch buffer holds exactly the bytes read, and all that were left when the scan hits end of input, which happens only before 32 |
| Rfc3164.ScanTagStop | rfc3164/rfc3164.go:181-187 | a scan that neither hits end of input nor fills 32 bytes stopped after a space or newline; only a newline sets the end-of-line flag |
| Rfc3164.ScanTagKeepsInvariant | rfc3164/rfc3164.go:188-205 | the app name never holds ':', '[', a space or newline, the pid never ':', ']', a space or newline, and together they are no longer than the bytes read |
| Rfc3164.ContentEnd | rfc3164/rfc3164.go:228-244 | the continuation reads at most what is left of the 32-byte budget |
| Rfc3164.ContentEndSpec | rfc3164/rfc3164.go:228-244 | the continuation holds no newline but possibly its last byte, and stops only at end of input, the budget or after a newline |
| Rfc3164.ContentStep | rfc3164/rfc3164.go:228-244 | the continuation never fails, appends to the message exactly the bytes it reads, and reads no more than is left of the 32-byte budget |
| Rfc3164.ReadContent | rfc3164/rfc3164.go:229-242 | the byte loop stops where ContentEnd says, returns the bytes read, and reports a newline exactly when it ended on one |
| Rfc3164.TagStep | rfc3164/rfc3164.go:164-225 | the tag step's only error is end of input, which leaves the record alone; it never changes the host, the timestamp or the priority |
| Rfc3164.TagStepBounded | rfc3164/rfc3164.go:164-225 | the tag and continuation read at most 32 bytes, the scratch buffer is the scanned prefix, and the only error is EOF in the scan, which leaves the record alone |
| Rfc3164.TagStepAcceptedSpec | rfc3164/rfc3164.go:209-215 | an accepted tag sets a non-empty app name and, only if non-empty, the pid, each free of delimiters; the message gets the bytes after the tag; host, timestamp and priority are kept |
| Rfc3164.TagWithPid | rfc3164/rfc3164.go:164-215 | for input `app[pid]: rest` with an app name of non-delimiter bytes and at most 32 bytes before `rest`, the app name is `app`, the pid is `pid` when non-empty, and the message gets the start of `rest` up to where the continuation stops |
| Rfc3164.TagNoPid | rfc3164/rfc3164.go:164-215 | for input `app: rest` under the same conditions, the app name is `app`, the pid is left alone, and the message gets the start of `rest` up to where the continuation stops |
| Rfc3164.ShortLineWithPid | rfc3164/rfc3164.go:164-244 | a line `app[pid]: rest` of at most 32 bytes without a newline sets app and pid and gives `rest` whole to the message, reading to the end |
| Rfc3164.ShortLineNoPid | rfc3164/rfc3164.go:164-244 | a line `app: rest` of at most 32 bytes without a newline sets the app name and gives `rest` whole to the message |
| Rfc3164.ShortLineNoTag | rfc3164/rfc3164.go:217-244 | a line of at most 32 bytes that starts with a colon-free word and a space goes to the message whole; the end-of-line flag is set only by a final newline |
| Rfc3164.TagExampleWithPid | rfc3164/rfc3164_test.go:68-71 | "syslog-ng[1122680]: Test123" gives app "syslog-ng", pid "1122680" and message "Test123" |
| Rfc3164.TagExampleNoPid | rfc3164/rfc3164_test.go:72 | "su: Test123" gives app "su", no pid and message "Test123" |
| Rfc3164.TagExampleNoTag | rfc3164/rfc3164_test.go:73 | "This is a test " has no tag and goes to the message whole |
| Rfc3164.TagExampleMark | rfc3164/rfc3164_test.go:74 | "-- MARK --\n" has no tag, goes to the message whole and sets the end-of-line flag |
| Rfc3164.TagStepNoTagSpec | rfc3164/rfc3164.go:217-224 | without an accepted tag only the message changes, and it gets every byte read, the scanned ones included |
| Rfc3164.UnacceptedTagMessage | rfc3164/rfc3164.go:217-224 | the scanned bytes and the continuation together are one run of the input |
| Rfc3164.TagContinuesPastNewline | rfc3164/rfc3164.go:181-184 | a newline ending the scan does not end the step: "abc\nxyz" goes to the message whole, with the end-of-line flag set |
| Rfc3164.TimestampStep | rfc3164/rfc3164.go:129-147 | fewer than 15 bytes left is EOF; exactly 15 (no byte after the stamp) is a discard failure; otherwise the 15 bytes are parsed with the clock: a parse error is the step's error, a parsed time becomes the timestamp and nothing else changes; a successful step reads 15 bytes and one more |
| Rfc3164.PriorityStep | rfc3164/rfc3164.go:103-105 | a failed priority leaves the record alone; a successful one reads '<' … '>' and sets the priority with the facility and severity derived from it, changing nothing else |
| Rfc3164.LineEnd | rfc3164/rfc3164.go:83-93 | the rest of the line is read up to and including the first newline, or to the end of the input when there is none |
| Rfc3164.HostnameStep | rfc3164/rfc3164.go:151-160 | on success the host is the bytes before the next space, the space is consumed, and nothing else in the record changes |
| Rfc3164.HeaderOf | rfc3164/rfc3164.go:102-125 | a successful header has set both the host and the timestamp |
| Rfc3164.HeaderSpec | rfc3164/rfc3164.go:102-125 | the header keeps the record's type and fails only with errors of its steps |
| Rfc3164.Decode | rfc3164/rfc3164.go:67-97 | a decode never reports a raw EOF; a successful one has a host and a timestamp, and its message length is the message's length (the message itself is stated by DecodeSpec) |
| Rfc3164.DecodeSpec | rfc3164/rfc3164.go:67-97 | a decode never reports a raw EOF, fails only with the steps' errors, keeps the RFC 3164 type, and sets the message length to the message's length; a failed header is the decode's error (EOF as premature EOF) with the header's record; after a good header the record is the header's, and the message is the header's message plus the rest of the line through its newline, unless the tag content already ended the line |
| Rfc3164.ArchTimestamp | rfc3164/rfc3164_test.go:26 | the stamp `Nov 27 16:00:35` of the test line reads as 27 November 16:00:35 in the year the clock gives |
| Rfc3164.ArchTag | rfc3164/rfc3164_test.go:26 | the tag `wneessen[1130275]: ` of the test line gives app wneessen and pid 1130275, and the message gets `test` and its newline, which ends the input |
| Rfc3164.ArchHeader | rfc3164/rfc3164.go:102-125 | the header of the test line succeeds and reads the whole line: priority 13, the stamp, host arch-vm, app wneessen, pid 1130275 and message `test` with its newline |
| Rfc3164.ParseStringExample | rfc3164/rfc3164_test.go:20-56 | the test line decodes without error to priority 13, facility 1, severity 5, 27 November 16:00:35, host arch-vm, app wneessen, pid 1130275, no message ID, message `test` with its newline and message length 5 |
| Rfc3164.Parser.constructor | rfc3164/rfc3164.go:49-54 | a fresh decoder has empty buffers and the flag clear |
| Rfc3164.Parser.ParseReader | rfc3164/rfc3164.go:67-97 | the record, error and scratch state left are those of Decode on the input and the old scratch state |
| Rfc3164.Parser.ParseHeader | rfc3164/rfc3164.go:102-125 | the steps run in order and stop at the first error, as HeaderOf says |
| Rfc3164.Parser.ParseTimestamp | rfc3164/rfc3164.go:129-147 | reads exactly 15 bytes and discards one more unchecked, as TimestampStep says; a failed discard is its own error, not a premature end |
| Rfc3164.Parser.ParseHostname | rfc3164/rfc3164.go:151-160 | the hostname is the bytes before the next space, as HostnameStep says |
| Rfc3164.Parser.ScanTagBytes | rfc3164/rfc3164.go:169-206 | the scan loop leaves the buffers and flags that ScanTag computes, and has read as many bytes as the buffer holds |
| Rfc3164.Parser.SortTagByte | rfc3164/rfc3164.go:188-205 | the branches give what Classify gives |
| Rfc3164.Parser.ParseTag | rfc3164/rfc3164.go:164-225 | the record, scratch state, error and position are those of TagStep |
| Rfc3164.Parser.ReadMessageContent | rfc3164/rfc3164.go:228-244 | appends the continuation to the message and sets the flag on a newline, as ContentStep says; end of input is no error |
| StructuredData.Loop | rfc5424/rfc5424.go:151-197 | the element loop never reads backwards and stays within the input |
| StructuredData.Feed | rfc5424/rfc5424.go:151-197 | a ']' appends the element being built to the elements and leaves the element; no other byte changes the elements; a '[' enters an element |
| StructuredData.LoopSpec | rfc5424/rfc5424.go:151-200 | the loop fails only with EOF, assigning nothing; when it stops it stopped on a space, and it gives one more element for every ']' it read |
| StructuredData.StructuredDataSpec | rfc5424/rfc5424.go:127-201 | a format error exactly for a first byte other than '-' or '['; '-' consumes one more byte unchecked and assigns nothing; every other error is EOF |
| StructuredData.StructuredDataOf | rfc5424/rfc5424.go:127-201 | the read stays within the input; an error assigns no elements; a first byte other than '-' or '[' is a format error, and '-' assigns no elements |
| StructuredData.ParamRoundTrip | rfc5424/rfc5424.go:173-189 | an encoded ` name="value"` is appended to the element being built |
| StructuredData.ParamsRoundTrip | rfc5424/rfc5424.go:168-195 | encoded parameters are appended to the element in order |
| StructuredData.ElementRoundTrip | rfc5424/rfc5424.go:156-172 | an encoded element after its '[' is appended to the elements |
| StructuredData.ElementsRoundTrip | rfc5424/rfc5424.go:151-197 | encoded elements followed by a space read back as themselves after those already read |
| StructuredData.EncodeAt | rfc5424/rfc5424.go:127-201 | at any position, plain encoded elements followed by a space read back as exactly those elements, with an empty scratch buffer, ending after the space |
| StructuredData.EncodeRoundTrip | rfc5424/rfc5424.go:127-201 | at least one plain element, encoded and followed by a space, reads back as exactly those elements, stopping after the space |
| StructuredData.IdNeedsASpace | rfc5424/rfc5424.go:168-172 | "[a] " gives one element with an empty ID: the ID is only assigned at a space |
| StructuredData.BracketClosesValue | rfc5424/rfc5424.go:156-161 | a ']' inside a quoted value closes the element, dropping the open parameter |
| Rfc5424.FieldStepSpec | rfc5424/rfc5424.go:255-319 | a field is the bytes before the next space; NILVALUE leaves the record alone, any other value sets its own field and no other; no space is EOF |
| Rfc5424.FieldStep | rfc5424/rfc5424.go:255-319 | a failed or NILVALUE field leaves the record alone, and no field step touches the body of the record |
| Rfc5424.TimestampStepSpec | rfc5424/rfc5424.go:234-251 | NILVALUE leaves the record alone; otherwise the decoded time is set, or the step fails with an invalid timestamp and changes nothing |
| Rfc5424.TimestampStep | rfc5424/rfc5424.go:234-251 | a failed or NILVALUE timestamp leaves the record alone |
| Rfc5424.VersionStepSpec | rfc5424/rfc5424.go:218-229 | the version is Atoi of the bytes before the space, any integer; only a failing Atoi is an invalid version; the scratch buffer is untouched |
| Rfc5424.VersionStep | rfc5424/rfc5424.go:218-229 | the scratch buffer is left alone, and a failed step leaves the record alone |
| Rfc5424.AnyVersion | rfc5424/rfc5424.go:223-227 | version 7 is read as 7 |
| Rfc5424.PriorityKeepsBody | rfc5424/rfc5424.go:97-99 | the priority step fails only with a header error and leaves the body of the record alone |
| Rfc5424.VersionKeepsBody | rfc5424/rfc5424.go:100-102 | the same for the version step |
| Rfc5424.TimestampKeepsBody | rfc5424/rfc5424.go:103-105 | the same for the timestamp step |
| Rfc5424.FieldKeepsBody | rfc5424/rfc5424.go:106-117 | the same for the four byte-field steps |
| Rfc5424.HeaderSpec | rfc5424/rfc5424.go:96-120 | the header fails only with EOF, a format error, or an invalid priority, version or timestamp, and keeps type, structured data, byte order mark and message |
| Rfc5424.PriorityStep | rfc5424/rfc5424.go:97-99 | a failed priority leaves the record alone; a successful one reads '<' … '>' and sets the priority with its facility and severity, changing nothing else |
| Rfc5424.AfterHeader | rfc5424/rfc5424.go:69-90 | never a raw EOF (a premature end instead); keeps the message type; a failed structured-data step returns the record as it was |
| Rfc5424.HeaderOf | rfc5424/rfc5424.go:96-120 | the seven steps stay within the input and leave the type, structured data, byte order mark, message and its length alone |
| Rfc5424.HeaderRoundTrip | rfc5424/rfc5424.go:96-120 | the bytes of a well-formed header read back without error, ending after the header, with MSGID in the scratch buffer, the priority and version set, the timestamp decoded and each field set unless NILVALUE |
| Rfc5424.SDStep | rfc5424/rfc5424.go:127-201 | only the record's structured data can change, and a failed step changes nothing |
| Rfc5424.BodyAppended | rfc5424/rfc5424.go:83-88 | a body of 3 or more bytes appended to an empty message sets the length to the message's, and the byte order mark flag matches the message's start |
| Rfc5424.DecodeFrameSpec | rfc5424/rfc5424.go:59-91 | a frame fails only with frame errors, a header or structured-data error being returned with EOF turned into a premature end; on success the record is what the header and structured data left, and the message is exactly the frame's bytes after the structured data when at least 3 are left and empty otherwise, its length counted and its BOM flag matching its start |
| Rfc5424.DecodeFrame | rfc5424/rfc5424.go:59-91 | end of input inside a frame is never returned as a raw EOF |
| Rfc5424.FrameRoundTrip | rfc5424/rfc5424.go:59-91 | a well-formed header, plain encoded elements, a space and a body decode without error to the header's record with those elements and that body as the message, or an empty message for a body under 3 bytes |
| Rfc5424.DecodeSpec | rfc5424/rfc5424.go:45-91 | prefix errors come back as they are (a raw EOF only when the input has no space), the rest are frame errors; the type is RFC 5424 and the body has the shape DecodeFrameSpec gives |
| Rfc5424.Decode | rfc5424/rfc5424.go:45-91 | a raw EOF comes only from a length prefix that runs to the end of the input |
| Rfc5424.DecodeMessageEndsFrame | rfc5424/rfc5424.go:45-91 | a decoded message is a suffix of the frame the length prefix announces |
| Rfc5424.DecodeRoundTrip | rfc5424/rfc5424.go:45-91 | a length-prefixed frame of a well-formed header, plain elements, a space and a body decodes without error to the full record: type, priority, facility, severity, version, timestamp, the four fields, elements, message, length and byte order mark flag |
| Rfc5424.HelloWorld | rfc5424/rfc5424_test.go:20-59 | the "107 <7>1 … Hello, World!" message decodes to priority 7, facility 0, severity 7, version 1, the parsed timestamp, host and app, no pid or MSGID, the element `foo@1234` with `Revision="1.2.3.4"`, message "Hello, World!" and length 13 |
| Rfc5424.FrameLimited | rfc5424/rfc5424.go:59-60 | bytes after the announced frame are never read: appending to a complete input changes nothing |
| Rfc5424.Frame | rfc5424/rfc5424.go:59-60 | the frame is a prefix of the input, at least as long as the length prefix |
| Rfc5424.Parser.constructor | rfc5424/rfc5424.go:30-32 | a fresh decoder has an empty scratch buffer |
| Rfc5424.Parser.ParseReader | rfc5424/rfc5424.go:45-91 | the record, error and scratch buffer are those of Decode |
| Rfc5424.Parser.ParseFrame | rfc5424/rfc5424.go:59-91 | through the limited reader, the result is that of DecodeFrame on the frame |
| Rfc5424.Parser.ParseHeader | rfc5424/rfc5424.go:96-120 | the seven steps in order, the first error stopping them, as HeaderOf says |
| Rfc5424.Parser.ParseProtoVersion | rfc5424/rfc5424.go:218-229 | as VersionStep says |
| Rfc5424.Parser.ParseTimestamp | rfc5424/rfc5424.go:234-251 | as TimestampStep says |
| Rfc5424.Parser.ParseField | rfc5424/rfc5424.go:255-319 | each of the four field readers, as FieldStep says |
| Rfc5424.Parser.ParseStructuredData | rfc5424/rfc5424.go:127-201 | the byte loop over the three flags gives the record, scratch buffer, error and position of SDStep |
| Rfc5424.Parser.ParseAfterHeader | rfc5424/rfc5424.go:69-91 | the structured data, byte order mark and message give the record, error and scratch buffer of AfterHeader |
| Rfc5424.Parser.ParseBOM | rfc5424/rfc5424.go:205-214 | fewer than 3 bytes left is EOF; otherwise the BOM flag is set exactly when the next 3 bytes are the mark, and nothing is consumed |
| LegacyData.StrconvAtoi | data.go:15 | the standard conversion's only error is a syntax error |
| LegacyData.StrconvAtoiSpec | data.go:15 | accepted exactly: an optional sign and at least one digit; the value is the digits' decimal value, negated after '-' |
| LegacyData.StrconvAtoiRoundTrip | data.go:15 | every integer's decimal text reads back, and so does a '+' before a natural number |
| LegacyData.StricterThanAtoi | data.go:15 | "" and "1:" are read by the newer Atoi but are syntax errors here |
| LegacyData.ReadBytesUntilSpace | data.go:22-36 | the one-byte-per-read loop gives the bytes, count, error and position of UntilSpace |
| LegacyData.MsgLengthOf | data.go:10-17 | the read stays within the input, and a length is only decoded from bytes that end with a space |
| LegacyData.MsgLengthRoundTrip | data.go:10-17 | any integer's text followed by a space reads back as that integer; no space at all is EOF after the whole input |
| LegacyData.ReadMsgLength | data.go:10-17 | the method's value, error and position are those of MsgLengthOf, and 0 on error |
| LegacyRfc3164.InYearSpec | rfc3164.go:88-92 | moving a time into the current year keeps its time of day; 29 February becomes 1 March outside leap years, any other date is kept |
| LegacyRfc3164.InYear | rfc3164.go:88-92 | the time gets the given year and keeps its time of day |
| LegacyRfc3164.LeapDayExamples | rfc3164.go:88-92 | 29 February moves to 1 March 2023 and stays in 2024 |
| LegacyRfc3164.TimestampStepSpec | rfc3164.go:74-97 | reads exactly 16 bytes, or EOF after all that are left; an invalid timestamp exactly when the layout does not match; otherwise only the timestamp changes, moved into the current year when the layout gave year 0 |
| LegacyRfc3164.TimestampStep | rfc3164.go:74-97 | a successful step reads 16 bytes and sets the timestamp, changing nothing else; a failed one leaves the record alone |
| LegacyRfc3164.HeaderSpec | rfc3164.go:55-70 | the header keeps the type and fails only with EOF, a format error, an invalid priority or an invalid timestamp |
| LegacyRfc3164.HeaderOf | rfc3164.go:55-70 | a successful header has set both the host and the timestamp |
| LegacyRfc3164.DecodeSpec | rfc3164.go:21-50 | never a raw EOF, only the steps' errors, the RFC 3164 type, and the message length set to the message's length; a failed header is the decode's error with the header's record; after a good header the message is the header's message plus the rest of the line through its newline, unless the tag content already ended the line |
| LegacyRfc3164.Decode | rfc3164.go:21-50 | never a raw EOF; a successful decode has a host and a timestamp, and its message length is the message's length |
| LegacyRfc3164.Parser.constructor | rfc3164.go:11-17 | a fresh decoder has empty buffers and the flag clear |
| LegacyRfc3164.Parser.ParseReader | rfc3164.go:21-50 | the record, error and scratch state are those of Decode |
| LegacyRfc3164.Parser.ParseHeader | rfc3164.go:55-70 | the steps in order, the first error stopping them, as HeaderOf says; the priority reads as the newer one does |
| LegacyRfc3164.Parser.ParseTimestamp | rfc3164.go:74-97 | as TimestampStep says |
| LegacyRfc3164.Parser.ParseHostname | rfc3164.go:101-109 | the same hostname step as the newer decoder's |
| LegacyRfc3164.Parser.SortTagByte | rfc3164.go:135-155 | the branches give what the newer Classify gives, and the count `sb` plus the two buffers' lengths grows by exactly one |
| LegacyRfc3164.Parser.ScanTagBytes | rfc3164.go:118-156 | the scan leaves what the newer scan leaves, and `sb` plus the lengths of app and pid is the number of bytes read |
| LegacyRfc3164.Parser.RecordTag | rfc3164.go:157-191 | records the tag as the newer decoder does: an accepted tag sets the app name and a non-empty pid, otherwise the scanned bytes go to the message; the count reached is the number of bytes scanned, so both continuations start at the same budget |
| LegacyRfc3164.Parser.ParseTag | rfc3164.go:113-209 | the older tag parse, with its two continuation loops, has exactly the newer TagStep's effect |
| LegacyRfc5424.PriorityStepSpec | rfc5424.go:199-227 | '<' is required; the bytes up to '>' are converted strictly; only a failed conversion is an invalid priority; no '>' is EOF |
| LegacyRfc5424.PriorityStep | rfc5424.go:199-227 | a failed priority leaves the record alone |
| LegacyRfc5424.VersionStep | rfc5424.go:232-243 | a failed step leaves the record alone; when the field up to the space is read, the step fails with an invalid version exactly when strconv.Atoi rejects it, and otherwise sets the protocol version to Atoi's value |
| LegacyRfc5424.HeaderOf | rfc5424.go:75-99 | the seven steps leave the type, structured data, byte order mark, message and its length alone |
| LegacyRfc5424.SDStep | rfc5424.go:106-180 | only the structured data changes, and a failed step leaves the record alone |
| LegacyRfc5424.NoPriorityRange | rfc5424.go:219-225 | "<-7>" is accepted as priority -7 |
| LegacyRfc5424.WindowSpec | rfc5424.go:184-195 | the zeroed 3-byte window starts with the bytes read, and is the byte order mark exactly when they are |
| LegacyRfc5424.BodyStepSpec | rfc5424.go:51-67 | EOF exactly when the frame has no byte left after the structured data; otherwise the message is the bytes read, zero-padded to 3, then the whole rest of the input; the BOM flag says whether the bytes read are the mark, and the length equals the message's exactly when 3 bytes were read |
| LegacyRfc5424.BodyStep | rfc5424.go:51-67 | EOF, with the record unchanged, exactly when the frame has no byte left; otherwise the message grows by 3 bytes for the window plus one byte for every byte of the whole input past what the window read |
| LegacyRfc5424.DecodeErrors | rfc5424.go:26-70 | an invalid length exactly when the prefix fails; otherwise premature end, format and invalid-field errors, or a raw EOF; the type is always RFC 5424 |
| LegacyRfc5424.Decode | rfc5424.go:26-70 | a successful decode has a message of at least 3 bytes |
| LegacyRfc5424.DecodeFrameErrors | rfc5424.go:34-67 | the errors after the prefix, and the type kept |
| LegacyRfc5424.DecodeFrame | rfc5424.go:34-67 | a successful frame has a message of at least 3 bytes, the zeroed window included |
| LegacyRfc5424.HeaderSpec | rfc5424.go:75-99 | the header fails only with header errors and keeps the body of the record |
| LegacyRfc5424.BodyStepExtends | rfc5424.go:57-67 | reading the body from a longer input appends the extra bytes to the message and counts them |
| LegacyRfc5424.BodyRunsToEnd | rfc5424.go:57-67 | the body is read from the unlimited reader: bytes appended after the announced frame end up in the message and its length |
| LegacyRfc5424.ParseReader | rfc5424.go:26-70 | the record and error are those of Decode |
| LegacyRfc5424.ParseFrame | rfc5424.go:34-67 | the header and structured data through the limited reader, the body through the underlying one, as DecodeFrame says |
| LegacyRfc5424.ParseBody | rfc5424.go:51-67 | the window from the limited reader and the rest from the underlying reader, as BodyStep says |
| LegacyRfc5424.ParseHeader | rfc5424.go:75-99 | the seven steps in order, the first error stopping them, as HeaderOf says |
| LegacyRfc5424.ParsePriority | rfc5424.go:199-227 | the byte loop gives what PriorityStep gives |
| LegacyRfc5424.ParseProtoVersion | rfc5424.go:232-243 | as VersionStep says |
| LegacyRfc5424.ParseTimestamp | rfc5424.go:248-265 | the same timestamp step as the newer decoder's |
| LegacyRfc5424.ParseField | rfc5424.go:269-333 | the same field steps as the newer decoder's |
| LegacyRfc5424.ParseStructuredData | rfc5424.go:106-180 | the byte loop gives what SDStep gives, with the same state machine as the newer decoder |
| LegacyRfc5424.ParseBOM | rfc5424.go:184-195 | reads up to 3 bytes into a zeroed window; the count is 3 for a byte order mark, else the bytes read; nothing read is EOF |

## Left out

- Buffer sizes of the Go readers (`bufio.NewReaderSize` with 1024 or
  MSG-LEN bytes) and `bufio.ErrBufferFull` are not modelled. A `Reader`
  never runs out of buffer, so a field longer than the buffer is read
  whole.
- Readers return at most what is asked for and exactly that when it is
  available. Short reads by an `io.Reader` before end of input are not
  modelled.
- The `[]byte` fields that the Go record shares with the decoder's
  buffers (`logMessage.App = m.appBuffer.Bytes()`) are copied values in
  the model. Aliasing between a returned record and the next parse is not
  captured.
- Rfc3164.HostnameStep: the newer RFC 3164 decoder's `Host` is the slice
  that `ReadSlice(' ')` returns (rfc3164/rfc3164.go:153-157,
  common.go:27-35), so it shares the storage of the buffered reader. A
  refill later in the same parse can overwrite it. An example is the final
  `ReadSlice('\n')` (rfc3164/rfc3164.go:84) after a tag that stops at its
  32-byte budget with unread bytes and no newline: the refill slides those
  bytes to the front of the buffer. The model, and so Rfc3164.DecodeSpec,
  keeps the hostname as it was read. The other byte fields are copies
  (`String()`, `append`, `Write`) or the app and pid buffers above.
- `time.Now` is a parameter: a `Clock` for the newer timestamp, and the
  current year for the older one. `time.Parse` with RFC 3339 or with the
  older layout is a function parameter. Time zones, nanoseconds and
  `time.Local` are not modelled.
- Rfc3164Date.InferYear: `time.Date` moves an out-of-month day into the
  next month (31 February becomes 2 or 3 March), and second 60 into the
  next minute (`Dec 31 23:59:60` becomes 1 January 00:00:00 of the next
  year). The model keeps the parsed fields as they are.
- LegacyRfc3164.InYearSpec: only the normalisation of 29 February is
  modelled. It is the only date that `time.Date` moves when the year
  changes from year 0, which is a leap year.
- Error values other than the package's sentinels are one constructor
  each. `Atoi`'s formatted error keeps only the offending byte. strconv's
  error keeps only its kind: the range error for numbers beyond 64 bits is
  not modelled, because integers are unbounded.
- `math.Pow10` in `Atoi` is exact here. The Go float conversion overflows
  and loses precision for inputs of more than about 19 digits.
- Error paths of the Go standard library that cannot occur on an
  in-memory byte source are not modelled:
  - writes to a `bytes.Buffer`;
  - an `io.ReadAll` error (rfc5424/rfc5424.go:84-86, rfc5424.go:57-65);
  - a read error other than end of input.
- The package-level `parsePriority` that the older RFC 3164 decoder calls
  (rfc3164.go:56) is not part of this model. It is taken to be
  `Common.ParsePriority`, which has the same parameters.
- The parser registry, `ParseString`, the `cmd/stdin-parser` tool, the
  parser type names and the string forms of facilities and severities
  are outside the decoding core and are not modelled.
- The newer Go code assigns strings to `Hostname`, `AppName`, `ProcID`
  and `MsgID`, while the record declares byte fields. Both are byte
  sequences in the model.
- The older revision's own record type is not part of this model. It
  uses the same record.
