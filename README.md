# FTP(S) client core, modelled in Dafny

This project models the core of `ftpsclient.go`, a small Go FTP/FTPS client,
and proves what that code does.

- **Listing lines.** `parseEntryLine` turns one line of a Unix `LIST -a` answer
  into a directory entry. The line is cut into the first eight
  single-space-separated fields and a ninth part holding the rest, which is the
  file name.
- **PASV replies.** `preparePasvConnection` reads the data port from a `227`
  reply to `PASV`. The reply is in the tuple form of section 4.1.2 of RFC 959:
  the port is field 4 × 256 + field 5 of the comma-separated text between the
  first `(` and the last `)`.
- **PWD replies.** `GetWorkingDirectory` takes the text between the first and
  the last `"` of a `257` reply.
- **The session.** This is the state machine over the `FtpsClient` fields
  `ctrlConnection_I`, `dataConnection_I` and `textProtocolPtr_X`. It covers:
  - `Connect` and its fixed sequence of stages: greeting 220, then `AUTH TLS`
    234 in secure mode, then `USER` 331, `PASS` 230, `TYPE I` 200 and `CWD` 250,
    then `PBSZ 0` and `PROT P` (200 each) in secure mode. These are the
    explicit-TLS commands of sections 4 and 9 of RFC 4217. A refused stage
    decides the error: the greeting gives `ErrNotConnected`, `USER` and `PASS`
    give `ErrInvalidLogin`, `TYPE I` gives `ErrInvalidParameter`, `CWD` gives
    `ErrInvalidDirectory`, and `AUTH TLS`, `PBSZ 0` and `PROT P` give
    `ErrSecure`.
  - the control-connection exchanges `sendRequestToFtpServer`,
    `readFtpServerResponse` and `isConnEstablished`;
  - the data channel: `sendRequestToFtpServerDataConn`, `openDataConn`,
    `StoreFile`, `List`, `CloseFtpDataChannel`;
  - `Disconnect`.
- **The read loop.** `ReadFtpDataChannel` fills a caller's buffer in place from
  successive Read calls.

## How it is organised

- **Modules.**
  - `FtpsErrors` (errors.dfy) holds the package's sentinel errors and the
    library errors the code passes on. A Go runtime panic is the error value
    `Panic(kind)`: the model returns it where the Go code would crash.
  - `GoText` (gotext.dfy) models the parts of `strings` and `strconv` that the
    code calls: `Index`, `LastIndex`, `Split`, `SplitN`, `TrimRight`,
    `ParseUint`, `Atoi`, `Itoa`, and int64 wrap-around.
- **Pure parsers.** They are functions with lemmas:
  - `DirListing` (listing.dfy) for listing lines;
  - `ReplyText` (replies.dfy) for the PASV and PWD replies.
- **`FtpSession` (session.dfy)** specifies every state-changing operation as a
  function. The function maps the session before the call to the session after
  it and to what the call returns. The lemmas in this module state what the code
  promises about those functions.
- **`Ftps` (client.dfy)** holds the class `FtpsClient`. Its fields mirror the Go
  struct, and its methods update them step by step as the Go methods do. Each
  method is proved to end in the state that the `FtpSession` function
  describes, and to return what that function returns.
- **`DataTransfer` (transfer.dfy)** specifies the read loop. The method
  `ReadFtpDataChannel` runs the loop over an `array` and is proved against that
  specification.
- **The server is a script.** The session holds the answers the server will
  give, in order. Each answer is a reply with a code and a message, or
  `NoReply`, a failed exchange.
- **No real I/O.** The outcome of every dial, of the one Write of `StoreFile`,
  of each Read call on the data connection, of the `Close` calls whose error
  the code returns, and the bytes of a listing are all parameters.

Behaviour of the code that the model keeps, and that a user may not expect:

- **Short listing lines crash `List`.** A listing line that does not parse
  leaves a nil entry, and `List` dereferences it. The "total N" line that many
  servers send first is such a line: it has fewer than eight spaces. The model
  returns `Panic(NilDereference)` (see `FtpSession.ListWithShortLine`). A line
  on which `parseEntryLine` itself panics crashes `List` with that panic
  before the dereference: an empty first field at ftpsclient.go:508 (see
  `FtpSession.ListWithEmptyFirstField`) or a short year field at :532.
- **An unknown type character is not rejected.** It sets `ErrDirEntry`, but the
  size parse right after it overwrites that error, so the entry comes back as a
  plain file.
- **Missing fields also crash.**
  - An empty first field panics at the type-character index.
  - Too few PASV fields panic at the field index.
  - A `)` before the `(` panics at the slice.
  - An older entry whose year field is shorter than 4 characters panics at the
    `[2:4]` slice.
- **The PASV port is never range-checked.** The code passes whatever port the
  reply announces to `net.DialTimeout`, which refuses one outside 0..65535;
  the model's dial does the same. The four address fields of a PASV reply are
  never read. The data connection is always dialed at the control host.
- **Lines are split on single spaces,** as `strings.SplitN(line, " ", 9)` does
  (ftpsclient.go:494; the `strings.Fields` call on the line above it is
  commented out). Two spaces in a row make an empty field, so a listing padded
  into columns with runs of spaces does not parse field by field.
- **Requests are format strings.** `sendRequestToFtpServer` hands its request
  to `textproto.Conn.Cmd` as the format, with no arguments
  (ftpsclient.go:399). A '%' in a login name, a password, a directory or a
  path is therefore rewritten by `fmt` before it is sent: "%%" becomes "%",
  and "50%off" goes out as "50%!o(MISSING)ff".
- **Close errors.** `CloseFtpDataChannel` and `Disconnect` return the error of
  `Close`, and `CloseFtpDataChannel` reads no 226 after a failed one.
  `StoreFile` and `List` ignore the error of their `Close` (ftpsclient.go:304,
  323), so the model has no outcome for those calls.

## Model

| member | source | states |
|---|---|---|
| `GoText.IndexOf` | ftpsclient.go:428 | -1 exactly when the character does not occur; otherwise a position that holds it |
| `GoText.IndexOfFirst` | ftpsclient.go:428 | no position before the one IndexOf returns holds the character, so it is the first |
| `GoText.LastIndexOf` | ftpsclient.go:429 | -1 exactly when the character does not occur; otherwise a position that holds it |
| `GoText.LastIndexOfLast` | ftpsclient.go:429 | no position after the one LastIndexOf returns holds the character, so it is the last |
| `GoText.LastIndexOfString` | ftpsclient.go:497 | the last position at which the text occurs, with no later occurrence |
| `GoText.SplitLength` | ftpsclient.go:434 | `Split` gives one part more than there are separators |
| `GoText.SplitJoin` | ftpsclient.go:434 | joining the parts of `Split` gives the text back |
| `GoText.SplitFree` | ftpsclient.go:434 | no part of `Split` holds the separator |
| `GoText.SplitN` | ftpsclient.go:494 | no parts for n = 0; otherwise between 1 and n parts |
| `GoText.SplitNLength` | ftpsclient.go:494 | `SplitN(s, c, n)` has min(n, separators + 1) parts |
| `GoText.JoinOfSplitN` | ftpsclient.go:494 | joining the parts of `SplitN` gives the line back |
| `GoText.SplitNOfJoin` | ftpsclient.go:494 | `SplitN` into n parts undoes a join whose first n - 1 parts hold no separator, so the last part keeps its own spaces |
| `GoText.SplitNPartsFree` | ftpsclient.go:494 | every part of `SplitN` but the last is free of the separator |
| `GoText.TrimRight` | ftpsclient.go:541 | the result is a prefix that does not end in a cut character, and everything removed is in the cut set |
| `GoText.ParseUint64` | ftpsclient.go:520 | a success is below 2^64; a failure is a syntax or a range error; the empty text is a syntax error |
| `GoText.ScanUint64` | ftpsclient.go:520 | scanning from any position with a value below 2^64 succeeds only below 2^64 and fails only with a syntax or a range error |
| `GoText.ScanOfDigits` | ftpsclient.go:520 | across a run of digits the scan reaches its end with the value of the digits read, or stops with a range error at the first digit that overflows |
| `GoText.ParseUint64Prefix` | ftpsclient.go:520 | digits followed by a non-digit: a range error when the digits overflow, whatever follows; then a syntax error when anything follows; the value otherwise |
| `GoText.ParseUint64OfDecimal` | ftpsclient.go:520 | the decimal spelling of any n < 2^64 parses back to n |
| `GoText.Atoi` | ftpsclient.go:436-438 | a success lies in the int64 range; a failure is a syntax or a range error |
| `GoText.ParseInt64` | ftpsclient.go:436-438 | a success lies in the int64 range; a failure is a syntax or a range error, passed on from ParseUint64 or for a magnitude beyond the int64 range |
| `GoText.AtoiOverflowFirst` | ftpsclient.go:436-438 | an input of 19 or more characters whose digits overflow before the first non-digit is a range error, not a syntax error |
| `GoText.AtoiOfDecimal` | ftpsclient.go:436-438 | the decimal spelling of any n < 2^63 converts back to n |
| `GoText.Itoa` | ftpsclient.go:530 | a non-negative number spells as digits only; a negative one as "-" followed by digits |
| `GoText.ItoaOfFourDigitYear` | ftpsclient.go:530 | a four-digit year spells with four digits, and characters 2..4 are the year modulo 100 |
| `GoText.ToInt64` | ftpsclient.go:441 | the result is in the int64 range, agrees with the input modulo 2^64, and is the input when that fits |
| `DirListing.KindOf` | ftpsclient.go:508-517 | 'd' gives Folder and 'l' gives Link, each exactly; every other character gives File |
| `DirListing.TimeText` | ftpsclient.go:528-533 | with ':' in field 7 the text fails exactly when the year spells with fewer than 4 characters (a '-' counts), otherwise exactly when field 7 is shorter than 4; a failure is a slice panic; a success starts with "f6 f5 " |
| `DirListing.TimeTextThisYear` | ftpsclient.go:528-530 | for a four-digit year the text is "f6 f5 YY f7 GMT" with YY the year modulo 100 |
| `DirListing.TimeTextOlder` | ftpsclient.go:531-533 | for a four-character year field the text is "f6 f5 " followed by its last two characters and " 00:00 GMT" |
| `DirListing.NameAndExt` | ftpsclient.go:541-546 | with a '.', name + "." + ext is the whole name and ext holds no '.'; without one, the extension is empty and the name is the whole text |
| `DirListing.ParseEntryLine` | ftpsclient.go:486-552 | every error is one of line format, an index panic, a size parse error, a slice panic or a time format error; a parsed size is below 2^64 |
| `DirListing.FieldSevenOccurs` | ftpsclient.go:497-498 | the search for field 7 in a nine-part line never fails, so that check never rejects |
| `DirListing.ParseEntryLineFormat` | ftpsclient.go:494-496 | a line is rejected with ErrLineFormat exactly when it holds fewer than eight spaces |
| `DirListing.ParseEntryLineFields` | ftpsclient.go:494-548 | on a nine-part line: an empty first field panics; a bad size gives its parse error; a bad year field panics; success happens exactly when size, timestamp text and time all parse, and then carries the kind of the first character, the size, the time, and the name and extension of the CR/LF-trimmed ninth part |
| `DirListing.ParseEntryLineOfFields` | ftpsclient.go:491-546 | eight space-free fields followed by any name split back into exactly those parts, and the entry's name and extension come from the whole name |
| `DirListing.CompleteLines` | ftpsclient.go:290-292 | there are never more lines than characters in the listing |
| `DirListing.CompleteLinesAreLines` | ftpsclient.go:290-292 | every line `ReadString('\n')` hands back ends in its only '\n' |
| `DirListing.CompleteLinesCover` | ftpsclient.go:290-300 | the lines spell out the listing up to its last '\n', and what is left holds no '\n' |
| `DirListing.ParseEach` | ftpsclient.go:291-302 | a failure of the listing is always a panic; a success has one entry per line |
| `DirListing.Crash` | ftpsclient.go:295-297 | a line that does not parse always crashes the client: with the parser's own panic, or at the dereference of the nil entry |
| `DirListing.ParseEachFirstError` | ftpsclient.go:291-302 | the first line that does not parse decides the crash: its own panic, or the nil dereference for any other error |
| `DirListing.ParseEachAll` | ftpsclient.go:291-302 | the lines parse exactly when every one does, and entry k is then the parse of line k |
| `DirListing.ParseLines` | ftpsclient.go:291-302 | a failure of the listing is always a panic; a success has one entry per line |
| `DirListing.ParseLinesFirstError` | ftpsclient.go:291-302 | for parseEntryLine: the first line that does not parse decides the crash, an index or slice panic inside the parser or the nil dereference after it |
| `DirListing.ParseLinesEach` | ftpsclient.go:291-302 | the same for parseEntryLine: the listing parses exactly when every line does, and entry k is the parse of line k |
| `ReplyText.PasvPort` | ftpsclient.go:428-442 | every error is ErrPasv, a slice panic, an index panic or an Atoi error; a port lies in the int64 range |
| `ReplyText.PortOfFields` | ftpsclient.go:434-442 | every error is an index panic or an Atoi error; a port needs at least six fields whose fields 4 and 5 convert, and lies in the int64 range |
| `ReplyText.PasvPortMissingDelimiter` | ftpsclient.go:428-432 | the reply is rejected with ErrPasv exactly when it lacks a '(' or a ')' |
| `ReplyText.PasvPortEnclosed` | ftpsclient.go:428-434 | only the text between the delimiters is split, whatever surrounds them |
| `ReplyText.PortOfDecimalFields` | ftpsclient.go:436-441 | two decimal bytes in fields 4 and 5 give high × 256 + low, whatever fields 0-3 hold |
| `ReplyText.SplitOfTuple` | ftpsclient.go:434 | splitting a joined six-field tuple gives its fields back |
| `ReplyText.PasvPortOfTuple` | ftpsclient.go:428-442 | any reply holding a well-formed tuple whose port bytes are p1 and p2 gives port p1 × 256 + p2 |
| `ReplyText.PasvExample` | ftpsclient.go:428-441 | a reply carrying "(10,0,0,1,19,136)" gives port 5000 |
| `ReplyText.QuotedDirectory` | ftpsclient.go:180-187 | every error is ErrLineFormat; the directory is shorter than the reply by at least its two quotes |
| `ReplyText.QuotedDirectoryFormat` | ftpsclient.go:180-184 | a PWD reply is rejected exactly when it holds fewer than two quotes |
| `ReplyText.QuotedDirectoryOfQuote` | ftpsclient.go:180-186 | the directory between the first and the last quote comes back whole, even when it holds quotes of its own |
| `DataTransfer.Taken` | ftpsclient.go:242 | one Read call writes no more bytes than the room left in the buffer |
| `DataTransfer.Fill` | ftpsclient.go:239-268 | the count never decreases and never exceeds the buffer; success means the buffer is full; io.EOF never ends the loop |
| `DataTransfer.FillOneCall` | ftpsclient.go:242-267 | one turn of the loop: a success that leaves room goes on with the bytes counted; a success that fills the buffer stops with success; io.EOF goes on without counting; any other error stops with the count unchanged |
| `DataTransfer.FillKeepsPrefix` | ftpsclient.go:242 | the bytes counted before the loop are never overwritten |
| `DataTransfer.FillCountAllPass` | ftpsclient.go:241-256 | when every Read succeeds, the count is the bytes delivered capped by the buffer, and the loop succeeds exactly when enough bytes arrive; otherwise it ends with the timeout error once the Read calls run out |
| `DataTransfer.FillBytesAllPass` | ftpsclient.go:241-256 | when every Read succeeds, the counted bytes are the stream's, in order, at the count where each call started |
| `DataTransfer.FillOnlyEof` | ftpsclient.go:258-262 | a connection that only answers io.EOF counts nothing and ends with the timeout error once the Read calls run out |
| `DataTransfer.FillStopsAtError` | ftpsclient.go:263-266 | an error other than io.EOF ends the loop at once with that error and the count unchanged, so the bytes returned with it are not counted |
| `FtpSession.Fresh` | ftpsclient.go:115-119 | a new client has neither connection nor text protocol, which is coherent |
| `FtpSession.IsConnEstablished` | ftpsclient.go:371-379 | passes exactly when the control connection is not nil, and fails with ErrNotConnected otherwise |
| `FtpSession.SendRequestOutcome` | ftpsclient.go:391-406 | an exchange succeeds exactly on an open control connection whose next answer has the expected code; it then returns that code and message; another code gives the textproto error carrying it; when the connection is open exactly one request is handed to Cmd and one answer consumed, and nothing else changes |
| `FtpSession.ReadReplyOutcome` | ftpsclient.go:407-420 | the same for a read: success exactly on an open connection with the expected code, one answer consumed, nothing else changed |
| `FtpSession.ExchangeFrame` | ftpsclient.go:391-406 | an exchange leaves both connections, the text protocol and the dials alone |
| `FtpSession.NoConnectionNoTraffic` | ftpsclient.go:391-395 | with a nil control connection nothing is sent or consumed and the result is ErrNotConnected with code 0 and an empty message |
| `FtpSession.ReadReply` | ftpsclient.go:407-420 | the connections, the text protocol, the requests and the dials are untouched; a success needs an open control connection, returns the expected code and consumes exactly one answer |
| `FtpSession.SendRequest` | ftpsclient.go:391-406 | the connections, the text protocol and the dials are untouched; a success needs an open control connection, returns the expected code and hands exactly this request to Cmd |
| `FtpSession.Stages` | ftpsclient.go:130-161 | Connect has eight stages in secure mode and five otherwise |
| `FtpSession.StagesPlain` | ftpsclient.go:130-153 | the plain-mode stages are greeting 220, USER 331, PASS 230, TYPE I 200 and CWD 250, with their errors |
| `FtpSession.StagesSecure` | ftpsclient.go:130-161 | the secure-mode stages add AUTH TLS 234 after the greeting, and PBSZ 0 and PROT P 200 at the end, each failing with ErrSecure |
| `FtpSession.RunStages` | ftpsclient.go:130-167 | the stages leave the data connection and the dials alone |
| `FtpSession.RunStagesStatus` | ftpsclient.go:130-170 | the stages stop at the first one the script refuses, with that stage's error, and pass exactly when all pass; each stage tried takes one answer |
| `FtpSession.RunStagesSent` | ftpsclient.go:135-160 | the stages tried hand their commands to Cmd, in order, and nothing else |
| `FtpSession.RunStagesLink` | ftpsclient.go:133-139 | the stages leave the control connection open and upgraded by the stages accepted, with the text protocol on it |
| `FtpSession.ConnectSpec` | ftpsclient.go:121-126 | the control address is dialed exactly once, the data connection is left alone, and a failed dial leaves a nil control connection |
| `FtpSession.ConnectOutcome` | ftpsclient.go:121-174 | the control address is always dialed; a failed dial leaves a nil connection with ErrNotConnected and no traffic; otherwise the first refused stage decides the error, all stages passing gives nil, and the commands sent and answers consumed are those of the stages tried |
| `FtpSession.ConnectCommands` | ftpsclient.go:135-160 | a complete Connect hands AUTH TLS (secure), USER, PASS, TYPE I, CWD, then PBSZ 0 and PROT P (secure) to Cmd, in that order |
| `FtpSession.ConnectLink` | ftpsclient.go:133-139 | a complete Connect leaves a TLS control connection exactly in secure mode, with the text protocol on it |
| `FtpSession.ConnectNoGreeting` | ftpsclient.go:129-131 | a first answer other than 220 gives ErrNotConnected with no command sent |
| `FtpSession.ConnectWrongPassword` | ftpsclient.go:143-147 | in plain mode, a refused PASS after an accepted USER gives ErrInvalidLogin after exactly USER and PASS |
| `FtpSession.WorkingDirectorySpec` | ftpsclient.go:176-193 | the session after PWD is that of the PWD exchange; a success had an open control connection and a 257 reply, and the directory is at least two characters shorter than its message |
| `FtpSession.WorkingDirectoryOutcome` | ftpsclient.go:176-193 | PWD is sent and one answer consumed; success happens exactly for a 257 reply with at least two quotes; a 257 reply with fewer gives ErrLineFormat along with the message |
| `FtpSession.WorkingDirectoryOfQuote` | ftpsclient.go:176-187 | a 257 reply quoting a directory returns that directory |
| `FtpSession.PasvSpec` | ftpsclient.go:421-447 | the session after PASV is that of the PASV exchange; every failure returns port 0; the port lies in the int64 range |
| `FtpSession.PasvOfTuple` | ftpsclient.go:421-447 | a 227 reply with a well-formed tuple returns port p1 × 256 + p2 after sending PASV |
| `FtpSession.PasvFrame` | ftpsclient.go:421-427 | PASV touches only the script and the requests; success means PASV was handed to Cmd and one answer taken; every failure returns port 0 |
| `FtpSession.OpenDataSpec` | ftpsclient.go:381-389 | the one dial goes to the host and port given, and only the data connection changes besides; success happens exactly when the dial works and the port is a TCP port (0..65535, the range net.DialTimeout accepts), and leaves a plain open data connection; a failure leaves it nil with ErrNotConnected |
| `FtpSession.DataConnOutcome` | ftpsclient.go:449-471 | the control connection is untouched; a failed PASV changes no connection and dials nothing; otherwise the one dial goes to the control host at the announced port, success happens exactly when that port is a TCP port, the dial works and the command is accepted, it leaves the data connection open (TLS in secure mode), and any failure after PASV leaves it nil |
| `FtpSession.DataConnSpec` | ftpsclient.go:449-471 | the control connection and the text protocol are untouched; a success needs an open control connection and leaves the data connection open, TLS exactly in secure mode |
| `FtpSession.DataConnOpened` | ftpsclient.go:449-471 | an opened data channel is open, TLS exactly in secure mode, on an open control connection |
| `FtpSession.DataConnExample` | ftpsclient.go:421-456 | the reply "Entering Passive Mode (10,0,0,1,19,136)." gives port 5000 and sends the data dial to the control host at port 5000 |
| `FtpSession.DataConnWithoutControl` | ftpsclient.go:449-456 | with a nil control connection nothing happens and the result is ErrNotConnected |
| `FtpSession.StoreSpec` | ftpsclient.go:310-326 | the control connection and the text protocol are untouched; a success needs a complete write and leaves the data connection closed |
| `FtpSession.StoreOutcome` | ftpsclient.go:310-326 | after an opened data channel the data connection always ends closed; a failed write returns its error and a short write ErrIoError, neither reading a reply; a full write reads the 226 and succeeds exactly on it |
| `FtpSession.CloseDataSpec` | ftpsclient.go:275-283 | the control connection, the text protocol, the requests and the dials are untouched; a success needs an open data connection and a Close that worked, and leaves that connection closed |
| `FtpSession.CloseDataTwice` | ftpsclient.go:275-283 | closing an open data channel closes it whatever Close reports; a Close error is returned with no reply read; otherwise success happens exactly on a 226 on an open control connection, with that one answer consumed; closing again fails without reading |
| `FtpSession.DisconnectSpec` | ftpsclient.go:364-370 | the data connection, the text protocol and the dials are untouched; a success needs an open control connection and a Close that worked, and leaves the control connection closed |
| `FtpSession.DisconnectCloses` | ftpsclient.go:364-370 | a refused QUIT returns its error with the control connection as it was; an accepted one hands QUIT to Cmd, closes the control connection and returns what Close reports; every later exchange, and a second Disconnect, are then refused with nothing sent |
| `FtpSession.ListOutcome` | ftpsclient.go:284-308 | after an opened data channel, when every complete line parses there is one entry per line, in order, the data connection ends closed, the 226 read decides the error, exactly that one answer is consumed and no further request is sent; any line that does not parse crashes the client with a panic and no entries |
| `FtpSession.ListWithShortLine` | ftpsclient.go:291-297 | a first line with fewer than eight spaces, like "total 0", crashes the client |
| `FtpSession.ListFirstBadLine` | ftpsclient.go:291-302 | the first complete line that does not parse crashes List with that line's crash, with no entries and nothing more read from the control connection |
| `FtpSession.ListWithEmptyFirstField` | ftpsclient.go:508 | a first line that starts with a space and has eight spaces panics at the type-character index inside parseEntryLine |
| `FtpSession.ListSpec` | ftpsclient.go:284-308 | the control connection and the text protocol are untouched; entries come back only with the data connection closed afterwards |
| `FtpSession.ReadDataSpec` | ftpsclient.go:228-274 | the buffer keeps its length and the count never exceeds it; a success needs an open data connection and fills the buffer |
| `FtpSession.ControlKept` | ftpsclient.go:176-370 | PWD, PASV, opening and closing the data channel and Disconnect keep the session coherent, with the text protocol on the control connection; Disconnect never makes the control connection nil |
| `Ftps.FtpsClient.constructor` | ftpsclient.go:115-119 | the client keeps its parameters and starts with no connection |
| `Ftps.FtpsClient.IsConnEstablished` | ftpsclient.go:371-379 | returns what isConnEstablished specifies for the current state |
| `Ftps.FtpsClient.ReadFtpServerResponse` | ftpsclient.go:407-420 | the new state, code, message and error are those of the read specification |
| `Ftps.FtpsClient.SendRequestToFtpServer` | ftpsclient.go:391-406 | the new state, code, message and error are those of the exchange specification |
| `Ftps.FtpsClient.UpgradeCtrl` | ftpsclient.go:473-484 | the control connection becomes TLS and the text protocol is made on it; nothing else changes |
| `Ftps.FtpsClient.Connect` | ftpsclient.go:121-174 | the new state and the error are those of the Connect specification |
| `Ftps.FtpsClient.Login` | ftpsclient.go:143-167 | the USER, PASS, TYPE I and CWD stages, and PBSZ 0 and PROT P in secure mode, end in the state and the error the stages specify |
| `Ftps.FtpsClient.GetWorkingDirectory` | ftpsclient.go:176-193 | the new state, directory and error are those of the PWD specification |
| `Ftps.FtpsClient.PreparePasvConnection` | ftpsclient.go:421-447 | the new state, port and error are those of the PASV specification |
| `Ftps.FtpsClient.OpenDataConn` | ftpsclient.go:381-389 | the dial goes to the control host at the port given; the new state and error are those of the dial specification, so a port outside 0..65535 fails |
| `Ftps.FtpsClient.SendRequestToFtpServerDataConn` | ftpsclient.go:449-471 | the new state and error are those of the data-channel specification |
| `Ftps.FtpsClient.StoreFile` | ftpsclient.go:310-326 | the new state and error are those of the StoreFile specification |
| `Ftps.FtpsClient.List` | ftpsclient.go:284-308 | the new state, entries and error are those of the List specification |
| `Ftps.ReadEntries` | ftpsclient.go:290-302 | the read loop returns the parse of every complete line, in order, or the crash of the listing, always a panic, with no entries |
| `Ftps.FtpsClient.ReadFtpDataChannel` | ftpsclient.go:228-274 | with no data connection the client crashes (nil dereference), a closed one fails at once, and otherwise the buffer, count and error are those of the read loop from count 0 on the buffer's old contents |
| `Ftps.ReadInto` | ftpsclient.go:242 | a Read call's bytes land in the buffer at the current count, in order, and nothing else changes |
| `Ftps.FtpsClient.CloseFtpDataChannel` | ftpsclient.go:275-283 | for what Close reports, the new state, code, message and error are those of the close specification |
| `Ftps.FtpsClient.Disconnect` | ftpsclient.go:364-370 | for what Close reports, the new state and error are those of the Disconnect specification |

## Left out

- **Network dialing and deadlines.** Whether a dial to a valid TCP port
  works is a parameter; `net.DialTimeout` itself is not part of this model,
  and only its refusal of ports outside 0..65535 is kept. What `Close`
  reports is a parameter wherever the code returns it. Setting a deadline fails only on a closed
  connection. Timeout durations are not modelled.
- **Reply decoding.** `textproto.Conn.Cmd` and `ReadResponse` are an oracle:
  the next scripted answer. The code is compared with the expected one by
  equality. The three ways one exchange can fail at the transport level
  (deadline, command write, reply read) are merged into one `NoReply` answer,
  which gives code 0 and an empty message. Multi-line reply merging and textproto's
  rule for expected codes below 100 are not modelled.
- **TLS.** `upgradeConnectionToTLS` only sets a tag on the connection. The
  handshake and its ignored result are not modelled. The TLS configuration is not
  part of the parameters.
- **Clock and time parsing.** The current year and `time.Parse` (with layout
  `_2 Jan 06 15:04 MST`) are parameters. A parsed time is an abstract integer.
  The wait and I/O durations that `ReadFtpDataChannel` returns are not
  modelled.
- **Socket buffer sizes.** `setConBufferSize` always returns nil
  (ftpsclient.go:102-114), so `Connect` and `openDataConn` go on after it as
  if it were not there, and the model leaves the call out. The buffer sizes
  are not part of the parameters.
- **Request rendering.** `textproto.Conn.Cmd` treats the request as a `fmt`
  format string. The model records each request as it is handed to `Cmd`, so
  the rewriting of '%' sequences is not modelled; the two agree for requests
  without '%'.
- **Logging.** `debugInfo`/`log.Println` and the `fmt.Printf` of the deadline
  failure in `ReadFtpDataChannel` are left out.
- **File retrieval.** `RetrieveFile` and `RetrieveData` are left out. Each
  opens a data channel with `RETR` (150), creates a local file with
  `os.Create`, copies the data connection into it with `io.Copy`, reads the
  226 when the copy worked, and closes the file (ftpsclient.go:327-361). The
  local file system is not part of this model. They differ in one point:
  `RetrieveFile` always closes the data connection (:340), while
  `RetrieveData` closes it only when `os.Create` succeeded (:358), so a failed
  create leaves that connection open.
- **Thin wrappers.** `ChangeWorkingDirectory`, `MakeDirectory`, `DeleteFile`,
  `RemoveDirectory`, `SendFtpCtrlCommand` and `OpenFtpDataChannel` are left
  out. Each is a single call of `sendRequestToFtpServer` or
  `sendRequestToFtpServerDataConn`, which are modelled.
- **The end of the Read calls.** The Read results are a finite list. When it
  runs out, the deadline has expired, and the loop ends with the timeout error
  (`Transport`) that Read then returns. This is how a plain TCP data
  connection ends the loop. With an empty buffer, Go's first Read of an empty
  slice returns at once with no error, so `ReadFtpDataChannel` succeeds with
  count 0. The model gives that when the first scripted Read result is a
  success; it does not force that result, and with no Read results it gives
  the timeout error.
- `DataTransfer.FillOnlyEof`: in secure mode the data connection is a
  `tls.Conn` (ftpsclient.go:463). If, as it appears, `tls.Conn` keeps
  returning io.EOF once it has seen one without looking at the deadline again,
  a server that closes the data connection early makes the loop at
  ftpsclient.go:241-268 spin forever. `crypto/tls` is not part of this model,
  so this behaviour is unverified, and the model always ends when the Read
  calls run out.
- `DirListing.TimeText`: strings are sequences of characters, while Go
  measures `len(FieldArray_S[7])` and slices it in bytes. The two agree when
  field 7 is ASCII; for other text the length test and the `[2:4]` slice may
  differ.
- `DirListing.TimeTextOlder`: for the same reason, "its last two characters"
  are bytes 2..4 of the year field in Go, which are the same only for ASCII.
  The other cuts of the model (at ' ', ',', '(', ')', '"', '.', '\n', the
  cut set "\r\n" and the type character) agree with Go's byte-wise cuts on
  UTF-8 text, since those are single bytes that never occur inside a
  multi-byte character.
- **Tests.** `ftpsclient_test.go` is an integration suite against a live
  server, and is left out.
- **The listing stream.** The bytes the data connection delivers for `List`
  are one string, and the read error that ends `ReadString` is implicit at its
  end. A last piece without '\n' is never parsed, as in the code.
- `DataTransfer.Taken`: a Read call that returned more bytes than its slice
  holds is cut to the slice. `io.Reader` rules this out, and `copy` semantics
  in Go would behave the same. So a successful loop ends with the count equal
  to the buffer length, never above it.
- **Overwritten data connections.** A new PASV on a client whose data
  connection is still open replaces the handle without closing it, as the code
  does. The model does not track the leaked connection.
- **Aliasing.** The connection handles are values. A second reference to the
  same `net.Conn` elsewhere in a program is not modelled.
