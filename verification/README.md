# A verified model of the external UAM server

The server answers the captive-portal redirects of an access point: it accepts TCP
connections in one select loop, parses one HTTP request per turn, and answers a login
by hiding the password under an MD5 digest of the challenge and a shared secret.  This
project models that in Dafny in three cores, and proves one theorem across all of them:
the answer to a login on any connection of any run (`UamServer.LoginIsAnswered`).

Run `dafny verify dfyconfig.toml` to check everything.

## How it is arranged

**MD5** (`UAM/src/md5/md5.c`).  `Words` has bytes, 32-bit words, byte orders and wrapping
arithmetic.  `Rfc1321` is the reference: sections 3.1 to 3.5 of RFC 1321 as a pure
function on byte sequences, with the sine table as the RFC's reference values;
`Md5KnownAnswer` computes one digest of the RFC's test suite from it.
`Md5Transform` has the 64 unrolled lines, `Md5Reverse` runs them backwards, `Md5Memory`
has `byteReverse` on a machine of either byte order and the split bit counter, and
`Md5` is the context class.  Its ghost field `message` is everything hashed so far; the
invariant says that `buf` is the fold of the compression over the whole 64-byte blocks,
that `input` starts with the bytes left over, and that the bits count the message
modulo 2^64.

**Query strings and passwords** (`UAM/src/http/http_main.c`).  `UrlDecode` is the
percent-decoder, `Scan` the few `sscanf` formats and `strtok` calls (C11 sections
7.21.6.2 and 7.24.5.8), `QueryString` the request context with its parameter table,
`Hex` and `Pap` the hexadecimal conversions and the password hiding.  `LoginRequest`
and `LoginForm` go from the text of a request to the table and the lookups, and from
there to the hidden password; `RequestHistory` and `FormHistory` say what earlier
requests on the same context leave behind.  The sizes of the source's buffers are
preconditions: requests that would overrun one are not the subject of any theorem.

**The event loop** (`UAM/src/tcp/tcp_main.c` and the callback in `http_main.c`).
`TcpModel` gives one visit to a ready descriptor, one pass over a select snapshot and a
whole run as functions on values, with the invariant.  `TcpTrace` says what callbacks a
pass makes, `TcpSession` what one descriptor sees of a run, `TcpCreate` when start-up
leaves a state the loop can run from.  `TcpMain` is the class whose methods update the
global context the way the source does, each proved equal to the function of the model.
`TcpWrite` is the partial-send loop.

**The server.**  `UamServer` takes the request contexts for the contexts of the event
loop and the request parser for its parser.  `UamRuns` shows that the runs it speaks of
exist.

## The environment

The kernel is not modelled by what it does but by what it may answer, and the theorems
hold for every answer it may give: the snapshots of `select` are subsets of the interest
sets; `accept` returns a number that is not open, at least 3 and below `TCP_MAX_CTX`;
`recv` returns a failure, the end of the stream or bytes; `send` fails or takes between
one byte and all that were offered.  As in the source a failed `recv` is handled as data.
How a request changes the context of its connection is a parameter of the event loop
(`parse`); `UamServer` takes for it any parser that does what `QueryString` says
wherever the source comes to an end inside its buffers.

## Where the code does not do what it seems to

* A login form is kept exactly when its decoded text has no `?`, or its first `?` is the
  first or the last character (`LoginForm.FilledIffUncut`).  A `?` inside, say in
  `userurl`, makes the parser take everything before it for a login address.
* Slots of the parameter table are never cleared.  After a login request the answer for a
  name is independent of all earlier requests exactly when the request carried that name
  or no request line has room to leave it, with a value, behind the parameters
  (`UamRuns.SettledInRunsIffSent`).  On a form a name finds its own value exactly unless
  slot 0 kept the same name with another value (`LoginForm.FormLookup`); a cut form leaves
  its first key there, so the next client on the descriptor is taken for the one before
  (`UamServer.NextClientIsMistaken`).
* The decoder's loop ends exactly when every `%` at a token boundary starts one of the
  twelve known escapes (`UrlDecode.TerminatesIffDecodable`).  `%20` is none of them, nor
  is `%253A` (`UrlDecode.LoopsOnSpaceAndUpperCase`).
* A failed bind is not noticed.  It puts descriptor 0 into the read set, now and at every
  later set-up, and setting up again drops the connections being served: the loop's
  invariant holds after a set-up exactly when no bind has failed and nobody is served
  (`TcpCreate.SetUpWorksIff`).
* The comment above `MD5Final` says that the bit count is stored most significant byte
  first; the code stores it least significant byte first, as RFC 1321 asks.
* The comment above `tcp_write` promises the number of bytes sent; on success the
  function returns no value.

## Model

| member | source | states |
|---|---|---|
| Md5.DigestOfChunks | UAM/src/md5/md5.c:43-144 | For every list of chunks and either byte order, initialising, updating with each chunk and finishing gives the RFC 1321 digest of the concatenation, so all chunkings agree. |
| Md5KnownAnswer.DigestOfAbc | UAM/src/md5/md5.c:43-244 | The digest of "abc" is the one in the test suite of RFC 1321 (appendix A.5), derived step by step from the padding to the output bytes. |
| Md5.Md5Context.Init | UAM/src/md5/md5.c:43-52 | Establishes the context invariant for the empty message. |
| Md5.Md5Context.Update | UAM/src/md5/md5.c:58-100 | Keeps the invariant and appends the chunk to the message, for every chunk shorter than 2^64 bytes. |
| Md5.Md5Context.UpdateBitCount | UAM/src/md5/md5.c:62-69 | The two counter words count the longer message exactly modulo 2^64, and the number read back is how many bytes were buffered. |
| Md5.Md5Context.TakeBlocks | UAM/src/md5/md5.c:89-99 | Folds every whole block of the data into the chain and leaves the rest at the start of the block buffer. |
| Md5.BufferMore | UAM/src/md5/md5.c:73-80 | A chunk that does not fill the block buffer extends the bytes left over and leaves the chain. |
| Md5.BufferFull | UAM/src/md5/md5.c:81-86 | A chunk that fills the buffer completes exactly the next block of the longer message. |
| Md5.ChainOneMore | UAM/src/md5/md5.c:89-95 | Compressing the next 64 bytes extends the chain over the message by one block. |
| Md5.Md5Context.AppendPadding | UAM/src/md5/md5.c:111-133 | Leaves everything of the padded message but its length field in the registers or in the first 56 bytes of the buffer. |
| Md5.MissingInOneBlock | UAM/src/md5/md5.c:130-133 | With at most 55 bytes left over, marker and zeros to byte 56 are all but the length field of the padding. |
| Md5.MissingInTwoBlocks | UAM/src/md5/md5.c:122-129 | With more than 55, compressing the filled block and zeroing 56 bytes is. |
| Md5.Md5Context.AppendLength | UAM/src/md5/md5.c:134-140 | Reversing 14 words and storing the counters natively makes the registers the chain over the whole padded message, on either byte order. |
| Md5.LengthCompletes | UAM/src/md5/md5.c:136-140 | The counter words spell the little-endian length field that completes the last block. |
| Md5.Md5Context.Final | UAM/src/md5/md5.c:106-144 | The first 16 bytes of the digest buffer become the RFC 1321 digest of the message. |
| Md5.InitialRegisters | UAM/src/md5/md5.c:45-48 | The four constants are the RFC's register bytes read low-order first. |
| Rfc1321.PaddingIsShortest | UAM/src/md5/md5.c:111-133 | The padding uses the least number of zeros that reaches whole blocks, and the only one below 64. |
| Rfc1321.PaddedBytes | UAM/src/md5/md5.c:106-140 | Byte by byte: the message, 0x80, only zeros, and then eight bytes that are the base-256 digits of the bit length modulo 2^64, least significant first. |
| Rfc1321.PaddedBlocks | UAM/src/md5/md5.c:118-133 | Padding adds two blocks to the whole ones exactly when more than 55 bytes are left over, otherwise one. |
| Rfc1321.PadInjective | UAM/src/md5/md5.c:106-140 | Two messages of less than 2^64 bits that are padded alike are equal. |
| Md5Memory.ByteReverse | UAM/src/md5/md5.c:28-37 | Each of the given words, loaded natively afterwards, is the little-endian reading of its four bytes before; the rest stays. |
| Md5Memory.AssembleIsFromLE | UAM/src/md5/md5.c:32-33 | The shifts and narrowing casts assemble the little-endian word. |
| Md5Memory.NativeWords | UAM/src/md5/md5.c:82-83 | The sixteen words loaded natively after the reversal are the message words of RFC 1321, on either byte order. |
| Md5Memory.LastBlockWords | UAM/src/md5/md5.c:134-140 | So are those of the last block, of which fourteen were reversed and two stored natively. |
| Md5Memory.OutputBytes | UAM/src/md5/md5.c:141-142 | The final reversal of the four registers gives the digest bytes low-order first, on either byte order. |
| Words.ReversedStore | UAM/src/md5/md5.c:28-37 | A word stored natively and then reversed lies in memory low-order byte first. |
| Words.LoadStore | UAM/src/md5/md5.c:36-37 | Loading what was stored natively gives the word back, on either byte order. |
| Words.StoreLoad | UAM/src/md5/md5.c:36-37 | Storing what was loaded natively gives the bytes back. |
| Md5Memory.SplitSum | UAM/src/md5/md5.c:64-67 | The wrap-around test finds the carry: the two words grow by 8 times the length, less whole turns of 2^64. |
| Md5Memory.SplitCount | UAM/src/md5/md5.c:60-69 | So they count exactly modulo 2^64 for every 64-bit length. |
| Md5Memory.BufferedFromCount | UAM/src/md5/md5.c:69-112 | The low word gives the length modulo 64, for every length. |
| Md5Transform.OptimisedF | UAM/src/md5/md5.c:148-149 | The optimised F1 is the RFC's F. |
| Md5Transform.OptimisedG | UAM/src/md5/md5.c:150 | F1 with its arguments rotated is the RFC's G. |
| Md5Transform.StepIsOp | UAM/src/md5/md5.c:155-156 | The step macro, which adds in another order, computes the RFC's operation. |
| Md5Transform.FirstRound | UAM/src/md5/md5.c:172-187 | The sixteen lines are steps 0 to 15 of the table-driven form. |
| Md5Transform.SecondRound | UAM/src/md5/md5.c:189-204 | The sixteen lines are steps 16 to 31. |
| Md5Transform.ThirdRound | UAM/src/md5/md5.c:206-221 | The sixteen lines are steps 32 to 47. |
| Md5Transform.FourthRound | UAM/src/md5/md5.c:223-238 | The sixteen lines are steps 48 to 63. |
| Md5Transform.Transform | UAM/src/md5/md5.c:163-244 | The unrolled routine equals the compression of RFC 1321 section 3.4 for every state and block. |
| Md5Reverse.UndoAfterSteps | UAM/src/md5/md5.c:155-238 | For a fixed block the reverse steps undo any number of forward steps, for every state. |
| Md5Reverse.StepsAfterUndo | UAM/src/md5/md5.c:155-238 | And the forward steps undo the reverse ones, so the 64 steps are a bijection. |
| Md5Reverse.CompressAddsState | UAM/src/md5/md5.c:163-244 | Subtracting a state from what a block makes of it and running the 64 steps backwards gives the state back, so the registers before the steps were added to those after. |
| Words.RotateRoundTrip | UAM/src/md5/md5.c:155-156 | Rotating right undoes rotating left for every shift count of the algorithm, and conversely. |
| Hex.HexToChar | UAM/src/http/http_main.c:73-91 | Converts pairs up to the first that does not scan, leaves the rest of the destination, and returns 0 exactly when all convert. |
| Hex.CharToHex | UAM/src/http/http_main.c:103-116 | Writes the hexadecimal text and its terminator and leaves the rest. |
| Hex.PairIsNumber | UAM/src/http/http_main.c:81-88 | Two digits, upper or lower case, scan as 16 times the place of the first plus the place of the second in "0123456789abcdef". |
| Hex.SignedDigit | UAM/src/http/http_main.c:81-88 | A digit after white space or a plus sign scans as its value, after a minus sign as 256 less that value, modulo 256. |
| Hex.LoneDigit | UAM/src/http/http_main.c:81-88 | A digit before any other character scans as its value, except that "0x" and "0X" are no numbers. |
| Hex.NoNumber | UAM/src/http/http_main.c:81-88 | Every other pair fails to scan. |
| Hex.PrintedDigits | UAM/src/http/http_main.c:108-113 | The byte 16 i + j is printed as the characters i and j of "0123456789abcdef". |
| Hex.ToHexAt | UAM/src/http/http_main.c:108-113 | Each byte's two digits stand at twice its index. |
| Hex.UnhexToHex | UAM/src/http/http_main.c:73-116 | The printed text is lower-case hexadecimal and reads back as the bytes it came from. |
| Hex.DigitsConvert | UAM/src/http/http_main.c:79-89 | A text of hexadecimal digits converts completely. |
| Pap.EncodePapPassword | UAM/src/http/http_main.c:128-170 | The result is the hexadecimal of the password hidden under the digest of the converted challenge and the secret; the digest replaces the first 16 bytes of the challenge buffer and the rest of that buffer stays. |
| Pap.ConvertInPlace | UAM/src/http/http_main.c:139-145 | The challenge is converted back over itself from a copy, so the aliasing loses nothing. |
| Pap.HashInPlace | UAM/src/http/http_main.c:147-151 | The digest of those 16 bytes and the secret replaces them. |
| Pap.HideBlocks | UAM/src/http/http_main.c:160-166 | The nested loop XORs byte i of the password with byte i mod 16 of the digest. |
| Pap.HideAndPrint | UAM/src/http/http_main.c:153-169 | The padded password is hidden and exactly its own length is printed. |
| Pap.HideInvolutive | UAM/src/http/http_main.c:160-166 | Hiding twice under one digest gives the text back. |
| Pap.HideInjective | UAM/src/http/http_main.c:160-166 | Under one digest different passwords are hidden differently. |
| Pap.PasswordRecovered | UAM/src/http/http_main.c:128-170 | For a challenge of at least 32 hexadecimal digits the result is lower-case hexadecimal of twice the password's length, and unhexing it and XORing with the repeated digest returns the password. |
| UrlDecode.PrefixCode | UAM/src/http/http_main.c:438-477 | None of the twelve escape spellings starts another. |
| UrlDecode.RecogniseFinds | UAM/src/http/http_main.c:438-482 | So the order of the comparisons does not matter. |
| UrlDecode.TerminatesIffDecodable | UAM/src/http/http_main.c:430-489 | The loop ends exactly when every '%' at a token boundary starts a known escape, and then it has produced the decoding. |
| UrlDecode.LoopsOnSpaceAndUpperCase | UAM/src/http/http_main.c:436-489 | The loop never ends on "%20" and on "%253A". |
| UrlDecode.LoopBodyDecodes | UAM/src/http/http_main.c:432-482 | A round moves one token from what is left to what was put out. |
| UrlDecode.DecodeInvertsEncoders | UAM/src/http/http_main.c:430-491 | Whatever spelling an encoder chose for each character, literal, single or double escape, decoding gives the text back. |
| UrlDecode.DecodableIsEncoding | UAM/src/http/http_main.c:430-491 | Conversely everything that decodes is such an encoding of its decoding. |
| UrlDecode.SpellsIff | UAM/src/http/http_main.c:438-482 | A piece spells a character exactly when it is that character, other than '%', or '%' and two hexadecimal digits of the code of one of ":/?=&", the letter in either case, or "%25" and the lower-case digits of the code of one of ":/?". |
| UrlDecode.EscapeDecodes | UAM/src/http/http_main.c:438-482 | Every such escape decodes to the character whose code its digits write. |
| UrlDecode.EscapesOfColonAndSlashDecode | UAM/src/http/http_main.c:438-453 | The six escapes of ':' and '/' as literals. |
| UrlDecode.EscapesOfTheOthersDecode | UAM/src/http/http_main.c:454-482 | The six escapes of '?', '=' and '&' as literals. |
| UrlDecode.Decode | UAM/src/http/http_main.c:430-491 | What was decoded contains no '%'. |
| UrlDecode.DecodedLength | UAM/src/http/http_main.c:438-482 | Decoding shortens the text by two for each single and four for each double escape. |
| UrlDecode.DecodeIdempotent | UAM/src/http/http_main.c:430-491 | Decoding what was decoded changes nothing. |
| UrlDecode.SpaceStays | UAM/src/http/http_main.c:514-528 | The decoding has white space exactly if the text had, so the %s scan after it is lossless. |
| QueryString.HttpContext.DecodeUrl | UAM/src/http/http_main.c:417-493 | The query string is replaced by its decoding. |
| Scan.SplitJoins | UAM/src/http/http_main.c:514-538 | The "%[^c]c%s" scan returns both fields exactly when the first is non-empty without c and the second non-empty without white space. |
| Scan.TokeniseJoins | UAM/src/http/http_main.c:531-540 | Non-empty tokens without the separator come back in order after being joined by it. |
| Scan.TokeniseRuns | UAM/src/http/http_main.c:531-540 | Separators before a token are skipped however many there are, the separator behind it ends it, and what follows is tokenised the same way. |
| Scan.FirstLineBefore | UAM/src/http/http_main.c:594-597 | The first token between CR and LF is the request line. |
| Scan.LineIsPiece | UAM/src/http/http_main.c:594-597 | The first line of any request is the piece between the leading CRs and LFs and the next one. |
| Scan.WordBeforeSpace | UAM/src/http/http_main.c:562-566 | The %s scan takes a word up to the next space and leaves the rest. |
| Scan.WordIsPiece | UAM/src/http/http_main.c:562-566 | The %s scan of any text takes the piece between the leading white space and the next, and leaves what follows. |
| QueryString.HttpContext.ParseParams | UAM/src/http/http_main.c:531-541 | For tokens that fit in the slots, slot i receives the i-th token's fields, a field that was not scanned keeps its old text, slot 0 and later slots stay, and the count is the number of tokens. |
| QueryString.HttpContext.ParseQs | UAM/src/http/http_main.c:502-543 | Decoding and both branches of the split leave the query string, table and count the specification says. |
| QueryString.HttpContext.ParseUri | UAM/src/http/http_main.c:555-577 | Method, resource and query string come from the two scans; a resource name that is not scanned becomes what the uninitialised buffer held, the others stay; and the count returned is that of the second scan. |
| QueryString.HttpContext.ProcessRequest | UAM/src/http/http_main.c:654-671 | The whole context afterwards: the first line is split, and exactly on "/prelogin.html" and "/login_response.html" the table is filled from the decoded query string. |
| QueryString.HttpContext.GetParamValue | UAM/src/http/http_main.c:400-415 | Returns the value of the first slot with the name. |
| LoginRequest.SerialisedSplits | UAM/src/http/http_main.c:514-540 | A serialised request is taken apart at its first '?' and then into its pairs. |
| LoginRequest.TableFilled | UAM/src/http/http_main.c:502-543 | Over any table, slot 0 holds the login address, the pairs follow in order, all other slots stay, and the count is the number of pairs. |
| LoginRequest.LookupsAfter | UAM/src/http/http_main.c:400-415 | Every key but loginurl then finds its own value, and loginurl the address. |
| LoginRequest.LoginRoundTrip | UAM/src/http/http_main.c:400-543 | From end to end: however the serialised request is escaped, decoding and parsing it over any table gives the pairs back and every lookup its value. |
| LoginRequest.RequestSplits | UAM/src/http/http_main.c:562-572 | The scans of a request line that fits find its words, and stay inside their buffers. |
| LoginRequest.TargetScanned | UAM/src/http/http_main.c:562-575 | The method of a request becomes its first word, and resource and query string the parts of its target around the first '?'. |
| LoginRequest.OneWordLine | UAM/src/http/http_main.c:562-575 | A line of one word sets the method and splits the resource name of the request before it again. |
| LoginRequest.LoginProcessed | UAM/src/http/http_main.c:589-671 | The same, with the method that was sent, from the text of the whole request, for both login pages, over any context. |
| LoginRequest.ServeLogin | UAM/src/http/http_main.c:654-671 | The context class is left so. |
| RequestHistory.SlotsKept | UAM/src/http/http_main.c:533-540 | After any sequence of requests a slot of the parameters is blank or has a name some request can store, and what it holds fits behind the tokens before it on one request line. |
| RequestHistory.SettledIffSent | UAM/src/http/http_main.c:519-541 | Over all sequences of earlier requests: what a lookup returns is independent of them exactly for loginurl, the keys the request carried, and names that no request line has room to leave, with a value, behind its parameters. |
| LoginForm.UncutIsWhole | UAM/src/http/http_main.c:514-529 | No login address is seen exactly when the first '?' is absent or at an end, and then the whole text is cut into parameters. |
| LoginForm.FilledIffUncut | UAM/src/http/http_main.c:514-541 | The parameters of a form fill slots 1 to n of every table, and of the blank one, exactly when the form is uncut. |
| LoginForm.FormLookup | UAM/src/http/http_main.c:400-415 | A key of the form finds its own value exactly unless slot 0 kept its name with another value. |
| FormHistory.Slot0Named | UAM/src/http/http_main.c:519-525 | Slot 0 carries one of given names exactly when the last request that named it did so with one of them. |
| FormHistory.FormAfterHistory | UAM/src/http/http_main.c:400-543 | After any sequence of requests a key of an uncut form finds its own value exactly unless the last request that named slot 0 used that key and slot 0 holds another value. |
| FormHistory.CutFormNamesFirstKey | UAM/src/http/http_main.c:519-525 | A cut form names slot 0 by its first key, or by what comes before a '?' in that key. |
| FormHistory.WellMeantHistory | UAM/src/http/http_main.c:502-543 | After login requests and uncut forms only, slot 0 is blank or named loginurl. |
| FormHistory.CutFormInSlot0 | UAM/src/http/http_main.c:519-525 | A form cut behind its first key leaves that key and the text up to the '?' in slot 0. |
| FormHistory.CutFormAnswersForNext | UAM/src/http/http_main.c:400-543 | After a cut form a later form's lookup of the first key returns the earlier client's text. |
| FormHistory.NextClientMistaken | UAM/src/http/http_main.c:400-543 | So it is after any sequence of requests, for every form cut behind its first key and every complete form with that key, however both were escaped. |
| FormHistory.EveAnswersForBob | UAM/src/http/http_main.c:400-543 | Two such requests: an address with a query of its own is enough. |
| LoginForm.FormProcessed | UAM/src/http/http_main.c:589-671 | From the text of the whole request, over any context, the method is the one sent and an uncut form's parameters are in slots 1 to n. |
| LoginForm.ServeForm | UAM/src/http/http_main.c:654-671 | The context class is left so. |
| LoginForm.HidePassword | UAM/src/http/http_main.c:234-243 | The four lookups and the hiding, for whatever the table holds; the result is a C string in the buffer. |
| LoginForm.FormAnswered | UAM/src/http/http_main.c:400-415 | Over any table the four lookups return what was sent exactly when slot 0 does not answer for one of them with another value, and then the hidden password gives back the typed one under the digest of the sent challenge and the secret. |
| LoginForm.AnswerForm | UAM/src/http/http_main.c:234-243 | The same on the context class, from the text of the request to the buffer. |
| UamServer.CStringOfOctets | UAM/src/tcp/tcp_main.c:348-364 | A request without NUL, received into the zeroed buffer, is read as its own characters. |
| UamServer.CautiousFollows | UAM/src/http/http_main.c:654-671 | Some parser does what the source does wherever the source comes to an end inside its buffers. |
| UamServer.TableOfQueries | UAM/src/http/http_main.c:502-671 | On every descriptor the table is the one that the queries received on it leave from the zeroed table, in order and across connections. |
| UamServer.TargetParsed | UAM/src/http/http_main.c:555-671 | A request for a login page parses its own query, or the one the request before it left, and a request for another page leaves the table alone. |
| UamServer.FormReachesResponse | UAM/src/http/http_main.c:683-711 | In every run and on every descriptor the response to a complete form is made from a context that holds the form's parameters over what the earlier requests left, and a key finds its own value exactly unless slot 0 holds it with another value. |
| UamServer.LoginIsAnswered | UAM/src/http/http_main.c:210-711 | The whole login in the whole server: on any descriptor of any run, after any requests, the response's four lookups return what was sent exactly when slot 0 does not stand in their way, and then the hidden password gives back the typed one. |
| UamServer.SensibleLoginIsAnswered | UAM/src/http/http_main.c:210-711 | So it is after complete forms, login requests and requests for other pages, with or without a query, by whichever clients. |
| UamServer.AnswerByQueries | UAM/src/http/http_main.c:400-711 | In terms of the requests on the descriptor: a key finds its own value exactly unless the last query that named slot 0 used that key and slot 0 holds another value. |
| UamServer.NextClientIsMistaken | UAM/src/http/http_main.c:400-711 | In every run, after a cut form, a close and a new connection on the same descriptor, the later client's first key is looked up to the earlier client's text. |
| UamRuns.DialogueIsSeen | UAM/src/tcp/tcp_main.c:317-435 | There is a run in which a client connects and sends any given requests one after the other, each of them answered. |
| UamRuns.ShortestLogin | UAM/src/http/http_main.c:210-711 | The run of one login form answers it. |
| UamRuns.FormIsSent | UAM/src/http/http_main.c:555-577 | Every uncut form of bytes without '%' and of at most 470 characters is such a request as it stands. |
| UamRuns.HistoryIsSeen | UAM/src/http/http_main.c:502-671 | Every sequence of queries is the one received on some descriptor in some run. |
| UamRuns.SettledInRunsIffSent | UAM/src/http/http_main.c:519-541 | Over all runs: what a lookup after a login request returns is independent of what the descriptor saw before exactly for loginurl, the keys it carried and names that no request line has room to leave behind them. |
| TcpModel.InterestSets | UAM/src/tcp/tcp_main.c:317-378 | In a state with the invariant the two sets are disjoint, open and bounded by fd_max, their members are exactly the listeners and the connections, listeners only wait to read, and each has a callback. |
| TcpModel.Isolation | UAM/src/tcp/tcp_main.c:332-375 | A visit changes only what is kept about the ready descriptor and the one it accepted, and what it makes of them depends on nothing else. |
| TcpModel.VisitKeeps | UAM/src/tcp/tcp_main.c:330-376 | Every visit keeps the invariant, and what is left of the snapshot stays current. |
| TcpModel.PassKeeps | UAM/src/tcp/tcp_main.c:317-378 | So does every pass. |
| TcpModel.RunKeeps | UAM/src/tcp/tcp_main.c:390-435 | The invariant holds in every state a run can reach, and fd_max never decreases. |
| TcpTrace.PassMakes | UAM/src/tcp/tcp_main.c:330-376 | A pass makes the callbacks that the state at the snapshot determines, acts on each descriptor as if it were alone, and applies no readiness to a number that was closed and accepted again. |
| TcpTrace.OneCallbackEach | UAM/src/tcp/tcp_main.c:330-376 | Exactly the ready descriptors are called back, once each, in ascending order. |
| TcpTrace.UnopenedNotCurrent | UAM/src/tcp/tcp_main.c:337-343 | A number that accept can return is behind the scan or not in the snapshot. |
| TcpTrace.PassProgress | UAM/src/tcp/tcp_main.c:330-376 | The scan ends beyond the live fd_max with all its progress kept. |
| TcpSession.VisitPhase | UAM/src/http/http_main.c:683-711 | A visit takes the called-back descriptor one step along the protocol of a single connection and leaves all others where they are. |
| TcpSession.FailedReadIsData | UAM/src/tcp/tcp_main.c:349-366 | A read that fails is handled as a request without data, one that returns bytes as those bytes, and one that returns none closes the connection. |
| TcpSession.RunIsSessions | UAM/src/http/http_main.c:683-711 | Over every run the callbacks on one descriptor are those of the single-connection protocol, and its state is where they lead. |
| TcpSession.ReplayIffInOrder | UAM/src/http/http_main.c:683-711 | Those are exactly the prefixes of NEW (RECEIVED SENT)* CLOSE, repeated, in which each response is made from the requests received so far. |
| TcpSession.SessionsInOrder | UAM/src/http/http_main.c:654-711 | So no response precedes its request or is sent twice, no close leaves one owed, and the context of a descriptor is what its own requests made it. |
| TcpCreate.MaxListen | UAM/src/tcp/tcp_main.c:283-297 | The maximum is -1 exactly if nothing is listed, and otherwise the greatest listen descriptor of the set. |
| TcpCreate.CreatedIffBound | UAM/src/tcp/tcp_main.c:454-474 | From every state that set-ups and passes can leave, a set-up establishes the loop's invariant exactly when its bind succeeded, no entry had been left unbound and no connection was being served. |
| TcpCreate.ActsKeepEntries | UAM/src/tcp/tcp_main.c:390-474 | Through any sequence of set-ups, also failed ones, and passes the entries stay well-formed, and one is left unbound exactly if some bind has failed. |
| TcpCreate.SetUpWorksIff | UAM/src/tcp/tcp_main.c:454-474 | From the zeroed globals, after any such sequence, a set-up establishes the invariant exactly when no bind has failed, now or before, and no connection is being served. |
| TcpCreate.ServerStarts | UAM/src/tcp/tcp_main.c:454-474 | From the zeroed globals it holds exactly when the bind succeeded; then only the listener is waited for, otherwise only descriptor 0. |
| TcpMain.ServerRuns | UAM/src/http/http_main.c:723-728 | From start-up, whether or not the bind succeeds and whatever clients do, every descriptor sees sessions in order; the invariant holds exactly if the bind succeeded, and otherwise there is no callback at all. |
| TcpMain.Serve | UAM/src/http/http_main.c:723-728 | The same of the class, created, set up and run. |
| TcpMain.TcpContext.constructor | UAM/src/tcp/tcp_main.c:37 | The globals before main are zeroed. |
| TcpMain.TcpContext.CloseConn | UAM/src/tcp/tcp_main.c:477-482 | Clears the read bit, releases the entry and closes the number. |
| TcpMain.TcpContext.ProcessRequestCb | UAM/src/http/http_main.c:683-711 | Each message changes the state as the model's callback does; it is only called through a registered pointer. |
| TcpMain.TcpContext.TcpAccept | UAM/src/tcp/tcp_main.c:170-195 | The new entry is connected and fd_max is raised if needed. |
| TcpMain.TcpContext.ProcessFd | UAM/src/tcp/tcp_main.c:332-375 | The loop body is the model's visit, and it never calls through a missing callback. |
| TcpMain.TcpContext.TcpProcessRequest | UAM/src/tcp/tcp_main.c:317-378 | The loop is the model's pass and ends although its bound may rise. |
| TcpMain.TcpContext.TcpSelect | UAM/src/tcp/tcp_main.c:390-435 | Any number of rounds is the model's run. |
| TcpMain.TcpContext.TcpSocket | UAM/src/tcp/tcp_main.c:70-80 | The new number's entry is marked as created. |
| TcpMain.TcpContext.TcpBind | UAM/src/tcp/tcp_main.c:94-132 | Success makes the entry a listener and raises fd_max; failure changes nothing. |
| TcpMain.TcpContext.TcpIomuxInit | UAM/src/tcp/tcp_main.c:267-299 | The read set becomes the listen descriptors of the created and listening entries, the write set empty, and fd_max the greatest of them. |
| TcpMain.TcpContext.TcpInstanceCreate | UAM/src/tcp/tcp_main.c:454-474 | The four steps give the model's start-up state whether or not the bind succeeds. |
| TcpWrite.Socket.TcpWrite | UAM/src/tcp/tcp_main.c:226-256 | For every schedule of partial sends the loop ends, the write bit is cleared, and the wire gains the data once and in order, or on an error a proper prefix of it; what is returned then is the answer of the first call that failed. |
| TcpWrite.AllTakenIffNoFailure | UAM/src/tcp/tcp_main.c:236-254 | Everything is taken exactly when no call fails. |

## Left out

- Hex.ScanPair: takes the pair "0x" for no number, as C11 section 7.21.6.2 says; some C libraries accept it as zero.
- Md5.Md5Context.Final: does not model the wiping of the context, which clears as many bytes as its size expression says and is not needed afterwards.
- Pap.EncodePapPassword: requires a challenge text of 32 to 512 characters and a password of at most 128 bytes, because longer ones leave the source's fixed buffers and a shorter challenge makes it read beyond the text; password, secret and challenge stand for the bytes before their NUL.
- QueryString.HttpContext.DecodeUrl: requires a decodable text, because on any other the source's loop never ends; gives the result buffer room for its terminator, for which the source allocates nothing when no escape occurs.
- QueryString.HttpContext.ParseParams: requires at least one token, because the source scans a null pointer when there is none, fewer than 256, the size of the table, and names and values below 256 characters, the size of a slot.
- QueryString.HttpContext.ParseUri: does not keep the protocol word; requires that what is scanned fits, and takes the uninitialised buffer to hold some C string of its size.
- QueryString.HttpContext.GetParamValue: requires that some slot has the name, because the source's loop condition is always true.
- QueryString.HttpContext.ProcessRequest: does not model what is kept of the MIME headers after the first line; requires that the parser ends on the request and stays inside its buffers, those for the headers included.
- LoginForm.AnswerForm: does not model the text of the redirect.
- UamServer.LoginIsAnswered: concludes about the context and the hidden password, not about the text of the response; a form split over several reads is not one request.
- LoginForm.HidePassword: characters are bytes, so texts with larger ones are excluded.
- TcpMain.TcpContext.TcpAccept: does not model a failing accept, whose result the source does not look at.
- TcpMain.TcpContext.TcpSocket: does not model a failing socket call, after which the source indexes its table with -1.
- TcpMain.TcpContext.TcpSelect: does not model rounds in which select reports a timeout or an error; they change nothing.
- TcpModel.DataSent: records the context the response is made from, not its bytes; the write bit that tcp_write clears inside it is clear already.
- TcpMain.TcpContext.ProcessRequestCb: takes the parser as a total function of the connection's context and the data, and the response text is left out; on requests on which the real parser loops or is undefined nothing follows.
- Response pages, headers and Content-Length: string templates, and the redirect does not echo the challenge that was sent, which has been overwritten by then.
- MIME header lookup, logging, allocation failure, file reading and the exception set, which stays empty.
- tcp_init_ctx: nothing calls it.
- The RADIUS client in UAM/src/rad_client/rad_client.c: nothing calls it. The password hiding here is not that of section 5.2 of RFC 2865: one digest is repeated and the challenge is hashed before the secret.
- That the sine table of RFC 1321 is the integer part of 2^32 times the sine: the table holds the RFC's values, all 64 of which the known answer depends on.
