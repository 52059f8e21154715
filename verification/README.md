# universal_exporter core, modelled in Dafny

This project models the core of *universal_exporter*, a Kotlin service that
collects metrics from several sources and serves them to Prometheus. The
model has three parts:

1. **RFC 5424 syslog.**
   - `Progressive2`, the streaming parser: it reads syslog records from a
     channel of byte chunks.
   - Its two older copies.
   - The `Severity` and `Facility` tables and `LogRecord`.

   The canonical parser is a class with the source's cursor state: the
   chunk in hand, `startIndex`/`endIndex`, the scratch `internalBuffer` (a
   Dafny `array`), the caches and the record fields. Every primitive
   (`skip`, `skipPrefix`, `readDigits`, `readUntil`, `skipByte`) and every
   step of `parse5424` is proved against a reference reading of the unread
   bytes (`Rfc5424Flat`). The properties in `Rfc5424Properties` are proved
   about that reading. The older copies are modelled on values.
2. **Prometheus text exposition (version 0.0.4).**
   - The name checks, the escaping, the text of a sample, and the writer
     that puts `# TYPE`/`# HELP` in front of the first sample of each name.
   - The first-generation renderer and metric model (`LegacyMetrics`,
     `LegacyPrometheus`).
3. **The collectors' mapping logic.**
   - The Jackson `JsonObjectBuffer`.
   - The Ganglia XML-event state machine and its metric naming, in three
     copies.
   - The HAProxy CSV header/row mapping, in three copies.
   - The endpoint-selection loops.

Shared modules:
- `Bytes`: bytes, `Option`/`Result`, and the exceptions the source raises.
- `Scan`: byte classes, spans, stop indices, and digit folding in 32- and
  64-bit arithmetic.
- `SdValue`: PARAM-VALUE escaping.
- `Strings`: the Kotlin string functions the mappers use.
- `Rfc5424Time`: `OffsetDateTime.of` and `ZoneOffset.ofHoursMinutes`.

## Model

| member | source | states |
|---|---|---|
| Rfc5424Severity.SeverityOrdinal | src/main/kotlin/org/cikit/modules/syslog/rfc5424/Severity.kt:3-13 | `values()` is declaration order: the ordinal indexes the table back to the constant (EMERG…DEBUG are 0–7 and NOPRI is 8). The same enum is at src/main/kotlin/exporter/syslog/Severity.kt:3-13. |
| Rfc5424Facility.FacilityOrdinal | src/main/kotlin/rfc5424/Facility.kt:3-28 | The 24 facilities in declaration order: the ordinal indexes the table back to the constant. |
| Rfc5424Codes.GetOrNull | src/main/kotlin/org/cikit/modules/syslog/rfc5424/Progressive2.kt:37-38 | `getOrNull(i)` answers the element exactly when `i` is a valid index, and null otherwise. |
| Rfc5424Codes.FacilityOf | src/main/kotlin/rfc5424/LogRecord.kt:14-17 | `Facility[pri shr 3]` exists exactly for 0 <= pri < 192, and then its ordinal is pri / 8. |
| Rfc5424Codes.SeverityOf | src/main/kotlin/rfc5424/LogRecord.kt:19-22 | `Severity[pri and 7]` always exists, is never NOPRI, and has ordinal pri mod 8 (the mask is a non-negative remainder, even for a negative pri). |
| Rfc5424Codes.Pri | src/main/kotlin/rfc5424/Facility.kt:3-28 | The PRI value of a facility and an RFC severity is below 192. |
| Rfc5424Codes.PriRoundTrip | src/main/kotlin/rfc5424/LogRecord.kt:14-22 | Splitting `Pri(f, s)` with `shr 3` / `and 7` gives back `f` and `s`. |
| Rfc5424Codes.PriSplit | src/main/kotlin/rfc5424/LogRecord.kt:14-22 | Every PRI in 0..191 has a facility and a severity, and they rebuild it. |
| Rfc5424Codes.LogRecord.Facility | src/main/kotlin/rfc5424/LogRecord.kt:14-17 | `LogRecord.facility` is present exactly when `pri` is present and within 0..191. |
| Rfc5424Codes.LogRecord.Severity | src/main/kotlin/rfc5424/LogRecord.kt:19-22 | `LogRecord.severity` is present exactly when `pri` is present, and is never NOPRI. |
| Rfc5424Codes.NegativePriInLogRecord | src/main/kotlin/rfc5424/LogRecord.kt:14-22 | A `LogRecord` with pri -1 has no facility but has severity DEBUG. |
| Rfc5424Time.MonthLength | src/main/kotlin/org/cikit/modules/syslog/rfc5424/Progressive2.kt:251 | Month lengths of the ISO calendar lie between 28 and 31. |
| Rfc5424Time.OffsetOf | src/main/kotlin/org/cikit/modules/syslog/rfc5424/Progressive2.kt:210 | `ZoneOffset.ofHoursMinutes`: an accepted offset is a whole number of minutes within ±18 hours. |
| Rfc5424Time.OffsetOfAccepts | src/main/kotlin/org/cikit/modules/syslog/rfc5424/Progressive2.kt:210 | For non-negative fields, an offset is accepted exactly up to 18:00 with minutes below 60. |
| Rfc5424Time.OffsetOfNegated | src/main/kotlin/org/cikit/modules/syslog/rfc5424/Progressive2.kt:247-248 | `-hh:mm` is accepted exactly when `+hh:mm` is, and is its negation. |
| Rfc5424Time.DateTimeOf | src/main/kotlin/org/cikit/modules/syslog/rfc5424/Progressive2.kt:251 | `OffsetDateTime.of` keeps every field it is given. |
| Rfc5424Time.DateTimeOfValid | src/main/kotlin/org/cikit/modules/syslog/rfc5424/Progressive2.kt:251 | Construction succeeds exactly for the valid date-times. |
| Rfc5424Time.LeapDay | src/main/kotlin/org/cikit/modules/syslog/rfc5424/Progressive2.kt:251 | The 29th of February is accepted exactly in leap years. |
| SdValue.Escape | src/main/kotlin/org/cikit/modules/syslog/rfc5424/Progressive2.kt:168-186 | A sender's PARAM-VALUE escaping (section 6.3.3 of RFC 5424) at most doubles the length. |
| SdValue.UnescapeEscape | src/main/kotlin/org/cikit/modules/syslog/rfc5424/Progressive2.kt:168-186 | Decoding undoes escaping, and an escaped value never ends in an open escape. |
| SdValue.UnescapeAppend | src/main/kotlin/org/cikit/modules/syslog/rfc5424/Progressive2.kt:168-186 | Decoding segment by segment is decoding the whole, as long as no segment ends in an open escape. |
| SdValue.UnescapePlain | src/main/kotlin/org/cikit/modules/syslog/rfc5424/Progressive2.kt:168-186 | Text without a backslash decodes to itself. |
| SdValue.UnescapeKeepsOtherEscapes | src/main/kotlin/org/cikit/modules/syslog/rfc5424/Progressive2.kt:176-180 | A backslash before a character other than `"`, `\` or `]` is kept with that character. |
| SdValue.DecodeQuotedString | src/main/kotlin/org/cikit/modules/syslog/rfc5424/Progressive2.kt:168-186 | The loop appends the decoded text of the input. It answers true exactly when the input does not end in an unpaired backslash. |
| Scan.SpanOfBytes | src/main/kotlin/org/cikit/modules/syslog/rfc5424/Progressive2.kt:69-79 | The span that `skip` passes over is made of class bytes and ends at the first byte outside the class. |
| Scan.StopInFront | src/main/kotlin/org/cikit/modules/syslog/rfc5424/Progressive2.kt:115-157 | Where `readUntil` stops in a chunk followed by later bytes: inside the chunk if the chunk has a stop byte, and otherwise in the bytes that follow. |
| Scan.TokenWithinLine | src/main/kotlin/org/cikit/modules/syslog/rfc5424/Progressive2.kt:115-157 | A token ends no later than the line it is on, since a newline stops every token. |
| Scan.LongToken | src/main/kotlin/org/cikit/modules/syslog/rfc5424/Progressive2.kt:115-157 | A token longer than the buffer makes a line longer than the buffer. |
| Scan.LongLineLater | src/main/kotlin/org/cikit/modules/syslog/rfc5424/Progressive2.kt:115-157 | A long line in bytes still to come is a long line of any earlier unread bytes. |
| Scan.Acc32NoWrap | src/main/kotlin/org/cikit/modules/syslog/rfc5424/Progressive2.kt:92-113 | Folding digits with `v * 10 + d` in `Int` arithmetic gives the decimal value while that value fits in an `Int`. |
| Scan.Acc32Small | src/main/kotlin/org/cikit/modules/syslog/rfc5424/Progressive2.kt:241 | At most nine fraction digits never wrap, and stay below 10^9. |
| Rfc5424Flat.Name | src/main/kotlin/org/cikit/modules/syslog/rfc5424/Progressive2.kt:279-326 | A field token is its text, or null exactly for the nil value `-`. |
| Rfc5424Flat.SkipFlat | src/main/kotlin/org/cikit/modules/syslog/rfc5424/Progressive2.kt:69-79 | `skip` leaves a suffix that starts outside the class. It answers true exactly when bytes remain. |
| Rfc5424Flat.DigitsFlat | src/main/kotlin/org/cikit/modules/syslog/rfc5424/Progressive2.kt:92-113 | `readDigits` fails without consuming on a non-digit. Otherwise it reads a non-empty digit run followed by a non-digit. |
| Rfc5424Flat.TokenFlat | src/main/kotlin/org/cikit/modules/syslog/rfc5424/Progressive2.kt:115-157 | `readUntil` splits the input into the token and the rest, and the rest starts with the stop byte, left unread. |
| Rfc5424Flat.PadRightValue | src/main/kotlin/org/cikit/modules/syslog/rfc5424/Progressive2.kt:239-244 | Padding one to nine fraction digits gives their value in nanoseconds, below one second, without wrap-around. |
| Rfc5424Flat.FractionNanos | src/main/kotlin/org/cikit/modules/syslog/rfc5424/Progressive2.kt:239-244 | A parsed fraction is its decimal value scaled to nine digits. |
| Rfc5424Flat.OffsetFlat | src/main/kotlin/org/cikit/modules/syslog/rfc5424/Progressive2.kt:204-211 | The only exception `parseOffset` can raise is the `DateTimeException` of `ofHoursMinutes`. |
| Rfc5424Flat.TsFlat | src/main/kotlin/org/cikit/modules/syslog/rfc5424/Progressive2.kt:213-253 | The only exception `parseTs` can raise is `DateTimeException`. |
| Rfc5424Flat.QuotedFlat | src/main/kotlin/org/cikit/modules/syslog/rfc5424/Progressive2.kt:345-351 | The quoted-value loop consumes at least one byte and leaves a suffix. |
| Rfc5424Flat.QuotedRound | src/main/kotlin/org/cikit/modules/syslog/rfc5424/Progressive2.kt:345-351 | One round of that loop: a paired segment ends the value. An unpaired one appends `"` and reads on after the quote. |
| Rfc5424Flat.ValueQuoted | src/main/kotlin/org/cikit/modules/syslog/rfc5424/Progressive2.kt:344-353 | A value that starts with `"` is read by the quoted loop. |
| Rfc5424Flat.KeyFlat | src/main/kotlin/org/cikit/modules/syslog/rfc5424/Progressive2.kt:331-342 | SD-IDs and PARAM-NAMEs end at a stop byte of their class, which stays unread. |
| Rfc5424Flat.ParamFlat | src/main/kotlin/org/cikit/modules/syslog/rfc5424/Progressive2.kt:337-361 | A parameter either fails the record with the fields unchanged, or consumes input and changes only the SD map. |
| Rfc5424Flat.AssignFlat | src/main/kotlin/org/cikit/modules/syslog/rfc5424/Progressive2.kt:343-359 | Without `=` the record fails and nothing is consumed. Otherwise exactly the entry `(id, key)` is set. |
| Rfc5424Flat.SdFlat | src/main/kotlin/org/cikit/modules/syslog/rfc5424/Progressive2.kt:329-365 | The SD loop ends the record (or runs into the end of the stream) and never raises. |
| Rfc5424Flat.PriFlat | src/main/kotlin/org/cikit/modules/syslog/rfc5424/Progressive2.kt:257-272 | PRI and the version change only `priValue` of the reset record. |
| Rfc5424Flat.VersionFlat | src/main/kotlin/org/cikit/modules/syslog/rfc5424/Progressive2.kt:271-272 | The version step never changes the fields. |
| Rfc5424Flat.TimestampFlat | src/main/kotlin/org/cikit/modules/syslog/rfc5424/Progressive2.kt:275-276 | The timestamp step never fails the record. It can only raise `DateTimeException`. |
| Rfc5424Flat.ProcFlat | src/main/kotlin/org/cikit/modules/syslog/rfc5424/Progressive2.kt:307-316 | A bad PROCID fails the record and leaves the fields as they were. |
| Rfc5424Flat.ParseFlat | src/main/kotlin/org/cikit/modules/syslog/rfc5424/Progressive2.kt:255-366 | `parse5424` on the unread bytes never stops between fields: it reaches a verdict or the end of the stream, and its only exception is `DateTimeException`. |
| Rfc5424.Resolve | src/main/kotlin/org/cikit/modules/syslog/rfc5424/Progressive2.kt:279-304 | The host/app cache never changes the answer, which is the token's text or null for `-`. A repeated token leaves the cache as it was. A new non-nil token replaces it. |
| Rfc5424.Intern | src/main/kotlin/org/cikit/modules/syslog/rfc5424/Progressive2.kt:331-342 | An interned key is the decoded token. The key map only grows, and it only holds decoded copies of its keys. |
| Rfc5424.PadNanos | src/main/kotlin/org/cikit/modules/syslog/rfc5424/Progressive2.kt:243 | The padding loop computes `PadRight`, whose value `PadRightValue` states. |
| Rfc5424.FindOutside | src/main/kotlin/org/cikit/modules/syslog/rfc5424/Progressive2.kt:69-79 | The scan returns the first index outside the class, and every byte before it is in the class. |
| Rfc5424.Progressive2.constructor | src/main/kotlin/org/cikit/modules/syslog/rfc5424/Progressive2.kt:9-24 | A new parser has consumed nothing, has a fresh buffer of the given capacity and `priValue` -1. |
| Rfc5424.Progressive2.Facility | src/main/kotlin/org/cikit/modules/syslog/rfc5424/Progressive2.kt:37 | `facility()` is null exactly when `priValue` is outside 0..191. Otherwise its ordinal is `priValue` / 8. |
| Rfc5424.Progressive2.Severity | src/main/kotlin/org/cikit/modules/syslog/rfc5424/Progressive2.kt:38 | `severity()` is null exactly when `priValue` is negative. Its ordinal is `priValue` mod 8, never NOPRI. |
| Rfc5424.Progressive2.Sd | src/main/kotlin/org/cikit/modules/syslog/rfc5424/Progressive2.kt:44 | `sd(id, key)` is the stored value, or null when there is none. |
| Rfc5424.Progressive2.BytesConsumed | src/main/kotlin/org/cikit/modules/syslog/rfc5424/Progressive2.kt:46 | `bytesConsumed()` is the stream length minus the unread bytes. |
| Rfc5424.Progressive2.Receive | src/main/kotlin/org/cikit/modules/syslog/rfc5424/Progressive2.kt:49-63 | `receive` moves to the next chunk and counts the rest of the old one as consumed. Once the channel is closed it stays closed and changes nothing. |
| Rfc5424.Progressive2.Skip | src/main/kotlin/org/cikit/modules/syslog/rfc5424/Progressive2.kt:69-79 | `skip` consumes the class span. It answers true exactly when a byte outside the class follows. |
| Rfc5424.Progressive2.SkipPrefix | src/main/kotlin/org/cikit/modules/syslog/rfc5424/Progressive2.kt:81-90 | `skipPrefix` consumes exactly one byte when it is the expected one, and nothing otherwise. |
| Rfc5424.Progressive2.SkipByte | src/main/kotlin/org/cikit/modules/syslog/rfc5424/Progressive2.kt:159-166 | `skipByte` answers the next byte as a signed value and consumes it, or answers -1 at the end of the stream. |
| Rfc5424.Progressive2.ReadDigits | src/main/kotlin/org/cikit/modules/syslog/rfc5424/Progressive2.kt:92-113 | `readDigits` hands over the digit run in order. It succeeds only for a non-empty run followed by a byte, and consumes nothing on a non-digit. |
| Rfc5424.Progressive2.ReadUntil | src/main/kotlin/org/cikit/modules/syslog/rfc5424/Progressive2.kt:115-157 | `tmp` presents the bytes before the first stop byte, which stays unread. It overflows exactly when a token crossing chunks exceeds the buffer. It answers false at the end of the stream, and without the internal buffer it answers the rest of the chunk. |
| Rfc5424.Progressive2.ScratchFrom | src/main/kotlin/org/cikit/modules/syslog/rfc5424/Progressive2.kt:142-156 | Gathering a token in the scratch buffer from the rest of the chunk agrees with `readUntil`'s reference, and overflows exactly when the token is longer than the buffer. |
| Rfc5424.Progressive2.Digits | src/main/kotlin/org/cikit/modules/syslog/rfc5424/Progressive2.kt:221-238 | The digit runs of the date fields agree with `DigitsFlat`, and their values are decimal digits. |
| Rfc5424.Progressive2.SepDigits | src/main/kotlin/org/cikit/modules/syslog/rfc5424/Progressive2.kt:229-238 | A separator followed by digits agrees with `SepDigitsFlat`. |
| Rfc5424.Progressive2.ParseOffset | src/main/kotlin/org/cikit/modules/syslog/rfc5424/Progressive2.kt:204-211 | `parseOffset` agrees with `OffsetFlat` on the unread bytes. |
| Rfc5424.Progressive2.Zone | src/main/kotlin/org/cikit/modules/syslog/rfc5424/Progressive2.kt:245-250 | The zone designator agrees with `ZoneFlat`. |
| Rfc5424.Progressive2.Fraction | src/main/kotlin/org/cikit/modules/syslog/rfc5424/Progressive2.kt:239-244 | The fraction agrees with `FractionFlat` and never raises. |
| Rfc5424.Progressive2.ClockRest | src/main/kotlin/org/cikit/modules/syslog/rfc5424/Progressive2.kt:239-252 | The fraction, the zone and `OffsetDateTime.of` agree with `ClockFlat`. |
| Rfc5424.Progressive2.DateRest | src/main/kotlin/org/cikit/modules/syslog/rfc5424/Progressive2.kt:229-252 | `parseTs` after the year agrees with `DateFlat`. |
| Rfc5424.Progressive2.ParseTs | src/main/kotlin/org/cikit/modules/syslog/rfc5424/Progressive2.kt:213-253 | `parseTs` agrees with `TsFlat`, or overflows the buffer in the token read after a non-digit start. It throws `BufferOverflowException` only when a line of the unread bytes is longer than the buffer. |
| Rfc5424.Progressive2.ReadToken | src/main/kotlin/org/cikit/modules/syslog/rfc5424/Progressive2.kt:279-281 | A field token agrees with `TokenFlat` and is what `tmp` presents. It overflows exactly when the token runs past the bytes at hand and is longer than the buffer, and then a line of the unread bytes is longer than the buffer. |
| Rfc5424.Progressive2.ReadKey | src/main/kotlin/org/cikit/modules/syslog/rfc5424/Progressive2.kt:339-342 | A PARAM-NAME read and interned agrees with `KeyFlat`. It overflows exactly when the name runs past the bytes at hand and is longer than the buffer. |
| Rfc5424.Progressive2.SdId | src/main/kotlin/org/cikit/modules/syslog/rfc5424/Progressive2.kt:331-336 | The SD-ID read, interned and skipped past agrees with `SdIdFlat`. It overflows exactly when the SD-ID runs past the bytes at hand and is longer than the buffer. |
| Rfc5424.Progressive2.SpacesAfterId | src/main/kotlin/org/cikit/modules/syslog/rfc5424/Progressive2.kt:336 | The `skip()` after an SD-ID agrees with `SdIdFlat`: the SD-ID is kept when a byte follows the spaces. |
| Rfc5424.Progressive2.QuotedValue | src/main/kotlin/org/cikit/modules/syslog/rfc5424/Progressive2.kt:345-351 | The quoted-value loop agrees with `QuotedFlat`, or overflows. An overflow needs a line of the unread bytes longer than the buffer. |
| Rfc5424.Progressive2.ParamValue | src/main/kotlin/org/cikit/modules/syslog/rfc5424/Progressive2.kt:344-356 | A PARAM-VALUE agrees with `ValueFlat`, or overflows. An overflow needs a line of the unread bytes longer than the buffer. |
| Rfc5424.Progressive2.Assign | src/main/kotlin/org/cikit/modules/syslog/rfc5424/Progressive2.kt:343-359 | `=` and the value, stored under `(id, key)`, agree with `AssignFlat`. It throws `BufferOverflowException` only when a line of the unread bytes is longer than the buffer. |
| Rfc5424.Progressive2.ParseParam | src/main/kotlin/org/cikit/modules/syslog/rfc5424/Progressive2.kt:337-361 | One SD-PARAM agrees with `ParamFlat`, and a parameter that goes on consumes input. It throws `BufferOverflowException` only when a line of the unread bytes is longer than the buffer. |
| Rfc5424.Progressive2.ParseParams | src/main/kotlin/org/cikit/modules/syslog/rfc5424/Progressive2.kt:337-361 | The parameter loop agrees with `ParamsFlat`. After `]` it hands back the reading the SD loop continues from. It throws `BufferOverflowException` only when a line of the unread bytes is longer than the buffer. |
| Rfc5424.Progressive2.SdElement | src/main/kotlin/org/cikit/modules/syslog/rfc5424/Progressive2.kt:329-362 | One SD-ELEMENT agrees with `SdFlat`, and an element that goes on consumes input. It throws `BufferOverflowException` only when a line of the unread bytes is longer than the buffer. |
| Rfc5424.Progressive2.OpenElement | src/main/kotlin/org/cikit/modules/syslog/rfc5424/Progressive2.kt:329-337 | After `[`, the SD-ID and its parameters agree with `SdFlat`. It throws `BufferOverflowException` only when a line of the unread bytes is longer than the buffer. |
| Rfc5424.Progressive2.ElementParams | src/main/kotlin/org/cikit/modules/syslog/rfc5424/Progressive2.kt:337-361 | The parameters of an opened element agree with `SdFlat`. It throws `BufferOverflowException` only when a line of the unread bytes is longer than the buffer. |
| Rfc5424.Progressive2.ParseSd | src/main/kotlin/org/cikit/modules/syslog/rfc5424/Progressive2.kt:329-365 | The structured data agrees with `SdFlat`. It throws `BufferOverflowException` only when a line of the unread bytes is longer than the buffer. |
| Rfc5424.Progressive2.ReadNil | src/main/kotlin/org/cikit/modules/syslog/rfc5424/Progressive2.kt:312-313 | The nil test `readUntil() && tmp == nilBytes` agrees with `NilFlat`. It overflows exactly when the token runs past the bytes at hand and is longer than the buffer. |
| Rfc5424.Progressive2.ResetRecord | src/main/kotlin/org/cikit/modules/syslog/rfc5424/Progressive2.kt:256-263 | The reset clears every record field. |
| Rfc5424.Progressive2.ParsePri | src/main/kotlin/org/cikit/modules/syslog/rfc5424/Progressive2.kt:256-272 | The reset, PRI and the version agree with `PriFlat`, and never throw. |
| Rfc5424.Progressive2.ParsePriValue | src/main/kotlin/org/cikit/modules/syslog/rfc5424/Progressive2.kt:266-272 | The PRI digits and the version agree with `PriValueFlat`, and never throw. |
| Rfc5424.PriDigits | src/main/kotlin/org/cikit/modules/syslog/rfc5424/Progressive2.kt:266-268 | How the PRI digit run ends decides `PriValueFlat`: no digit stops the record, the end of the stream reaches the end, and otherwise the version follows. |
| Rfc5424.Progressive2.ParseVersion | src/main/kotlin/org/cikit/modules/syslog/rfc5424/Progressive2.kt:268-272 | `>`, `1` and `skip()` agree with `VersionFlat`, and never throw. |
| Rfc5424.Progressive2.ParseTimestamp | src/main/kotlin/org/cikit/modules/syslog/rfc5424/Progressive2.kt:275-276 | The timestamp field agrees with `TimestampFlat`. It throws `BufferOverflowException` only when a line of the unread bytes is longer than the buffer. |
| Rfc5424.Progressive2.StoreName | src/main/kotlin/org/cikit/modules/syslog/rfc5424/Progressive2.kt:279-326 | Storing a name changes only its field and its own cache. |
| Rfc5424.Progressive2.ParseName | src/main/kotlin/org/cikit/modules/syslog/rfc5424/Progressive2.kt:279-326 | HOSTNAME, APP-NAME and MSGID agree with `NameFieldFlat`. It throws `BufferOverflowException` only when a line of the unread bytes is longer than the buffer. |
| Rfc5424.Progressive2.ProcValue | src/main/kotlin/org/cikit/modules/syslog/rfc5424/Progressive2.kt:307-314 | The PROCID token agrees with `ProcValueFlat`, or overflows. An overflow needs a line of the unread bytes longer than the buffer. |
| Rfc5424.Progressive2.ParseProc | src/main/kotlin/org/cikit/modules/syslog/rfc5424/Progressive2.kt:307-316 | PROCID agrees with `ProcFlat`. It throws `BufferOverflowException` only when a line of the unread bytes is longer than the buffer. |
| Rfc5424.Progressive2.ParseTail | src/main/kotlin/org/cikit/modules/syslog/rfc5424/Progressive2.kt:307-366 | PROCID, MSGID and the structured data agree with `AfterApp`. It throws `BufferOverflowException` only when a line of the unread bytes is longer than the buffer. |
| Rfc5424.Progressive2.ParseFields | src/main/kotlin/org/cikit/modules/syslog/rfc5424/Progressive2.kt:275-366 | The fields after the version agree with `AfterPri`. It throws `BufferOverflowException` only when a line of the unread bytes is longer than the buffer. |
| Rfc5424.Progressive2.Parse5424 | src/main/kotlin/org/cikit/modules/syslog/rfc5424/Progressive2.kt:255-366 | `parse5424`'s verdict, record and unread bytes agree with `ParseFlat` of the unread bytes, on any chunking, unless the reference reaches the end of the stream or the buffer overflows. It overflows only when a line of the unread bytes is longer than the buffer. The caches and keys keep holding decoded copies. |
| Rfc5424.Progressive2.ReadMessageAvailable | src/main/kotlin/org/cikit/modules/syslog/rfc5424/Progressive2.kt:368-373 | Answers a view up to the next newline within the bytes at hand. Answers null after consuming the newline itself, or null when nothing is left. |
| Rfc5424.Progressive2.ReadMessageFully | src/main/kotlin/org/cikit/modules/syslog/rfc5424/Progressive2.kt:375-379 | The message up to the next newline, which is consumed. At the end of the stream it answers the scratch buffer past the gathered bytes (finding below). |
| Rfc5424.Progressive2.ReadMessageFlipped | src/main/kotlin/org/cikit/modules/syslog/rfc5424/Progressive2.kt:375-379 | Corrected `readMessageFully`: the message is always the bytes before the newline or the end of the stream. |
| Rfc5424.Progressive2.SkipMessage | src/main/kotlin/org/cikit/modules/syslog/rfc5424/Progressive2.kt:381-384 | `skipMessage` consumes the bytes up to the next newline and that newline. |
| Rfc5424.NameStep | src/main/kotlin/org/cikit/modules/syslog/rfc5424/Progressive2.kt:279-326 | A name field is its token, then `skip()` with the token stored. |
| Rfc5424.TimestampStep | src/main/kotlin/org/cikit/modules/syslog/rfc5424/Progressive2.kt:275-276 | The timestamp field is the timestamp read or missed, then `skip()`. |
| Rfc5424.ParamStep | src/main/kotlin/org/cikit/modules/syslog/rfc5424/Progressive2.kt:339-361 | A parameter is its key read, then `=` and the value. |
| Rfc5424.SdEnd | src/main/kotlin/org/cikit/modules/syslog/rfc5424/Progressive2.kt:362-365 | Without `[`, the structured data ends with `skip()` and a complete record. |
| Rfc5424.SdOpen | src/main/kotlin/org/cikit/modules/syslog/rfc5424/Progressive2.kt:329-337 | After `[` and its SD-ID, the element's parameters follow. |
| Rfc5424Properties.TokenOf | src/main/kotlin/org/cikit/modules/syslog/rfc5424/Progressive2.kt:115-157 | A token of plain bytes followed by a stop byte is read whole, and the stop byte stays unread. |
| Rfc5424Properties.DigitsOf | src/main/kotlin/org/cikit/modules/syslog/rfc5424/Progressive2.kt:92-113 | A digit run followed by a non-digit is read whole, one value per digit, in order. |
| Rfc5424Properties.VersionOf | src/main/kotlin/org/cikit/modules/syslog/rfc5424/Progressive2.kt:268-272 | After `>1`, `skip()` needs a non-space byte somewhere after the spaces, and no space is required. |
| Rfc5424Properties.PriValue | src/main/kotlin/org/cikit/modules/syslog/rfc5424/Progressive2.kt:266-268 | Any digit run between `<` and `>` becomes `priValue`: its decimal value wrapped to 32 bits, exact up to nine digits. |
| Rfc5424Properties.PriNumber | src/main/kotlin/org/cikit/modules/syslog/rfc5424/Progressive2.kt:266 | The PRI accumulator computes the decimal value wrapped to 32 bits. |
| Rfc5424Properties.Acc32Wraps | src/main/kotlin/org/cikit/modules/syslog/rfc5424/Progressive2.kt:92-113 | Folding digits in `Int` arithmetic is the decimal value wrapped to 32 bits. |
| Rfc5424Properties.PriWraps | src/main/kotlin/org/cikit/modules/syslog/rfc5424/Progressive2.kt:266 | `<2147483648>1` is read as the smallest `Int`: the PRI digits wrap in 32-bit arithmetic. |
| Rfc5424Properties.Int32Overflow | src/main/kotlin/org/cikit/modules/syslog/rfc5424/Progressive2.kt:266 | The digits `2147483648` fold in `Int` arithmetic to the smallest `Int`. |
| Rfc5424Properties.FacilityRange | src/main/kotlin/org/cikit/modules/syslog/rfc5424/Progressive2.kt:37-38 | `facility()` is null exactly outside 0..191, and `severity()` always answers. |
| Rfc5424Properties.LongFractionMisses | src/main/kotlin/org/cikit/modules/syslog/rfc5424/Progressive2.kt:242 | A fraction of ten or more digits fails `parseTs`. |
| Rfc5424Properties.BadTimestampSkipped | src/main/kotlin/org/cikit/modules/syslog/rfc5424/Progressive2.kt:275-276 | A malformed timestamp does not fail the record: the field keeps its reset value and reading goes on. |
| Rfc5424Properties.NilTimestamp | src/main/kotlin/org/cikit/modules/syslog/rfc5424/Progressive2.kt:221-227 | The nil timestamp `-` gives no timestamp. |
| Rfc5424Properties.ProcRejects | src/main/kotlin/org/cikit/modules/syslog/rfc5424/Progressive2.kt:307-316 | A PROCID that is neither digits nor `-` fails the record with the fields unchanged. |
| Rfc5424Properties.ProcDigits | src/main/kotlin/org/cikit/modules/syslog/rfc5424/Progressive2.kt:309-310 | A PROCID of digits is their value folded in `Long` arithmetic. |
| Rfc5424Properties.NilSdKept | src/main/kotlin/org/cikit/modules/syslog/rfc5424/Progressive2.kt:329-365 | As written, the nil SD `-` is not consumed: the record is complete and the `-` stays in front of the message. |
| Rfc5424Properties.SdIdKeepsBracket | src/main/kotlin/org/cikit/modules/syslog/rfc5424/Progressive2.kt:331-335 | An SD-ID ends only at a space or a newline, so in `[id]` the `]` becomes part of the SD-ID. |
| Rfc5424Properties.SecondKeyKeepsSpace | src/main/kotlin/org/cikit/modules/syslog/rfc5424/Progressive2.kt:339-342 | Spaces between SD-PARAMs are not skipped: every later PARAM-NAME starts with a space. |
| Rfc5424Properties.LaterParamWins | src/main/kotlin/org/cikit/modules/syslog/rfc5424/Progressive2.kt:357 | A repeated `(SD-ID, PARAM-NAME)` keeps the second value and changes nothing else. |
| Rfc5424Properties.FirstQuote | src/main/kotlin/org/cikit/modules/syslog/rfc5424/Progressive2.kt:345-351 | Index of the first `"`, with none before it. |
| Rfc5424Properties.QuotedLast | src/main/kotlin/org/cikit/modules/syslog/rfc5424/Progressive2.kt:345-351 | The last segment of a quoted value is ended by the closing `"`. |
| Rfc5424Properties.QuotedStep | src/main/kotlin/org/cikit/modules/syslog/rfc5424/Progressive2.kt:345-351 | A segment that ends in the escaped `\"` is decoded, the `"` is put back, and reading goes on. |
| Rfc5424Properties.QuotedReadsBack | src/main/kotlin/org/cikit/modules/syslog/rfc5424/Progressive2.kt:345-351 | The quoted loop reads back any newline-free value a sender escaped, and consumes the closing quote. |
| Rfc5424Properties.QuotedValueRoundTrip | src/main/kotlin/org/cikit/modules/syslog/rfc5424/Progressive2.kt:344-353 | `"` + escape(v) + `"` is read back as `v`. |
| Rfc5424Properties.EscapeAppend | src/main/kotlin/org/cikit/modules/syslog/rfc5424/Progressive2.kt:168-186 | Escaping works character by character. |
| Rfc5424Properties.SdIntended | src/main/kotlin/org/cikit/modules/syslog/rfc5424/Progressive2.kt:329-365 | Corrected SD loop: it ends the record (or runs into the end of the stream) and never raises. |
| Rfc5424Properties.NilSdConsumed | src/main/kotlin/org/cikit/modules/syslog/rfc5424/Progressive2.kt:329-365 | With the correction, a record with nil SD leaves exactly the message unread. |
| Rfc5424Properties.NilSdLeftInMessage | src/main/kotlin/org/cikit/modules/syslog/rfc5424/Progressive2.kt:329-365 | As written, the `-` and the spaces stay in front of the message, unlike the correction. |
| Rfc5424Properties.UnflippedLastLine | src/main/kotlin/org/cikit/modules/syslog/rfc5424/Progressive2.kt:375-379 | A parser with the default 2048-byte buffer, on a stream whose only chunk is the last line `hello` without a newline: `readMessageFully` answers 2043 bytes that are not `hello`. |
| Rfc5424Properties.FlippedLastLine | src/main/kotlin/org/cikit/modules/syslog/rfc5424/Progressive2.kt:375-379 | With the correction, the same stream gives back `hello`. |
| Rfc5424Legacy.Skip | src/main/kotlin/rfc5424/Progressive2.kt:60-70 | Older `skip`: the same span, but at the end of the stream nothing is consumed. |
| Rfc5424Legacy.SkipPrefix | src/main/kotlin/rfc5424/Progressive2.kt:72-81 | Consumes the expected byte exactly when it is next. |
| Rfc5424Legacy.SkipByte | src/main/kotlin/rfc5424/Progressive2.kt:134-140 | Consumes one byte, or answers false at the end of the stream. |
| Rfc5424Legacy.Digits | src/main/kotlin/rfc5424/Progressive2.kt:83-95 | Older `readDigits` succeeds at the first non-digit, even with zero digits. At the end of the stream it fails after handing over every digit, and consumes nothing. |
| Rfc5424Legacy.ReadUntil | src/main/kotlin/rfc5424/Progressive2.kt:97-132 | A stop byte in the chunk gives a view up to it. Otherwise it answers false, or overflows beyond the variant's capacity (2 KiB in src/main/kotlin/exporter/syslog/Progressive2.kt:89-119). A view `tmp` follows the duplicate to the rest of the chunk. |
| Rfc5424Legacy.PriStep | src/main/kotlin/rfc5424/Progressive2.kt:180-187 | PRI changes only `priValue`, and a missing `<` fails with `priValue` 0. |
| Rfc5424Legacy.VersionStep | src/main/kotlin/rfc5424/Progressive2.kt:186-187 | The version step changes no field. |
| Rfc5424Legacy.TsStep | src/main/kotlin/rfc5424/Progressive2.kt:190-197 | A failing timestamp step keeps the old `ts`. Only `ts` and `tmp` change. |
| Rfc5424Legacy.NameStep | src/main/kotlin/rfc5424/Progressive2.kt:200-225 | HOSTNAME and APP-NAME change only their own field, their cache and `tmp`, and keep the caches sound. A failure changes only `tmp`. `Oldest`, whose getters read the cache, never changes the stored host. |
| Rfc5424Legacy.ProcStep | src/main/kotlin/rfc5424/Progressive2.kt:228-237 | PROCID changes only `proc`, and a failure keeps the old value. |
| Rfc5424Legacy.MsgIdStep | src/main/kotlin/rfc5424/Progressive2.kt:240-247 | MSGID is the token's text, or none for `-`. |
| Rfc5424Legacy.QuotedSegment | src/main/kotlin/rfc5424/Progressive2.kt:269-271 | A segment up to `"` consumes input. |
| Rfc5424Legacy.Quoted | src/main/kotlin/rfc5424/Progressive2.kt:267-274 | The quoted loop consumes input and leaves a suffix. |
| Rfc5424Legacy.ParamValue | src/main/kotlin/rfc5424/Progressive2.kt:266-279 | A value leaves a suffix of the input. |
| Rfc5424Legacy.Elements | src/main/kotlin/rfc5424/Progressive2.kt:250-288 | The SD loop always ends the record and changes only `sd`, `keys` and `tmp`. The keys stay decoded, and a successful end keeps `tmp` a view. |
| Rfc5424Legacy.Element | src/main/kotlin/rfc5424/Progressive2.kt:252-257 | One element changes only `sd`, `keys` and `tmp`. |
| Rfc5424Legacy.OneParam | src/main/kotlin/rfc5424/Progressive2.kt:260-283 | One parameter changes only `sd`, `keys` and `tmp`, and one that goes on consumes input. |
| Rfc5424Legacy.Assign | src/main/kotlin/rfc5424/Progressive2.kt:265-283 | `=` and the value change only `sd` and `tmp`. |
| Rfc5424Legacy.Params | src/main/kotlin/rfc5424/Progressive2.kt:259-284 | The parameter loop ends the record and changes only `sd`, `keys` and `tmp`. |
| Rfc5424Legacy.Parse | src/main/kotlin/rfc5424/Progressive2.kt:178-289 | Older `parse5424` always reaches a verdict and keeps the caches and keys sound. A successful record leaves `tmp` a view. |
| Rfc5424Legacy.AfterApp | src/main/kotlin/rfc5424/Progressive2.kt:227-289 | PROCID, MSGID and SD always reach a verdict. A successful one leaves `tmp` a view. |
| Rfc5424Legacy.ReadMessageBytes | src/main/kotlin/rfc5424/Progressive2.kt:298-302 | The bytes before the next newline, which is consumed. Null when the stream ends first, or an overflow beyond 64 MiB. |
| Rfc5424Legacy.ReadMessageString | src/main/kotlin/rfc5424/Progressive2.kt:304-308 | The same message decoded to text. |
| Rfc5424Legacy.ReadMessage | src/main/kotlin/exporter/syslog/Progressive2.kt:278-282 | Oldest `readMessage`: the text before the newline, which is consumed. Null at the end of the stream, or an overflow beyond 2 KiB. |
| Rfc5424Legacy.ReadMessageAvailable | src/main/kotlin/rfc5424/Progressive2.kt:291-296 | A view up to the newline. A bare newline is consumed and gives null. On a chunk without a newline the chunk is consumed, and a view `tmp` answers the whole of it. |
| Rfc5424Legacy.SkipMessage | src/main/kotlin/rfc5424/Progressive2.kt:310-313 | Consumes up to and including the newline. At the end of the stream `Older` consumes nothing, and `Oldest` (src/main/kotlin/exporter/syslog/Progressive2.kt:284-287) consumes one byte. |
| Rfc5424Legacy.Accounting.constructor | src/main/kotlin/rfc5424/Progressive2.kt:13-19 | A new parser has consumed nothing. |
| Rfc5424Legacy.Accounting.Receive | src/main/kotlin/rfc5424/Progressive2.kt:46-54 | After a chunk, the rest of the old chunk is counted. A failed receive still adds the whole chunk in hand. |
| Rfc5424Legacy.Accounting.Advance | src/main/kotlin/rfc5424/Progressive2.kt:44 | Moving `startIndex` counts exactly the bytes passed. |
| Rfc5424Legacy.Accounting.RetryAtEnd | src/main/kotlin/rfc5424/Progressive2.kt:44-54 | Two reads at the end of the stream grow `bytesConsumed()` by twice the chunk in hand, though nothing was read. |
| Rfc5424LegacyProperties.EmptyPri | src/main/kotlin/rfc5424/Progressive2.kt:180-183 | `<>` is a valid PRI with value 0. |
| Rfc5424LegacyProperties.VersionOf | src/main/kotlin/rfc5424/Progressive2.kt:186-187 | `>1` and spaces leave the rest after the spaces. |
| Rfc5424LegacyProperties.NilProcShiftsFields | src/main/kotlin/rfc5424/Progressive2.kt:228-247 | A nil PROCID gives `proc` 0. Its `-` becomes the nil MSGID, and the real MSGID ends up in front of the message. |
| Rfc5424LegacyProperties.ProcZeroDigits | src/main/kotlin/rfc5424/Progressive2.kt:228-237 | A PROCID with no digits is 0 and nothing is consumed. |
| Rfc5424LegacyProperties.MsgIdNil | src/main/kotlin/rfc5424/Progressive2.kt:240-247 | MSGID `-` gives none. |
| Rfc5424LegacyProperties.NoElements | src/main/kotlin/rfc5424/Progressive2.kt:250-288 | Anything but `[` after MSGID gives a successful record without SD. |
| Rfc5424LegacyProperties.OldestHostFromCache | src/main/kotlin/exporter/syslog/Progressive2.kt:34-35 | After a nil HOSTNAME, `Oldest` still reports the previous host, where `Older` reports null. |
| Rfc5424LegacyProperties.PriFailureKeepsRecord | src/main/kotlin/rfc5424/Progressive2.kt:178-183 | A record that fails at PRI keeps every other field of the previous record. |
| Rfc5424LegacyProperties.TimestampFailureKeepsRecord | src/main/kotlin/rfc5424/Progressive2.kt:190-197 | A record that fails at the timestamp keeps the previous record's other fields. |
| Rfc5424LegacyProperties.QuotedAgrees | src/main/kotlin/rfc5424/Progressive2.kt:142-160 | The older quoted loop reads what the canonical reference reads. |
| Rfc5424LegacyProperties.UnterminatedMessage | src/main/kotlin/rfc5424/Progressive2.kt:291-296 | After a successful record, `readMessageAvailable` on a last chunk without a newline consumes it and answers the whole chunk: the duplicate the MSGID view lives on is moved to the message. |
| Rfc5424LegacyProperties.SkipMessageAtEnd | src/main/kotlin/exporter/syslog/Progressive2.kt:284-287 | On a last line without a newline, `Oldest` drops one byte and `Older` none. |
| Metrics.Ordinal | src/main/kotlin/exporter/common.kt:3-8 | The four metric types have ordinals below 4. |
| Metrics.TypeName | src/main/kotlin/exporter/prometheus.kt:70 | The `# TYPE` word is non-empty lower-case letters. |
| Metrics.TypesDistinct | src/main/kotlin/exporter/common.kt:3-8 | Distinct types have distinct ordinals and names. |
| Metrics.IntText | src/main/kotlin/exporter/prometheus.kt:117 | The text of a `Long` has no space or newline. |
| Metrics.IntTextReadsBack | src/main/kotlin/exporter/prometheus.kt:114-117 | The text of a `Long` reads back as that `Long`. |
| Metrics.NatText | src/main/kotlin/exporter/prometheus.kt:114-117 | The text of a natural number is non-empty decimal digits. |
| Metrics.NatTextReadsBack | src/main/kotlin/exporter/prometheus.kt:114-117 | The text of a natural number reads back as that number. |
| Prometheus.CheckMetricName | src/main/kotlin/exporter/prometheus.kt:17-35 | The loop accepts exactly the names of `ValidMetricName`. |
| Prometheus.MetricNameAccepted | src/main/kotlin/exporter/prometheus.kt:17-35 | The accepted names are the exposition-format pattern minus those with an `x` right after a `:`. |
| Prometheus.ColonXRefused | src/main/kotlin/exporter/prometheus.kt:24 | `job:xfs` matches the pattern but is refused. |
| Prometheus.CheckLabelName | src/main/kotlin/exporter/prometheus.kt:37-53 | The loop accepts exactly the names of `ValidLabelName`. |
| Prometheus.LabelNameAccepted | src/main/kotlin/exporter/prometheus.kt:37-53 | The accepted label names are the pattern minus those starting with the reserved `__`. |
| Prometheus.ValidNamesPlain | src/main/kotlin/exporter/prometheus.kt:17-53 | A valid name contains no newline, space, `=`, `"` or `{`. |
| Prometheus.EscapedReadsBack | src/main/kotlin/exporter/prometheus.kt:76-84 | Escaping loses nothing: it reads back. |
| Prometheus.EscapedOneLine | src/main/kotlin/exporter/prometheus.kt:95-105 | Escaped text stays on one line. |
| Prometheus.LabelValueQuotesEscaped | src/main/kotlin/exporter/prometheus.kt:95-105 | Every `"` in a label value is preceded by a backslash. |
| Prometheus.HelpKeepsQuotes | src/main/kotlin/exporter/prometheus.kt:76-84 | `# HELP` text keeps `"`, while label values escape it. |
| Prometheus.EscapedAppend | src/main/kotlin/exporter/prometheus.kt:76-84 | Escaping works character by character. |
| Prometheus.WriteHelp | src/main/kotlin/exporter/prometheus.kt:76-84 | The HELP loop appends the escaped description. |
| Prometheus.WriteLabelValue | src/main/kotlin/exporter/prometheus.kt:95-105 | The label-value loop appends the escaped value. |
| Prometheus.WritePair | src/main/kotlin/exporter/prometheus.kt:91-110 | One turn of the pair loop appends `PairText`. |
| Prometheus.WriteLabels | src/main/kotlin/exporter/prometheus.kt:89-112 | The pair loop appends `Labels` of the fields. |
| Prometheus.WriteHeader | src/main/kotlin/exporter/prometheus.kt:66-87 | Writes the TYPE line and, with a description, the HELP line. |
| Prometheus.WriteSample | src/main/kotlin/exporter/prometheus.kt:88-119 | Writes the sample line. |
| Prometheus.WriteAsPrometheusText | src/main/kotlin/exporter/prometheus.kt:65-120 | `writeAsPrometheusText` writes `Text(v, withHeader)`. |
| Prometheus.LabelsAllWritten | src/main/kotlin/exporter/prometheus.kt:91-110 | With valid, last-distinct pairs, every pair is written with a comma after it. |
| Prometheus.SkippedFieldsKeepBraces | src/main/kotlin/exporter/prometheus.kt:89-112 | Fields whose names are all invalid still give `{}`. |
| Prometheus.SkippedLastLeavesComma | src/main/kotlin/exporter/prometheus.kt:92-109 | A skipped last pair leaves the comma of the pair before it: `{a="1",}`. |
| Prometheus.DuplicateOfLastLosesComma | src/main/kotlin/exporter/prometheus.kt:107-109 | A pair equal to the last one gets no comma wherever it stands. |
| Prometheus.SampleIsOneLine | src/main/kotlin/exporter/prometheus.kt:88-119 | A sample of a valid name is exactly one newline-terminated line. |
| Prometheus.LabelsOneLine | src/main/kotlin/exporter/prometheus.kt:89-112 | The label block has no newline. |
| Prometheus.LabelsAgreeWithJoin | src/main/kotlin/exporter/prometheus.kt:91-110 | Where names are valid and only the last pair equals the last, the loop writes the pairs joined by commas. |
| Prometheus.WriteLabelsJoined | src/main/kotlin/exporter/prometheus.kt:91-110 | Corrected loop: the valid pairs joined by commas. |
| Prometheus.JoinedHasNoTrailingComma | src/main/kotlin/exporter/prometheus.kt:91-110 | The corrected label set ends in `"`, never in a comma. |
| Prometheus.PrometheusMetricWriter.constructor | src/main/kotlin/exporter/prometheus.kt:122-124 | A new writer has seen no name and sent nothing. |
| Prometheus.PrometheusMetricWriter.WriteValue | src/main/kotlin/exporter/prometheus.kt:126-140 | One `metricValue` call moves `metricSet` and the output by one step of the specification (`Add`, `Chunk`), whose meaning `EmittedValueByValue` and `SeenMembers` state. |
| Prometheus.PrometheusMetricWriter.WriteFields | src/main/kotlin/exporter/common.kt:23-27 | The convenience overload with a timestamp is `metricValue` of the built value. |
| Prometheus.PrometheusMetricWriter.WriteFieldsNow | src/main/kotlin/exporter/common.kt:29-32 | The overload without a timestamp is `metricValue` of the built value. |
| Prometheus.PrometheusMetricWriter.WriteValues | src/main/kotlin/exporter/prometheus.kt:126-140 | A run of values updates `metricSet` and sends as `Seen`/`Emitted`. |
| Prometheus.WriteTo | src/main/kotlin/exporter/prometheus.kt:150-157 | The exporters are written in order through one writer. Output completes exactly when no exporter throws. |
| Prometheus.EmittedAppend | src/main/kotlin/exporter/prometheus.kt:126-140 | The writer's output is compositional over runs of values. |
| Prometheus.SeenMembers | src/main/kotlin/exporter/prometheus.kt:127-138 | The names in `metricSet` are the old ones plus the valid names of the run. |
| Prometheus.EmittedValueByValue | src/main/kotlin/exporter/prometheus.kt:126-140 | Every value with a valid or already headed name is sent in order. The header goes before the first value of each name only, and invalid new names are dropped. |
| Prometheus.SeenGrowsWithValidNames | src/main/kotlin/exporter/prometheus.kt:127-138 | `metricSet` only grows, and only by valid names. |
| LegacyMetrics.TypeName | src/main/kotlin/prometheus.kt:13 | The TYPE word of the three older types has no space or newline. |
| LegacyMetrics.ValueAt | src/main/kotlin/common.kt:16-20 | The helper keeps the timestamp and puts the varargs into the field array. |
| LegacyMetrics.ValueNow | src/main/kotlin/common.kt:22-25 | The helper gives no timestamp and puts the varargs into the field array. |
| LegacyPrometheus.WriteEntry | src/main/kotlin/prometheus.kt:13-27 | The text of one value: the header when asked, then the sample. |
| LegacyPrometheus.WriteTo | src/main/kotlin/prometheus.kt:6-31 | The renderer writes the concatenation of `Render` of the values. |
| LegacyPrometheus.RenderStep | src/main/kotlin/prometheus.kt:10-17 | One turn of the loop extends `Render` and adds the name to `metricSet`. |
| LegacyPrometheus.RenderValueByValue | src/main/kotlin/prometheus.kt:10-28 | Every value is written in order, headed on the first sight of its name, without a name check. |
| LegacyPrometheus.FirstSightNames | src/main/kotlin/prometheus.kt:11 | A value is seen first exactly when its name is not among the earlier names. |
| LegacyPrometheus.HelperValuesHaveBraces | src/main/kotlin/common.kt:22-25 | Values from the helpers always get braces, `{}` with no field. |
| LegacyPrometheus.HelpVerbatim | src/main/kotlin/prometheus.kt:15 | The older HELP is verbatim. It agrees with the newer escaping exactly when there is no backslash and no newline. |
| JsonObjects.JsonObjectBuffer.constructor | src/main/kotlin/org/cikit/core/json.kt:9-11 | No buffer, objectDepth -1, arrayDepth 0. |
| JsonObjects.JsonObjectBuffer.CreateBuffer | src/main/kotlin/org/cikit/core/json.kt:13-20 | A fresh empty buffer and reset depths. |
| JsonObjects.JsonObjectBuffer.ProcessEvent | src/main/kotlin/org/cikit/core/json.kt:22-52 | `processEvent` is `Step`. It returns a buffer exactly at an END_OBJECT at depth 0 outside arrays, holding the buffered tokens and the END_OBJECT, after which the buffer is gone. |
| JsonObjects.RunAppend | src/main/kotlin/org/cikit/core/json.kt:22-52 | Feeding tokens is compositional. |
| JsonObjects.InsideValue | src/main/kotlin/org/cikit/core/json.kt:22-52 | Inside an open object, a whole value is copied and nothing is returned. |
| JsonObjects.TopLevelObject | src/main/kotlin/org/cikit/core/json.kt:22-52 | A top-level object is returned whole at its closing brace, and the state is reset. |
| JsonObjects.TopLevelObjects | src/main/kotlin/org/cikit/core/json.kt:22-52 | A sequence of objects is returned object by object, in order. |
| JsonObjects.TopLevelArray | src/main/kotlin/org/cikit/core/json.kt:22-52 | The objects of a top-level array are returned in order, and nothing else. |
| Ganglia.Capitalize | src/main/kotlin/org/cikit/modules/ganglia/GangliaCollector.kt:162 | `capitalize()` changes at most the first character. |
| Ganglia.TypeOf | src/main/kotlin/org/cikit/modules/ganglia/GangliaCollector.kt:162 | `Type.valueOf(capitalize())` finds the type of that name, or throws when there is none. |
| Ganglia.TypeNamesRead | src/main/kotlin/org/cikit/modules/ganglia/GangliaCollector.kt:21-23 | Every type is read back from its name, capitalized or not. |
| Ganglia.SplitToPair | src/main/kotlin/org/cikit/modules/ganglia/GangliaCollector.kt:34-41 | Splits at the last occurrence, dropping only the separator's first character. Null exactly when there is none. |
| Ganglia.SplitAtLast | src/main/kotlin/org/cikit/modules/ganglia/GangliaCollector.kt:34-41 | `x + sep + y` without a later `sep` splits into `x` and `sep[1..] + y`. |
| Ganglia.Rename | src/main/kotlin/org/cikit/modules/ganglia/GangliaCollector.kt:52-102 | The naming adds at most one label. |
| Ganglia.AgentSplit | src/main/kotlin/org/cikit/modules/ganglia/GangliaCollector.kt:54-63 | `x + sep + y` splits at the last `sep`: the name is `sep` without its first character plus `y`, and `x` is the label. |
| Ganglia.ServiceSplit | src/main/kotlin/exporter/ganglia/ganglia_collector.kt:87-107 | The older vm rule splits at the last `.service.vcpu_` or `.service.vmem_`: the name is what follows the separator's first character, dots as underscores, and the service is the label. |
| Ganglia.CapitalizedRead | src/main/kotlin/org/cikit/modules/ganglia/GangliaCollector.kt:162 | A type name is read the same with a lower-case first letter. |
| Ganglia.HttpdNaming | src/main/kotlin/org/cikit/modules/ganglia/GangliaCollector.kt:54-63 | `X.http_Y` becomes `http_Y` with `httpd=X`, and the description is cut. |
| Ganglia.JvmNaming | src/main/kotlin/org/cikit/modules/ganglia/GangliaCollector.kt:82-91 | `X.jvm_Y` becomes `jvm_Y` with `app=X`. |
| Ganglia.ServiceUnitNaming | src/main/kotlin/org/cikit/modules/ganglia/GangliaCollector.kt:65-74 | `X.service.Y` becomes `service_Y` with `service=X`. |
| Ganglia.VirtualMachineNaming | src/main/kotlin/org/cikit/modules/ganglia/GangliaCollector.kt:75-78 | `A.Y` becomes `vm_Y` with `vm=A`. |
| Ganglia.OlderCpuNaming | src/main/kotlin/exporter/ganglia/ganglia_collector.kt:87-97 | The older vm cpu rule: `service_vcpu_Y` with `service=X`, dots of `Y` as underscores. |
| Ganglia.OlderMemoryNaming | src/main/kotlin/exporter/ganglia/ganglia_collector.kt:98-108 | The older vm memory rule: `service_vmem_Y` with `service=X`. |
| Ganglia.HostGroupNaming | src/main/kotlin/org/cikit/modules/ganglia/GangliaCollector.kt:93-99 | Host groups give `hs_<group>_...` with the group written once, no label, and the description kept. |
| Ganglia.OtherGroupEmptyName | src/main/kotlin/org/cikit/modules/ganglia/GangliaCollector.kt:100-101 | An unknown group or no group gives the empty name. |
| Ganglia.OlderNetworkUnnamed | src/main/kotlin/exporter/ganglia/ganglia_collector.kt:74-128 | The older mappers have no vm network rule, so the name is empty. |
| Ganglia.CutDesc | src/main/kotlin/org/cikit/modules/ganglia/GangliaCollector.kt:55 | `substringAfterLast(": ")` gives a suffix without `": "`. |
| Ganglia.MetricOf | src/main/kotlin/org/cikit/modules/ganglia/GangliaCollector.kt:49-128 | Skips a missing name or value. Writes exactly for non-blank name and value: a gauge with the renamed name and the labels instance, group, value, grid, cluster, host. A `toLong` failure throws. |
| Ganglia.MetricOfEmits | src/main/kotlin/org/cikit/modules/ganglia/GangliaCollector.kt:49-128 | The written metric in full, once the value is read. |
| Ganglia.StringMetricIsOne | src/main/kotlin/org/cikit/modules/ganglia/GangliaCollector.kt:106-110 | A String metric is 1 with its text as the `value` label. |
| Ganglia.InstanceLabelPlacement | src/main/kotlin/exporter/ganglia/ganglia_exporter.kt:52 | The collectors put `instance` first. The exporter writes none. |
| Ganglia.RenameLabelKeys | src/main/kotlin/org/cikit/modules/ganglia/GangliaCollector.kt:52-102 | The group label is one of httpd, service, vm or app. |
| Ganglia.HostLabelLast | src/main/kotlin/org/cikit/modules/ganglia/GangliaCollector.kt:118-126 | Inside a HOST the last label is that host. Without context there is no context label. |
| Ganglia.Attr | src/main/kotlin/org/cikit/modules/ganglia/GangliaCollector.kt:135-139 | An attribute loop keeps the last value under the key, or the current one when the key is absent. |
| Ganglia.FailureStops | src/main/kotlin/org/cikit/modules/ganglia/GangliaCollector.kt:158-166 | Once an attribute throws, the rest of the loop does not run. |
| Ganglia.Reset | src/main/kotlin/org/cikit/modules/ganglia/GangliaCollector.kt:192-199 | END METRIC clears the per-metric fields, sets the type back to Double, and keeps the context. |
| Ganglia.OnlyMetricEndWrites | src/main/kotlin/org/cikit/modules/ganglia/GangliaCollector.kt:130-203 | Only END METRIC writes. |
| Ganglia.ContextCleared | src/main/kotlin/org/cikit/modules/ganglia/GangliaCollector.kt:189-191 | END GRID/CLUSTER/HOST clears that context only. |
| Ganglia.MetricWithoutThresholdsDropped | src/main/kotlin/org/cikit/modules/ganglia/GangliaCollector.kt:156-169 | Without TN and TMAX (0 > -1) the metric is dropped, yet it is still reset. |
| Ganglia.NoThresholds | src/main/kotlin/org/cikit/modules/ganglia/GangliaCollector.kt:156-166 | Without TN and TMAX attributes the thresholds keep their defaults. |
| Ganglia.StaleMetricDropped | src/main/kotlin/org/cikit/modules/ganglia/GangliaCollector.kt:167-169 | A METRIC with TN > TMAX writes nothing. |
| Ganglia.AllGauges | src/main/kotlin/org/cikit/modules/ganglia/GangliaCollector.kt:127 | Everything written is a gauge. |
| Ganglia.RunStopped | src/main/kotlin/org/cikit/modules/ganglia/GangliaCollector.kt:242-261 | The first exception ends the export. |
| Ganglia.MetricInfo.constructor | src/main/kotlin/org/cikit/modules/ganglia/GangliaCollector.kt:25-32 | A fresh `MutableMetricInfo`. |
| Ganglia.MetricInfo.MetricValue | src/main/kotlin/org/cikit/modules/ganglia/GangliaCollector.kt:49-128 | `metricValue` rewrites only `desc` and writes `MetricOf`. |
| Ganglia.MetricInfo.ScanMetric | src/main/kotlin/org/cikit/modules/ganglia/GangliaCollector.kt:155-170 | The METRIC attribute loop answers the first attribute failure. Otherwise the state is the scanned one, with the name dropped when TN > TMAX. |
| Ganglia.MetricInfo.ProcessEvent | src/main/kotlin/org/cikit/modules/ganglia/GangliaCollector.kt:130-203 | `processEvent` is `Step`. |
| Ganglia.LastAttr | src/main/kotlin/org/cikit/modules/ganglia/GangliaCollector.kt:135-139 | The attribute loop computes `Attr`. |
| Ganglia.Export | src/main/kotlin/org/cikit/modules/ganglia/GangliaCollector.kt:221-266 | The event loop of `export` writes `Run` of the events and stops at the first exception. |
| HAProxy.Port | src/main/kotlin/org/cikit/modules/haproxy/HAProxyCollector.kt:93 | The URL port, or 80 when there is none. |
| HAProxy.Uri | src/main/kotlin/org/cikit/modules/haproxy/HAProxyCollector.kt:94-95 | The path always ends in `/;csv;norefresh`, and the suffix is never doubled. |
| HAProxy.UriIdempotent | src/main/kotlin/org/cikit/modules/haproxy/HAProxyCollector.kt:94-95 | Building the URI twice changes nothing. |
| HAProxy.Headers | src/main/kotlin/org/cikit/modules/haproxy/HAProxyCollector.kt:123-128 | The header names are trimmed and contain no comma. |
| HAProxy.HeadersOfLine | src/main/kotlin/org/cikit/modules/haproxy/HAProxyCollector.kt:123-128 | `#` signs followed by names joined by commas give back the names, trimmed. |
| HAProxy.ToMapKeys | src/main/kotlin/org/cikit/modules/haproxy/HAProxyCollector.kt:135-138 | `toMap` has exactly the pair keys. |
| HAProxy.ToMapLast | src/main/kotlin/org/cikit/modules/haproxy/HAProxyCollector.kt:135-138 | A repeated key keeps its last value. |
| HAProxy.RecordOf | src/main/kotlin/org/cikit/modules/haproxy/HAProxyCollector.kt:135-138 | A row with more cells than headers throws `IndexOutOfBounds`. |
| HAProxy.RecordKeys | src/main/kotlin/org/cikit/modules/haproxy/HAProxyCollector.kt:135-138 | The record has keys exactly for the headers that got a cell. |
| HAProxy.RecordCell | src/main/kotlin/org/cikit/modules/haproxy/HAProxyCollector.kt:135-138 | Under a header the record holds its cell, trimmed. |
| HAProxy.RowReadsBack | src/main/kotlin/org/cikit/modules/haproxy/HAProxyCollector.kt:135-138 | A row written from aligned cells reads back under each header. |
| HAProxy.ProxyLabels | src/main/kotlin/org/cikit/modules/haproxy/HAProxyCollector.kt:144-147 | `frontend`, `backend`, or `backend` and `server`, by `svname`. |
| HAProxy.Labels | src/main/kotlin/org/cikit/modules/haproxy/HAProxyCollector.kt:139-149 | A row without pxname or svname is skipped. Otherwise: proxy labels, configured labels, then `instance`. |
| HAProxy.ColumnsGaugesFirst | src/main/kotlin/org/cikit/modules/haproxy/HAProxyCollector.kt:49-88 | There are 16 columns, the first 10 gauges. |
| HAProxy.WriteOne | src/main/kotlin/org/cikit/modules/haproxy/HAProxyCollector.kt:22-31 | An absent or blank cell writes nothing. Any other cell is a 64-bit decimal written as `hap_<key>`, or `NumberFormatException`. |
| HAProxy.WriteAllSound | src/main/kotlin/org/cikit/modules/haproxy/HAProxyCollector.kt:49-88 | Every metric written comes from a column. |
| HAProxy.WriteAllComplete | src/main/kotlin/org/cikit/modules/haproxy/HAProxyCollector.kt:49-88 | Without an exception, every non-blank column is written. |
| HAProxy.WriteAllFails | src/main/kotlin/org/cikit/modules/haproxy/HAProxyCollector.kt:49-88 | The only exception is `NumberFormatException` from a bad cell. |
| HAProxy.WriteAllInOrder | src/main/kotlin/org/cikit/modules/haproxy/HAProxyCollector.kt:49-88 | With all cells valid, one metric per column is written, in column order. |
| HAProxy.WriteAllGaugesFirst | src/main/kotlin/org/cikit/modules/haproxy/HAProxyCollector.kt:49-88 | Written gauges come before counters. |
| HAProxy.WriteMetrics | src/main/kotlin/org/cikit/modules/haproxy/HAProxyCollector.kt:49-88 | `writeMetrics` is `WriteAll`. |
| HAProxy.RowsStopAtEmptyLine | src/main/kotlin/org/cikit/modules/haproxy/HAProxyCollector.kt:130-134 | Nothing after the first empty line is read. |
| HAProxy.RowsLabelled | src/main/kotlin/org/cikit/modules/haproxy/HAProxyCollector.kt:139-149 | Every metric carries its proxy label first and `instance` last. |
| HAProxy.ExportRow | src/main/kotlin/org/cikit/modules/haproxy/HAProxyCollector.kt:131-149 | One row is `RowOf`. |
| HAProxy.ExportRows | src/main/kotlin/org/cikit/modules/haproxy/HAProxyCollector.kt:130-150 | The read loop is `Rows`. |
| HAProxy.ExportOf | src/main/kotlin/org/cikit/modules/haproxy/HAProxyCollector.kt:109-152 | In the newest collector, a status other than 200 fails with `IllegalStateException` and writes nothing. In every copy, a response without a header line writes nothing and throws. |
| HAProxy.OlderIgnoreConfigLabels | src/main/kotlin/exporter/haproxy/haproxy_collector.kt:136-141 | The older copies ignore configured labels. |
| HAProxy.Export | src/main/kotlin/org/cikit/modules/haproxy/HAProxyCollector.kt:109-152 | `export` once connected is `ExportOf`. |
| Endpoints.Failover | src/main/kotlin/org/cikit/modules/ganglia/GangliaCollector.kt:205-219 | Tries endpoints in order and uses the first that connects. An IOException moves on except at the last endpoint, where it is rethrown. Any other exception escapes at once, and an empty list throws `IllegalStateException`. |
| Endpoints.FailoverFindsFirst | src/main/kotlin/exporter/haproxy/haproxy_collector.kt:86-101 | Failover reaches the first endpoint that connects after only I/O failures. |
| Endpoints.FirstOnly | src/main/kotlin/exporter/ganglia/ganglia_exporter.kt:214-215 | Only the first endpoint is tried. An empty list throws `NoSuchElementException`. |
| Endpoints.FirstReachableAgrees | src/main/kotlin/exporter/ganglia/ganglia_exporter.kt:214-215 | With a reachable first endpoint, failover and first-only agree. |
| Endpoints.KeepLast | src/main/kotlin/exporter/haproxy/haproxy_exporter.kt:77-87 | Every endpoint is attempted and the last outcome kept, unless a non-I/O exception escapes. It lists every connected socket. |
| Endpoints.KeepLastLosesReachable | src/main/kotlin/exporter/haproxy/haproxy_exporter.kt:77-87 | When the first endpoint connects and the last fails, failover connects while keep-last throws. |
| Strings.Trim | src/main/kotlin/org/cikit/modules/haproxy/HAProxyCollector.kt:127 | `trim()` leaves no whitespace at either end. |
| Strings.TrimStart | src/main/kotlin/org/cikit/modules/haproxy/HAProxyCollector.kt:125 | `trimStart { … }` drops exactly the longest prefix of matching characters. |
| Strings.TrimMiddle | src/main/kotlin/org/cikit/modules/haproxy/HAProxyCollector.kt:127 | `trim()` answers a middle slice of the text with only whitespace around it. |
| Strings.Split | src/main/kotlin/org/cikit/modules/haproxy/HAProxyCollector.kt:136 | `split(',')` gives at least one piece, and no piece holds the delimiter. |
| Strings.TrimTwice | src/main/kotlin/org/cikit/modules/haproxy/HAProxyCollector.kt:127 | `trim()` is idempotent. |
| Strings.TrimBlank | src/main/kotlin/org/cikit/modules/haproxy/HAProxyCollector.kt:28 | Trimming gives nothing exactly for blank text. |
| Strings.SplitJoin | src/main/kotlin/org/cikit/modules/haproxy/HAProxyCollector.kt:136 | Joining the split pieces gives back the text. |
| Strings.JoinSplit | src/main/kotlin/org/cikit/modules/haproxy/HAProxyCollector.kt:136 | Splitting a join of delimiter-free pieces gives the pieces. |
| Strings.SubstringAfterLast | src/main/kotlin/org/cikit/modules/ganglia/GangliaCollector.kt:55 | The text after the last delimiter: a suffix with no delimiter in it, and all of the text exactly when there is none. |
| Strings.ParseLong | src/main/kotlin/org/cikit/modules/haproxy/HAProxyCollector.kt:29 | What `toLong` accepts is a signed 64-bit value, and never empty text or a bare sign. |
| Strings.RemoveSuffix | src/main/kotlin/org/cikit/modules/haproxy/HAProxyCollector.kt:94-95 | `removeSuffix` drops the suffix when it is there, and changes nothing otherwise. |
| Strings.Replace | src/main/kotlin/exporter/ganglia/ganglia_collector.kt:87-97 | `replace(a, b)` keeps the length and leaves no `a`. |
| Strings.LongTextParses | src/main/kotlin/org/cikit/modules/haproxy/HAProxyCollector.kt:29 | The text of every 64-bit value parses back to it. |
| Strings.LongOverflowRefused | src/main/kotlin/org/cikit/modules/haproxy/HAProxyCollector.kt:29 | Values beyond 64 bits are refused. |

## Left out

- I/O is abstracted. The channels, sockets, HTTP client, timeouts (`withTimeout`) and socket closing are not modelled. The byte channel of the syslog parser is a list of chunks given to the constructor. A connection attempt's outcome is a function parameter of the endpoint loops.
- `HAProxyCollector.connect` picks its endpoint with `random()`. Only its port and URI construction are modelled.
- `readHeaders` (HTTP header skipping) and the DTD skipping of the Ganglia collectors are not modelled. The XML (Aalto), JSON (Jackson) and CSV line sources are abstract input sequences: `Event`, `Token` and lines of text.
- The syslog collectors around the parsers (`SyslogCollector.kt`, `syslog_collector.kt`) are not part of this model.
- Floating point: a `Double` value is kept as its text (`Number.Double`), and `toPrometheusString`'s `+Inf`/`-Inf`/`NaN` cases are not modelled. Ganglia.MetricOf: a Float/Double text is taken as is; a failing `toDouble()` is not modelled.
- Strings.ParseLong: accepts ASCII digits only, while `Long.parseLong` also accepts other Unicode decimal digits.
- Ganglia.Capitalize: upper-cases an ASCII first letter only.
- Byte-to-text decoding is one character per byte (Latin-1). This is exact for ASCII, which covers every syslog delimiter and escape, and for the US-ASCII XML feed. UTF-8 multi-byte text is not decoded.
- Rfc5424Legacy.Parse: the older variants' timestamp goes to `OffsetDateTime.parse`, which is a predicate parameter (`accepts`) rather than a model of ISO-8601 parsing.
- Rfc5424Legacy: the older variants are modelled on one contiguous byte sequence (the chunk in hand being the last). Their behaviour across chunk boundaries is not modelled, except the byte accounting of `receive` (`Accounting`).
- The configured labels of `HAProxyCollector` (`config.labels`) are a parameter.
- The columns written by `writeMetrics` are a constant table (`HAProxy.Columns`) passed to the functions as a parameter.
- The `org.cikit.core` `MetricWriter`/`Collector` interfaces used by the newest collectors are not part of this model. `exporter/common.kt`'s identical `MetricWriter` stands in for them.
- Rfc5424.Progressive2.Parse5424: nothing is promised where the reference reading runs into the end of the stream. There the result depends on the chunking, because a failed `skip()` leaves the last chunk's bytes unread.
- Rfc5424Legacy.ReadMessageAvailable: a `tmp` left on the duplicate of an earlier chunk (a message starting in a chunk received after the MSGID) is answered as it was, stale. Showing that needs a second chunk, which the one-chunk model of the older variants does not have.
- Rfc5424.Progressive2.QuotedValue: an overflow is promised to need a line of the unread bytes longer than the buffer, not the exact condition (a token running past the bytes at hand and longer than the buffer) that ReadUntil, ReadToken, ReadKey, SdId and ReadNil state.
- Rfc5424.Progressive2.ParamValue: an overflow is promised to need a line of the unread bytes longer than the buffer, not the exact condition (a token running past the bytes at hand and longer than the buffer) that ReadUntil, ReadToken, ReadKey, SdId and ReadNil state.
- Rfc5424.Progressive2.ParseTs: an overflow is promised to need a line of the unread bytes longer than the buffer, not the exact condition (a token running past the bytes at hand and longer than the buffer) that ReadUntil, ReadToken, ReadKey, SdId and ReadNil state.
- Rfc5424.Progressive2.ProcValue: an overflow is promised to need a line of the unread bytes longer than the buffer, not the exact condition (a token running past the bytes at hand and longer than the buffer) that ReadUntil, ReadToken, ReadKey, SdId and ReadNil state.
- Rfc5424.Progressive2.Assign: an overflow is promised to need a line of the unread bytes longer than the buffer, not the exact condition (a token running past the bytes at hand and longer than the buffer) that ReadUntil, ReadToken, ReadKey, SdId and ReadNil state.
- Rfc5424.Progressive2.ParseParam: an overflow is promised to need a line of the unread bytes longer than the buffer, not the exact condition (a token running past the bytes at hand and longer than the buffer) that ReadUntil, ReadToken, ReadKey, SdId and ReadNil state.
- Rfc5424.Progressive2.ParseParams: an overflow is promised to need a line of the unread bytes longer than the buffer, not the exact condition (a token running past the bytes at hand and longer than the buffer) that ReadUntil, ReadToken, ReadKey, SdId and ReadNil state.
- Rfc5424.Progressive2.SdElement: an overflow is promised to need a line of the unread bytes longer than the buffer, not the exact condition (a token running past the bytes at hand and longer than the buffer) that ReadUntil, ReadToken, ReadKey, SdId and ReadNil state.
- Rfc5424.Progressive2.OpenElement: an overflow is promised to need a line of the unread bytes longer than the buffer, not the exact condition (a token running past the bytes at hand and longer than the buffer) that ReadUntil, ReadToken, ReadKey, SdId and ReadNil state.
- Rfc5424.Progressive2.ElementParams: an overflow is promised to need a line of the unread bytes longer than the buffer, not the exact condition (a token running past the bytes at hand and longer than the buffer) that ReadUntil, ReadToken, ReadKey, SdId and ReadNil state.
- Rfc5424.Progressive2.ParseSd: an overflow is promised to need a line of the unread bytes longer than the buffer, not the exact condition (a token running past the bytes at hand and longer than the buffer) that ReadUntil, ReadToken, ReadKey, SdId and ReadNil state.
- Rfc5424.Progressive2.ParseTimestamp: an overflow is promised to need a line of the unread bytes longer than the buffer, not the exact condition (a token running past the bytes at hand and longer than the buffer) that ReadUntil, ReadToken, ReadKey, SdId and ReadNil state.
- Rfc5424.Progressive2.ParseName: an overflow is promised to need a line of the unread bytes longer than the buffer, not the exact condition (a token running past the bytes at hand and longer than the buffer) that ReadUntil, ReadToken, ReadKey, SdId and ReadNil state.
- Rfc5424.Progressive2.ParseProc: an overflow is promised to need a line of the unread bytes longer than the buffer, not the exact condition (a token running past the bytes at hand and longer than the buffer) that ReadUntil, ReadToken, ReadKey, SdId and ReadNil state.
- Rfc5424.Progressive2.ParseTail: an overflow is promised to need a line of the unread bytes longer than the buffer, not the exact condition (a token running past the bytes at hand and longer than the buffer) that ReadUntil, ReadToken, ReadKey, SdId and ReadNil state.
- Rfc5424.Progressive2.ParseFields: an overflow is promised to need a line of the unread bytes longer than the buffer, not the exact condition (a token running past the bytes at hand and longer than the buffer) that ReadUntil, ReadToken, ReadKey, SdId and ReadNil state.
- Rfc5424.Progressive2.Parse5424: an overflow is promised to need a line of the unread bytes longer than the buffer, not the exact condition (a token running past the bytes at hand and longer than the buffer) that ReadUntil, ReadToken, ReadKey, SdId and ReadNil state.
- Line ends are written as `"\n"`, where `BufferedWriter.newLine()` (src/main/kotlin/exporter/prometheus.kt:71,85,119 and src/main/kotlin/prometheus.kt:27) writes the platform line separator.
- `bytesConsumed()` of the canonical parser is modelled for chunks delivered at position 0, so `firstStartIndex` is always 0.

## Findings

| source | as written | input that shows it | evidently intended | confidence | as-written member | corrected member |
|---|---|---|---|---|---|---|
| src/main/kotlin/org/cikit/modules/syslog/rfc5424/Progressive2.kt:375-379 | At the end of the stream `readMessageFully` returns `tmp` without flipping it, so the caller sees the unused part of the scratch buffer. | a last line `hello` without a newline, with the default 2048-byte buffer: 2043 bytes that are not `hello` | the bytes of the last line | not executed | Rfc5424Properties.UnflippedLastLine | Rfc5424Properties.FlippedLastLine |
| src/main/kotlin/org/cikit/modules/syslog/rfc5424/Progressive2.kt:329-365 | The nil STRUCTURED-DATA `-` is never consumed: the SD loop only looks for `[`. | `<13>1 - - - - - - hello` leaves `- hello` as the message | the message `hello` (section 6.3 of RFC 5424) | not executed | Rfc5424Properties.NilSdLeftInMessage | Rfc5424Properties.NilSdConsumed |
| src/main/kotlin/rfc5424/Progressive2.kt:46-54 | A failed `receive` adds the chunk in hand to the total without consuming it. | two reads at the end of a stream whose last chunk holds 5 unread bytes: `bytesConsumed()` grows by 10 | no growth without consumption | not executed | Rfc5424Legacy.Accounting.RetryAtEnd | Rfc5424.Progressive2.Receive |
| src/main/kotlin/exporter/prometheus.kt:107-109 | The comma is decided by `pair != fields.last()`, a value comparison. | fields `[("a","1"),("b","2"),("a","1")]` give `{a="1"b="2",a="1"}` | `{a="1",b="2",a="1"}` | not executed | Prometheus.DuplicateOfLastLosesComma | Prometheus.WriteLabelsJoined |
| src/main/kotlin/exporter/prometheus.kt:92-109 | A last pair skipped by the label check leaves the comma of the pair written before it. | fields `[("a","1"),("__x","2")]` give `{a="1",}` | `{a="1"}` | not executed | Prometheus.SkippedLastLeavesComma | Prometheus.JoinedHasNoTrailingComma |
