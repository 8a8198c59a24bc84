# fritzbox-client, modelled in Dafny

fritzbox-client is a command-line tool that manages an AVM FRITZ!Box router
through the router's web interface. This project models the core of the
client library and of the `sip` command:

- **Login.** The challenge-response login to `/login_sid.lua`. The response is
  the challenge, a dash, and the lower-case hex MD5 digest of
  `<challenge>-<password>` encoded as UTF-16 little-endian without a byte-order
  mark. An all-zero session id means the login failed.
- **Session record.** The `SessionInfo` record and its `Rights` map. The router
  sends the map as two parallel lists of `Name` and `Access` elements.
  `UnmarshalXML` fills the map from those lists and `MarshalXML` writes them.
- **Embedded JSON.** The scan for JSON embedded in a script line of an HTML page
  (`decodeEmbeddedJson`), and the two endpoints that use it: the phone-number
  list and one number's configuration.
- **SIP forms.** The forms that disable and enable a SIP line, and how the
  router's JSON reply to them is read.
- **Upload result page.** How the page returned after a certificate upload is
  read: its text content, the trimmed message, and the
  `postUpload.redirect(<digits>);` call. An empty delay means success.
- **The `sip` command.** It logs in, lists the numbers, and handles each SIP
  number in scope. Handling a number means fetching its configuration, then
  disabling it, enabling it, or both, depending on the task word. The command
  stops at the first error.

## Modules

| file | module | models |
|---|---|---|
| wrappers.dfy | `Wrappers` | `Option`, `Result`, the error kinds, and the outcome of a decoder |
| text.dfy | `Text` | `strings.HasPrefix`/`HasSuffix`, `TrimSpace` with Go's white-space set, and `EqualFold` against lower-case ASCII words |
| utf16.dfy | `Utf16` | the UTF-16LE encoder without a byte-order mark, and a decoder that serves as its partner |
| hex.dfy | `Hex` | `hex.EncodeToString` and its inverse |
| util.dfy | `Util` | api/util.go |
| types.dfy | `Types` | api/api.go |
| embedded.dfy | `Embedded` | `decodeEmbeddedJson` of api/client.go |
| client.dfy | `Client` | the remaining operations of api/client.go |
| sip.dfy | `SipCommand` | command_sip.go |

External pieces are parameters, so every property holds for every choice of them:

| external piece | how it enters |
|---|---|
| MD5 | a function `Util.Md5` from bytes to a 16-byte digest |
| the HTTP round trips | the router's replies (`Client.SessionEndpoint`, `Client.DisableSip`'s `reply`, `SipCommand.Router`) |
| the JSON and XML decoders | `Decoded` values |
| the HTML parser | a node tree |
| the CSS selectors | query functions |
| map iteration order | a sequence that lists each key once |

The one regular expression is replaced by an explicit leftmost search.

## Model

| member | source | states |
|---|---|---|
| Util.HashInput | api/util.go:18-19 | The MD5 input is the UTF-16LE encoding of `<challenge>-<password>`. It takes two bytes per code unit and decodes back to that text. |
| Util.ChallengeResponse | api/util.go:17-24 | The result is 32 lower-case hex digits, and they decode to the digest of the hash input. |
| Utf16.EncodeChar | api/util.go:19 | A character becomes one unit outside the surrogate range, or a high and a low surrogate whose combination is the code point. |
| Utf16.Encode | api/util.go:19 | The code units of a text, character after character. `EncodeLength`, `EncodeAppend` and `DecodeEncode` state its properties. |
| Utf16.EncodeLength | api/util.go:19 | There is one code unit per character, plus one more per supplementary character. |
| Utf16.EncodeAppend | api/util.go:19 | Encoding distributes over concatenation. |
| Utf16.DecodeEncode | api/util.go:19 | Decoding the code units gives the text back. |
| Utf16.LittleEndian | api/util.go:19 | Each unit becomes two bytes. |
| Utf16.LittleEndianAt | api/util.go:19 | The low byte of each unit comes first. |
| Utf16.FromLittleEndianInverse | api/util.go:19 | Bytes to units inverts units to bytes. |
| Utf16.EncodeLE | api/util.go:19 | The byte count is twice the unit count. |
| Utf16.EncodeLERoundTrip | api/util.go:19 | The bytes decode back to the text, so no byte-order mark is written. |
| Hex.Digit | api/util.go:23 | A value below 16 gives a lower-case hex digit. |
| Hex.DigitValue | api/util.go:23 | The value of a lower-case hex digit is below 16 and gives the digit back. |
| Hex.Encode | api/util.go:23 | There are two lower-case hex digits per byte. |
| Hex.DecodeEncode | api/util.go:23 | Decoding the hex string gives the bytes back. |
| Util.InnerText | api/util.go:26-36 | The recursive walk: a text node gives its data, any other node the text of its children in order. `InnerTextIsTextInDocumentOrder` states what it means. |
| Util.SiblingsText | api/util.go:32-34 | The walk over a list of siblings, concatenated in order. |
| Util.ConcatAppend | api/util.go:31-35 | Concatenation distributes over appending. |
| Util.ChildlessInnerText | api/util.go:26-36 | A non-text node without children has empty text. |
| Util.TextDataAppend | api/util.go:26-36 | Collecting text nodes distributes over appending. |
| Util.InnerTextIsTextInDocumentOrder | api/util.go:26-36 | The text of a node is the data of the text nodes of its subtree, concatenated in document order. |
| Util.SiblingsTextIsTextInDocumentOrder | api/util.go:32-34 | The same holds for a list of siblings. |
| Util.MatchAt | api/util.go:40 | A capture at a position is made of digits, and the whole call fits in the text from there. |
| Util.DigitRun | api/util.go:40 | It returns the longest run of digits at the start. |
| Util.PrefixConcat | api/util.go:40 | A prefix made of two parts is the first part, followed by the second. |
| Util.MatchAtIsMatch | api/util.go:40 | The greedy attempt at a position succeeds with capture `d` exactly when the pattern matches there with `d`. |
| Util.DigitRunOfDigits | api/util.go:40 | A run of digits followed by a non-digit is the whole digit run. |
| Util.FindFrom | api/util.go:59 | It finds the leftmost position from `p` where the pattern matches, or reports that none does. |
| Util.FindRedirect | api/util.go:59 | A capture is made of digits, and the whole call fits in the script. |
| Util.FindRedirectLeftmost | api/util.go:59-63 | A capture comes from a match, and no earlier position matches. |
| Util.LeftmostIsFound | api/util.go:59-63 | The converse: the leftmost match is the one captured. |
| Util.FindRedirectNone | api/util.go:59-62 | No capture means the pattern occurs nowhere. |
| Util.RedirectExamples | api/util.go:59-65 | `redirect(0);` captures "0", so the upload is reported failed; `redirect();` captures the empty delay. |
| Util.RedirectNonDigit | api/util.go:40 | A non-digit argument does not match at all. |
| Util.NoDigitArgument | api/util.go:40 | `redirect(x);` does not match at its start. |
| Util.NoLaterCall | api/util.go:40 | Nor does it match at any later position. |
| Util.ParseUpdateResponse | api/util.go:42-69 | The errors in source order: parser error, missing message, missing script, unparsable script, non-empty delay with the message. Otherwise the result is the trimmed message. |
| Util.UpdateSucceedsIff | api/util.go:59-68 | There is success exactly when the captured delay is empty, and the result is then the trimmed text of the message. |
| Text.HasPrefix | api/client.go:133 | `strings.HasPrefix`: the text is at least as long as the prefix and begins with it. |
| Text.HasSuffix | api/client.go:133 | `strings.HasSuffix`: the text is at least as long as the suffix and ends with it. |
| Text.IsSpace | api/util.go:53 | `unicode.IsSpace`: the ASCII white space, U+0085, U+00A0 and the other code points with the Unicode White_Space property. `LeadingSpace`, `TrailingSpace` and `TrimSpace` state how trimming uses it. |
| Text.LeadingSpace | api/util.go:53 | It counts the white space at the start: all of it is white space, and the character after it is not. |
| Text.TrailingSpace | api/util.go:53 | The same, at the end. |
| Text.TrimSpace | api/util.go:53 | The result is an infix with white space cut at both ends, and it is trimmed. |
| Text.TrimSpaceIdempotent | api/util.go:53 | Trimming twice is trimming once. |
| Types.Zip | api/api.go:55-58 | The loop that stores each name with its level, a later name overwriting an earlier one. `ZipKeys`, `ZipLastWins` and `ZipSize` state its properties. |
| Types.ZipKeys | api/api.go:55-58 | The map's keys are exactly the names. |
| Types.ZipLastWins | api/api.go:55-58 | A name's value is the access level at its last occurrence. |
| Types.ZipSize | api/api.go:55-58 | There is at most one entry per name, and exactly one when the names are distinct. |
| Types.Entries | api/api.go:36-43 | There are two elements per key. |
| Types.Gather | api/api.go:25-28 | It collects the text of `Name` and `Access` elements into two lists, and never more than there are elements. |
| Types.Unzip | api/api.go:25-28 | Lists `order` and the levels of its keys, in parallel. |
| Types.GatherAppend | api/api.go:25-28 | Gathering distributes over appending. |
| Types.GatherEntries | api/api.go:25-28 | Gathering the written elements gives the two parallel lists back. |
| Types.ZipUnzip | api/api.go:47-60 | Zipping the lists of an iteration order reproduces the map. |
| Types.RightsRoundTrip | api/api.go:30-60 | Unmarshalling what `MarshalXML` writes reproduces the map, whatever the iteration order. |
| Types.Marshalled | api/api.go:30-45 | The output is the start tag, then exactly the name and level elements of each key in iteration order, then the end tag. |
| Types.GatherPair | api/api.go:25-28 | A `Name` element followed by an `Access` element gathers to one name and one level. |
| Types.UnzipSnoc | api/api.go:36-43 | Adding a key at the end of the order adds its name and level at the end of the two lists. |
| Types.MarshalledCounts | api/api.go:36-43 | There are as many `Name` and `Access` elements as the map has entries. |
| Types.EntriesAt | api/api.go:36-43 | Element 2i is key i and element 2i+1 is its level. |
| Types.SessionAccess.UnmarshalXML | api/api.go:47-60 | A decoder error or unequal list lengths leaves the map unchanged. Otherwise the map becomes the zipped lists. |
| Types.SessionAccess.MarshalXML | api/api.go:30-45 | It writes the start tag, then a name and level pair per key in iteration order, then the end tag. |
| Embedded.FirstHit | api/client.go:131-140 | If it stops at a line, that line fits and matches, and every earlier line fits and does not. If not, every matching line comes at or after an overlong line. |
| Embedded.Handle | api/client.go:133-137 | On the matching line the slice panics exactly when the markers do not fit, and otherwise the result is a value exactly when the interior decodes. A decoder error is returned as it is. |
| Embedded.Extract | api/client.go:131-141 | A panic comes from a hit line shorter than both markers together, and a value comes from decoding the interior of the first hit line. |
| Embedded.Fits | api/client.go:128-130 | A line fits when it takes fewer bytes than the 256 KiB buffer, so that the line and its newline take at most the whole buffer. `OverlongLineEndsScan` states what happens to a line that does not fit. |
| Embedded.Matches | api/client.go:133 | The line starts with the prefix and ends with the suffix. `Interior` and `OverlapShared` state what follows from it. |
| Embedded.Interior | api/client.go:134 | Prefix, interior and suffix concatenated give the line. |
| Embedded.DecodeEmbeddedJson | api/client.go:126-142 | The loop computes exactly `Extract`. |
| Embedded.Utf8LengthBounds | api/client.go:128-131 | A line takes between one and four bytes per character. |
| Embedded.NotFoundOrMalformed | api/client.go:135-141 | "Not found" is returned exactly when the scan stops without a hit. A decode error is returned exactly when the hit line's interior fails to decode, and it is the decoder's own error. |
| Embedded.LaterLinesIgnored | api/client.go:133-139 | Lines after the first hit do not matter. |
| Embedded.HitAt | api/client.go:131-139 | The scan stops at the first line that fits and matches, provided every earlier line fits. |
| Embedded.SameHit | api/client.go:131-140 | Appending lines keeps an existing hit. |
| Embedded.OverlongLineEndsScan | api/client.go:128-131 | A line too long for the buffer ends the scan, even when a later line matches. |
| Embedded.OverlapShared | api/client.go:133-134 | A matching line shorter than prefix and suffix together makes them overlap. |
| Embedded.NeverPanics | api/client.go:133-134 | With non-overlapping markers the slice never panics. |
| Embedded.OverlapPanics | api/client.go:133-134 | With overlapping markers, a short line does panic. |
| Client.Login | api/client.go:65-72 | A failure of the first request is returned as it is, and a successful login never carries the all-zero id. |
| Client.CheckSession | api/client.go:55-62 | Decoder errors pass through, the all-zero id becomes "login failed", and a successful result never has the all-zero id. |
| Client.AnswerQuery | api/client.go:70-71 | The second request carries the first reply's id, the username and the response. |
| Client.LoginResponse | api/client.go:70 | The response is the challenge, a dash, and the digest, 33 characters longer than the challenge. |
| Client.LoginResponseSplits | api/client.go:70 | The router can recover the challenge and the digest from the response. |
| Client.LoginOutcome | api/client.go:65-72 | The login succeeds exactly when both requests do and the id is not the sentinel, and then returns the second reply. An error of either request is returned unchanged, and an all-zero id becomes "login failed". |
| Client.ListMarkersDisjoint | api/client.go:158 | `var gFonNums = ` and `;` cannot overlap. |
| Client.DetailMarkersDisjoint | api/client.go:179 | `const g_fondata = [` and `];` cannot overlap. |
| Client.ListExample | api/client.go:158 | In a three-line body, the marked line's array is decoded; a body without it gives "not found". |
| Client.ListPhoneNumbers | api/client.go:144-162 | A transport error passes through. Otherwise it returns the extraction's result, and never panics. |
| Client.GetPhoneNumber | api/client.go:164-183 | The same, for one number's configuration. |
| Client.InterpretApply | api/client.go:203-213 | A decoder error passes through, "valerror" yields the router's alert, "ok" is success, and anything else is an unknown error. |
| Client.ApplySucceedsIff | api/client.go:207-213 | There is success exactly when the reply decodes and says "ok". |
| Client.DisableForm | api/client.go:188-195 | The form has exactly the six fields `xhr`, `isnew`, `uid`, `sid`, `page` and `apply`: "1", "0", the given uid and sid, "sip_edit" and the empty string. |
| Client.EnableForm | api/client.go:219-232 | The form has exactly the twelve fields of the source, each with its value: the fixed flags, the given provider, number parts and credentials, uid and sid. |
| Client.EnableExtras | api/client.go:222-227 | The six fields the enable form adds to the disable form. |
| Client.EnableExtendsDisable | api/client.go:185-251 | The enable form is the disable form plus six fields of its own. |
| Client.DisableSip | api/client.go:185-214 | Every outcome of posting the disable form: a transport or decoder error passes through, "valerror" fails with the router's alert, any other reply but "ok" fails as unknown, and there is success exactly when the reply says "ok". |
| Client.EnableSip | api/client.go:216-251 | The same four outcomes, for the enable form. |
| SipCommand.SweepStopsAtError | command_sip.go:38-69 | After the first error, later numbers add no calls. |
| SipCommand.ThenStops | command_sip.go:47-51 | Making one more call after calls that all succeeded stops with that call's error. |
| SipCommand.AppendStops | command_sip.go:38-69 | Appending a run to one that ended without error keeps only the last call failing. |
| SipCommand.NumberRunStops | command_sip.go:45-68 | Handling one number stops at its first failing call. |
| SipCommand.SweepStops | command_sip.go:38-69 | The loop stops at the first failing call. |
| SipCommand.SipStopsAtFirstError | command_sip.go:15-71 | Every call but the last succeeded. The last one failed with the returned error, or succeeded if no error is returned. |
| SipCommand.SweepScoped | command_sip.go:38-47 | Every loop call concerns a listed SIP number in scope, with the session id. |
| SipCommand.SipLoginAndListOnce | command_sip.go:25-47 | The first call logs in and the second lists the numbers. Every later call fetches, disables or enables a number in scope with the session's id. |
| Text.EqualFold | command_sip.go:53-61 | Case-insensitive equality with a lower-case word, with Go's folds onto 'k' and 's'. `TaskWords` states what it means for the three task words. |
| SipCommand.InScope | command_sip.go:39-44 | A number is handled when it is a SIP number and, if uids were given, its uid is one of them. |
| SipCommand.Disconnects | command_sip.go:53 | The task is "disconnect" or "reconnect", in any case. `TaskWords` states it for the three task words. |
| SipCommand.Connects | command_sip.go:61 | The task is "connect" or "reconnect", in any case. |
| SipCommand.EnableWith | command_sip.go:63 | The enable call passes the fetched provider, area code, local number and SIP credentials. `SipFetchesFirst` states that every enable carries the configuration fetched for its number. |
| SipCommand.NumberRun | command_sip.go:45-68 | The calls for one number, stopping at the first failure. `NumberRunCalls`, `NumberRunStops` and `NumberRunOrdered` state its properties. |
| SipCommand.Sweep | command_sip.go:38-69 | The loop over the listed numbers, skipping those out of scope and stopping at the first error. |
| SipCommand.SipRun | command_sip.go:15-71 | The whole command: login, list, then the loop. |
| SipCommand.TaskWords | command_sip.go:53-61 | "disconnect" only disconnects, "connect" only connects, and "reconnect" does both. |
| SipCommand.SweepDispatched | command_sip.go:53-68 | Disables appear only for disconnecting tasks, and enables only for connecting ones. |
| SipCommand.SipDispatch | command_sip.go:53-68 | "disconnect" never enables and "connect" never disables. |
| SipCommand.NumberRunCalls | command_sip.go:45-68 | A number handled without error gets exactly the fetch, then the disable if the task disconnects, then the enable with the fetched configuration if it connects. |
| SipCommand.SweepDispatchComplete | command_sip.go:38-68 | A loop that ends without error disables every number in scope when the task disconnects, and enables it with its configuration when the task connects. |
| SipCommand.SipDispatchComplete | command_sip.go:15-71 | For a command that ends without error, each listed number in scope is disabled exactly when the task disconnects, and enabled with its configuration exactly when the task connects. |
| SipCommand.AppendOrdered | command_sip.go:45-68 | Joining call order at a fetch keeps every disable and enable right after its number's fetch. |
| SipCommand.NumberRunOrdered | command_sip.go:45-68 | One number's calls start with the fetch and are in order. |
| SipCommand.SweepOrdered | command_sip.go:38-69 | The loop's calls are in order. |
| SipCommand.SipFetchesFirst | command_sip.go:47-68 | Every disable or enable comes right after the fetch of the same number, and an enable follows that fetch or directly follows the disable after it. An enable carries the provider, area code, local number and SIP credentials that the fetch returned. |
| SipCommand.FetchedUidsAppend | command_sip.go:38-69 | Collecting fetched uids distributes over appending. |
| SipCommand.NumberRunFetchesOnce | command_sip.go:45-68 | One number is fetched exactly once. |
| SipCommand.SweepInListOrder | command_sip.go:38-69 | A loop that ends without error fetches exactly the numbers in scope, once each, in list order. |
| SipCommand.SipInListOrder | command_sip.go:15-71 | The same, for the whole command. |
| SipCommand.SweepFetchesPrefix | command_sip.go:38-69 | Whatever the outcome, the loop fetched an initial part of the numbers in scope, in list order. |
| SipCommand.SipFetchesPrefix | command_sip.go:15-71 | Whatever the outcome, the command fetched an initial part of the listed numbers in scope, and nothing when the login or the list failed. |
| SipCommand.HandleNumber | command_sip.go:45-68 | The loop body makes exactly the calls of `NumberRun` and returns its error. |
| SipCommand.SweepNumbers | command_sip.go:38-69 | The loop, with its two filters, makes exactly the calls of `Sweep`. |
| SipCommand.CommandSip | command_sip.go:15-71 | The command makes exactly the calls of `SipRun` and returns its error. |

## Left out

- The HTTP transport is left out: `NewClient`, URL joining, request building, `getSessionInfo`'s GET, and the bodies as byte streams. Replies are parameters. In particular, the query string `GetPhoneNumber` builds is not URL-escaped, and that is not modelled.
- `getSessionInfo` is represented by the endpoint's reply to the bare query. It has no sentinel check, as in the code.
- MD5 is a parameter. UTF-16 encoding is modelled on Unicode scalar values, so the handling of invalid UTF-8 by the x/text encoder is not covered.
- `Text.TrimSpace` removes Go's Unicode white space. Go's handling of invalid UTF-8 bytes is not modelled.
- `Text.EqualFold` is modelled only against lower-case ASCII words, which is how the command in command_sip.go uses it. That includes the two non-ASCII characters that fold to 'k' and 's'.
- The JSON and XML decoders are abstract. Their partial writes into the target on a decode error are not modelled, and neither is the zero value Go returns beside an error.
- The HTML parser and the two CSS selectors are functions supplied by the caller. The node tree is a value.
- The regular expression engine is not modelled. It is replaced by a leftmost search for the one pattern, proved equivalent to the pattern's meaning.
- The scanner is modelled on a list of lines. CR stripping is not modelled, and neither is the exact boundary case of a final line without a newline of exactly 256 KiB. A longer line ends the scan, as `Scan` returning false does.
- Lines are taken as valid UTF-8 text, read as characters. The prefix and suffix tests and the slice in `decodeEmbeddedJson` work on bytes, and the two views agree only on valid UTF-8.
- Types.RightsRoundTrip: the round trip is stated on XML tokens. The text layer of `encoding/xml` and its escaping are abstracted, including that the encoder writes U+FFFD for characters outside XML's Char range, so a name holding such a character would not come back unchanged.
- `MarshalXML`'s encoder write errors are not modelled. Go's random map iteration order is a parameter that lists each key once.
- The multipart upload (`generateCertificateBody`, `UpdateTLSCertificate`) is left out because it only builds a request body and posts it. How its reply page is read, `parseUpdateResponse`, is modelled.
- main.go and command_cert.go are not part of this model. Nor are the declarations of the JSON record types, beyond the fields read here.
- The console output of command_sip.go is not modelled, and neither is the `NewClient` URL error.
- The router is a pure oracle: the same call always gets the same answer, and calls have no effect on later answers. An enable of a number just disabled is answered without regard to the disable.
- `Types.SessionInfo` keeps `BlockTime` as text, as the struct in api/api.go declares it, rather than as a number.
- `Util.ParseUpdateResponse` treats a delay of "0" as a failure, as the code does: any non-empty delay is a failure.
