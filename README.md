# AnuQRandom.NET in Dafny

A model of the client library for the ANU quantum random-number service (qrng.anu.edu.au).
It covers the two API clients, the request entity, the response envelope and the
`DirtyClient` accessors for the service's plugin endpoints. Network, JSON, file and drawing
calls are removed. What remains is checked by the Dafny verifier:

- the validated configuration of a client;
- the request URL it builds, and reading that URL back;
- the filter that turns response tokens into numbers;
- the text surgery and chunk loop of the permutation generator;
- the small string helpers of the media downloads.

Modules, one per source file or shared concern:

- `Wrappers`: `Option`, `Result` and `Outcome`. A `Failure`/`Fail` value stands for the .NET exception the code throws.
- `Numbers`: the C# `int` as a subset type `Int32`, its decimal rendering, and `int.TryParse` (`ParseInt32`).
- `Strings`: `System.String` operations on response text.
  - `IndexOf`, used by the `data:` URL strip.
  - `Replace(pattern, "")` as `RemoveAll`: left to right, non-overlapping, no rescan. The permutation cleanup uses it.
  - `Split` and `Join`. The library never calls these: they serve only the corrected parse of the permutation reply (see Findings).
- `Shared`: what both revisions of the client declare alike. This is the `RequestedDataType` enumeration, the endpoints, the range limits, the messages and the error kinds.
- `QueryString`: the three-way URL shape of `GetRequestUrl`, a parser for it, and the round trip between them.
- `ApiClient` (`ApiClient.cs`): the abstract client and its two subclasses, as one class whose `variant` picks the endpoint and the block-size limit. The new-API variant also carries the API key. Its `RequestAsync` override sends the key header and skips the empty-body check, which `ReceiveBody` models.
- `RequestEntity` (`Entities/RequestEntity.cs`): the mutable `AnuRequestEntity` and its fluent `With*` methods.
- `RequestedData` (`Model/RequestedData.cs`): the response envelope as a datatype, and the `DataNumbers` filter.
- `Chunking`: cutting a flat sequence into rows of one width. This is the shape the permutation loop rebuilds.
- `DirtyClient` (`DirtyClient.cs`):
  - the plugin URLs;
  - the `data:` URL payload strip (section 3 of RFC 2397);
  - default extensions;
  - validation, form fields, cleanup and the chunk loop of `GetRandomPermutations`;
  - the parse the loop evidently intends.
- `Client` (`Client.cs`): the older revision, with the two client classes each owning its `GetRequestUrl()`.

`Client.cs` also carries a copy of `DirtyClient` (`Client.cs:192-490`) that matches `DirtyClient.cs`
statement for statement. The `DirtyClient` module models both; the table cites `DirtyClient.cs`.
The corresponding `Client.cs` lines are:

| `DirtyClient.cs` | `Client.cs` |
|---|---|
| plugin base, line 33 | line 216 |
| payload strip, 39-40 | 222-223 |
| validation, 196-200 | 379-383 |
| form, 202-208 | 385-391 |
| cleanup, 215-218 | 398-401 |
| loop, 220-235 | 403-418 |
| media methods, 243-296 | 426-479 |

Where the library's own doc comments and its code say different things, the model follows the code:

- **Range limits of the request entity.** The doc comments at `Entities/RequestEntity.cs:13-21` give `ArrayLength` the range 1..1024 and `BlockSize` 1..1024 (old API) or 1..10 (new API). The auto-properties at lines 16 and 21 and the `With*` methods at lines 23-39 store any `int`. Each `With*` assigns a property of `this` and returns `this`, so the entity is a mutable class.
- **Block-size message.** The doc comment at `Client.cs:139` says the block size must be between 1 and 10. The setter checks exactly that at line 147, but its message at line 148 says "between 1 and 1024" (`Client.BlockSizeEleven`).
- **Permutation elements.** The doc comment at `DirtyClient.cs:188-193` says the method generates permutations of N objects, and its return type is `List<List<int>>`. The loop at lines 224-232 stores `data[numberCount]`, the character code of one character of the cleaned text. So the result is not the numbers (see Findings).

Facts about the code that the model makes explicit:

- **Which field the URL reads.** In `GetRequestUrl`, the `uint8` branch (`ApiClient.cs:37`) reads the raw field `arrayLength`. The other two branches (lines 38-39) read the property `ArrayLength`, whose getter returns that same field. So all three branches carry the same value, and it is unchecked when it was written to the field directly (`DirectFieldWrite`).
- **The request argument.** `GetRequestUrl` (`ApiClient.cs:31-42`) never reads its `requestEntity` argument (`EntityIgnored`).
- **Empty bodies.** Only the base `RequestAsync` checks for an empty body (`ApiClient.cs:53-56`). The new API's override (lines 158-178) hands any body to the JSON reader.

## Model

| member | source | states |
|---|---|---|
| `Numbers.IntToDecimal` | AnuQRandom.Net/ApiClient.cs:37-39 | an interpolated `int` is a non-empty text of decimal digits with at most a leading minus sign, and never has a leading zero: a `0` digit first means the text is `0`, and a minus sign is followed by a non-zero digit |
| `Numbers.ParseInt32` | AnuQRandom.Net/Model/RequestedData.cs:36 | a token that parses ends in a digit, and a negative value comes only from a leading minus sign |
| `Numbers.ParseDigits` | AnuQRandom.Net/Model/RequestedData.cs:36 | a non-empty run of digits, bare or after `+` or `-`, parses to its value, leading zeros included, exactly when that value is in the `int` range, and is rejected otherwise |
| `Numbers.ParseNonCanonical` | AnuQRandom.Net/Model/RequestedData.cs:36 | tokens that are not renderings still parse: `+7` to 7 and `-07` to -7 |
| `Numbers.ParseRenderedInt32` | AnuQRandom.Net/Model/RequestedData.cs:36 | `int.TryParse` accepts what `ToString` renders for every `int` and returns that same value |
| `Numbers.ParseRejectsNonDigit` | AnuQRandom.Net/Model/RequestedData.cs:36-37 | a token with a character that is neither a digit nor a leading sign does not parse |
| `Strings.IndexOf` | AnuQRandom.Net/DirtyClient.cs:40 | the index is -1 exactly when the character is absent, otherwise it holds the character and no earlier position does |
| `Strings.RemoveAll` | AnuQRandom.Net/DirtyClient.cs:215-218 | `Replace(pattern, "")` never lengthens the text |
| `Strings.RemoveAllChar` | AnuQRandom.Net/DirtyClient.cs:217-218 | after removing a one-character pattern that character no longer occurs |
| `Strings.RemoveAllAddsNothing` | AnuQRandom.Net/DirtyClient.cs:215-218 | a removal introduces no character the text did not already hold |
| `Strings.RemoveAllAbsent` | AnuQRandom.Net/DirtyClient.cs:215-218 | text in which the pattern does not occur is left unchanged |
| `Strings.RemoveAllAfter` | AnuQRandom.Net/DirtyClient.cs:215-218 | a stretch that cannot start the pattern is kept, and the pattern right after it is dropped |
| `Strings.RemoveAllLeading` | AnuQRandom.Net/DirtyClient.cs:215 | a leading copy of the prefix literal is removed and the rest is untouched when the rest lacks one of its characters |
| `Strings.RemoveAllTrailing` | AnuQRandom.Net/DirtyClient.cs:216 | a trailing copy of the suffix literal is removed and the text before it is untouched when that text lacks one of its characters |
| `Strings.RemoveAllKeepsFirst` | AnuQRandom.Net/DirtyClient.cs:218 | a first character that cannot start the pattern survives the removal |
| `Strings.NoOccurrenceWithout` | AnuQRandom.Net/DirtyClient.cs:215-218 | a text lacking some character of a literal does not contain that literal |
| `Strings.Split` | AnuQRandom.Net/DirtyClient.cs:224-232 | corrected parse: a split yields at least one piece |
| `Strings.Join` | AnuQRandom.Net/DirtyClient.cs:224-232 | corrected parse: the joined text starts with the first piece and holds the separator when there are several pieces |
| `Strings.SplitJoin` | AnuQRandom.Net/DirtyClient.cs:224-232 | corrected parse: splitting joined pieces that hold no separator gives exactly those pieces |
| `Strings.JoinSplit` | AnuQRandom.Net/DirtyClient.cs:224-232 | corrected parse: joining the pieces of a split gives the text back, so the split loses nothing |
| `Strings.JoinWithout` | AnuQRandom.Net/DirtyClient.cs:224-232 | corrected parse: a character in no piece and different from the separator is absent from the joined text |
| `Strings.JoinAppend` | AnuQRandom.Net/DirtyClient.cs:224-232 | corrected parse: joining two lists of pieces is joining each with one separator between |
| `Shared.TypeName` | AnuQRandom.Net/ApiClient.cs:33 | the `Enum.GetName` text of a data type is recognised as that data type |
| `Shared.TypeOfNameInverse` | AnuQRandom.Net/ApiClient.cs:7-12 | a recognised type name is exactly the name of the type it yields |
| `QueryString.Hex16TypeAndSize` | AnuQRandom.Net/ApiClient.cs:39 | `hex16&size=S` reads back as `hex16` with size `S` |
| `QueryString.TypeAndSizeRoundTrip` | AnuQRandom.Net/ApiClient.cs:37-39 | the text after `&type=` reads back as the type, with a size for `hex16` only |
| `QueryString.LengthRoundTrip` | AnuQRandom.Net/ApiClient.cs:37-39 | the rendered length before the first `&` reads back as the length |
| `QueryString.RequestUrl` | AnuQRandom.Net/ApiClient.cs:35-41 | every URL begins with the endpoint, `?length=`, the rendered length, `&type=` and the type name |
| `QueryString.RequestUrlShape` | AnuQRandom.Net/ApiClient.cs:37-39 | every branch is endpoint, `?length=`, the length, `&type=` and the type text, the same shape for `uint8` and `uint16` |
| `QueryString.RequestUrlAfterEndpoint` | AnuQRandom.Net/ApiClient.cs:31-41 | the URL after the endpoint does not depend on the endpoint |
| `QueryString.RequestUrlRoundTrip` | AnuQRandom.Net/ApiClient.cs:31-41 | reading back the URL recovers type, length and (for `hex16` only) size |
| `ApiClient.ApiClient.constructor` | AnuQRandom.Net/ApiClient.cs:23-26 | a fresh client has type `uint8`, length 10 and block size 10 |
| `ApiClient.ApiClient.SetArrayLength` | AnuQRandom.Net/ApiClient.cs:86-97 | stores the value exactly when it is in 1..1024, otherwise fails with the length message and keeps the field; no other field is written |
| `ApiClient.ApiClient.SetBlockSize` | AnuQRandom.Net/ApiClient.cs:102-156 | stores the value exactly when it is in 1..1024 (legacy) or 1..10 (new API), otherwise fails with that variant's message and keeps the field |
| `ApiClient.ApiClient.SetDataType` | AnuQRandom.Net/ApiClient.cs:23 | the data type becomes the value and nothing else changes |
| `ApiClient.ApiClient.GetRequestUrl` | AnuQRandom.Net/ApiClient.cs:31-42 | the URL on the variant's endpoint reads back as the client's data type, length and (for `hex16`) block size |
| `ApiClient.ApiClient.ReceiveBody` | AnuQRandom.Net/ApiClient.cs:44-59 | the legacy client fails with "Cannot download data!" exactly on an empty body; the new-API client passes every body on unchanged |
| `ApiClient.BlockSizeEleven` | AnuQRandom.Net/ApiClient.cs:145-156 | block size 11 is stored by a fresh legacy client and refused by a fresh new-API client, which keeps 10 |
| `ApiClient.EntityIgnored` | AnuQRandom.Net/ApiClient.cs:31-42 | two different entities give the same URL |
| `ApiClient.DirectFieldWrite` | AnuQRandom.Net/ApiClient.cs:25-39 | a value written straight into the public field, in range or not, is what the getter returns and what the URL carries |
| `RequestEntity.AnuRequestEntity.constructor` | AnuQRandom.Net/Entities/RequestEntity.cs:11-21 | a new entity has type `uint8`, length 10 and block size 10 |
| `RequestEntity.AnuRequestEntity.WithDataType` | AnuQRandom.Net/Entities/RequestEntity.cs:23-27 | sets the type, returns the same entity and keeps length and block size |
| `RequestEntity.AnuRequestEntity.WithArrayLength` | AnuQRandom.Net/Entities/RequestEntity.cs:29-33 | stores any length without a range check and changes nothing else |
| `RequestEntity.AnuRequestEntity.WithBlockSize` | AnuQRandom.Net/Entities/RequestEntity.cs:35-39 | stores any block size without a range check and changes nothing else |
| `RequestEntity.ConfigureFluently` | AnuQRandom.Net/Entities/RequestEntity.cs:23-39 | in an interleaved chain the last write to each field wins and the entity returned is the one configured |
| `RequestEntity.ReorderedChains` | AnuQRandom.Net/Entities/RequestEntity.cs:23-39 | two entities configured by chains that write the same fields in different orders end in the same state |
| `RequestedData.RequestedData.DataNumbers` | AnuQRandom.Net/Model/RequestedData.cs:36-39 | the envelope never yields more numbers than tokens, and as many exactly when every token parses |
| `RequestedData.ParsedTokens` | AnuQRandom.Net/Model/RequestedData.cs:36-39 | the filter never yields more numbers than there are tokens |
| `RequestedData.ParsedTokensAppend` | AnuQRandom.Net/Model/RequestedData.cs:36-39 | the filter keeps order: the numbers of two token lists are the first list's numbers followed by the second's |
| `RequestedData.ParsedTokensSplit` | AnuQRandom.Net/Model/RequestedData.cs:36-39 | each token contributes its own value or nothing, at its own place |
| `RequestedData.ParsedTokensKeepsAll` | AnuQRandom.Net/Model/RequestedData.cs:36-39 | there are as many numbers as tokens exactly when every token parses |
| `RequestedData.ParsedTokensSound` | AnuQRandom.Net/Model/RequestedData.cs:36-39 | every number kept is the value of some token |
| `RequestedData.SampleDataNumbers` | AnuQRandom.Net/Model/RequestedData.cs:36 | the envelope with data `["1","2","3"]` has numbers `[1,2,3]` |
| `RequestedData.HexTokens` | AnuQRandom.Net/Model/RequestedData.cs:36-37 | the `hex16` token `ab` is dropped without error and `12` reads as decimal 12 |
| `Chunking.Chunk` | AnuQRandom.Net/DirtyClient.cs:220-233 | chunking yields no rows exactly for an empty sequence |
| `Chunking.Codes` | AnuQRandom.Net/DirtyClient.cs:232 | one code per character, equal to that character's code |
| `Chunking.FlattenChunk` | AnuQRandom.Net/DirtyClient.cs:220-233 | the rows laid end to end are the chunked sequence |
| `Chunking.ChunkFlatten` | AnuQRandom.Net/DirtyClient.cs:220-233 | rows of one width are what chunking their concatenation gives |
| `Chunking.ChunkSnoc` | AnuQRandom.Net/DirtyClient.cs:226-232 | one more element opens a new row exactly when the count so far is a multiple of the width, otherwise it extends the last row |
| `Chunking.ChunkAppendToLast` | AnuQRandom.Net/DirtyClient.cs:226-232 | one loop step (open a row at a multiple of the width, append to the last row) keeps the rows equal to the chunking of what was read |
| `Chunking.ChunkShape` | AnuQRandom.Net/DirtyClient.cs:220-233 | `count * width` elements give `count` rows of exactly `width` elements |
| `Chunking.ChunkAt` | AnuQRandom.Net/DirtyClient.cs:224-232 | element `j` of row `i` is element `i * width + j` |
| `DirtyClient.PluginUrl` | AnuQRandom.Net/DirtyClient.cs:49-113 | every live-stream, block and media URL is the plugin base followed by that value's script name |
| `DirtyClient.PluginUrlInjective` | AnuQRandom.Net/DirtyClient.cs:49-113 | distinct enumeration values are fetched from distinct URLs |
| `DirtyClient.StripPayload` | AnuQRandom.Net/DirtyClient.cs:39-40 | without a comma the text is unchanged; with one, what is dropped is a comma-free header and the first comma |
| `DirtyClient.StripDataUrl` | AnuQRandom.Net/DirtyClient.cs:39-40 | a `data:` URL with a comma-free header strips to exactly its data |
| `DirtyClient.StripSample` | AnuQRandom.Net/DirtyClient.cs:40 | `data:image/png;base64,AAAA` strips to `AAAA` |
| `DirtyClient.LastDotIndex` | AnuQRandom.Net/DirtyClient.cs:247 | the index found is a dot with no dot or separator after it; it is -1 only when every dot is followed by a separator |
| `DirtyClient.LastDotCharacterised` | AnuQRandom.Net/DirtyClient.cs:247 | the scan finds a dot before the last character exactly when the path has a dot with no dot or separator after it |
| `DirtyClient.LastDotIgnoresPlainSuffix` | AnuQRandom.Net/DirtyClient.cs:247 | characters that are neither a dot nor a separator do not move the last dot |
| `DirtyClient.HasExtension` | AnuQRandom.Net/DirtyClient.cs:247 | a path has an extension exactly when it has a dot, not at the end, with no dot or separator after it |
| `DirtyClient.ExtensionAppended` | AnuQRandom.Net/DirtyClient.cs:247-248 | a name with a default extension appended has an extension |
| `DirtyClient.WithDefaultExtension` | AnuQRandom.Net/DirtyClient.cs:247-248 | the result has an extension and starts with the name; it is the name itself exactly when the name already had one, and otherwise the name followed by the given extension |
| `DirtyClient.DefaultExtension` | AnuQRandom.Net/DirtyClient.cs:243-296 | each media kind's default (`.png`, `.wav`) is a well-formed extension |
| `DirtyClient.GetMedia` | AnuQRandom.Net/DirtyClient.cs:243-296 | each media method fetches its own script, keeps a name with an extension, appends `.png` or `.wav` otherwise, and decodes the data after the first comma |
| `DirtyClient.ValidatePermutationCounts` | AnuQRandom.Net/DirtyClient.cs:196-200 | the counts pass exactly when the permutation count is in 1..50 and the object count in 1..200 |
| `DirtyClient.PermutationForm` | AnuQRandom.Net/DirtyClient.cs:202-208 | the form has exactly the four fields, the two counts read back, and the action and nonce are fixed |
| `DirtyClient.CleanPermutationResponse` | AnuQRandom.Net/DirtyClient.cs:215-218 | the cleaned text has no `[` or `]`, contains neither wrapper literal, and is no longer than the reply |
| `DirtyClient.ChunkCharacterCodes` | AnuQRandom.Net/DirtyClient.cs:220-235 | the loop returns the character codes of the first `permutationCount * objectCount` characters in rows of `objectCount`, or an index error when the text is shorter |
| `DirtyClient.PermutationsAsWritten` | AnuQRandom.Net/DirtyClient.cs:194-236 | out-of-range counts fail with an argument error before anything is read; with valid counts the call succeeds exactly when the cleaned text is long enough, and otherwise fails with an index error |
| `DirtyClient.GetRandomPermutations` | AnuQRandom.Net/DirtyClient.cs:194-236 | the method returns what `PermutationsAsWritten` describes |
| `DirtyClient.PermutationsShape` | AnuQRandom.Net/DirtyClient.cs:220-233 | a success has `permutationCount` lists of `objectCount` elements, element `j` of list `i` being the code of cleaned character `i * objectCount + j` |
| `DirtyClient.CleanWrapped` | AnuQRandom.Net/DirtyClient.cs:215-218 | cleaning a reply whose nested array has no brace removes exactly the two wrappers, then the brackets |
| `DirtyClient.RowsTextCleaned` | AnuQRandom.Net/DirtyClient.cs:217-218 | dropping the brackets of the nested array leaves every number, comma-separated, in order |
| `DirtyClient.CleanRowStep` | AnuQRandom.Net/DirtyClient.cs:217-218 | the `],[` between two lists becomes a single comma |
| `DirtyClient.ParseAll` | AnuQRandom.Net/DirtyClient.cs:232 | corrected parse: all tokens parse, giving one number each in order, or some token does not parse |
| `DirtyClient.ParseAllDecimals` | AnuQRandom.Net/DirtyClient.cs:232 | corrected parse: rendered `int` values read back as themselves |
| `DirtyClient.ParsePermutations` | AnuQRandom.Net/DirtyClient.cs:220-233 | the intended parse yields `permutationCount` lists of `objectCount` numbers, or an index or format error |
| `DirtyClient.PermutationsCorrected` | AnuQRandom.Net/DirtyClient.cs:194-236 | the corrected method succeeds exactly when the counts are valid and the cleaned reply parses, with the same shape |
| `DirtyClient.PermutationsRoundTrip` | AnuQRandom.Net/DirtyClient.cs:194-236 | for any valid permutations, the corrected method returns exactly the permutations the server wrote |
| `DirtyClient.CharacterCodesNotNumbers` | AnuQRandom.Net/DirtyClient.cs:232 | for the reply `[[1,2]]` the method as written gives `[[49,44]]` and the corrected one `[[1,2]]` |
| `DirtyClient.SampleResponse` | AnuQRandom.Net/DirtyClient.cs:215-218 | the reply for one permutation `1,2` cleans to `1,2` |
| `Client.CheckedBody` | AnuQRandom.Net/Client.cs:33-43 | fails with "Cannot download data!" exactly when the body is empty, otherwise passes it on unchanged |
| `Client.OldApiClient.constructor` | AnuQRandom.Net/Client.cs:24-27 | a fresh legacy client has type `uint8`, length 10 and block size 10 |
| `Client.OldApiClient.SetArrayLength` | AnuQRandom.Net/Client.cs:69-80 | stores the value exactly when it is in 1..1024, else fails and keeps the field |
| `Client.OldApiClient.SetBlockSize` | AnuQRandom.Net/Client.cs:85-99 | stores the value exactly when it is in 1..1024, else fails and keeps the field |
| `Client.OldApiClient.GetRequestUrl` | AnuQRandom.Net/Client.cs:101-112 | the URL starts with the legacy endpoint and reads back as the client's fields |
| `Client.OldApiClient.ReceiveBody` | AnuQRandom.Net/Client.cs:33-43 | the inherited `RequestAsync` fails exactly on an empty body |
| `Client.NewApiClient.constructor` | AnuQRandom.Net/Client.cs:183-186 | keeps the key and starts from the defaults `uint8`, 10, 10 |
| `Client.NewApiClient.SetArrayLength` | AnuQRandom.Net/Client.cs:126-136 | stores the value exactly when it is in 1..1024, else fails and keeps the field |
| `Client.NewApiClient.SetBlockSize` | AnuQRandom.Net/Client.cs:141-152 | stores the value exactly when it is in 1..10, else fails with the 1..1024 message and keeps the field |
| `Client.NewApiClient.GetRequestUrl` | AnuQRandom.Net/Client.cs:154-165 | the URL starts with the new endpoint and reads back as the client's fields |
| `Client.NewApiClient.ReceiveBody` | AnuQRandom.Net/Client.cs:167-181 | the override passes every body, empty or not, to the reader |
| `Client.SameQueryOnBothEndpoints` | AnuQRandom.Net/Client.cs:101-165 | clients with the same fields build URLs that differ only in the endpoint |
| `Client.BlockSizeEleven` | AnuQRandom.Net/Client.cs:141-152 | 11 is stored by the legacy client and refused by the new one, with the message "BlockSize must be between 1 and 1024!" |

## Left out

- HTTP transport is not modelled. This covers `GetStringAsync`, `GetStreamAsync`, `SendAsync`, `PostAsync`, the `x-api-key` header and `FormUrlEncodedContent`. What a request returns is a parameter of the model, and the posted form is only its map of four fields.
- `async`/`Task`, the blocking `.Result` wrappers (`Request`, `RequestBlock`, `RequestSensingRandomness`, `RequestLiveStream`) and the `ContinueWith(... CopyToAsync)` copy are not modelled: they are concurrency, not logic.
- Newtonsoft JSON deserialization and its schema error are not modelled. `RequestedData` is taken as already parsed, and `ReceiveBody` stops at the body handed to the reader.
- `Convert.FromBase64String` and `File.WriteAllBytesAsync` are not modelled, because they are library decoding and file output. `GetMedia` ends at the Base64 text that would be decoded and the file name it would be written to.
- `Encoding.ASCII.GetString` of block and media bytes is not modelled: bodies are taken as text.
- The live-stream and block accessors (`GetHexadecimalAsync`, `GetBinaryAsync`, the three `Get*BlockAsync`) return network data unchanged. Only the URL each one fetches is modelled, by `PluginUrl`.
- `GetColorAsync` is not modelled. Its `Convert.ToInt32(s, 16)` and `Color.FromArgb` are foreign library calls.
- The `default:` branches of the enumeration switches return `""`. No declared enumeration value reaches them, and the model's datatypes have no other values.
- Culture and whitespace handling of `int.TryParse` are not modelled. `ParseInt32` accepts an optional sign followed by ASCII digits, with a value in the `int` range.
- `DirtyClient.HasExtension` follows the backward scan of `Path.HasExtension` as it behaves on Windows, with `/` and `\` as the only separators. On Linux and macOS only `/` is a separator, so there `a.b\c` has an extension while the model says it has none. Volume separators and invalid path characters are not modelled.
- `Chunking.Codes` and `DirtyClient.ChunkCharacterCodes`: Dafny strings are sequences of Unicode scalar values, while .NET `data[numberCount]` and `data.Length` count UTF-16 code units. For characters outside the Basic Multilingual Plane the codes differ (one scalar value instead of two surrogates), and so does the length at which the index error is raised. Lone surrogates cannot be represented at all.
- `Numbers.IntToDecimal`: renders a negative value with `-`. It does not model a culture whose `NegativeSign` is some other text.
- The finalizers disposing `HttpClient` are not modelled: they concern resource lifetime only.
- `Example/Program.cs` is not part of this model. It is a console demo that only calls the library.
- `ApiClient.ApiClient.GetRequestUrl`: the entity that `RequestAsync` builds from the client's properties is not modelled, because `GetRequestUrl` never reads it.
- `Strings.RemoveAll`: its own contract states only that removal does not lengthen the text. What it removes is stated by the `RemoveAll*` lemmas beside it.
- `Chunking.Chunk`: its own contract states only when the result is empty. The row sizes and elements are stated by `ChunkShape` and `ChunkAt`.

## Findings

| source | as written | input that shows it | evidently intended | confidence | as-written member | corrected member |
|---|---|---|---|---|---|---|
| AnuQRandom.Net/DirtyClient.cs:224-232 | each element is `data[numberCount]`, the code of one character of the cleaned text (the same code is at `Client.cs:407-416`) | `GetRandomPermutations(1, 2)` with the reply for the permutation `[[1,2]]` returns `[[49, 44]]`, the codes of `1` and `,` | the cleaned text is split at commas and each token parsed, returning `[[1, 2]]` | high for the as-written result; not executed | `DirtyClient.CharacterCodesNotNumbers` | `DirtyClient.PermutationsRoundTrip` |
