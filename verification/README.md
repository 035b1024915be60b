# Threadline in Dafny

Threadline is a browser extension for Roblox. It has a few small services around it.

- **The extension.** On a community's store page it collects the catalog item ids, fetches each clothing template and packs them into one uncompressed ZIP archive, which it then downloads. On the home page it replaces every fourth game tile of a grid with an advertisement tile.
- **The services.**
  - A converter server streams a video's audio as MP3. A serverless proxy relays requests to that server.
  - A premium check looks up an access code among paid checkout sessions.
  - Python helpers download clothing templates, overlay them on the shirt and pants templates, and print wrapped text on a console.

This project models the logic of these pieces and proves what each of them promises:

- the byte layout of the archive, with a reader that gets the files back out of it;
- the batch loop, its file names and its messages, and the button that shows its progress;
- the URL and id parsing;
- the converter's fallback state machine and the proxy's relay;
- the retry and pagination loops;
- the asset-type registries and the download pipeline;
- the console word wrap;
- the premium scan.

Modules follow the source files:

| module | models |
|---|---|
| `Crc32`, `Bytes`, `ZipFormat`, `ZipWriter` | `buildZipFromFiles` in extension/background.js |
| `Batch`, `Identifier` | `downloadMultipleTemplates` and `generateIdentifier` in extension/background.js |
| `CatalogIds`, `AdTiles`, `PageControls` | extension/content.js |
| `Converter` | converter-server/index.js |
| `Proxy`, `Uri` | api/download.js, with the `encodeURIComponent` it calls |
| `UrlUtils` | public/api/template/src/utils.py |
| `Console` | api/template/src/console_interface.py |
| `Images`, `AssetTypes` | api/template/src/asset_type.py |
| `SystemAssetTypes` | public/system/template/src/asset_type.py |
| `AssetDownloader` | public/system/template/src/roblox_asset_downloader.py |
| `ApiHandler` | public/system/template/src/api_handler.py |
| `GroupHandler` | api/template/src/group_handler.py |
| `Premium` | public/system/premium/api/check-premium.js |
| `Options`, `Text`, `Json` | shared: `Option`, string helpers (digits, trimming, ASCII case, padding, decimal text), and parsed JSON with Python truthiness, `repr` and `str` |

How the model stands in for the outside world:

- **Bytes** are `nat` values below 256.
- **Strings** are ASCII `seq<char>`.
- **Inputs.** Each of the following becomes a parameter, so every behaviour is proved for all of its values:
  - network answers and payment-provider answers;
  - random draws, the clock, and environment variables;
  - DOM contents such as anchors' `href`s, spans' text and grid tiles;
  - browser and process events.
- **Sleeps** are recorded as the list of durations waited.
- **Images** are their sizes and the list of layers composited onto them.

## Model

| member | source | states |
|---|---|---|
| Crc32.Shift | extension/background.js:327 | one round of the table construction keeps a 32-bit value below 2^32 |
| Crc32.TableEntry | extension/background.js:324-329 | entry `n` is `n` after eight rounds and stays a 32-bit value |
| Crc32.MakeCrcTable | extension/background.js:322-332 | returns a fresh 256-entry array whose entry `n` is `TableEntry(n)` |
| Crc32.Update | extension/background.js:337 | the table-driven update of the register by one byte keeps it below 2^32 |
| Crc32.Register | extension/background.js:335-338 | the register after feeding the data from all ones is a 32-bit value |
| Crc32.RegisterConcat | extension/background.js:334-340 | the register of `a + b` is the register of `b` started from the register of `a` |
| Crc32.Checksum | extension/background.js:334-340 | the CRC-32 is below 2^32 and xor with 0xFFFFFFFF gives back the register: it is the complement |
| Crc32.ComplementBits | extension/background.js:339 | below 2^k, `2^k - 1 - x` is `x` xor all ones, so `(crc ^ -1) >>> 0` is the complement |
| Crc32.ComplementIsXor | extension/background.js:339 | the 32-bit case of the complement rule |
| Crc32.ComputeCrc32 | extension/background.js:334-340 | the byte loop over a CRC table returns `Checksum(buf)` |
| Crc32.RegisterPrefix | extension/background.js:336-338 | one more byte of the loop is one `Update` of the register |
| Crc32.XorBelowWord | extension/background.js:327 | xor of two 32-bit values is a 32-bit value |
| Bytes.LE | extension/background.js:350-369 | `setUint16`/`setUint32(…, true)` write `w` bytes, each a byte |
| Bytes.Zeros | extension/background.js:347 | a fresh `Uint8Array(n)` is `n` zero bytes |
| Bytes.ZerosAppend | extension/background.js:347 | zero buffers join into a zero buffer |
| Bytes.LEZero | extension/background.js:354-358 | writing 0 into a field leaves it all zero bytes |
| Bytes.ValueLE | extension/background.js:350-369 | a written field reads back as the value modulo 256^w (the DataView truncation) |
| Bytes.FieldAt | extension/background.js:371 | a field is read from whichever bytes sit at its position |
| Bytes.ConcatAppend | extension/background.js:425-433 | joining parts is compatible with splitting the list of parts |
| Bytes.ConcatGrow | extension/background.js:426-429 | the pieces of part `i` after the first `i` parts join the first `i + 1` parts |
| Bytes.StartNext | extension/background.js:406 | the next part starts where this one ends |
| Bytes.ConcatAt | extension/background.js:425-433 | part `i` sits in the joined buffer at its start |
| ZipFormat.Entries | extension/background.js:374-377 | each entry keeps the file's name and data with the CRC-32 of the data |
| ZipFormat.OffsetPrefix | extension/background.js:347-369 | a field's offset depends only on the fields before it |
| ZipFormat.OffsetGrows | extension/background.js:347-369 | offsets grow along a layout |
| ZipFormat.EncodeLength | extension/background.js:347-369 | an encoded header is as long as its fields together, and all bytes |
| ZipFormat.EncodeRead | extension/background.js:347-369 | every field of an encoded header reads back as its value modulo its range |
| ZipFormat.HeaderField | extension/background.js:371 | a header's field reads the same with the name after it |
| ZipFormat.LocalOffsets | extension/background.js:350-369 | the local header's fields sit at 14 (CRC), 18, 22 (sizes), 26 (name length), 28 (extra length) and 30 (name), as section 4.3.7 of APPNOTE.TXT gives them |
| ZipFormat.LocalHeader | extension/background.js:347-371 | a local header is 30 + name length bytes |
| ZipFormat.LocalPart | extension/background.js:427-428 | a local part is its header followed by the data |
| ZipFormat.CentralOffsets | extension/background.js:388-404 | the central header's fields sit at 10, 16, 20, 28, 30, 32, 42 and 46, as section 4.3.12 of APPNOTE.TXT gives them |
| ZipFormat.CentralHeader | extension/background.js:386-404 | a central directory header is 46 + name length bytes |
| ZipFormat.EndOffsets | extension/background.js:415-422 | the end record's fields sit at 10, 12, 16 and 22, as section 4.3.16 of APPNOTE.TXT gives them |
| ZipFormat.EndRecord | extension/background.js:413-422 | the end record is 22 bytes |
| ZipFormat.LocalParts | extension/background.js:426-429 | the local parts, in file order |
| ZipFormat.CentralParts | extension/background.js:382-407 | central header `i` points at the local header of entry `i` |
| ZipFormat.Records | extension/background.js:394-403 | the record of entry `i` carries its name, CRC, size and local offset |
| ZipFormat.ParseEntry | extension/background.js:386-404 | the reader accepts only a complete central header of a stored file |
| ZipFormat.CentralHeaderFront | extension/background.js:388-396 | signature 0x02014b50, version made by 0x14, version needed 20, flags 0, method 0 (stored), time and date 0, the CRC and both sizes (the data length) read back as written |
| ZipFormat.CentralHeaderBack | extension/background.js:397-404 | name length, extra length 0, comment length 0, disk number, internal and external attributes 0, the local header offset and the name read back as written |
| ZipFormat.CentralEntry | extension/background.js:386-404 | a written central header parses as its entry's record |
| ZipFormat.LocalHeaderFields | extension/background.js:350-375 | signature 0x04034b50, version 20, flags, method and time/date 0, the CRC and both sizes modulo 2^32, name length, extra length 0 and the name at offset 30 read back as written |
| ZipFormat.EndRecordFields | extension/background.js:415-422 | signature 0x06054b50, disk numbers 0, the entry count on this disk and in total, the directory size, the directory offset and comment length 0 read back as written |
| ZipFormat.EntryExtend | extension/background.js:430 | a central header reads the same with more headers after it |
| ZipFormat.ParseConcat | extension/background.js:430 | headers one after the other parse as their records, in order |
| ZipFormat.LoadAll | extension/background.js:426-429 | records that each load, load together, in order |
| ZipFormat.LoadLocal | extension/background.js:347-378 | a local part in place loads back as its entry |
| ZipFormat.ParseWrittenCentral | extension/background.js:382-407 | the written central directory parses as the records of the entries |
| ZipFormat.LoadWrittenLocal | extension/background.js:406 | the record of entry `i`, at the summed sizes of the earlier local parts, loads back as that entry |
| ZipFormat.LoadWrittenLocals | extension/background.js:426-429 | every record of the archive loads back as its entry |
| ZipFormat.ReadLaidOut | extension/background.js:425-433 | local parts, then a parsing central directory, then the end record give a readable archive |
| ZipFormat.ReadEnd | extension/background.js:413-422 | the end record at the back locates the central directory that ends where it begins |
| ZipFormat.ReadWrittenArchive | extension/background.js:317-434 | reading the laid-out archive gives back every entry, in order, when all values fit their fields |
| ZipFormat.ReadWrittenZip | extension/background.js:317-434 | reading the archive of some files gives back exactly those files, each with a matching CRC-32 |
| ZipFormat.PartsLength | extension/background.js:409-410 | the summed lengths of the parts are the length of their concatenation |
| ZipFormat.LocalOffsetSum | extension/background.js:383-406 | the local header of entry `i` starts after 30 + name + data bytes of every earlier entry |
| ZipFormat.ArchiveLength | extension/background.js:425-433 | the archive is Σ(30 + name + data) + Σ(46 + name) + 22 bytes |
| ZipWriter.Put | extension/background.js:371 | writing bytes into a buffer keeps its length |
| ZipWriter.PutAt | extension/background.js:371 | a written buffer holds the new bytes inside the window and the old ones outside it |
| ZipWriter.PutBack | extension/background.js:375 | overwriting the whole back part replaces it |
| ZipWriter.PutMiddle | extension/background.js:375 | overwriting a whole middle part replaces it |
| ZipWriter.EncodeZeros | extension/background.js:347 | a header with every field zero is all zero bytes |
| ZipWriter.EncodeOverwrite | extension/background.js:375 | setting field `k` of a header is encoding the header with the new value, with the bytes after it unchanged |
| ZipWriter.EncodeOverwriteLast | extension/background.js:369 | the case of the header's last field |
| ZipWriter.SetUint | extension/background.js:350-369 | the DataView setter writes exactly the little-endian bytes of the value at the offset, nothing else |
| ZipWriter.SetBytes | extension/background.js:371 | `Uint8Array.set` copies the bytes in at the offset, nothing else |
| ZipWriter.SetField | extension/background.js:374-375 | overwriting one field of a written header gives the header with that value |
| ZipWriter.Written | extension/background.js:350-369 | the header values with only the first `k` fields set yet |
| ZipWriter.FilledIs | extension/background.js:350-369 | the buffer state "first `k` fields set" is the encoding of those values |
| ZipWriter.ZeroEncoded | extension/background.js:347 | a header with no field set yet is all zeros |
| ZipWriter.ZeroFilled | extension/background.js:347 | a fresh buffer is a header with no field set yet |
| ZipWriter.FilledParts | extension/background.js:347 | a zero header followed by other bytes is a header with no field set yet |
| ZipWriter.SetNext | extension/background.js:350-369 | each setter call in header order sets one more field |
| ZipWriter.WrittenEnds | extension/background.js:350-369 | with no field set the values are zeros; with all set they are the values |
| ZipWriter.WriteLocalHeader | extension/background.js:345-375 | the first loop's body gives the local header of the entry, CRC included, and the CRC-32 of the data |
| ZipWriter.WriteCentralHeader | extension/background.js:385-404 | the second loop's body gives the entry's central header pointing at `offset` |
| ZipWriter.WriteEndRecord | extension/background.js:413-422 | the end record for the count, size and offset |
| ZipWriter.EntriesOf | extension/background.js:377 | the kept entries as name, data and CRC |
| ZipWriter.TotalLengthConcat | extension/background.js:409 | the `reduce` over central part lengths is the directory's length |
| ZipWriter.LocalTotalSizeStart | extension/background.js:378-410 | the summed local sizes of the first `i` entries is where local header `i` starts |
| ZipWriter.WriteLocals | extension/background.js:342-379 | one entry per file with its CRC-32, each header as written, and `localFilesSize` their total size |
| ZipWriter.WriteCentralDirectory | extension/background.js:382-407 | one central header per entry, with `offset` running over the starts of the local headers |
| ZipWriter.JoinParts | extension/background.js:425-431 | each local header and its data in file order, then the central headers, then the end record |
| ZipWriter.BuildZipFromFiles | extension/background.js:317-434 | the blob is the archive of the files; when all values fit their fields, reading it gives back the files |
| Batch.Fetched | extension/background.js:205-212 | the files kept are at most one per id |
| Batch.Encoded | extension/background.js:319 | the encoded member name has one byte per ASCII character |
| Batch.ZipFiles | extension/background.js:345-346 | one archive file per kept file |
| Batch.BatchFileName | extension/background.js:230-243 | the archive's name always ends in `.zip` |
| Batch.DownloadMultipleTemplates | extension/background.js:196-266 | throws "No item IDs provided" on no ids; keeps successes only; counts every id; throws "No templates could be fetched" when none succeeded; otherwise zips the kept files under the chosen name, reports completion or the download error, and the zip reads back as the files |
| Batch.FetchAll | extension/background.js:205-222 | the loop keeps the fetched files, counts every id and sends one progress message per id |
| Batch.LoopStep | extension/background.js:205-222 | one turn keeps one file or none and sends that turn's messages |
| Batch.FetchedAppend | extension/background.js:205-212 | keeping is a filter: it keeps input order |
| Batch.FetchedOne | extension/background.js:206-208 | an id keeps its file, named `<id>_threadline.png`, exactly when its fetch succeeded |
| Batch.FetchedEmptyIff | extension/background.js:224 | no file is kept exactly when every fetch failed |
| Batch.Counts | extension/background.js:213-221 | the progress messages 1/n … n/n |
| Batch.FetchErrors | extension/background.js:211 | the fetch-error message for each id |
| Batch.ProgressCounts | extension/background.js:213-221 | every id is counted, failed or not: the progress messages count 1 to n in order |
| Batch.ErrorsNameFailures | extension/background.js:209-212 | the error messages name exactly the failed ids, in order |
| Batch.CommunityFileName | extension/background.js:241-243 | with a community id the name is `threadline_`, the id left-padded with '0' to 8, `_page`, the page number or 1, `.zip` |
| Batch.CommunityPieces | extension/background.js:242 | where the pieces of the community name sit |
| Batch.TimeFileName | extension/background.js:230 | without a community id the name is `threadline_templates_`, the timestamp, `.zip` |
| Identifier.DrawChar | extension/background.js:171-177 | a letter draw gives an upper-case letter, a digit draw a digit |
| Identifier.Chars | extension/background.js:185-192 | the drawn characters in draw order |
| Identifier.GenerateIdentifier | extension/background.js:170-193 | the result has the shape X0-0X-X0-X0-0X-000000 |
| Identifier.ReadDraws | extension/background.js:170-193 | an identifier holds sixteen draws |
| Identifier.JoinGroups | extension/background.js:185-192 | the six groups joined with '-' spell the characters |
| Identifier.GroupsLayout | extension/background.js:184-192 | 21 characters, '-' at 2, 5, 8, 11 and 14, and each draw at its position |
| Identifier.ReadGenerated | extension/background.js:170-193 | the draws can be read back from the identifier: distinct draws give distinct identifiers |
| Identifier.GeneratedRead | extension/background.js:170-193 | every string of that shape is generated by the draws read from it |
| CatalogIds.ExtractItemIdSpec | extension/content.js:363-367 | null exactly when no `/catalog/` is followed by a digit; otherwise the whole digit run after the first such `/catalog/` |
| CatalogIds.Take | extension/content.js:253 | the first `n` elements, or all |
| CatalogIds.CollectIds | extension/content.js:248-254 | the ids are the first 24 ids found, in anchor order |
| CatalogIds.MatchedStep | extension/content.js:250-252 | one more anchor adds its id, if it has one |
| CatalogIds.MatchedIdsPrefix | extension/content.js:253 | stopping early yields a prefix of all ids |
| CatalogIds.ExtractedContains | extension/content.js:363-367 | an id is found only in an href that contains `/catalog/` |
| CatalogIds.FilterKeepsIds | extension/content.js:248 | the `/catalog/` filter drops no anchor with an id |
| CatalogIds.MatchedIdsDigits | extension/content.js:250-252 | every collected id is a non-empty digit run |
| CatalogIds.CommunityId | extension/content.js:262-264 | the digits after the first `/communities/<digits>`, or 'unknown' exactly when there is none |
| CatalogIds.FirstPageSpan | extension/content.js:268 | `find`: the first span whose trimmed text starts with "Page" |
| CatalogIds.SkipSpaces | extension/content.js:270 | `\s*`: the first non-space at or after `j` |
| CatalogIds.FindPage | extension/content.js:270 | the leftmost case-insensitive "page" followed by digits |
| CatalogIds.FindLeftmost | extension/content.js:270 | the leftmost match is the one found |
| CatalogIds.PageNumberMatch | extension/content.js:266-272 | when the first "Page" span matches, the page number is the value of the digits after the leftmost match |
| AdTiles.IndexOf | extension/content.js:64 | the position of the first occurrence of a child |
| AdTiles.AdsOf | extension/content.js:28 | the ad tiles of the grid, each in the grid, and every ad included |
| AdTiles.Spread | extension/content.js:34-65 | tiles at indices 3, 7, 11, … below a bound replaced by new ads, the rest unchanged |
| AdTiles.Grid.constructor | extension/content.js:19 | a grid with the given children |
| AdTiles.Grid.Remove | extension/content.js:30 | `el.remove()` takes that child out |
| AdTiles.Grid.ReplaceChild | extension/content.js:64 | replaces the child in place when it is there, otherwise changes nothing and reports the throw |
| AdTiles.Grid.RemoveAds | extension/content.js:28-31 | leaves the grid without its ad tiles |
| AdTiles.Grid.ReplaceEveryFourth | extension/content.js:34-65 | the loop over indices 3, 7, 11, … of the snapshot |
| AdTiles.InjectThreadlineAdTiles | extension/content.js:5-66 | no change for premium users, fewer than two grids or an empty grid; otherwise the steps as written |
| AdTiles.InjectAdTilesCorrected | extension/content.js:5-66 | the same steps with the snapshot taken after the old ads are removed |
| AdTiles.WithoutStep | extension/content.js:30 | removing one more listed tile |
| AdTiles.RemoveNext | extension/content.js:30 | the `forEach` removal step |
| AdTiles.WithoutNone | extension/content.js:29 | removing nothing leaves the grid |
| AdTiles.WithoutAppend | extension/content.js:30 | removing distributes over the grid's parts |
| AdTiles.WithoutAllAds | extension/content.js:28-31 | removing every ad tile leaves the game tiles |
| AdTiles.ReplacesEveryFourth | extension/content.js:22-65 | on distinct game tiles, exactly the tiles at indices 3, 7, 11, … are replaced in place; all others stay where they were |
| AdTiles.AllGames | extension/content.js:28-31 | a grid without ads loses nothing |
| AdTiles.ReplaceGames | extension/content.js:34-65 | the loop from index `i` on over game tiles |
| AdTiles.ThrowsOnEarlierAd | extension/content.js:22-64 | an earlier ad in the snapshot at a visited index makes the run throw |
| AdTiles.WithoutAdsGames | extension/content.js:28-31 | after the removal only game tiles remain |
| AdTiles.ThrowsFrom | extension/content.js:34-64 | the loop reaching a removed ad throws |
| AdTiles.SecondRunThrows | extension/content.js:22-64 | a grid with an earlier ad at index 3 throws and is left with no ad |
| AdTiles.CorrectedReplacesEveryFourth | extension/content.js:28-65 | with the later snapshot, the ads sit at indices 3, 7, 11, … of the ad-free grid |
| AdTiles.DistinctWithoutAds | extension/content.js:28-31 | removing ads keeps the tiles distinct |
| PageControls.Page.constructor | extension/content.js:205-228 | a button, enabled and idle, nothing stored or sent |
| PageControls.Page.OnClick | extension/content.js:246-294 | no ids: an alert and no message; otherwise progress 0/n, the community and page stored, and one request with the ids |
| PageControls.Page.OnResponse | extension/content.js:279-292 | the reply to the request: a runtime error or a failure re-enables the button, a failure also alerts |
| PageControls.Page.OnMessage | extension/content.js:336-361 | progress disables the button and shows current/total; complete and error re-enable it; error alerts |
| PageControls.Delivered | extension/content.js:336-340 | the messages that reach the tab are at most those sent |
| PageControls.AfterMessagesButton | extension/content.js:338-339 | the listener never creates or removes the button |
| PageControls.ProgressRun | extension/content.js:341-349 | the messages 1/total … k/total |
| PageControls.LoopDelivered | extension/background.js:205-222 | the batch loop's messages that reach the tab are the progress messages 1/n … n/n |
| PageControls.DeliveredAppend | extension/content.js:336 | delivery distributes over message runs |
| PageControls.StepDelivered | extension/background.js:209-220 | each turn delivers exactly its progress message to the tab |
| PageControls.LoopShowsCount | extension/content.js:341-349 | after the loop the button is disabled and shows n/n, with no alert |
| PageControls.ProgressEnd | extension/content.js:341-349 | after progress messages the button is disabled and shows the last count |
| PageControls.BatchLeavesButtonEnabled | extension/content.js:279-292 | whatever the batch does, its messages and its reply leave the button enabled and idle |
| PageControls.CompleteLast | extension/content.js:350-354 | a completion message last leaves the button enabled and idle |
| PageControls.UnknownCommunityName | extension/background.js:241-243 | a page without a community id names the archive `threadline_0unknown_page<N>.zip` |
| PageControls.PadUnknown | extension/background.js:242 | 'unknown' padded to 8 is '0unknown' |
| PageControls.InitPagerRateLimit | extension/content.js:486-543 | a null pager is left alone; otherwise the guard, the flag and the handlers, as `Init` |
| PageControls.InitIdempotent | extension/content.js:491-492 | with a dataset, however often it runs, the handlers are attached once |
| PageControls.InitWithoutDataset | extension/content.js:491-543 | without a dataset every call attaches the handlers again |
| Converter.AllowedOrigin | converter-server/index.js:13 | the configured origin, or the default when unset |
| Converter.CorsHeaders | converter-server/index.js:16-21 | exactly the four CORS headers, with the allowed origin |
| Converter.PreflightFirst | converter-server/index.js:22-24 | OPTIONS is answered 204 with the CORS headers on any path |
| Converter.ConvertOnlyValid | converter-server/index.js:36-39 | a conversion starts exactly for GET with an 11-character id over [A-Za-z0-9_-]; other ids get 400 |
| Converter.DownloadHeadersSet | converter-server/index.js:44-51 | a valid id sets `audio/mpeg`, the attachment name and origin `*`; HEAD ends 200 with nothing spawned |
| Converter.CloseActions | converter-server/index.js:104-135 | client close kills yt-dlp, destroys the ytdl-core stream and kills the transcoder exactly for the sources started |
| Converter.Conversion.constructor | converter-server/index.js:56-97 | no source, not started, headers unsent |
| Converter.Conversion.TryFallback | converter-server/index.js:124-140 | only while no source is chosen; ytdl-core starts, or 502 when headers are unsent |
| Converter.Conversion.OnSpawnThrew | converter-server/index.js:118-121 | a synchronous spawn failure falls back |
| Converter.Conversion.OnReadable | converter-server/index.js:98-108 | the first readable event starts yt-dlp and its transcoder |
| Converter.Conversion.OnYtdlpClose | converter-server/index.js:111-117 | yt-dlp closing without output falls back |
| Converter.Conversion.OnTranscoderData | converter-server/index.js:79 | output sends the headers |
| Converter.Conversion.OnTranscoderError | converter-server/index.js:67-75 | 500 'Conversion failed' while headers are unsent; otherwise the response is only ended |
| Converter.Conversion.OnClientClose | converter-server/index.js:104-135 | every registered close handler runs |
| Converter.CloseStopsSource | converter-server/index.js:104-135 | the close kills exactly the active source, and nothing before a source was chosen |
| Proxy.VideoParam | api/download.js:9-11 | no video id exactly when the key is absent or its one value is empty; one value is itself; a repeated key gives the values joined by ',' |
| Proxy.TargetCarriesVideo | api/download.js:28 | the encoded id adds no `&`, `=`, `#` or `+` to the query, and distinct ids give distinct target paths |
| Proxy.FetchMethod | api/download.js:37 | the request's method, or GET |
| Proxy.RequestHeaders | api/download.js:37-40 | only user-agent and accept are forwarded, each exactly when set |
| Proxy.StatusOf | api/download.js:55 | the upstream status, or 502 when it is falsy |
| Proxy.FilterHeaders | api/download.js:58-62 | every upstream header except transfer-encoding, content-encoding and content-length, in order |
| Proxy.AsWrittenNeverRelays | api/download.js:5-34 | as written, any request with a video id and a configured converter gets 500 and nothing goes upstream |
| Proxy.RejectedLocally | api/download.js:10-34 | no upstream call exactly when the id or the converter is missing or the target cannot be built; 400 and 502 |
| Proxy.RelaysUpstream | api/download.js:28-97 | the upstream call goes to `/download?videoId=` + `encodeURIComponent(id)` on CONVERTER_URL with the method and the forwarded headers; 504 on abort, 502 on other errors; the status, the filtered headers, and the body bytes equal to the concatenated chunks |
| Proxy.FilterStep | api/download.js:58-62 | one more header is copied exactly when not excluded |
| Proxy.ServerResponse.constructor | api/download.js:7 | a fresh response |
| Proxy.ServerResponse.SetHeader | api/download.js:61 | appends one header |
| Proxy.ServerResponse.Write | api/download.js:86 | appends the chunk's bytes |
| Proxy.ServerResponse.End | api/download.js:76-88 | ends the response |
| Proxy.CopyHeaders | api/download.js:58-62 | the header loop sets exactly the filtered headers |
| Proxy.Relay | api/download.js:81-87 | the bytes written are the concatenation of the chunks read |
| Proxy.Serve | api/download.js:7-99 | the handler with the target URL built, as `Plan`: the upstream request it returns names the converter base and the encoded video id |
| Proxy.RelayResponse | api/download.js:55-88 | the reply to an upstream response |
| Proxy.ServeAsWritten | api/download.js:5-34 | the handler as written, as `PlanAsWritten` |
| Uri.HexValue | api/download.js:28 | the value of an upper-case hexadecimal digit, which gives the digit back |
| Uri.Utf8 | api/download.js:28 | the one to four UTF-8 bytes of a character, one byte exactly for code points below 0x80 |
| Uri.PercentBytes | api/download.js:28 | three characters per byte, each `%` or a hexadecimal digit |
| Uri.EncodeURIComponent | api/download.js:28 | only unreserved characters and `%` in the result; unchanged exactly when every character is unreserved, longer otherwise |
| Uri.Utf8Char | api/download.js:28 | a character's UTF-8 bytes announce their length and carry its code point |
| Uri.DecodePercentBytes | api/download.js:28 | percent-decoding reads escaped bytes back |
| Uri.DecodeEncoded | api/download.js:28 | percent-decoding `encodeURIComponent(s)` gives the UTF-8 bytes of `s` |
| Uri.DecodeUtf8Of | api/download.js:28 | UTF-8 decoding those bytes gives the code points of `s` |
| Uri.EncodeDecode | api/download.js:28 | decoding undoes `encodeURIComponent` |
| Uri.EncodeInjective | api/download.js:28 | distinct strings are encoded apart |
| UrlUtils.ValidateClothingId | public/api/template/src/utils.py:9-20 | only digits remain, no more than the input has |
| UrlUtils.ValidateIdempotent | public/api/template/src/utils.py:19-20 | validating twice is validating once; "" exactly when the input has no digit |
| UrlUtils.ValidateAppend | public/api/template/src/utils.py:19 | the digits of `a + b` are those of `a` then those of `b` |
| UrlUtils.ExtractIdAndTypeSpec | public/api/template/src/utils.py:23-50 | a result exactly when a prefix with a digit starts the input; the maximal digit run and the kind; communities first |
| UrlUtils.MatchShape | public/api/template/src/utils.py:41-48 | the match is the prefix and a maximal digit run |
| UrlUtils.PrefixesExclusive | public/api/template/src/utils.py:40-48 | both forms cannot match one input |
| UrlUtils.GroupRoundTrip | public/api/template/src/utils.py:40-42 | a community URL gives back its id, whatever follows a non-digit |
| UrlUtils.CatalogRoundTrip | public/api/template/src/utils.py:44-48 | a catalog URL gives back its id, whatever follows a non-digit |
| UrlUtils.ExtractedIdValid | public/api/template/src/utils.py:19-48 | an extracted id passes validation unchanged |
| Console.LJust | api/template/src/console_interface.py:77 | `ljust`: the text, then spaces up to the width |
| Console.RFindSpace | api/template/src/console_interface.py:71 | `rfind(" ", 0, end)`: a space before `end`, or -1 |
| Console.RFindSpaceSpec | api/template/src/console_interface.py:71 | -1 exactly when there is no space; otherwise the last one |
| Console.Cut | api/template/src/console_interface.py:71-73 | the cut is at most 76, and at a space when below |
| Console.CutRule | api/template/src/console_interface.py:71-73 | the cut is at the last space before column 76, or at 76 when there is none |
| Console.StripFrom | api/template/src/console_interface.py:81 | `lstrip` starts at the first non-space |
| Console.StripFromSpec | api/template/src/console_interface.py:81 | only whitespace is stripped |
| Console.Resume | api/template/src/console_interface.py:81 | the rest starts past the beginning: the loop makes progress |
| Console.Chunks | api/template/src/console_interface.py:70-85 | at least one line |
| Console.Frames | api/template/src/console_interface.py:74-85 | one frame per piece |
| Console.WrapStep | api/template/src/console_interface.py:70-81 | one round of the loop |
| Console.WrapFits | api/template/src/console_interface.py:83-85 | a message of at most 76 characters is one line |
| Console.ChunksStep | api/template/src/console_interface.py:70-81 | one round of the loop in pieces |
| Console.ChunksReassemble | api/template/src/console_interface.py:77-81 | wrapping loses nothing: the lines with the stripped whitespace are the message |
| Console.ChunksGaps | api/template/src/console_interface.py:81 | only whitespace is dropped between lines |
| Console.ChunksFit | api/template/src/console_interface.py:70-77 | every line text fits in 76 |
| Console.FramesShape | api/template/src/console_interface.py:74-85 | each frame is the frame of its piece |
| Console.FrameShape | api/template/src/console_interface.py:76-84 | a frame is exactly 80 characters: "* ", the text, spaces, " *" |
| Console.WrapLines | api/template/src/console_interface.py:69-87 | at least one line, every line 80 characters framed; a short message is one line |
| Console.JoinLength | api/template/src/console_interface.py:87 | the joined text has one newline between lines |
| Console.WrapLoop | api/template/src/console_interface.py:69-85 | the loop yields the wrapped lines |
| Console.FormatLongMessage | api/template/src/console_interface.py:58-87 | the lines joined with newlines |
| Console.DisplayInformationList | api/template/src/console_interface.py:105-143 | the printed lines: nothing, or borders around the wrapped items |
| Console.InfoListLines | api/template/src/console_interface.py:54-143 | nothing exactly for an empty list; otherwise two borders of 80 '*' around at least one line per item, each 80 characters |
| Console.WrapAllLines | api/template/src/console_interface.py:119-133 | every item gives at least one line of 80 characters |
| Images.Composite | api/template/src/asset_type.py:99 | a layer over an image of the same size keeps the base's size and adds the layer on top |
| Images.AlphaComposite | api/template/src/asset_type.py:124-127 | `alpha_composite` raises exactly when the two images differ in size; otherwise the base's size with the new top layer |
| Images.Resize | api/template/src/asset_type.py:92 | resizing sets the size and keeps the layers |
| Images.CompositeResized | api/template/src/asset_type.py:137-144 | a top layer resized to the base's size never makes the composite raise |
| Images.Lookup | api/template/src/asset_type.py:241 | a registry `get`: found exactly when the key is registered |
| Images.Capitalize | api/template/src/asset_type.py:63 | `capitalize`: first character upper case, the rest lower case |
| Images.OverlayTemplateSpec | api/template/src/asset_type.py:52-75 | a template exactly when the type is set, its capitalised name is a template key and that file exists |
| Images.ClothingTypesHaveTemplates | public/system/template/src/constants.py:34-37 | "shirt" and "pants" find their template files |
| AssetTypes.CreateKindSpec | api/template/src/asset_type.py:211-246 | shirt, pants, and tshirt or graphic in any case; nothing for any other type |
| AssetTypes.SupportedAssetTypes | api/template/src/asset_type.py:249-256 | every listed type creates an asset |
| AssetTypes.SupportedInOrder | api/template/src/asset_type.py:211-256 | the list is [shirt, pants, tshirt, graphic] |
| AssetTypes.TShirtOverlaySize | api/template/src/asset_type.py:84-105 | a t-shirt overlay never raises, exists exactly with an image, is 512×512, and carries the template layer exactly when that file exists |
| AssetTypes.ClothingOverlayRules | api/template/src/asset_type.py:115-151 | a shirt or pants overlay raises exactly when the image and the template differ in size and exists exactly when both are there with the same size; then the image's size with the template layer, and the whitespace layer only at 585×559 |
| AssetTypes.Asset.constructor | api/template/src/asset_type.py:27-39 | the id is the URL's digits; the rest is set exactly when it is not empty |
| AssetTypes.Asset.OverlayImage | api/template/src/asset_type.py:84-151 | returns the overlay, `None` or the composite's raise; shirts and pants store a returned overlay back into the asset image, t-shirts do not, and a raise stores nothing |
| AssetTypes.CreateAsset | api/template/src/asset_type.py:219-246 | an instance of the registered kind, or none; the instance is initialised exactly when the URL has a digit, and then holds its type's template and the image |
| SystemAssetTypes.CreateKindSpec | public/system/template/src/asset_type.py:131-161 | only shirt and pants, in any case; tshirt and graphic give none |
| SystemAssetTypes.SupportedAssetTypes | public/system/template/src/asset_type.py:163-171 | every listed type creates an asset |
| SystemAssetTypes.SupportedInOrder | public/system/template/src/asset_type.py:131-171 | the list is [shirt, pants] |
| SystemAssetTypes.OverlayRules | public/system/template/src/asset_type.py:77-95 | raises exactly when the image and the template differ in size; an overlay exactly when both are there with the same size, then the image's size with the template layer |
| SystemAssetTypes.Asset.constructor | public/system/template/src/asset_type.py:27-39 | the id is the URL's digits; the rest is set exactly when it is not empty |
| SystemAssetTypes.Asset.OverlayImage | public/system/template/src/asset_type.py:77-95 | returns the overlay, `None` or the composite's raise, and changes nothing |
| SystemAssetTypes.CreateAsset | public/system/template/src/asset_type.py:137-161 | an instance of the registered kind with its template and image, or none |
| AssetDownloader.Discover | public/system/template/src/roblox_asset_downloader.py:60-114 | a found asset has exactly the keys "asset id", "content name" and "template id" |
| AssetDownloader.FetchAsset | public/system/template/src/roblox_asset_downloader.py:100-114 | the dict built and rewritten in place is `Discover` |
| AssetDownloader.DiscoverSpec | public/system/template/src/roblox_asset_downloader.py:70-104 | no digits: none; found exactly with text, a content name and a url text; a missing tag raises; the id, digit-only template id and normalised name |
| AssetDownloader.NormaliseNameSpec | public/system/template/src/roblox_asset_downloader.py:108-112 | "PantsTemplate" first, then "ShirtTemplate", else unchanged; idempotent |
| AssetDownloader.TemplateNamesCreateAssets | public/system/template/src/roblox_asset_downloader.py:108-112 | a recognised template name is one the factory accepts |
| AssetDownloader.ImageLocationSpec | public/system/template/src/roblox_asset_downloader.py:116-151 | a truthy location exactly when the response holds one, and then that value; a non-dict response raises |
| AssetDownloader.PipelineSpec | public/system/template/src/roblox_asset_downloader.py:184-217 | no digits raise `ValueError`; ready exactly when every step yields and the image has the template's size, then the overlay is the image with its type's template; a size mismatch raises |
| AssetDownloader.ReadyWhenEveryStepSucceeds | public/system/template/src/roblox_asset_downloader.py:184-217 | the step chain reaches the save once each step has its value and the image has the template's size |
| AssetDownloader.MismatchRaises | public/system/template/src/roblox_asset_downloader.py:184-229 | the same steps with an image whose size differs from the template's raise out of `overlay_image`, and nothing is saved |
| AssetDownloader.SmallShirtRaises | public/system/template/src/roblox_asset_downloader.py:206-217 | a 100×100 shirt image against the 585×559 template raises |
| AssetDownloader.AsWrittenSavesWithoutOverlay | public/system/template/src/roblox_asset_downloader.py:214-220 | as written, the saved file is the downloaded image, not the overlay |
| AssetDownloader.ShirtSavedWithoutTemplate | public/system/template/src/roblox_asset_downloader.py:214-220 | a shirt is saved without its template layer as written, and with it when corrected |
| AssetDownloader.CorrectedSavesOverlay | public/system/template/src/roblox_asset_downloader.py:213-220 | corrected, the saved file is the overlay: the image's size with its template on top |
| AssetDownloader.Downloader.constructor | public/system/template/src/roblox_asset_downloader.py:56-58 | nothing saved, no close attempted |
| AssetDownloader.Downloader.Prepare | public/system/template/src/roblox_asset_downloader.py:184-217 | the steps inside the `try`, as `Pipeline`: a raising composite fails, an image of the template's size is ready |
| AssetDownloader.Downloader.ProcessAsset | public/system/template/src/roblox_asset_downloader.py:173-229 | the outcome of the step chain (a raise for a size mismatch), the files saved as written, and one close attempted whatever happens |
| AssetDownloader.Downloader.ProcessAssetCorrected | public/system/template/src/roblox_asset_downloader.py:173-229 | the same, saving the overlay |
| ApiHandler.BodyJson | public/system/template/src/api_handler.py:169-177 | JSON only for an application/json Content-Type, and None when parsing fails |
| ApiHandler.RetryGivesUp | public/system/template/src/api_handler.py:158-216 | `_get` gives up exactly when none of the first `max_retries` attempts settles |
| ApiHandler.RetryFirstSettling | public/system/template/src/api_handler.py:179-194 | the first settling attempt decides: a 200 with status, headers, text, json and url |
| ApiHandler.WaitsDouble | public/system/template/src/api_handler.py:114-213 | non-200 and network errors wait `RATE_LIMIT_SLEEP·2^attempt`, 429 first waits `RATE_LIMIT_SLEEP^attempt`, timeouts do not wait |
| ApiHandler.NetworkDownWaits | public/system/template/src/api_handler.py:195-216 | a network that is always down waits 1, 2, 4, … and gives up |
| ApiHandler.JsonAnswer | public/system/template/src/api_handler.py:245-249 | `fetch_json`: None when there is no response or its json is falsy |
| ApiHandler.TextAnswer | public/system/template/src/api_handler.py:263-267 | `fetch_text`: None when there is no response or its text is empty |
| ApiHandler.Requested | public/system/template/src/api_handler.py:303-315 | the pages requested stay within the answers |
| ApiHandler.OnlyRequestedPagesMatter | public/system/template/src/api_handler.py:303-315 | answers past the last page requested are never looked at |
| ApiHandler.StopsAtOnce | public/system/template/src/api_handler.py:308-315 | a missing page or a falsy cursor ends pagination |
| ApiHandler.LimitParam | public/system/template/src/api_handler.py:300 | `limit` is sent as the decimal text of the limit; other parameters stay |
| ApiHandler.NextQuery | public/system/template/src/api_handler.py:304-312 | each request carries the previous page's cursor |
| ApiHandler.Sent | public/system/template/src/api_handler.py:303-307 | one parameter map per request |
| ApiHandler.SentSpec | public/system/template/src/api_handler.py:303-307 | request `k` carries the parameters of step `k` |
| ApiHandler.Handler.constructor | public/system/template/src/api_handler.py:70-84 | no session; the user agent, and the cookie exactly when set and non-empty |
| ApiHandler.Handler.GetSession | public/system/template/src/api_handler.py:218-228 | the cached session while it is open, otherwise a new cached one |
| ApiHandler.Handler.Close | public/system/template/src/api_handler.py:320-323 | the session is closed afterwards |
| ApiHandler.Handler.Get | public/system/template/src/api_handler.py:136-216 | the retry loop gives `Retry`'s result and waits |
| ApiHandler.Handler.FetchJson | public/system/template/src/api_handler.py:230-249 | `fetch_json` over `_get`, with an open session |
| ApiHandler.Handler.FetchText | public/system/template/src/api_handler.py:251-267 | `fetch_text` over `_get`, with an open session |
| ApiHandler.Handler.FetchPaginatedData | public/system/template/src/api_handler.py:285-318 | the pages' items in order, one request per page with the parameters of that step |
| GroupHandler.FetchAllClothingIds | api/template/src/group_handler.py:83-89 | None exactly when the catalog is empty |
| GroupHandler.CollectAppend | api/template/src/group_handler.py:87 | ids are collected item by item, in catalog order |
| GroupHandler.CollectOne | api/template/src/group_handler.py:87 | an item with "id" gives `str(id)`, one without gives nothing |
| GroupHandler.NumericIds | api/template/src/group_handler.py:87 | numeric ids give one decimal id per item, in order, each reading back as the number |
| GroupHandler.ExtractedSpec | api/template/src/group_handler.py:51-60 | exactly the keys id, name, owner and memberCount; each value from the group or owner, None when absent |
| GroupHandler.GroupInfoSpec | api/template/src/group_handler.py:46-60 | None exactly for a falsy fetch; a summary exactly for a dict whose owner is absent, falsy or a dict |
| GroupHandler.OwnerlessSummary | api/template/src/group_handler.py:54-58 | without an owner the owner's fields are None |
| GroupHandler.CorrectionOnlyForFalsyOwner | api/template/src/group_handler.py:54-58 | the correction changes only a falsy owner |
| GroupHandler.NullOwnerRaises | api/template/src/group_handler.py:54-58 | as written, a null owner raises; corrected, it gives an ownerless summary |
| Premium.Page | public/system/premium/api/check-premium.js:23-25 | at most the first 100 sessions |
| Premium.AccessCodeField | public/system/premium/api/check-premium.js:37-41 | the first field with the access-code key or label, exactly when there is one |
| Premium.Respond | public/system/premium/api/check-premium.js:7-56 | the CORS headers always; OPTIONS 200 with no body; a missing code 400; premium exactly when the scan grants; 500 exactly when a call throws |
| Premium.ScanStopsAt | public/system/premium/api/check-premium.js:27-50 | the first session not passed over decides, and the paid sessions up to it are retrieved |
| Premium.ScanPassesOver | public/system/premium/api/check-premium.js:27-53 | "not premium" exactly when every session is passed over |
| Premium.UnpaidIgnored | public/system/premium/api/check-premium.js:29 | an unpaid session changes neither the answer nor the retrievals |
| Premium.RetrievalsArePaid | public/system/premium/api/check-premium.js:29-34 | only listed paid sessions are retrieved |
| Premium.FirstFieldOnly | public/system/premium/api/check-premium.js:37-46 | only the first access-code field is compared |
| Premium.NormalisedCodesAgree | public/system/premium/api/check-premium.js:45 | codes equal after trim and lower-case get the same answer |
| Premium.ExamineNormalised | public/system/premium/api/check-premium.js:45 | the scan only sees the trimmed, lower-cased code |
| Premium.ExamineSameCode | public/system/premium/api/check-premium.js:42-46 | one session's verdict only sees the trimmed, lower-cased code |
| Premium.OnlyFirstPageScanned | public/system/premium/api/check-premium.js:23-25 | sessions past the first 100 change nothing |
| Premium.ScanStep | public/system/premium/api/check-premium.js:27-50 | one turn of the loop |
| Premium.Handle | public/system/premium/api/check-premium.js:5-57 | the handler's reply is `Respond` and its calls are `Calls` |
| Text.Digits | public/api/template/src/utils.py:19 | the digits of the input, in order |
| Text.DigitsAppend | public/api/template/src/utils.py:19 | filtering digits distributes over concatenation |
| Text.DigitsOfAllDigits | public/api/template/src/utils.py:19 | a digit string is its own digits |
| Text.DigitsEmptyIff | public/api/template/src/utils.py:20 | empty exactly when the input has no digit |
| Text.DigitRun | extension/content.js:365 | `(\d+)`: the maximal digit run at the start |
| Text.DigitRunExtend | extension/content.js:365 | a non-digit after a run does not change it |
| Text.FindDigitsAfter | extension/content.js:365 | the leftmost position where the literal is followed by a digit |
| Text.SearchDigitsAfterSpec | extension/content.js:365-366 | a match exactly when some occurrence of the literal has a digit after it; then the digit run after the first |
| Text.Lower | public/system/premium/api/check-premium.js:45 | ASCII lower-casing character by character |
| Text.TrimStart | public/system/premium/api/check-premium.js:45 | leading whitespace removed |
| Text.TrimEnd | public/system/premium/api/check-premium.js:45 | trailing whitespace removed |
| Text.Trim | public/system/premium/api/check-premium.js:45 | no whitespace at either end |
| Text.PadStart | extension/background.js:242 | padded on the left to the width, the text at the end |
| Text.NatToString | extension/background.js:242 | decimal text without leading zeros |
| Text.ParseNatToString | extension/content.js:271 | decimal text reads back as the number |
| Json.Get | public/system/template/src/roblox_asset_downloader.py:148 | `d[key]`: found exactly when the key is present, and the stored value |
| Json.GetStep | api/template/src/group_handler.py:52-59 | a lookup checks the first entry, then the rest |
| Json.KeysOf | api/template/src/group_handler.py:51-60 | the keys of a dict or registry, in order, as iterating over it yields them |
| Json.GetUnique | api/template/src/group_handler.py:52-59 | in an object with each key once, as a dict, the lookup finds exactly the value stored under the key |
| Json.PyStrNumber | api/template/src/group_handler.py:87 | `str` of a non-negative number is its decimal text |

## Left out

- api/template/src/api_handler.py is not part of this model. What it returns to `GroupHandler` (the catalog items, the group JSON) is an input.
- The sortOrder "Ascend" of the catalog request is only the constant `GroupHandler.CatalogParams`, because the request itself is made in that file.
- public/system/template/src/constants.py is read only for `CLOTHING_TEMPLATES` and `RATE_LIMIT_SLEEP`; `MAX_RETRIES` is unused by the modelled code.
- **Network and providers.** aiohttp sessions, `fetch`, the payment provider's client and YouTube are inputs: the attempt outcomes, answers, listings and chunks. `fetch_image` is an input too (whether the image arrived), since it is a single request with no logic beyond `None` on failure.
- **Sleeps and timers** are recorded durations, never time. This covers `asyncio.sleep` and the proxy's 30-second abort timer, which is an input flag (`aborted`).
- **Logging and `failed_attempts`.** The `STATUS_MAP` log messages, `failed_attempts` and every `logger` call are left out, because they only feed logs.
- ApiHandler.Handler.Get: requires at least `max_retries` outcomes, one per attempt the loop can make. Fewer cannot describe a real run.
- **Caller-visible mutation.** `fetch_paginated_data` writes `limit` and `cursor` into the caller's `params` dict. The model records the parameters of each request rather than the caller's dict after the call.
- ApiHandler.Handler.FetchPaginatedData: an answer sequence too short for the pages requested ends as `Unfinished`. That is a modelling artefact, not a source behaviour.
- **Pixels.** Pixel values, blending, resampling and mode conversion in PIL, `OffscreenCanvas` and `createImageBitmap` are left out. An image is its size and layers, and a file's presence is a key in the asset map. The one size rule that decides an outcome, `alpha_composite` raising on images of different sizes, is modelled (`Images.AlphaComposite`).
- **HTML parsing.** BeautifulSoup parsing in `fetch_asset` is left out. The `<content name>` and `<url>` text are inputs.
- **The DOM.**
  - Button styling, nav insertion and the MutationObserver are left out.
  - The pager's click rate limiting is left out; only its init flag and handler count are modelled.
  - `createContainerAndButton`'s placement of the button is left out.
- **The ad injection's `catch` branch** (extension/content.js:67-121) repeats the steps without the premium check. It is `AdTiles.InjectThreadlineAdTiles` with `premium` false.
- **Other background code.** The single-template `downloadTemplate`, `downloadTemplateToBlob`'s image processing, `checkPremium`, the premium image helpers and `blobToDataUrl` are left out. They are canvas and storage work; a template fetch is an input result.
- extension/popup.js is UI only, and its `extractItemId` duplicates the content script's.
- **Processes and streams in the converter.** Spawning, piping and ffmpeg are events on `Converter.Conversion`. Whether `proc.kill` exists is an input. Node also emits 'readable' at end of stream, so yt-dlp exiting without output may still select yt-dlp; the model takes events in any order the caller gives.
- **Console plumbing.** `_draw_centered_message`, `display_program_name`, `display_output`, `clear_screen` and `get_input` are terminal I/O.
- **Unicode.** Strings are ASCII, except in `Uri.EncodeURIComponent`, which writes the UTF-8 bytes of any character. `TextEncoder` is one byte per character, `\d` and `\s` are ASCII, and `toLowerCase`, `lower`, `trim` and `capitalize` act on ASCII. Python `repr` escapes only characters below 256.
- **Floats.** JSON numbers are integers.
- ZipWriter.BuildZipFromFiles: the read-back holds only when the count is below 65536 and the names, CRCs and sizes fit their 16- and 32-bit fields (`Fits`). Above that the DataView setters truncate, as `Bytes.ValueLE` states, and the archive does not describe its contents.
- Identifier.GenerateIdentifier: `Math.random` is replaced by draws given as input, so uniformity is not modelled.
- Batch.DownloadMultipleTemplates: the clock (`Date.now`), the stored naming and the download API's failure are inputs.
- Proxy.RelaysUpstream: how `new URL` resolves the path against CONVERTER_URL (dropping the base's own path, rejecting a malformed base) is not modelled. The target is the base and the path, and whether it resolves is an input.
- Json.Get: a `JObj` may hold a key twice, and `Get` then returns the first value where `json.loads` keeps the last. The model's objects stand for dicts, whose keys are unique (`Json.GetUnique`).
- Premium.Page: the provider's list call is modelled as returning the first 100 sessions of the account.

## Findings

| source | as written | input that shows it | evidently intended | confidence | as-written member | corrected member |
|---|---|---|---|---|---|---|
| extension/content.js:22-64 | the tile snapshot is taken before earlier ad tiles are removed, so `replaceChild` on a removed ad throws | a grid `[g0, g1, g2, ad]` with the ad left by an earlier run | remove old ads, then replace every fourth tile of what remains | not executed | AdTiles.SecondRunThrows | AdTiles.CorrectedReplacesEveryFourth |
| api/download.js:5-28 | `URL` is the `url` module, so `new URL(...)` throws and every request lands in the 500 branch | any request with a video id and `CONVERTER_URL` set | build the target from the global `URL` and relay the converter's answer | not executed | Proxy.AsWrittenNeverRelays | Proxy.RelaysUpstream |
| public/system/template/src/roblox_asset_downloader.py:214-220 | `overlay_image` returns the composite without storing it, and `save_asset_image` saves the raw image | shirt "123" with a 585×559 image and the shirt template present | save the image with the template overlaid | not executed | AssetDownloader.ShirtSavedWithoutTemplate | AssetDownloader.CorrectedSavesOverlay |
| api/template/src/group_handler.py:54-58 | `.get("owner", {})` returns `None` for `"owner": null`, and `.get` on it raises `AttributeError`, which `except KeyError` does not catch | `{"id": 7, "owner": null}` | a summary with the owner's fields None | not executed | GroupHandler.NullOwnerRaises | GroupHandler.GroupInfoSpec |
