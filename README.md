# Bird-media gateway, table-store tools and media processing — a Dafny model

This project models the sequential core of a small bird-media service
deployed as cloud functions:

- **Gateway handlers.** The HTTP-trigger query handler checks
  `minimum_should_match`, applies defaults and runs a multi-tag search.
  The delete handler checks its fields, strips the `oss://fit5225-a3/`
  prefix, deletes the table row and then the two objects. The upload handler
  checks its fields and stores the decoded content under `raw/<file_name>`.
  The three handlers share one front (JSON event, `body`, optional base64
  body), modelled once in `HttpTrigger`.
- **Search-result flattening and the search filter** (`simplify_rows`,
  `multi_condition_query`). The filter is a reference predicate over flat
  records. The search engine is an oracle that is only assumed to honour
  the request.
- **Table-store record tools**: `create_media_record` (a put with IGNORE),
  `delete_media_record` (a delete with EXPECT_EXIST) and
  `get_record_by_file_id` (response normalisation and column merge). They
  work over a `Store` class whose state is a map from table name to a map
  from primary key to attribute columns.
- **The audio trigger**. It dispatches over the three event shapes, keeps
  audio keys only, posts each one to the audio service and builds one
  result entry per posted file.
- **The audio processor**: its settings, the parsing of the BirdNET CSV
  report, species tag aggregation (`format_bird_tags`), the thumbnail key,
  the object key taken from a URL, and the `file_id` and timestamp.
- **The image pipeline**. The image handler extension-checks an object
  event and downloads the object. It calls the detector, cleans and pads the
  returned base64 thumbnail, and writes the thumbnail object and the media
  row. The detector route (`detect_bird`) filters by confidence and counts
  tags by class name.

External services are values the caller supplies:

- the JSON and text codecs;
- the audio service, the detector endpoint and the search engine;
- the vision model with its image codec;
- the object store, the table store and the local disk (as classes).

The clock and the UUID are parameters. Base64 (section 4 of RFC 4648) is
modelled in full, with two decoders:

- the strict decoder (`validate=True`);
- the lenient one that `base64.b64decode` uses by default, which skips
  characters outside the alphabet.

The lenient decoder is proved to agree with the encoder.

Modules:
- `Wrappers`: Option and Result.
- `Text`: Python string helpers.
- `JsonValue`: dynamic values with Python's `in`, indexing and truthiness.
- `Base64`, `Urls`, `Tally`.
- `TableStore`, `MediaRecords`, `ObjectStore`, `MultiTagQuery`.
- The handlers: `HttpTrigger`, `QueryHandler`, `DeleteHandler`,
  `UploadHandler`, `AudioTrigger`, `ImageHandler`.
- `AudioProcessing` and `Detector`.

## Model

| member | source | states |
|---|---|---|
| MultiTagQuery.Simplified | gateway_and_query/fc_query_handler/multi_tag_query.py:5-17 | one flat record per input row, in input order, each the flattening of its row |
| MultiTagQuery.SimplifyRows | gateway_and_query/fc_query_handler/multi_tag_query.py:5-17 | the nested loops build exactly the row-by-row flattening |
| TableStore.FlattenRow | gateway_and_query/fc_query_handler/multi_tag_query.py:8-16 | the two loops over primary key and attribute columns give the merged record |
| TableStore.Assign | gateway_and_query/fc_query_handler/multi_tag_query.py:10-15 | `record[k] = v` for each pair in order |
| TableStore.Flatten | gateway_and_query/fc_query_handler/multi_tag_query.py:8-16 | the flat record: primary-key columns, then attributes without timestamps |
| TableStore.AssignKeys | gateway_and_query/fc_query_handler/multi_tag_query.py:10-15 | the record's names are the prior names plus every name written |
| TableStore.AssignLastWins | gateway_and_query/fc_query_handler/multi_tag_query.py:10-15 | a name takes the value of its last write |
| TableStore.AssignUntouched | gateway_and_query/fc_query_handler/multi_tag_query.py:10-15 | a name never written keeps its earlier presence and value |
| TableStore.FlattenKeys | gateway_and_query/fc_query_handler/multi_tag_query.py:10-15 | the flat record holds exactly the primary-key names and attribute names |
| TableStore.FlattenKeepsKey | gateway_and_query/fc_query_handler/multi_tag_query.py:10-11 | a primary-key column not overwritten later appears with its own value |
| TableStore.FlattenAttributeWins | gateway_and_query/fc_query_handler/multi_tag_query.py:11-15 | an attribute (its last occurrence) wins over a primary-key column of the same name |
| TableStore.FlattenIgnoresTimestamps | gateway_and_query/fc_query_handler/multi_tag_query.py:13-15 | rows differing only in column timestamps flatten to the same record |
| MultiTagQuery.Terms | gateway_and_query/fc_query_handler/multi_tag_query.py:53-56 | a None species list behaves as the empty list |
| MultiTagQuery.Request | gateway_and_query/fc_query_handler/multi_tag_query.py:57-81 | the request carries the count bounds, exclusions, inclusions and minimum_should_match, sorted ascending on count, limit 100, with the total count requested |
| MultiTagQuery.MatchesWanted | gateway_and_query/fc_query_handler/multi_tag_query.py:57-70 | when minimum_should_match is at most 1, the boolean query keeps a record iff its count is within both inclusive bounds, its species is in no exclusion, and (with inclusions present and a positive minimum) its species is included |
| MultiTagQuery.IncludeTermsActAsSet | gateway_and_query/fc_query_handler/multi_tag_query.py:66-68 | duplicate inclusion terms do not change which records match |
| MultiTagQuery.MoreThanOneMatchKeepsNothing | gateway_and_query/fc_query_handler/multi_tag_query.py:66-69 | with distinct inclusion terms, a minimum above 1 matches no record, since a record has one species |
| MultiTagQuery.QueryResultProperties | gateway_and_query/fc_query_handler/multi_tag_query.py:57-90 | when the engine honours the request, the simplified output has at most 100 records, each with its count within the inclusive bounds, a species not excluded, and (with include terms and a positive minimum) a species among the include terms, in ascending count order |
| MultiTagQuery.IncludedSpecies | gateway_and_query/fc_query_handler/multi_tag_query.py:66-69 | a record the should clauses admit, with at least one required, has one of the include species |
| MultiTagQuery.MultiConditionQuery | gateway_and_query/fc_query_handler/multi_tag_query.py:19-90 | None species lists become [], the bool query is sent, and the rows come back raw or simplified; a non-iterable species list raises |
| MultiTagQuery.Matches | gateway_and_query/fc_query_handler/multi_tag_query.py:57-70 | the bool query itself: both count ranges, one must-not term clause per excluded species, and the should clauses with their minimum |
| MultiTagQuery.Wanted | gateway_and_query/fc_query_handler/multi_tag_query.py:39-43 | the filter the parameters describe: closed count range, species not excluded, species included when include terms are given |
| MultiTagQuery.Honours | gateway_and_query/fc_query_handler/multi_tag_query.py:72-81 | what an engine that carries out the request returns: at most the limit, every row matching, sorted by count in the requested direction |
| MultiTagQuery.RowsJson | gateway_and_query/fc_query_handler/multi_tag_query.py:85-90 | the JSON output is a list with one entry per returned row, raw or simplified |
| MultiTagQuery.RecordJson | gateway_and_query/fc_query_handler/index.py:38 | a flat record dumps as an object with the same names, each value converted |
| MultiTagQuery.ToJson | gateway_and_query/fc_query_handler/index.py:38 | a table value dumps as null exactly when it is None |
| HttpTrigger.ReadRequest | gateway_and_query/fc_query_handler/index.py:10-22 | a non-JSON event and an event without body end with the matching error string (not an HTTP response) |
| HttpTrigger.PlainBody | gateway_and_query/fc_query_handler/index.py:19-22 | without the base64 flag the body text is parsed as JSON |
| HttpTrigger.Base64Body | gateway_and_query/fc_query_handler/index.py:20-22 | with the flag set, a base64 body is decoded, read as UTF-8 and then parsed |
| QueryHandler.NoBodyNoSearch | gateway_and_query/fc_query_handler/index.py:10-18 | a non-JSON event or one without body gets a string answer and issues no search |
| QueryHandler.AboveOneRejected | gateway_and_query/fc_query_handler/index.py:23-29 | minimum_should_match above 1 gives 400 with the fixed message and no search |
| QueryHandler.AtMostOnePasses | gateway_and_query/fc_query_handler/index.py:23-37 | for any body, an integer minimum_should_match of at most 1 (0 and negatives included) passes the check and is the minimum the issued search carries |
| QueryHandler.Defaults | gateway_and_query/fc_query_handler/index.py:31-37 | for any body that passes the check, each field left out takes its default in the issued search: species [] and species_not [], count_min 1, count_max 2e9, minimum 1 |
| QueryHandler.ParamDefaults | gateway_and_query/fc_query_handler/index.py:32-36 | each parameter read with `.get` takes its default when the field is absent |
| QueryHandler.EmptyBodyDefaults | gateway_and_query/fc_query_handler/index.py:31-37 | the empty body issues exactly the all-defaults search |
| QueryHandler.UnreadableNumberRaises | gateway_and_query/fc_query_handler/index.py:34-36 | a count or minimum that int() cannot read makes the handler raise before any search |
| QueryHandler.RequestCarries | gateway_and_query/fc_query_handler/index.py:31-37 | the search is issued iff both term lists can be iterated, and then carries the read bounds, minimum and terms |
| QueryHandler.SearchIssued | gateway_and_query/fc_query_handler/index.py:23-37 | once the check passes and the parameters are read, the issued search is the one built from them |
| QueryHandler.MsmAboveOne | gateway_and_query/fc_query_handler/index.py:23 | `"minimum_should_match" in body and body[...] > 1`, with the TypeError cases of `in` and `>` |
| QueryHandler.ReadParams | gateway_and_query/fc_query_handler/index.py:32-36 | the five parameters read with `.get` and their defaults, the three numbers through int() |
| QueryHandler.Handle | gateway_and_query/fc_query_handler/index.py:6-45 | the handler as a whole: each answer it gives and the search it issues on the way |
| QueryHandler.SuccessBody | gateway_and_query/fc_query_handler/index.py:38-45 | a successful search answers 200 with the JSON list of the simplified rows, at most 100 when the engine honours the limit |
| TableStore.CheckRequest | table_store_tools/create_record.py:43-47 | a table request is accepted iff the table exists, the key is a well-formed (file_id, timestamp) key and the row-existence condition holds |
| TableStore.Stamp | table_store_tools/create_record.py:43-47 | written columns keep names, values and order, all stamped with the write time |
| TableStore.Pairs | gateway_and_query/fc_delete_handler/tool.py:91-92 | dropping timestamps keeps each column's name and value in order |
| TableStore.PairsStamp | table_store_tools/create_record.py:43-47 | dropping the timestamps of stamped columns gives back the written pairs |
| TableStore.Lookup | gateway_and_query/fc_delete_handler/tool.py:70 | a read fails exactly when the request is rejected; otherwise it answers the stored row iff the key is present |
| TableStore.Put | table_store_tools/create_record.py:43-47 | put_row replaces the whole row under the key with the stamped columns |
| TableStore.Delete | table_store_tools/delete_record.py:11-19 | delete_row removes the row under the key |
| TableStore.PutThenLookup | table_store_tools/create_record.py:44-47 | after a put, the key reads back the written row (overwriting any earlier one) and every other key reads as before |
| TableStore.PutKeepsOthers | table_store_tools/create_record.py:44-47 | a put leaves every other table and key unchanged |
| TableStore.DeleteThenLookup | table_store_tools/delete_record.py:16-20 | after a delete, the key reads as absent and every other key reads as before |
| TableStore.DeleteKeepsOthers | table_store_tools/delete_record.py:19 | a delete leaves every other table and key unchanged |
| TableStore.Store.constructor | table_store_tools/create_record.py:25 | the store starts with the given tables and response shape |
| TableStore.Store.PutRow | table_store_tools/create_record.py:47 | on acceptance the tables become the put; on rejection they are unchanged and the error is returned |
| TableStore.Store.DeleteRow | table_store_tools/delete_record.py:19 | on acceptance the row is removed; on rejection (an absent key under EXPECT_EXIST) nothing changes |
| TableStore.Store.GetRow | gateway_and_query/fc_delete_handler/tool.py:70-78 | a read returns the looked-up row in either the tuple shape or the bare shape |
| MediaRecords.RecordKey | table_store_tools/create_record.py:27-30 | the primary key is exactly [(file_id, …), (timestamp, …)] in that order |
| MediaRecords.MediaColumns | table_store_tools/create_record.py:32-41 | six attribute columns oss_url, file_type, tags, user_id, species, count (species and count even when None), then thumbnail_url only when truthy |
| MediaRecords.CreateMediaRecord | table_store_tools/create_record.py:4-50 | an accepted put under IGNORE overwrites that row and returns True; a rejected one changes nothing and returns the wrapped error |
| MediaRecords.DeleteMediaRecord | table_store_tools/delete_record.py:4-22 | with EXPECT_EXIST an absent key raises the wrapped error and leaves the table unchanged; otherwise exactly that row goes and True is returned (identical to fc_delete_handler/tool.py:26-44) |
| MediaRecords.GetRecordByFileId | gateway_and_query/fc_delete_handler/tool.py:47-100 | the method reads the store once and returns the specified record lookup |
| MediaRecords.QueryKey | gateway_and_query/fc_delete_handler/tool.py:61-66 | [file_id, timestamp], with a falsy timestamp sent as None |
| MediaRecords.RecordByFileId | gateway_and_query/fc_delete_handler/tool.py:59-100 | the lookup's result: the store's error wrapped, None without a row or primary key, else the flattened row |
| MediaRecords.FlattenCreatedRow | gateway_and_query/fc_delete_handler/tool.py:86-92 | merging a created row gives file_id, timestamp and the written fields |
| MediaRecords.CreateThenGet | table_store_tools/demo.py:19-43 | after a create, reading by the exact (file_id, timestamp) returns the written fields |
| MediaRecords.DeleteThenGet | gateway_and_query/fc_delete_handler/tool.py:81-83 | after a delete, reading that key returns None |
| MediaRecords.OthersUntouched | table_store_tools/delete_record.py:19 | creates and deletes leave the records under other keys as they were |
| MediaRecords.FalsyTimestampRaises | gateway_and_query/fc_delete_handler/tool.py:62-66 | a falsy timestamp becomes None, which the store rejects, so the read raises the wrapped query error |
| MediaRecords.FoundRecordHasKey | gateway_and_query/fc_delete_handler/tool.py:86-89 | a found record carries the queried file_id and timestamp |
| ObjectStore.GetOssConfig | gateway_and_query/fc_delete_handler/tool.py:103-115 | the configuration is built iff all four settings are present and non-empty, otherwise "OSS config incomplete" |
| ObjectStore.Bucket.constructor | gateway_and_query/fc_delete_handler/tool.py:112-113 | the bucket starts with the given objects |
| ObjectStore.Bucket.GetObject | functions/image-processing/index.py:99-103 | a present key yields its bytes; an absent one yields NoSuchKey |
| ObjectStore.Bucket.PutObject | gateway_and_query/fc_upload_handler/index.py:49 | the key is set to the data and nothing else changes |
| ObjectStore.Bucket.DeleteObject | gateway_and_query/fc_delete_handler/index.py:57-58 | the key is removed and nothing else changes |
| DeleteHandler.StripPrefix | gateway_and_query/fc_delete_handler/index.py:39-40 | a URL starting with the bucket prefix loses exactly that prefix; any other value is unchanged |
| DeleteHandler.StripPrefixOnce | gateway_and_query/fc_delete_handler/index.py:48-49 | the prefix is stripped once, not repeatedly |
| DeleteHandler.FromJson | gateway_and_query/fc_delete_handler/index.py:52-56 | a request value converts to a table value that dumps back to it |
| DeleteHandler.HandleDelete | gateway_and_query/fc_delete_handler/index.py:16-73 | early answers change nothing; a rejected row delete gives 500 and changes nothing; otherwise the row and then both objects are removed and the answer is 200 "delete success" |
| DeleteHandler.PlanDelete | gateway_and_query/fc_delete_handler/index.py:12-49 | the checks before anything is deleted: the shared front, the configuration, oss_url and thumbnail_url with 404s, the prefix stripped |
| DeleteHandler.PlanRemoval | gateway_and_query/fc_delete_handler/index.py:51-56 | the keyword arguments of delete_media_record read in order, with the KeyError of the first missing one |
| DeleteHandler.MissingOssUrl | gateway_and_query/fc_delete_handler/index.py:32-38 | a missing oss_url gives 404 before thumbnail_url is looked at |
| DeleteHandler.MissingThumbnailUrl | gateway_and_query/fc_delete_handler/index.py:41-47 | a missing thumbnail_url gives 404 |
| DeleteHandler.CompleteRequest | gateway_and_query/fc_delete_handler/index.py:39-56 | a complete request deletes the row keyed by its file_id and timestamp, then the two prefix-stripped keys |
| DeleteHandler.MissingRecordField | gateway_and_query/fc_delete_handler/index.py:51-66 | a missing table_name, file_id or timestamp gives 500 with the KeyError text of the first one missing, before anything is deleted |
| UploadHandler.HandleUpload | gateway_and_query/fc_upload_handler/index.py:15-67 | early answers write nothing; otherwise the decoded content is stored under the key and the answer is 200 with its oss:// URL |
| UploadHandler.FirstMissing | gateway_and_query/fc_upload_handler/index.py:30-38 | the first required field the body lacks, in order, or none; `in` that raises is a failure |
| UploadHandler.PlanUpload | gateway_and_query/fc_upload_handler/index.py:11-38 | the shared front, then the required fields, each missing one answered 400 |
| UploadHandler.PlanStore | gateway_and_query/fc_upload_handler/index.py:40-67 | the configuration, the key raw/<file_name>, and the decoded content or the 500 naming the decode error |
| UploadHandler.FileNameCheckedFirst | gateway_and_query/fc_upload_handler/index.py:30-38 | a missing file_name gives 400 naming file_name, whatever else is missing |
| UploadHandler.CompleteUpload | gateway_and_query/fc_upload_handler/index.py:43-49 | a complete request stores the decoded bytes under "raw/" + file_name |
| UploadHandler.UndecodableContent | gateway_and_query/fc_upload_handler/index.py:47-57 | content that cannot be decoded gives 500 with the decoder's message |
| Base64.Clean | functions/image-processing/index.py:53 | the result holds only characters of [A-Za-z0-9+/=] |
| Base64.CleanKeepsCount | functions/image-processing/index.py:53 | every allowed character keeps its number of occurrences; every other character is removed |
| Base64.CleanIdentity | functions/image-processing/index.py:53 | an already clean string is unchanged |
| Base64.Pad | functions/image-processing/index.py:54-56 | the padded length is a multiple of 4, at most 3 '=' are appended after an unchanged prefix, and nothing is appended iff the length was a multiple of 4 |
| Base64.Encode | functions/image-processing/flask.py:36-40 | the encoding is a multiple of 4 long and uses only clean characters |
| Base64.DecodeEncode | functions/image-processing/index.py:59-62 | the strict decoder inverts the encoder |
| Base64.EncodeSurvivesCleanAndPad | functions/image-processing/index.py:53-56 | cleaning and padding leave a proper encoding unchanged |
| Base64.OneOverFourFails | functions/image-processing/index.py:53-64 | a cleaned length of 1 mod 4 gets three '=' appended and then fails strict decoding |
| Base64.ThreePadsInvalid | functions/image-processing/index.py:59-64 | a group ending in three '=' never decodes |
| Base64.DecodeLength | functions/image-processing/index.py:59-62 | a decodable string has a length that is a multiple of 4 and decodes to between 3n-2 and 3n bytes for n groups |
| Base64.RunIgnoresUnclean | gateway_and_query/fc_upload_handler/index.py:48 | the lenient decoder ignores characters outside the alphabet |
| Base64.DecodeLenientEncode | gateway_and_query/fc_upload_handler/index.py:48 | the lenient decoder also inverts the encoder |
| AudioTrigger.AnyEndsWith | functions/audio-processing/fcFunction/index.py:24-29 | true iff the name ends with one of the extensions |
| AudioTrigger.AudioFileCaseInsensitive | functions/audio-processing/fcFunction/index.py:24-29 | the audio test ignores letter case |
| AudioTrigger.AudioExtensionIsAudio | functions/audio-processing/fcFunction/index.py:24-29 | any name ending in a listed extension, in any case, is audio |
| AudioTrigger.IsAudioFile | functions/audio-processing/fcFunction/index.py:24-29 | the lower-cased key ends with one of the six audio extensions |
| AudioTrigger.EventItem | functions/audio-processing/fcFunction/index.py:74-97 | an event entry is posted only when its URL-decoded key is an audio file |
| AudioTrigger.RecordItem | functions/audio-processing/fcFunction/index.py:216-242 | a Records entry without oss is skipped; one is posted only when its decoded key is an audio file |
| AudioTrigger.ItemOf | functions/audio-processing/fcFunction/index.py:74-97 | whichever batch form applies, only audio keys are posted |
| AudioTrigger.ResultEntry | functions/audio-processing/fcFunction/index.py:99-138 | the entry names the file, and its status is "success" iff the audio service answered 200 with a JSON body |
| AudioTrigger.Posts | functions/audio-processing/fcFunction/index.py:81-97 | the posted items are exactly the audio items, in event order |
| AudioTrigger.BatchResults | functions/audio-processing/fcFunction/index.py:99-146 | without an unexpected error there is exactly one result per posted audio key, in event order |
| AudioTrigger.BatchLoop | functions/audio-processing/fcFunction/index.py:74-146 | the loop computes the specified batch |
| AudioTrigger.RunBatchStops | functions/audio-processing/fcFunction/index.py:294-302 | once an unexpected error occurs the rest of the batch is not processed |
| AudioTrigger.Handle | functions/audio-processing/fcFunction/index.py:39-302 | the handler returns the dispatch answer and posts the dispatched keys |
| AudioTrigger.ShapeOf | functions/audio-processing/fcFunction/index.py:72-292 | the if/elif chain: events, then bucket_name and object_key, then Records, else unsupported |
| AudioTrigger.BatchEntries | functions/audio-processing/fcFunction/index.py:216-221 | what the batch loop iterates: list items, or a dictionary's keys, each of which is skipped or makes the loop raise |
| AudioTrigger.RunBatch | functions/audio-processing/fcFunction/index.py:74-146 | the batch loop: each entry skipped or posted, one result per post, an exception ending it |
| AudioTrigger.Dispatch | functions/audio-processing/fcFunction/index.py:42-302 | the handler's answer for each event shape and the URLs it posts |
| AudioTrigger.UndecodableBytes | functions/audio-processing/fcFunction/index.py:48-62 | a bytes event that is not UTF-8 JSON gives 400 and posts nothing |
| AudioTrigger.EventsFirst | functions/audio-processing/fcFunction/index.py:72 | an events list wins over every other shape |
| AudioTrigger.TestFormBeforeRecords | functions/audio-processing/fcFunction/index.py:149-216 | without events, an event holding bucket_name, object_key and Records is dispatched as the test form |
| AudioTrigger.UnsupportedShape | functions/audio-processing/fcFunction/index.py:284-292 | an event with none of the three shapes gives 400 and posts nothing |
| AudioTrigger.BatchAnswered | functions/audio-processing/fcFunction/index.py:140-146 | a batch that completes answers 200, with the posted keys as the result files |
| AudioTrigger.BatchKeyUnquoted | functions/audio-processing/fcFunction/index.py:76-97 | in the batch form the key is URL-decoded before the audio test and the URL |
| AudioTrigger.TestFormAnswers | functions/audio-processing/fcFunction/index.py:149-213 | in the test form the key is not URL-decoded; a non-audio key gives 400 with nothing posted, and an audio key is posted once with the service's answer mapped to 200, the propagated status, 408 or 500 |
| AudioProcessing.SettingOr | functions/audio-processing/ecs/audio_processor.py:38-48 | the first variable wins when non-empty; otherwise the second is used when set |
| AudioProcessing.AudioProcessor.constructor | functions/audio-processing/ecs/audio_processor.py:34-60 | each field is read from its variables with the fallbacks and defaults; with OSS_AUDIO_PREFIX or OSS_THUMBNAIL_PREFIX unset, the prefix is raw/ or results/ |
| AudioProcessing.AudioProcessor.ThumbnailKey | functions/audio-processing/ecs/audio_processor.py:354-355 | the key is the thumbnail prefix, then the stem of the basename, then "_spectrogram.png" |
| AudioProcessing.AudioProcessor.ThumbnailOfFile | functions/audio-processing/ecs/audio_processor.py:354-355 | for dir/name.ext the key is prefix + name + "_spectrogram.png" |
| AudioProcessing.AudioProcessor.UploadThumbnail | functions/audio-processing/ecs/audio_processor.py:350-364 | the thumbnail is stored under its key and nothing else changes |
| Urls.ObjectKeyOfUrl | functions/audio-processing/ecs/audio_processor.py:72-75 | the object key never starts with '/' |
| Urls.ObjectKeyOfFileUrl | functions/audio-processing/ecs/audio_processor.py:72-75 | for the trigger's https URL of a bucket and key, the extracted key is the original key |
| Urls.ObjectKeyCutAtHash | functions/audio-processing/ecs/audio_processor.py:72-75 | a '#' in the key starts a fragment, so the extracted key stops there |
| Urls.StripLeadingControl | functions/audio-processing/ecs/audio_processor.py:72 | parsing first drops leading control characters and spaces |
| Urls.RemoveUnsafe | functions/audio-processing/ecs/audio_processor.py:72 | parsing removes tab, CR and LF everywhere |
| Urls.UrlSplit | functions/audio-processing/ecs/audio_processor.py:72 | urlsplit as urlparse calls it: scheme, network location after "//", fragment, then query |
| Urls.SplitParams | functions/audio-processing/ecs/audio_processor.py:72 | the parameters start at the first ';' of the last path segment |
| Urls.UrlParsePath | functions/audio-processing/ecs/audio_processor.py:72-75 | the path attribute of urlparse |
| Text.LStrip | functions/audio-processing/ecs/audio_processor.py:75 | only leading '/' characters are removed, and all of them are |
| AudioProcessing.ParseLine | functions/audio-processing/ecs/audio_processor.py:249-267 | a line yields a detection iff it has at least 5 fields and its three numbers parse; the detection holds those fields |
| AudioProcessing.DetectionOf | functions/audio-processing/ecs/audio_processor.py:261-267 | a detection always carries its species |
| AudioProcessing.Keep | functions/audio-processing/ecs/audio_processor.py:248-270 | no more detections than lines, each with a species |
| AudioProcessing.KeepAppend | functions/audio-processing/ecs/audio_processor.py:248-270 | lines are parsed independently, so parsing distributes over concatenation |
| AudioProcessing.UnparsedLineSkipped | functions/audio-processing/ecs/audio_processor.py:252-270 | a short or unparsable line can be removed without changing the result |
| AudioProcessing.HeaderIgnored | functions/audio-processing/ecs/audio_processor.py:248 | the first line never contributes |
| AudioProcessing.ReadDetections | functions/audio-processing/ecs/audio_processor.py:246-270 | the loop computes the specified detections |
| AudioProcessing.Detections | functions/audio-processing/ecs/audio_processor.py:246-270 | the detections of every line after the header |
| AudioProcessing.Analysis | functions/audio-processing/ecs/audio_processor.py:200-282 | no detections without the analyser or when it raises, else those of the first report file listed |
| AudioProcessing.FirstReport | functions/audio-processing/ecs/audio_processor.py:238-240 | the chosen file is the first BirdNET .csv that is not a parameter file; if there is none, nothing is chosen |
| AudioProcessing.FirstReportIs | functions/audio-processing/ecs/audio_processor.py:238-240 | the earliest report file is the one chosen |
| AudioProcessing.OnlyFirstReportRead | functions/audio-processing/ecs/audio_processor.py:271 | files after the first report do not affect the result |
| AudioProcessing.AnalyzeBirdAudio | functions/audio-processing/ecs/audio_processor.py:200-282 | the loop with its break computes the specified analysis, [] when the analyser is missing or raises |
| AudioProcessing.SpeciesOf | functions/audio-processing/ecs/audio_processor.py:289-290 | one species per detection |
| AudioProcessing.TagsFor | functions/audio-processing/ecs/audio_processor.py:297-302 | one tag per listed species, with its count |
| AudioProcessing.CountSpecies | functions/audio-processing/ecs/audio_processor.py:288-294 | it succeeds iff every detection has a species, and then holds the per-species counts and the species in first-occurrence order |
| AudioProcessing.TagItems | functions/audio-processing/ecs/audio_processor.py:297-302 | tags are emitted in dictionary order with their counts |
| AudioProcessing.FormatBirdTags | functions/audio-processing/ecs/audio_processor.py:284-308 | the method computes the specified tags |
| AudioProcessing.BirdTags | functions/audio-processing/ecs/audio_processor.py:284-308 | each species with its count in first-occurrence order, [] when a detection has no species |
| AudioProcessing.TagsOncePerSpecies | functions/audio-processing/ecs/audio_processor.py:288-302 | each species occurring in the detections appears in exactly one tag, and only those do |
| AudioProcessing.TagCountsExact | functions/audio-processing/ecs/audio_processor.py:289-294 | each count is that species' number of occurrences, at least 1 |
| AudioProcessing.TagCountsAddUp | functions/audio-processing/ecs/audio_processor.py:289-294 | the counts sum to the number of detections |
| AudioProcessing.SumTagsFor | functions/audio-processing/ecs/audio_processor.py:297-302 | summing the emitted counts sums the occurrence counts |
| AudioProcessing.TagsInFirstOccurrenceOrder | functions/audio-processing/ecs/audio_processor.py:298-302 | an earlier tag's species first occurs before a later tag's species |
| AudioProcessing.MissingSpeciesEmpties | functions/audio-processing/ecs/audio_processor.py:306-308 | a detection without species makes the whole result [] |
| AudioProcessing.AnalysisTagsAddUp | functions/audio-processing/ecs/audio_processor.py:284-308 | for any analyser output, the tag counts add up to the number of detections |
| AudioProcessing.FileIdSeconds | functions/audio-processing/ecs/audio_processor.py:370-371 | the file_id is "audio_" + stem + "_" + the whole seconds, and the part after its last '_' parses back to the seconds |
| AudioProcessing.TimestampMatchesSeconds | functions/audio-processing/ecs/audio_processor.py:370-374 | for a single clock reading, the millisecond timestamp divided by 1000 is the seconds in the file_id |
| AudioProcessing.TwoReads | functions/audio-processing/ecs/audio_processor.py:370-374 | for the two clock readings, the timestamp's seconds lie between the file_id's seconds and the second reading's, and equal the file_id's when both readings fall in the same second |
| AudioProcessing.TwoReadsMayDiffer | functions/audio-processing/ecs/audio_processor.py:370-374 | readings at 9.9995 s and 10.0 s give a file_id one second behind the timestamp |
| AudioProcessing.FileId | functions/audio-processing/ecs/audio_processor.py:370-371 | "audio_", the stem of the file name, "_", the whole seconds |
| AudioProcessing.Timestamp | functions/audio-processing/ecs/audio_processor.py:374 | the clock in whole milliseconds |
| Text.SplitJoin | functions/audio-processing/ecs/audio_processor.py:249 | splitting on ',' loses nothing and leaves no ',' in a field |
| Text.SplitCount | functions/audio-processing/ecs/audio_processor.py:249-252 | a line has one more field than it has commas |
| Text.ParseIntToString | functions/audio-processing/ecs/audio_processor.py:370-371 | an integer written out parses back to itself |
| Text.Basename | functions/audio-processing/ecs/audio_processor.py:354 | the basename contains no '/' and ends the path |
| Text.BasenameOfPath | functions/image-processing/index.py:109 | the basename of dir/file is file |
| Text.SplitExt | functions/image-processing/index.py:83 | root and extension put back together give the path, and the extension is empty or one '.' part without '/' |
| Text.SplitExtOfName | functions/image-processing/index.py:83 | name.ext splits into name and .ext |
| Tally.CountsSpec | functions/image-processing/flask.py:77-81 | the counting dictionary holds exactly the occurring values, each with its number of occurrences |
| Tally.DistinctSpec | functions/audio-processing/ecs/audio_processor.py:288-302 | insertion order holds each occurring value exactly once |
| Tally.DistinctFirstOccurrence | functions/audio-processing/ecs/audio_processor.py:298-302 | insertion order follows first occurrences |
| Tally.CountsAddUp | functions/image-processing/flask.py:77-81 | the counts over the distinct values sum to the number of items |
| Tally.CountPositive | functions/image-processing/flask.py:77-81 | a value's count is positive iff it occurs |
| Detector.Kept | functions/image-processing/flask.py:13-65 | a detection survives iff its confidence is strictly above 0.5 |
| Detector.KeptHigh | functions/image-processing/flask.py:65 | a detection above 0.5 is kept after the ones before it, so the filter keeps the order |
| Detector.KeptMultiplicity | functions/image-processing/flask.py:65 | each detection above 0.5 is kept as many times as it occurs, and no other detection is kept |
| Detector.KeptNamedCount | functions/image-processing/flask.py:65-81 | the number of kept detections with a name is the number of detections above 0.5 with that name |
| Detector.TagCountsAbove | functions/image-processing/flask.py:77-81 | each tag count is the number of detections above 0.5 whose class has that name |
| Detector.NamesAbove | functions/image-processing/flask.py:65-82 | the kept names are exactly the names of the detections above the threshold |
| Detector.LowConfidenceIgnored | functions/image-processing/flask.py:65 | adding a detection at or below 0.5 changes nothing |
| Detector.UnnamedClass | functions/image-processing/flask.py:67-71 | reports a class id without a name iff some detection has one |
| Detector.SpeciesNames | functions/image-processing/flask.py:67-71 | one label per surviving detection |
| Detector.TagCountsSpec | functions/image-processing/flask.py:77-81 | the tag names are the names of the detections above 0.5; each count is both that name's number of kept detections and the number of detections above 0.5 with it; the counts sum to the survivors |
| Detector.CountTags | functions/image-processing/flask.py:77-81 | the loop computes the specified tag counts |
| Detector.TagsJson | functions/image-processing/flask.py:83-91 | the tags object has the same names and counts |
| Detector.DetectBirdRoute | functions/image-processing/flask.py:43-93 | the route computes the specified response |
| Detector.DetectBird | functions/image-processing/flask.py:43-93 | the route's answer: 400 without an image or with an undecodable one, 500 naming the failure, otherwise 200 with the tag counts, annotated image and thumbnail |
| Detector.RefusedRequests | functions/image-processing/flask.py:46-53 | a request without an image, or with an undecodable one, gives 400 with empty data |
| Detector.NoClassIdsNoTags | functions/image-processing/flask.py:77-91 | without class ids a successful answer has empty tags |
| Detector.UnknownClassFails | functions/image-processing/flask.py:67-71 | a surviving detection with an unknown class raises, giving 500 |
| Detector.ThumbnailFailureFails | functions/image-processing/flask.py:28-33 | a thumbnail resize that raises (a side scaled to 0 pixels) gives 500 with its message, before any encoding |
| ImageHandler.ReadEvent | functions/image-processing/index.py:74-89 | the handler proceeds only with a key whose lowercased extension is allowed |
| ImageHandler.UnsupportedTouchesNothing | functions/image-processing/index.py:81-89 | a disallowed extension gives 400 before any download, and nothing changes |
| ImageHandler.OssObject | functions/image-processing/index.py:74-79 | `events[0].oss.object` with its key and size read for the log; any KeyError is the event-format error |
| ImageHandler.Extension | functions/image-processing/index.py:82 | the lower-cased extension that splitext gives |
| ImageHandler.FileId | functions/image-processing/index.py:91 | "img_" and the first ten characters of the uuid's hex |
| ImageHandler.ThumbnailKey | functions/image-processing/index.py:109-110 | "thumbnails/", the stem of the key's base name, "_thumb.jpg" |
| ImageHandler.OssUrl | functions/image-processing/index.py:119 | "oss://", the bucket name, "/", the key |
| ImageHandler.CallFlaskDetect | functions/image-processing/index.py:28-64 | the detector call: the URL setting, the status and code checks, the tags and the cleaned, padded and strictly decoded thumbnail |
| ImageHandler.Process | functions/image-processing/index.py:67-178 | the handler on the whole world: answer, object store, table store and local files after each path |
| ImageHandler.DetectAndStore | functions/image-processing/index.py:106-168 | the handler after the download: detector, thumbnail file and object, the table name, the record, the clean-up |
| ImageHandler.UpperCaseExtensionAccepted | functions/image-processing/index.py:83 | .JPG and .PNG are lowercased to allowed extensions |
| ImageHandler.FileIdForm | functions/image-processing/index.py:92 | the file_id is "img_" followed by 10 hex characters |
| ImageHandler.ThumbnailKeyOfFile | functions/image-processing/index.py:109-110 | dir/name.ext gets the key thumbnails/name_thumb.jpg |
| ImageHandler.OssUrlParts | functions/image-processing/index.py:119-128 | the URL is oss://, then the bucket up to the first '/', then the key |
| ImageHandler.FlaskStatusChecked | functions/image-processing/index.py:43-45 | a detector status other than 200 is an error |
| ImageHandler.BadThumbnailFails | functions/image-processing/index.py:53-64 | a thumbnail whose cleaned length is 1 mod 4 fails strict decoding |
| ImageHandler.DetectorThumbnailArrives | functions/image-processing/index.py:43-62 | a successful detector answer passes through cleaning, padding and decoding: the handler gets the detector's tags and its exact thumbnail bytes |
| ImageHandler.LocalDisk.constructor | functions/image-processing/index.py:96 | the disk starts with the given files |
| ImageHandler.LocalDisk.Write | functions/image-processing/index.py:113-114 | the file is set to the data and nothing else changes |
| ImageHandler.LocalDisk.RemoveIfExists | functions/image-processing/index.py:149-154 | the file is gone afterwards and nothing else changes |
| ImageHandler.HandleImage | functions/image-processing/index.py:67-178 | the sequential writes leave the object store, table store and disk as the specified run does, with its answer |
| ImageHandler.FailureKeepsLocalCopy | functions/image-processing/index.py:149-178 | once the download succeeded, any failure answers 500 with empty data, and the local copy (and, after detection, the thumbnail file) stays |
| ImageHandler.DetectAndStoreSteps | functions/image-processing/index.py:106-168 | the steps after the download change the three stores as the specified rest of the run does, with its answer |
| ImageHandler.Downloaded | functions/image-processing/index.py:91-103 | a 200 answer means the configuration was complete and the object existed, and the run continues with its bytes on disk |
| ImageHandler.StoredEffects | functions/image-processing/index.py:106-168 | once the image is on disk, a 200 answer means the detector answered, the table name was set and the thumbnail and row were written |
| ImageHandler.SuccessEffects | functions/image-processing/index.py:106-168 | a 200 answer means the thumbnail object and the media row were written and both local files removed |
| ImageHandler.RecordReadsBack | functions/image-processing/index.py:130-147 | the written row reads back as the image record: raw URL, "image", dumped tags, user3, no species or count, thumbnail URL |
| ImageHandler.MissingTableNameLeavesThumbnail | functions/image-processing/index.py:118-124 | without a table name the thumbnail is already uploaded and the answer is 500 |

## Left out

- Floating-point JSON numbers: JSON numbers are integers. `float()` of the CSV fields is a given function, and so are the C-level `int()`/`float()` conversions of request values in general.
- Text case and whitespace: lowercasing and stripping are ASCII-only; `int()` of a string accepts no surrounding whitespace or underscores.
- Dictionary order: a `map` keeps none. A non-empty dictionary given as species terms is treated as a failure (see `MultiTagQuery.Terms`); the audio batch loop iterates a dictionary's keys, which `AudioTrigger.BatchEntries` models without depending on their order. `json.dumps` key order is the given `dumps` function's business.
- MultiTagQuery.Terms: a non-empty dictionary given as a species list is a failure here, while Python would iterate its keys.
- Exception texts: texts raised inside libraries (TypeError messages, the binascii message) are fixed approximations. `ErrorText` omits the request id of service errors. The object store's NoSuchKey text is a constant.
- ImageHandler.CallFlaskDetect: the decode-failure text uses the constant `DecodeErrorText` instead of binascii's own, varying message.
- ImageHandler.FailureKeepsLocalCopy: states only that the temp files are still present, not their contents, since the thumbnail temp path may coincide with the download path.
- `urllib.parse.urlparse`: IPv6 hosts and NFKC netloc checks are not modelled. Only the path component is computed, for the https URLs the trigger builds.
- ML and media libraries (librosa, BirdNET's `analyze`, YOLO, the annotators, `cv2.imdecode`/`imencode`, `generate_thumbnail_flask`): given functions. The thumbnail function may fail, as `cv2.resize` does when a side scales to 0 pixels.
- `generate_spectrogram`, `process_audio_file`, the duration: left out, as floating-point numerics in foreign libraries.
- AudioProcessing.TimestampMatchesSeconds: holds for one clock reading. `save_metadata` reads the clock twice, so the two values may differ by a second; `AudioProcessing.TwoReads` states what holds then.
- AudioProcessing.Timestamp: the clock is an exact real, so `seconds * 1000.0` is exact. The float64 rounding of `time.time() * 1000` is not modelled, and it can move a product across a millisecond boundary.
- The rest of `save_metadata` and the response of `process_audio_from_url` are left out, since they wrap foreign calls. The key and id derivations are modelled.
- The search engine's own execution, scoring and ranking: an oracle that is assumed to honour the request.
- `app.py`, both `table_store_client.py` files, `fc_upload_handler/tool.py`, `demo.py` and `create_search_index.py`: SDK client construction, routing and client scripts, outside the core.
- Network failures of object-store operations are not modelled. The HTTP clients (the audio service, the detector endpoint) are given functions whose outcomes include timeouts and failures. Their `JSONDecodeError` is taken to be a `RequestException`, as in requests 2.27 and later.
- Response headers are constants and not modelled. Logging, prints, temp-file naming beyond the paths used and `safe_decode_response_text` have no effect on results.
- The audio service URL and the trigger's other environment constants are fixed values of the given audio-service function.
- The "latest record" lookup (timestamp None): the store rejects a None key column, so `get_record_by_file_id` with a falsy timestamp raises here. A range read for the latest row is not modelled.
- The include set of `TermQuery` objects hashes them by identity, so it keeps duplicate terms. The model keeps the terms as a sequence, duplicates included, and `MultiTagQuery.IncludeTermsActAsSet` shows that duplicates do not change matching.
- `time.time()` and `uuid4()`: parameters.
- Concurrency and retries: not modelled.
