# Video Downloader Extension — a verified model of its core

The Video Downloader Extension is a browser extension with a local Node.js helper server. The
extension notices media requests (HLS playlists, DASH manifests, segments, progressive video
files and subtitle files) in the browser's network traffic and in the page. It keeps a per-tab
table of them. The popup de-duplicates the detections and lets the user pick a quality and a
language. It then asks the server for the catalog of a manifest and has the server download it
through ffmpeg.

This project models, in Dafny, the parts of that system that compute something:

- **HLS master playlists** (`HlsMaster`, RFC 8216). It models how the attribute lists of section
  4.2 are read, and how `EXT-X-MEDIA` renditions (section 4.3.4.1) are grouped by GROUP-ID.
  Each `EXT-X-STREAM-INF` line (section 4.3.4.2) becomes one variant. The manifest's query
  parameters are carried into every URI (`Urls`), and the variants are stably sorted by
  bandwidth (`StableSort`).
- **DASH manifests** (`DashMpd`, ISO/IEC 23009-1). The AdaptationSet and Representation
  elements of sections 5.3.3 and 5.3.5 are walked. Their video and audio indices are numbered,
  and every quality is cross-linked to the first audio track.
- **The quality catalog** answered by `/qualities` (`QualityCatalog`). It covers detection,
  resolution-bucket captions, audio and subtitle lists de-duplicated by language, and the
  two-level audio group map.
- **The download registry** (`Downloads`). This is the `activeDownloads` table and the state
  machine `downloading → complete | failed | cancelled` behind `/download`, `/cancel` and the
  ffmpeg process handlers. It also covers the ffmpeg command line, the header argument, the
  server's file-name sanitiser, `uniqueOutputPath` over a set of existing paths, and the
  progress report.
- **The popup** (`Popup`, `VideoDedup`). It covers quality and language preferences, weak-list
  detection, the quality-height reader, `mergeDuplicateVideos` with its primary-selection
  priority, audio-URL resolution through the group map, the popup's file-name sanitiser and
  its duration text.
- **The content script** (`PageScan`, `PageDuration`). It covers the string-aware brace
  scanner that cuts the player JSON out of a script, the stream priority of the YouTube scan,
  Performance-API stream discovery and subtitle-track collection. It also covers the ISO 8601
  duration reader (the time part of section 4.4.3.2 of ISO 8601:2004), the plain `h:mm:ss`
  reader and `formatDuration`.
- **The background worker** (`Capture`). It covers the URL block list, request classification
  and per-tab `streamData` insertion with its de-duplication. It also covers subtitle keys,
  formats and names, the request-header whitelist, the `getStreams` de-duplication,
  `recordHistory` capped at 500 entries, and the badge de-duplication count.
- **The history page** (`History`). It covers the search filter, newest-first order,
  delete-by-id, attribute escaping and the relative-date buckets.

Shared modules hold the string, number and list operations the code relies on: `Strings`,
`Numbers`, `Lists`, `Optional`, `StableSort` and `Urls`. These are JavaScript's `split`,
`trim`, `toLowerCase`, `indexOf`, `parseInt`, `Number`, `Math.round`, `padStart`, stable
`Array.prototype.sort`, `URL` and `URLSearchParams`, each written out for what the core uses.

The loops of the source are `method`s with loop invariants, each proved equal to a
specification function. The properties are proved about those functions. Objects that the
source mutates in place are classes:

| class | what it holds |
|---|---|
| `Downloads.Registry` and `Downloads.Download` | `activeDownloads` and its entries |
| `Capture.CaptureState` | `streamData` and `capturedHeaders` |
| `Capture.HistoryStore` | the stored history |
| `PageScan.SubtitleCollector` | `tracks` and `seenUrls` |

Messages the server broadcasts are kept as an appended event log.

## Model

| member | source | states |
|---|---|---|
| HlsMaster.KeyRun | server.js:147 | the key group of the attribute pattern: the longest run of `[A-Z0-9-]` characters (either case) at the front, stopping at the first other character |
| HlsMaster.FirstMatch | server.js:147-151 | the leftmost attribute match has a non-empty key of key characters and leaves a strictly shorter suffix to read on from |
| HlsMaster.Unquote | server.js:152-154 | a value that starts and ends with a double quote loses both quotes; any other value is kept as it is |
| HlsMaster.ParseAttributeList | server.js:145-157 | the `exec` loop computes the attribute map `Attributes(raw)` |
| HlsMaster.AttributesOfList | server.js:145-157 | reading a written attribute list `KEY=value,KEY="value",…` gives every attribute back: quoted values lose their quotes and may contain commas, and a later key overrides an earlier one |
| HlsMaster.AttributesStep | server.js:149-155 | reading one written attribute records it and the reader carries on exactly after it |
| HlsMaster.FirstMatchOfAttr | server.js:147 | a written attribute followed by a comma or the end is the leftmost match, with its own key and value |
| HlsMaster.MediaRendition | server.js:191-206 | a rendition comes only from an `#EXT-X-MEDIA:` line and always has a non-empty TYPE, GROUP-ID and language |
| HlsMaster.MediaRenditionFields | server.js:192-206 | a line missing TYPE, GROUP-ID or URI yields nothing. Otherwise TYPE is upper-cased, LANGUAGE defaults to `und`, NAME defaults to the language and then to `Default`, DEFAULT=YES is read in any case, and the URI is resolved with the master's parameters |
| HlsMaster.Renditions | server.js:190-192 | one rendition slot per playlist line, in playlist order |
| HlsMaster.GroupIndex | server.js:208 | the position of the group with the given id, or -1 exactly when no group has it |
| HlsMaster.AddToGroup | server.js:208-212 | creating a missing group and pushing onto it keeps group ids unique |
| HlsMaster.AddToGroupTracks | server.js:208-212 | pushing a rendition appends it to its own group and leaves every other group's tracks as they were |
| HlsMaster.GroupsOf | server.js:190-214 | the groups built from a prefix of the lines have unique ids |
| HlsMaster.GroupsHoldRenditions | server.js:190-214 | each group holds exactly the renditions of its type and GROUP-ID, in playlist order |
| HlsMaster.CollectGroups | server.js:190-214 | the rendition loop fills the AUDIO and SUBTITLES groups as `GroupsOf` describes, and stores no other type |
| HlsMaster.NextUriLine | server.js:222-223 | the first later line that is neither empty nor starts with `#`, or -1 when every later line is a tag |
| HlsMaster.FindUriLine | server.js:222-236 | the inner loop finds `NextUriLine` |
| HlsMaster.DefaultTrack | server.js:226-227 | a track exists exactly when the group is non-empty; it is the first default-flagged track when one exists, and otherwise the first track |
| HlsMaster.VariantOf | server.js:218-234 | a variant's URL is its URI line resolved with the master's query parameters |
| HlsMaster.VariantOfFields | server.js:218-234 | bandwidth is 0 when BANDWIDTH is absent or not a number and n when it is the written number n; resolution defaults to `unknown`; the audio group is the AUDIO attribute; and the audio URL is present exactly when that group has renditions, and is then the URL of the group's `DefaultTrack` |
| HlsMaster.BandwidthOf | server.js:219 | an absent or non-numeric BANDWIDTH reads as 0, and a written number reads as itself |
| HlsMaster.StreamVariant | server.js:216-237 | line `i` yields a variant exactly when it is a stream line and some later line is a URI line |
| HlsMaster.StreamVariants | server.js:216-237 | one variant slot per line, each computed by `StreamVariant` |
| HlsMaster.VariantsPerStreamInf | server.js:216-237 | at most one variant per `EXT-X-STREAM-INF` line; if every stream line finds its URI, exactly one each |
| HlsMaster.LineVariant | server.js:217-236 | one turn of the outer stream loop yields `StreamVariant` |
| HlsMaster.CollectVariants | server.js:216-237 | the stream loop pushes the present variants, in playlist order |
| HlsMaster.PlaylistLines | server.js:140 | no line of the split, trimmed and filtered playlist is empty |
| HlsMaster.ParseMaster | server.js:139-241 | `parseMasterM3U8` computes `ParseMasterSpec`: the groups, then the variants, then the sort |
| HlsMaster.ParseMasterVariantsOrdered | server.js:239 | variants come out by non-increasing bandwidth, variants of equal bandwidth keep playlist order, and none is lost or added |
| HlsMaster.ParseMasterVariantCount | server.js:216-239 | the playlist yields no more variants than it has stream lines |
| Urls.CutFragment | server.js:161-162 | the text before the first `#` and the fragment put together give the URL back |
| Urls.CutQuery | server.js:161-164 | the part before the first `?`, whether a `?` is present, and the query after it |
| Urls.Parts | server.js:161-165 | the path, query and fragment of a URL text assemble back to it |
| Urls.PartsOfAssemble | server.js:161-165 | cutting an assembled URL gives its parts back (round trip) |
| Urls.ParsePiece | server.js:164-165 | the name of a query piece runs to its first `=`, and the value is the rest |
| Urls.ParsePieces | server.js:164-165 | each `&`-separated piece is read by `ParsePiece`, in order |
| Urls.ParseQueryWellFormed | server.js:164-165 | pairs read from a query without `#` are well formed: no `&` or `#`, and no `=` in a name |
| Urls.PieceRoundTrip | server.js:164-174 | a well-formed pair's `name=value` piece has no `&`, is not empty, and reads back as the pair |
| Urls.ParseSerialize | server.js:164-174 | serialising well-formed pairs and parsing them again gives the same pairs |
| Urls.MergeParamsKeepsTarget | server.js:167-172 | the target's pairs stay in front, unchanged; every later pair is a source pair whose name the target lacked |
| Urls.MergeParamsNames | server.js:167-172 | the merged pairs carry exactly the names of both lists |
| Urls.MergeParamsAppendsOnce | server.js:167-172 | no name is appended twice |
| Urls.MergeLoop | server.js:166-173 | the `forEach` computes `MergeParams`, and `changed` is set exactly when the target changed |
| Urls.AppendQueryParams | server.js:159-179 | a source without a query, or a target that is not an absolute URL (the handler's case), returns the target unchanged |
| Urls.AppendQueryParamsLoop | server.js:159-179 | `appendQueryParams` on URL text computes `AppendQueryParams` |
| Urls.AppendQueryParamsKeeps | server.js:160-178 | with a source query and an absolute target, every source parameter name is present in the result, and the target's own parameters keep their values and come first |
| Urls.Origin | server.js:183 | the origin is a prefix of the base's part before the query |
| Urls.Directory | server.js:183 | the directory starts with the origin, ends with `/`, is a prefix of the path plus `/`, and no `/` of the path lies beyond it |
| Urls.Resolve | server.js:183 | the resolved URL ends with the reference; an absolute reference stands; a `//` reference takes the base's scheme, a root-relative one the base's origin, a path-relative one the base's directory |
| Urls.ResolveFragment | server.js:183 | a `#` reference keeps the base's path and query and replaces its fragment |
| Urls.ResolveEmpty | server.js:183 | the empty reference is the base without its fragment |
| Urls.ResolveQuery | server.js:183 | a `?` reference keeps the base's path, replaces its query and drops its fragment |
| Urls.ResolveKeepsPath | server.js:183 | a same-document reference resolves to a URL that starts with the base's path |
| Urls.ResolveKeepsOrigin | server.js:183 | every reference that is neither absolute nor `//` resolves inside the base's origin |
| Urls.ResolvedHasScheme | server.js:183 | against a `scheme://` base, every reference resolves to an absolute URL |
| Urls.ResolveWithMasterParams | server.js:181-188 | a reference starting with `http` that is not absolute comes back unchanged (the handler of `appendQueryParams`); a manifest without a query gives exactly the reference, resolved unless it starts with `http` |
| Urls.ResolveWithMasterParamsKeeps | server.js:181-188 | with a manifest query, an absolute resolved URL carries every manifest parameter and keeps the reference's own values; against a `scheme://` manifest URL every reference not starting with `http` resolves to an absolute URL |
| StableSort.Insert | server.js:239 | inserting adds exactly the one element (multiset) |
| StableSort.SortDesc | server.js:239 | the sort is a permutation of its input |
| StableSort.InsertSorted | server.js:239 | insertion into a sorted list keeps it sorted by non-increasing key |
| StableSort.SortDescSorted | server.js:239 | the result is sorted by non-increasing key |
| StableSort.SortDescStable | server.js:239 | elements with equal keys keep their relative order (stability) |
| StableSort.FirstMax | popup.js:335-337 | the first index of a largest key |
| StableSort.SortDescHead | popup.js:335-337 | the head of the stable descending sort is the first element of largest key |
| DashMpd.NextSet | server.js:246 | the leftmost AdaptationSet match leaves a strictly shorter rest of the text |
| DashMpd.NextRep | server.js:268 | the leftmost Representation match leaves a strictly shorter rest of the body |
| DashMpd.NameRun | server.js:252 | the attribute-name pattern: the longest run of name characters at the front |
| DashMpd.SpaceRun | server.js:252 | the white-space run around `=` |
| DashMpd.ParseXmlAttributes | server.js:250-256 | the `exec` loop of `attrs(s)` computes `XmlAttributes(s)` |
| DashMpd.XmlAttributesOfList | server.js:250-256 | reading written `name="value"` attributes gives them back, and a repeated name keeps its last value |
| DashMpd.AttrHereOf | server.js:252 | a written attribute is matched as itself, and the reader carries on after it |
| DashMpd.NextAttrOfText | server.js:252-254 | the leftmost match in a written attribute followed by more text is that attribute |
| DashMpd.QualityOf | server.js:271-289 | the quality of the k-th video Representation carries video index k, the manifest URL, and no audio link yet |
| DashMpd.AudioOf | server.js:292-299 | the track of the k-th audio Representation carries audio index k and the manifest URL, and is the default exactly when k is 0 |
| DashMpd.RepEntriesKind | server.js:264-277 | every Representation of a set has the set's kind |
| DashMpd.OfKindAppend | server.js:258-303 | the entries of one kind from two runs of the document are those of each run, concatenated |
| DashMpd.ScanRep | server.js:270-301 | one Representation bumps the counter of its kind and appends one numbered quality or track |
| DashMpd.ScanSet | server.js:268-302 | the inner loop over one AdaptationSet's body numbers its Representations on from the running counters |
| DashMpd.ScanOneSet | server.js:259-303 | one AdaptationSet: its attributes, its kind (contentType or mimeType), and its inner loop |
| DashMpd.ScanNextSet | server.js:258-303 | one turn of the outer loop extends the numbered qualities and tracks by those of the next AdaptationSet |
| DashMpd.ScanSets | server.js:258-303 | the outer loop numbers all video and all audio Representations of the document from 0 |
| DashMpd.LinkLoop | server.js:305-310 | the cross-linking loop computes `LinkAudio` |
| DashMpd.LinkAudio | server.js:305-310 | the cross-linking keeps the number of qualities |
| DashMpd.ParseDash | server.js:243-313 | `parseDashMpd` computes `ParseDashSpec` |
| DashMpd.ParseDashVideoIndices | server.js:258-303 | N video Representations give N qualities with `dashVideoIndex` exactly 0..N-1 in document order, each built from its Representation |
| DashMpd.ParseDashAudioIndices | server.js:258-303 | M audio Representations give M tracks with `dashAudioIndex` exactly 0..M-1 in document order, and only index 0 is the default |
| DashMpd.ParseDashAudioLink | server.js:305-310 | with M > 0, every quality carries audio index 0 and the first track's id; with M = 0, none carries an audio index |
| QualityCatalog.HasMpdTagIff | server.js:465 | the `<\s*MPD\b` test holds exactly when some `<` in the text starts a match |
| QualityCatalog.HeightOfResolution | server.js:482 | the height read from a resolution `WxH` is H |
| QualityCatalog.ThresholdIsLargest | server.js:483-490 | the label ladder picks the largest threshold not above the height, and none below 240 or without a height |
| QualityCatalog.ThresholdOf | server.js:483-490 | a height whose largest threshold not above it is t is labelled with t |
| QualityCatalog.StreamCaptionLow | server.js:481-491 | a variant below 240 lines is captioned `unknown (<kbps> kbps)` |
| QualityCatalog.StreamCaptionBucket | server.js:481-491 | a variant of resolution `WxH` is captioned with the largest threshold not above H, followed by the rounded kbps |
| QualityCatalog.StreamQualities | server.js:481-493 | one catalog quality per variant, in order |
| QualityCatalog.Tag | server.js:497-503 | the renditions of one group, each tagged with the group's id |
| QualityCatalog.FirstIndex | server.js:499-500 | the index of the first rendition with a key, or -1 when no rendition has it |
| QualityCatalog.KeysFirstIndex | server.js:499-500 | a key occurs exactly when it has a first index |
| QualityCatalog.KeepFirstKeys | server.js:495-504 | the de-duplicated list has exactly the keys of the input |
| QualityCatalog.KeepFirstUnique | server.js:495-504 | no two kept renditions share a language-or-name key |
| QualityCatalog.KeepFirstFirst | server.js:495-504 | each kept rendition is the first of the input with its key (first occurrence wins) |
| QualityCatalog.KeepFirstOrder | server.js:495-504 | the kept renditions come in the order of their first occurrences |
| QualityCatalog.Admit | server.js:499-502 | one step of the loop: a rendition is kept exactly when its key is new, and the seen-set grows by its key |
| QualityCatalog.KeepFirstOfGroup | server.js:498-503 | the inner loop over one group keeps `KeepFirst` of everything seen so far |
| QualityCatalog.KeepFirstOfGroups | server.js:495-504 | the outer loop gives `audioTracks` (and, on the subtitle groups, `subtitleTracks`) as `KeepFirst` of all tagged renditions |
| QualityCatalog.TrackMapKeys | server.js:509-511 | a group's table holds exactly the keys of its renditions |
| QualityCatalog.TrackMapLastWins | server.js:509-511 | in a group's table each key maps to the URL of the last rendition with that key |
| QualityCatalog.GroupMapKeys | server.js:506-512 | the audio group map holds exactly the audio group ids |
| QualityCatalog.GroupMapLastWins | server.js:506-512 | each id maps to the table of its group |
| QualityCatalog.FillGroup | server.js:508-511 | the inner loop resets one group's table and fills it |
| QualityCatalog.BuildGroupMap | server.js:506-512 | the outer loop computes `GroupMap` |
| QualityCatalog.Qualities | server.js:451-532 | the handler body after the fetch computes `CatalogOf`: 400 without a URL, then detection, the parsers and the loops |
| QualityCatalog.DashTakesPrecedence | server.js:464-477 | text matching `<MPD` is read as DASH even when it also contains `#EXTM3U`; without video Representations the catalog is the single `DASH Default` entry |
| QualityCatalog.NeitherIsDefault | server.js:467-469 | text that is neither DASH nor HLS, or HLS without stream lines, yields the single `Default` quality for the requested URL |
| QualityCatalog.HlsCatalogShape | server.js:479-525 | an HLS catalog has one quality per variant (or the `Default` one when there are none), duplicate-free audio and subtitle lists that keep every key, and one table per audio group |
| Downloads.DropReserved | server.js:67 | exactly the characters outside `<>:"/\?*` and the vertical bar survive |
| Downloads.DropControl | server.js:68 | exactly the characters outside U+0000..U+001F survive |
| Downloads.SanitizeName | server.js:65-72 | the sanitised name is never empty |
| Downloads.SanitizeNameSafe | server.js:65-72 | the result has no reserved or control character, single spaces only, and no space at either end |
| Downloads.SanitizeNameIdempotent | server.js:65-72 | sanitising a sanitised name changes nothing |
| Downloads.FallbackNameSafe | server.js:71 | the fallback `video_<timestamp>` is a safe name |
| Downloads.TrimSafe | server.js:69-70 | trimming single-spaced text free of reserved and control characters leaves a safe name or nothing |
| Downloads.StripMediaExtension | server.js:567 | dropping a trailing media extension leaves a prefix of the name |
| Downloads.OutputFileNameShape | server.js:566-568 | the output file name is a safe stem followed by `.` and the lower-cased format (`mp4` by default) |
| Downloads.Extname | server.js:76 | `path.extname` is a suffix of the path |
| Downloads.StemExtname | server.js:77 | the corrected stem and the extension put together give the path back |
| Downloads.StemAsWrittenLosesPath | server.js:76-80 | for `/dl/video` the extension is empty, so the stem as written is empty and the first candidate is ` (1)` |
| Downloads.CandidateInjective | server.js:80 | different counters give different candidate paths |
| Downloads.TakenCandidates | server.js:78-83 | n taken candidates are n distinct existing paths, so the search ends |
| Downloads.UniqueOutputPath | server.js:74-84 | with the corrected stem (see the findings): the result does not exist; it is the path itself when that is free, and otherwise the first candidate `<stem> (n)<ext>`, n ≥ 1, that is free, where the stem and the extension put together give the path back |
| Downloads.HeadersArg | server.js:117-125 | there is no header argument exactly when all four headers are empty |
| Downloads.HeadersArgLines | server.js:117-125 | every present header has its `Name: value` CRLF line in the argument |
| Downloads.PlanMapsInputs | server.js:583-618 | the stream is input 0; audio and subtitle inputs are added only for `http` URLs; every `-map` names an existing input; audio maps input 1 exactly when there is a separate audio input; a subtitle map exists exactly when there is a subtitle input |
| Downloads.FfmpegArgs | server.js:580-620 | the command starts with `-y -nostats -progress pipe:1` and ends with the output path |
| Downloads.InputArgsOrder | server.js:582-597 | each input is passed after `-i`, in order, each preceded by `-headers` when there are headers |
| Downloads.LastValueNone | server.js:648-656 | a key has a value exactly when some line has the key |
| Downloads.LastValueIsLast | server.js:648-656 | the value is that of the last line with the key |
| Downloads.ReadLine | server.js:649-652 | one line's key and value, both trimmed, or nothing without `=` |
| Downloads.ReadReport | server.js:643-656 | the line loop computes `ReportOf`: the last `out_time_ms` and `speed` of the chunk |
| Downloads.FormatTimeSec | server.js:99-106 | the time text always has a `:`, and anything below one second, negatives included, prints as `0:00` |
| Downloads.WholeSeconds | server.js:100 | the whole seconds are 0 below one second (negatives included) and the floor from 0 on |
| Downloads.FormatTimeSecLayout | server.js:99-106 | from an hour on the text is `h:mm:ss` of the whole seconds, below it `m:ss`; below 100 hours the duration reader reads it back as those whole seconds |
| Downloads.Clamp | server.js:662 | the clamp keeps values in 0..99, maps values below 0 to 0 and above 99 to 99, and keeps the rest |
| Downloads.Percent | server.js:662 | the progress percentage is always within 0..99 |
| Downloads.AdvancePercent | server.js:658-667 | a progress report never takes the percentage out of 0..99 |
| Downloads.AdvancePastEnd | server.js:658-666 | a report at or past the known duration shows 99, never 100 |
| Downloads.Download.constructor | server.js:625-638 | a new entry is downloading at 0% with `0:00`, speed and ETA `--`, and a total time of `--:--` without a duration |
| Downloads.Registry.constructor | server.js:21 | the registry starts empty with no message sent |
| Downloads.Registry.Register | server.js:639 | the entry is stored under its id; nothing is sent |
| Downloads.Registry.Cancel | server.js:534-546 | 400 without an id and 404 for an unknown id, with nothing changed. Otherwise the entry is marked cancelled, exactly one message is sent, and the entry is removed |
| Downloads.Registry.Close | server.js:689-716 | a cancelled download sends nothing. Exit code 0 with the output present completes at 100% with one message; anything else fails with the exit text and deletes an existing output. The entry is removed in every case |
| Downloads.Registry.Error | server.js:683-687 | the download fails with the error's message (or `ffmpeg failed`), one message is sent, and the entry is removed |
| Downloads.Registry.Progress | server.js:641-679 | the shown fields advance as the report says, status and total time stay, and one progress message with the new fields is sent |
| Downloads.CancelThenClose | server.js:534-546 | cancel, a second cancel, then `close`: 200, then 404, one message in all, and nothing deleted |
| Popup.FirstHeightIndex | popup.js:51 | the leftmost index where `(\d{3,4})p` matches, or -1 when it matches nowhere |
| Popup.CaptionHeight | popup.js:51 | a label that starts with a three- or four-digit height and `p` has that height |
| Popup.ServerCaptionHeight | popup.js:51 | the height read from a server caption `<t>p (<kbps> kbps)` is t |
| Popup.NatToStringWidth | popup.js:51 | a height of 100 to 9999 prints with three or four digits, so the `\d{3,4}` group reads it |
| Popup.FindBestQualityIndex | popup.js:42-58 | 0 for no preference or `highest`; the last index for `lowest`; 0 for a non-numeric preference; otherwise the first index whose label height is nearest the target, or 0 when no label has a height |
| Popup.FindBestLangIndex | popup.js:61-70 | -1 for an empty preference. Otherwise the first index whose lower-cased language equals or starts with the preference or whose name contains it; -1 exactly when no track matches |
| Popup.UsefulCountZero | popup.js:75-78 | no useful label at all exactly when the useful count is zero |
| Popup.UsefulCountTwo | popup.js:75-79 | two or more useful labels exactly when two different entries carry one |
| Popup.WeakIff | popup.js:72-80 | a list is strong exactly when it has two different entries with labels that are non-empty and contain neither `default` nor `unknown` |
| Popup.ResolveAudioUrlCases | popup.js:654-674 | without a chosen track the URL is unchanged; with one, it is the URL in the table of the chosen variant's audio group under the track's language-or-name key when that table has a non-empty one, and the track's own URL in every other case, including a missing group map or quality list |
| Popup.ResolveFromServerGroups | popup.js:660-674 | with the server's own group map, the URL is that of the last rendition with the track's key in the variant's group |
| Popup.QuotesToUnderscore | popup.js:911 | quotes, backquotes and spaces become `_`, and every other character stays |
| Popup.DropForbidden | popup.js:912 | exactly the characters outside `<>:"/\?*` and the vertical bar survive |
| Popup.DisallowedToUnderscore | popup.js:913 | every character outside `[a-zA-Z0-9._-()[]]` becomes `_` |
| Popup.CollapseUnderscores | popup.js:914 | no two underscores in a row, no new character, and the same first and last character |
| Popup.StripEdgeUnderscores | popup.js:915 | one underscore is cut off each end |
| Popup.StripEdgeSafe | popup.js:915 | on a collapsed name of allowed characters, the cut leaves no underscore at either end and no doubled one |
| Popup.CleanedSafe | popup.js:910-915 | the whole replacement chain yields allowed characters only, no doubled underscore, and none at either end |
| Popup.SanitizeFilenameSafe | popup.js:909-917 | the result uses only allowed characters, has no doubled underscore, does not start with `_`, and is at most 100 characters unless it is the `video_<timestamp>` fallback |
| Popup.SanitizeFilenameFixed | popup.js:909-917 | a name that is already clean comes back unchanged |
| Popup.FallbackSafe | popup.js:916 | the fallback name is safe |
| Popup.FormatDurationPopup | popup.js:926-934 | the text is empty exactly when there is no positive duration |
| VideoDedup.KeyOrderKeys | popup.js:276-284 | the group order lists each key once, and exactly the keys of the detections |
| VideoDedup.MembersOf | popup.js:282-283 | a group holds only detections with its key, and a listed key has a non-empty group |
| VideoDedup.MembersCover | popup.js:282-283 | every detection sits in the group of its own key |
| VideoDedup.GroupBy | popup.js:276-284 | the grouping loop yields the key order and, for each key, its detections in order |
| VideoDedup.VariantsDistinct | popup.js:311-324 | no two YouTube variants share a URL, and every stream's URL has one |
| VideoDedup.CollectVariants | popup.js:311-324 | the `variantMap` loop computes `Variants` |
| VideoDedup.PrimaryWithoutYouTube | popup.js:308-344 | a group without YouTube streams follows the plain priority rule |
| VideoDedup.PlainPrimaryLeastRank | popup.js:326-344 | the plain rule picks one of the group's detections of least rank: HLS master, other HLS, DASH, other stream, direct, the rest |
| VideoDedup.FirstMasterRank | popup.js:329-333 | an HLS master, when present, is the first one |
| VideoDedup.PlainPrimaryFirstOfRank | popup.js:326-344 | when the pick is not a non-master HLS stream, every detection before it in the group has a lower priority, so it is the first detection of its rank |
| VideoDedup.PlainPrimaryTallestHls | popup.js:334-338 | a non-master HLS pick is an HLS detection at least as tall as every other, and every HLS detection before it is strictly shorter |
| VideoDedup.FirstTallestHls | popup.js:335-337 | the head of the height sort of the HLS detections is the first of the tallest, in group order |
| VideoDedup.YouTubePrefersDash | popup.js:308-309 | in a YouTube group a DASH manifest wins over the individual streams |
| VideoDedup.YouTubePrimary | popup.js:310-325 | otherwise the primary is a tallest YouTube stream, one without separate audio when the heights tie, carrying the variant list |
| VideoDedup.YouTubeVariantsCover | popup.js:311-324 | every YouTube stream's URL has a variant |
| VideoDedup.PrimaryInGroup | popup.js:305-347 | the primary is always one of the group's detections |
| VideoDedup.MergedOnePerKey | popup.js:275-351 | exactly one entry per distinct group key, in first-seen order, each a detection of its group |
| VideoDedup.PickPlainPrimary | popup.js:327-343 | the `if (!primary)` chain computes `PlainPrimary` |
| VideoDedup.PickPrimary | popup.js:290-345 | one group's body computes `Primary` |
| VideoDedup.MergeDuplicateVideos | popup.js:275-351 | `mergeDuplicateVideos` computes `Merged` |
| PageScan.FirstClose | content.js:149-163 | the scan ends at the first index where the depth returns to 0, or gives -1 when it never does |
| PageScan.MatchBrace | content.js:149-163 | the scanner loop computes `FirstClose` |
| PageScan.InStringNeutral | content.js:158-159 | inside a string a character other than a quote or a backslash changes nothing; braces do not count |
| PageScan.EscapeSkips | content.js:156-157 | inside a string a backslash makes the next character count for nothing |
| PageScan.QuotedNeutral | content.js:154-161 | a string literal without quotes or escapes inside, braces or not, leaves the scan as it was |
| PageScan.FlatObjectCloses | content.js:149-163 | an object without nested braces or strings closes at its own closing brace |
| PageScan.PlayerJson | content.js:144-166 | the cut-out player JSON starts with `{` and ends with `}` |
| PageScan.ChosenCases | content.js:170-211 | the manifests when there are any; else the adaptive pair when there is one; else the progressive stream |
| PageScan.ManifestsFirst | content.js:170-179 | a DASH manifest comes before HLS, and with either of them no single file is used |
| PageScan.AdaptiveWithoutManifests | content.js:181-198 | without manifests the adaptive pair is used when there is one |
| PageScan.ProgressiveOtherwise | content.js:200-211 | the progressive stream is used only when nothing was found before |
| PageScan.AdaptiveVideoBest | content.js:187-195 | the adaptive pair's video is the tallest labelled video-only MP4 of the list |
| PageScan.AdaptiveAudioBest | content.js:182-195 | its audio is an MP4 audio format of the list with the highest bitrate |
| PageScan.YouTubeStreams | content.js:126-127 | off YouTube nothing is found |
| PageScan.YouTubeStreamsNone | content.js:134-226 | on YouTube nothing is found exactly when no script yields a stream |
| PageScan.YouTubeStreamsFirst | content.js:134-217 | what is found is the yield of the first script that yields anything |
| PageScan.DiscoveredSpec | content.js:90-111 | every recovered URL is a manifest from the list and is listed once; every manifest in the list is recovered |
| PageScan.FoundKinds | content.js:103-109 | type is `HLS` exactly for m3u8 URLs (else `DASH`), and quality is `Master` exactly when the lower-cased URL contains `master` |
| PageScan.DiscoverStreams | content.js:90-119 | the loop over the resource entries computes `Discovered` |
| PageScan.ProtocolRelative | content.js:240 | a `//` source is kept and gets `https:` in front |
| PageScan.TrackNames | content.js:248-257 | the name falls back from the label to the language to `Subtitles`, and a track without a given format takes the extension's or `vtt` |
| PageScan.SubtitleCollector.constructor | content.js:232-233 | the collector starts with no track and no seen URL |
| PageScan.SubtitleCollector.AddTrackAsWritten | content.js:235-258 | as written: empty, `blob:` and `data:` sources and already-seen raw URLs are skipped; otherwise the resolved URL is recorded and one track is pushed |
| PageScan.SubtitleCollector.AddTrack | content.js:235-258 | corrected: the seen-check uses the resolved URL, so the collected tracks never share a URL |
| PageScan.RelativeSourceTwice | content.js:236-246 | as written, the same `//` source twice gives two tracks with one URL |
| PageScan.RelativeSourceTwiceFixed | content.js:236-246 | corrected, the second one is recognised and one track is kept |
| PageDuration.FormatDuration | content.js:583-591 | `N/A` exactly for 0; otherwise the clock text of the floored seconds |
| PageDuration.ClockTextLong | content.js:589 | at least an hour prints as `h:mm:ss` with zero-padded minutes and seconds |
| PageDuration.ClockTextShort | content.js:590 | less than an hour prints as `m:ss` with zero-padded seconds |
| PageDuration.UnitGroup | content.js:660 | an optional `(\d+)u` group at the front: the digits and what follows the unit, or nothing consumed |
| PageDuration.ParseIso8601Duration | content.js:658-668 | a result exactly when the text is non-empty, holds `PT` in any case and its total is positive; the result's text is the clock text of its seconds |
| PageDuration.IsoRoundTrip | content.js:658-668 | reading `PT<h>H<m>M<s>S` gives 3600·h + 60·m + s |
| PageDuration.IsoNeedsPt | content.js:660-661 | text without `PT`, in any case, is not a duration |
| PageDuration.FirstMatch | content.js:624 | no match is found only when no index starts one |
| PageDuration.PlainDuration | content.js:624-631 | the plain reader only returns positive totals |
| PageDuration.PlainOfMatch | content.js:624-631 | three groups are read as h:m:s and two as m:s |
| PageDuration.PlainRoundTrip | content.js:624-631 | what `formatDuration` prints for a positive whole number of seconds below 100 hours, the plain reader reads back |
| History.Filtered | history.js:72-81 | an empty search keeps every item; otherwise exactly the items whose lower-cased file name or source contains the search |
| History.ShownOrder | history.js:72-84 | the shown list is sorted by non-increasing timestamp (missing as 0), holds exactly the filtered items, and keeps stored order among equal timestamps |
| History.EmptyTitle | history.js:90 | `No results found` exactly when there is a search |
| History.Delete | history.js:143-148 | no action exactly when no entry has the id; otherwise exactly the entries with other ids remain |
| History.DeleteFound | history.js:143-148 | deleting an id that is present filters out its entries |
| History.DeleteOne | history.js:143-148 | deleting one entry keeps the others in their order |
| History.ReplaceAll | history.js:211 | after a replacement the character is gone (when the replacement lacks it), and nothing new appears |
| History.EscapeAttrIsEach | history.js:209-211 | the chain of five replacements is the one-pass, character-by-character escape |
| History.EscapeAttrSafe | history.js:209-211 | the escaped text holds no `"`, `'`, `<` or `>` |
| History.EscapeAttrRoundTrip | history.js:209-211 | because `&` is replaced first, nothing is escaped twice: reading the entities back gives the text |
| History.Bucket | history.js:194-199 | the bucket is 0 to 4 |
| History.BucketMonotone | history.js:194-199 | an older entry never lands in a newer bucket |
| History.MinutesAgo | history.js:195 | the minutes bucket shows the whole minutes elapsed, from 1 to 59 |
| History.HoursAgo | history.js:196 | the hours bucket shows the whole hours elapsed, from 1 to 23 |
| History.BucketTexts | history.js:194-197 | `Just now` appears exactly in bucket 0 and `Yesterday` exactly in bucket 3 |
| Capture.AnyMatches | background.js:333-335 | a URL is matched exactly when some pattern of the list matches it |
| Capture.AssetsBlocked | background.js:321-329 | any URL with an image, CSS or JS extension right before `?`, `#` or the end is blocked |
| Capture.CleanNotBlocked | background.js:309-335 | a URL free of every pattern is not blocked |
| Capture.ClassifyPrecedence | background.js:343-502 | requests without a tab and blocked URLs are ignored; a list is reached only by a request that every earlier test rejected, in the order m3u8, mpd, segment, subtitle, video |
| Capture.SubtitleFormat | background.js:464-469 | the format is one of `srt`, `ass`, `ttml` or `vtt` |
| Capture.RecordValid | background.js:394-502 | inserting keeps a tab's HLS/DASH and video lists unique by URL and its subtitles unique by key |
| Capture.RecordOneList | background.js:394-502 | one request changes at most one list, and the page URL stays |
| Capture.RecordDuplicates | background.js:394-501 | a known stream or video URL changes nothing; a segment is always appended |
| Capture.SubtitleNamed | background.js:464-481 | a new subtitle is named by its name, else its language, else `Subtitle Track <count+1>`, and carries the format |
| Capture.SubtitleQueryIgnored | background.js:428-433 | the same subtitle path with another query is not added again |
| Capture.CapturedValid | background.js:382-384 | capturing keeps the table valid and leaves every other tab unchanged |
| Capture.CaptureState.constructor | background.js:1 | the capture state starts empty |
| Capture.CaptureState.OnBeforeRequest | background.js:338-507 | the table becomes `Captured` of the old table under the request's category; the header table stays |
| Capture.CaptureState.OnSendHeaders | background.js:513-546 | for a stream request with headers, the kept headers are stored under the URL and on the tab's stream of that URL; otherwise nothing changes |
| Capture.KeptHeaders | background.js:523-529 | only `referer`, `origin`, `cookie` and `user-agent` are kept |
| Capture.KeptHeadersSpec | background.js:523-529 | a name is kept exactly when some header has it lower-cased, and it maps to the value of the last such header |
| Capture.KeepHeaders | background.js:523-529 | the header loop computes `KeptHeaders` |
| Capture.WithHeadersValid | background.js:534-541 | storing headers on a stream keeps the tab valid |
| Capture.UniqueByDistinct | background.js:668-674 | the `new Map(...).values()` de-duplication leaves distinct keys and only input elements |
| Capture.UniqueByOfDistinct | background.js:668-674 | a list with distinct keys passes unchanged |
| Capture.GetStreamsUnchanged | background.js:666-674 | on a valid tab, `getStreams`' de-duplication of streams, videos and subtitles changes nothing |
| Capture.Capped | background.js:93 | the stored history is at most 500 entries |
| Capture.CappedAppend | background.js:86-93 | appending keeps the newest 500 entries, the new one last |
| Capture.HistoryStore.constructor | background.js:83-85 | the store holds the loaded history and setting |
| Capture.HistoryStore.RecordHistory | background.js:82-95 | nothing happens when history is disabled; otherwise one entry is appended and the oldest are dropped down to 500 |
| Capture.KeySetSize | background.js:258-274 | a set of keys is never larger than the list |
| Capture.BadgeBounds | background.js:248-275 | 0 for an empty tab; otherwise between 1 and the number of detections |
| Capture.BadgeSameVideo | background.js:259-263 | two detections with the same non-empty title and duration count once |
| Capture.BadgeSameUrl | background.js:264-271 | two untitled detections of the same URL path count once |
| Capture.BadgeDedupCount | background.js:248-275 | the loop computes the number of distinct keys |
| Strings.Lower | history.js:72 | lower-casing keeps the length and maps each character |
| Strings.IndexOf | content.js:144 | the first occurrence at or after `from`, or -1 when there is none |
| Strings.ContainsIff | history.js:78-79 | `includes` holds exactly when the pattern occurs somewhere |
| Strings.Trim | server.js:70 | the trimmed text starts and ends with a non-space and is made of the text's characters |
| Strings.TrimStartOf | server.js:70 | the leading white space is removed and nothing else |
| Strings.TrimEndOf | server.js:70 | the trailing white space is removed and nothing else |
| Strings.Split | server.js:140 | a split has at least one piece, and no piece holds the separator |
| Strings.SplitJoin | server.js:140 | joining the split pieces with the separator gives the text back |
| Strings.CollapseSpaceSpec | server.js:69 | after collapsing there are no two spaces in a row and no other white space, and the other characters are kept |
| Strings.Before | background.js:349 | the text before the first occurrence of a character, a prefix that does not hold it |
| Numbers.NatToString | popup.js:932 | the decimal digits of a number, with no leading zero |
| Numbers.DigitsValueOfNatToString | popup.js:932 | reading the printed digits gives the number back |
| Numbers.ParseIntDecimal | server.js:219 | `parseInt(s, 10)` is NaN exactly when no digit follows the optional sign |
| Numbers.ParseIntDecimalOfNat | server.js:219 | `parseInt` reads a printed number back |
| Numbers.NumberOfNat | server.js:653 | `Number` reads a printed number back |
| Numbers.RoundDiv | server.js:491 | `Math.round(n / d)`: the quotient rounded with halves up |
| Numbers.JsRem | content.js:587-588 | the truncating `%` of JavaScript agrees with the Euclidean one on non-negative operands |
| Numbers.Pad2 | content.js:589 | `padStart(2, '0')`: at least two characters, zeros in front of the text |
| Lists.Filter | history.js:77 | every kept element satisfies the predicate and comes from the list, and every element of the list that satisfies it is kept |
| Lists.FilterAppend | history.js:77 | filtering a concatenation is filtering each part and joining the results, so `filter` keeps the order and the multiplicity of what it keeps |
| Lists.FilterAll | history.js:77 | a list whose every element satisfies the predicate passes unchanged |
| Lists.FilterSplit | popup.js:335-337 | the k-th kept element sits at some index of the list, and the elements kept before that index are exactly the first k |
| Lists.FirstWhere | popup.js:341 | the first index satisfying the predicate, or -1 |
| Lists.Find | history.js:143 | `find` gives nothing exactly when no element satisfies the predicate, and otherwise the first element that does |
| Lists.FilterHead | popup.js:340 | the head of the filtered list is the first element that satisfies the predicate |
| Lists.FirstNonEmptyNone | content.js:216 | the first non-empty yield is empty exactly when every yield is |
| Lists.FirstNonEmptyFirst | content.js:216 | the first non-empty yield is the yield of one of the elements |

## Left out

- Network, file system and process I/O are parameters or left out: `fetchText`, `ffprobeDuration`, spawning and killing ffmpeg, `fs.existsSync` (a set of existing paths), `openPath`, `/play` range streaming, and the Express request and response plumbing around the handlers.
- WebSocket broadcasts are an appended event log, with only the fields the state machine decides.
- `Date.now`, `Math.random`, `toLocaleTimeString` and `toLocaleDateString` are parameters (`now`, `time`, `localeDate`, `suffix`).
- Floating point: `formatBytes` and `calculateSpeed` are left out. Durations are exact `real`s. For a non-numeric `out_time_ms` the shown time and ETA become `0:00`, as the source's `formatTimeSec` of NaN gives; the source's percentage becomes NaN, and the model keeps the previous percentage instead.
- Numbers.NumberOf: reads only optionally signed decimal numerals (with an optional fraction, whose digits it drops); the exponent, hexadecimal and `Infinity` forms that JavaScript's `Number` accepts read as not a number.
- Everything behind `chrome.*`, the DOM and the UI is left out. That covers popup rendering and progress widgets, thumbnail and metadata scraping, YouTube main-world injection, badge and notification calls, and settings.js.
- The asynchronous `chrome.tabs.get` that sets a tab's `pageUrl` is left out: captured tabs keep their page URL. Races between asynchronous callbacks are not modelled.
- `JSON.parse` of the player response is a parameter (`parse`) of the YouTube scan.
- `typeof` tests: missing fields are the empty string or 0.
- The other `getMetaDuration` sources are left out: meta tags, JSON-LD and visible text.
- The subtitle language and name heuristics of `onBeforeRequest` (query parameters, file and path patterns, `decodeURIComponent`) are an input (`guess`).
- URL parsing (`new URL`) is text splitting at `?` and `#` plus a scheme test. There is no percent-encoding, no dot-segment removal and no host normalisation. A URL that fails to parse is not modelled, so `addTrack`'s early `return`s on a bad relative URL are absent. The one exception is `appendQueryParams`, whose handler returns a target without a scheme unchanged.
- The badge key uses the URL path before `?` and `#`, lower-cased, in place of `origin + pathname`.
- Object key order: JavaScript enumerates integer-like keys first. The model keeps insertion order for the GROUP-ID tables and the `groups` map.
- Case mapping is ASCII only. There is no Unicode case folding and no locale-aware `localeCompare`: the YouTube comparator's `'0'`/`'1'` comparison is the only use, and it is modelled as an integer key.
- Regular expressions are the specific leftmost-match functions the code needs, not a general engine. `\s` is ASCII white space plus a few common Unicode spaces.
- The `extraHeaders`/`requestHeaders` listener options and `capturedHeaders` look-ups by the download path are left out.
- `getStreams`' merging of content-script streams and DOM subtitles into the response is left out; only its de-duplication of the stored lists is modelled.
- Urls.ResolveWithMasterParams: "absolute" means "has a scheme" (`HasScheme`), which is looser than what `new URL` accepts. The manifest URL is taken to parse. The outer handler of `resolveWithMasterParams`, for a reference `new URL` cannot resolve against it, is not modelled. Parameter propagation to a resolved relative reference is proved only against a `scheme://` manifest URL.
- HlsMaster.GroupsOf, HlsMaster.CollectGroups, HlsMaster.VariantOf, QualityCatalog.BuildGroupMap, PageScan.SubtitleCollector.AddTrack: the GROUP-ID, AUDIO, language and URL tables are maps. Keys that name `Object.prototype` members are not modelled: a GROUP-ID or AUDIO value such as `toString`, `constructor` or `hasOwnProperty` finds an inherited function, so `.push`/`.find` throws and `/qualities` answers 500; a `__proto__` language or name key is dropped from the audio group table; and a `constructor` subtitle URL counts as already seen.
- Downloads.Extname: a path ending in `/` gives the empty extension, whereas `path.extname` skips trailing separators first. The output paths it is applied to always end in `.<format>`.
- Popup.FormatDurationPopup: states only when the text is empty. The clock text it prints is the same `ClockText` whose layouts `PageDuration.ClockTextLong` and `ClockTextShort` state.
- Capture.SubtitleFormat: states the four possible formats, not which suffix gives which.

## Findings

| source | as written | input that shows it | evidently intended | confidence | as-written member | corrected member |
|---|---|---|---|---|---|---|
| server.js:76-80 | `filePath.slice(0, -ext.length)` with an empty extension is `slice(0, -0)`, which is the empty string, so the candidate drops the whole path | an existing `/dl/video` (no extension) gives the candidate ` (1)`; `/download` (server.js:566-568) always adds `.<format>`, so it reaches this only when the requested output format contains `/` | the stem is the path without its extension, so the candidate is `/dl/video (1)` | not executed | Downloads.StemAsWrittenLosesPath | Downloads.UniqueOutputPath |
| content.js:235-246 | the seen-check looks up the URL as given, but the URL stored in `seenUrls` is the resolved one | two `<track>` elements with source `//cdn.example/en.vtt` give two tracks with the same URL | a source already collected, once resolved, is not added again | not executed | PageScan.RelativeSourceTwice | PageScan.RelativeSourceTwiceFixed |
