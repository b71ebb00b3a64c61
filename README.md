# hls-truncate: playlist selection and the segment walk

`HLSTruncateVod` loads an HLS master playlist and the media playlists of its
variants (RFC 8216). It is meant to shorten each variant to a target
duration. The repository has two versions of the class, and this project
models both.

- **index.js** (`LegacyHlsTruncate`, with `SegmentWalk`):
  - It records the BANDWIDTH of every `#EXT-X-STREAM-INF` item and loads one media playlist per item.
  - It keeps the first playlist parsed for each bandwidth.
  - It then walks that playlist's segments, adding up `#EXTINF` durations until the total reaches the target.
  - While the total is still below the target, the walk does not cut the list. It reassigns the item list to itself followed by another copy of the original. The model keeps this behaviour exactly as written: the stored list ends as `1 + Appends` whole copies of the original, where `Appends` counts the walked prefix sums below the target.
- **src/index.ts** (`HlsTruncate`, with `AudioSelection`):
  - It records every bandwidth. It loads as video only the variants whose URI is not the URI of an AUDIO `#EXT-X-MEDIA` item.
  - Once the video loads have all succeeded, it opens an `audioSegments` entry for every audio group that a variant names.
  - Each rendition in such a group gets an empty slot under its language key: LANGUAGE when set, otherwise NAME.
  - A rendition without a URI borrows the URI of the first variant of its group that has no RESOLUTION.
  - Each (group, language key) pair is requested at most once.
- **BaseUrl**: the base URL that both versions derive with `^(.*)\/.*?$`. It is the URI up to and including its last `/`, and it exists only when the URI contains no JavaScript line terminator. index.js leaves it undefined otherwise; src/index.ts uses `''`.

Both classes keep their state in fields that the methods update:
- `bandwiths` / `bandwidths`, `playlists`, `audioSegments` and `m3u`.
- Each loop is a `while` loop proved against a fold defined over the playlist's items (a media playlist's segments for the segment walk, the master playlist's items for the loading loops).
- The properties the source promises are proved as lemmas about those folds.

Design decisions:
- Parsed playlists are values (datatypes). Fetching and parsing are inputs:
  - the legacy `load` takes the parsed master playlist (`None` when parsing fails);
  - it also takes a `fetch` function from bandwidth to the parsed media playlist (`None` when loading or parsing fails), standing for the injected media source of index.js line 99.
- The modern `load` returns the video and audio load requests it issues. The loaders it calls are not defined in src/index.ts. `videoLoaded` stands for whether the `Promise.all` of its video loads resolved.
- A load request records the two arguments given to the URL resolver (base and relative URI), not the resolved URL.
- JavaScript truthiness of an optional attribute is `Truthy`: absent and `""` are false.

## Model

| member | source | states |
|---|---|---|
| M3u.Bandwidths | index.js:26-28 | one BANDWIDTH per stream item, in master order, duplicates kept |
| BaseUrl.MatchBase | index.js:20-24 | matches exactly when the URI has a `/` and no line terminator; the base is a non-empty prefix of the URI that ends in `/`, with no `/` after it in the URI |
| BaseUrl.BaseOrEmpty | src/index.ts:39-44 | `""` exactly when the expression does not match, else the prefix through the last `/` |
| SegmentWalk.Walk | index.js:69-85 | the loop stops at the first prefix whose sum reaches the target (or after every item), so it runs at most the original item count; `length` is that prefix's sum; the item list ends as `1 + Appends` copies of the captured original |
| SegmentWalk.AppendsClosedForm | index.js:77-84 | the number of self-appends is the stop index, minus one when the stopping prefix reached the target |
| SegmentWalk.AppendsCountsPrefixesBelow | index.js:77-85 | with non-negative durations, the self-appends are exactly the prefix sums of the whole list that are below the target |
| SegmentWalk.NonPositiveTargetUnchanged | index.js:77 | a target of zero or less stops before the first item and leaves the list unchanged |
| SegmentWalk.WalkLength | index.js:77-80 | on exit `length` is the first prefix sum that reaches the target, or the total of all items when none does |
| SegmentWalk.SumMonotone | index.js:79 | with non-negative durations the running total never decreases |
| SegmentWalk.RepeatKeepsItems | index.js:82 | the walked list starts with the original list, and every item in it is an original item, durations included |
| SegmentWalk.RepeatLength | index.js:82 | `n` copies hold `n` times the original item count |
| SegmentWalk.SumRepeat | index.js:79-82 | the walked list lasts `n` times the original duration |
| SegmentWalk.RepeatRepeat | index.js:69-82 | walking a list that is already `a` copies of the original gives a whole number of copies of the original |
| LegacyHlsTruncate.Requests | index.js:26-31 | exactly one media-playlist load per stream item, in order, with no audio-only exclusion |
| LegacyHlsTruncate.StoreAndWalk | index.js:64-85 | a parsed playlist is stored only when the bandwidth has none; the stored one keeps its header and ends as whole copies of its items; other bandwidths are untouched |
| LegacyHlsTruncate.LoadOne | index.js:60-91 | a failed load changes nothing; a parsed one adds its bandwidth and touches no other |
| LegacyHlsTruncate.LoadAllKeys | index.js:64-67 | after the loads, the stored bandwidths are the old ones plus every bandwidth whose playlist was parsed |
| LegacyHlsTruncate.LoadAllUntouched | index.js:64-85 | a bandwidth that no load names keeps its stored playlist |
| LegacyHlsTruncate.LoadAllFirstWins | index.js:65-69 | a stored playlist keeps the header of the first playlist stored for its bandwidth, and its items are a whole number of copies of that playlist's items |
| LegacyHlsTruncate.HlsTruncateVod.constructor | index.js:6-11 | stores the URI and target duration, with no playlists and no bandwidths |
| LegacyHlsTruncate.HlsTruncateVod.LoadMediaManifest | index.js:64-85 | a failed load changes nothing; a parsed one is stored only if the bandwidth has none, and then the stored playlist is walked |
| LegacyHlsTruncate.HlsTruncateVod.Load | index.js:13-36 | an unparsable master changes nothing; otherwise it records the master and every bandwidth, issues one request per item against the matched base, runs the loads in order, and succeeds exactly when every playlist parsed |
| LegacyHlsTruncate.HlsTruncateVod.LoadVariants | index.js:26-35 | the loop of `load`: bandwidths, requests and stored playlists after every stream item, and success exactly when all loads parsed |
| LegacyHlsTruncate.HlsTruncateVod.GetBandwidths | index.js:52-54 | returns the recorded bandwidths |
| LegacyHlsTruncate.HlsTruncateVod.GetMediaManifest | index.js:56-58 | the stored playlist for the bandwidth, none when nothing is stored |
| AudioSelection.VideoRequestsExactly | src/index.ts:46-53 | every request is for a variant that is not audio-only and every such variant is requested, i.e. exactly when no AUDIO rendition has its URI; no request otherwise, all requested when none is audio-only |
| AudioSelection.VideoIndicesExactly | src/index.ts:46-53 | the positions of the non-audio-only variants are strictly increasing, in range, and include a position exactly when that variant is not audio-only |
| AudioSelection.VideoRequestsInOrder | src/index.ts:46-53 | the video requests are those positions' variants' requests, one per variant and in master order |
| AudioSelection.FindAudioMedia | src/index.ts:50 | the `.find` returns a rendition exactly when the stream item is audio-only (`IsAudioOnly`: an AUDIO rendition has its URI), and then the first such rendition |
| AudioSelection.GroupItems | src/index.ts:64-66 | the AUDIO renditions of the group, each of them and only those |
| AudioSelection.FirstUsableGroupItems | src/index.ts:64-66 | the `.filter` keeps master order: the first usable rendition among the group's items is the first usable one in the master |
| AudioSelection.LanguageKey | src/index.ts:72-76 | the key is LANGUAGE when it is truthy, NAME otherwise |
| AudioSelection.OpenSlotsClosedForm | src/index.ts:70-82 | of the fold `OpenSlots` over a group's renditions: the slot keys afterwards are the old keys plus every rendition's language key; old slots are untouched and new ones are empty |
| AudioSelection.OpenSlotsIdempotent | src/index.ts:77-80 | opening the same renditions' slots again changes nothing |
| AudioSelection.FindAudioVariant | src/index.ts:90-92 | none exactly when no variant of the group lacks RESOLUTION (the predicate `IsAudioVariant`), else the first such variant |
| AudioSelection.AudioUri | src/index.ts:87-97 | a rendition's own truthy URI wins; a rendition without one borrows a URI exactly when the first variant of its group without RESOLUTION exists and has a non-empty URI, and then it is that URI; otherwise nothing is loaded |
| AudioSelection.RequestOneKeys | src/index.ts:97-107 | one rendition adds a request only when it has a URI and its (group, language key) pair was not requested yet, keeping the pairs distinct |
| AudioSelection.GroupRequestsKeys | src/index.ts:97-107 | one group's loop keeps the requested pairs distinct and adds exactly the pairs of its renditions that have a URI |
| AudioSelection.GroupRequestsSound | src/index.ts:97-107 | one group's loop only appends, and each new request comes from a rendition of the group with that language key and URI |
| AudioSelection.AudioRequestsExactlyLoadable | src/index.ts:56-109 | across all stream items, no (group, language key) pair is requested twice, and the pairs requested are exactly those of AUDIO renditions of named groups that have a URI |
| AudioSelection.AudioRequestsSound | src/index.ts:85-107 | every audio request names a group of some stream item and comes from an AUDIO rendition of that group with the request's language key and URI |
| AudioSelection.FirstUsableUriSpec | src/index.ts:85-107 | the first usable rendition for a (group, language key): none exactly when no rendition is usable, else the URI of the first usable one |
| AudioSelection.GroupRequestsFirst | src/index.ts:97-107 | one group's loop requests each new pair with the URI of the pair's first usable rendition |
| AudioSelection.AudioRequestsFirst | src/index.ts:99-107 | a later rendition never loads over an earlier one: every audio request carries the URI of the first rendition, in master order, that is usable for its group and language key |
| AudioSelection.AudioRequestsBound | src/index.ts:99-107 | the number of audio loads is at most the number of distinct (group, language key) pairs |
| AudioSelection.AudioSegmentsKeys | src/index.ts:56-62 | every group named by a stream item's AUDIO gets an entry, even with no track loaded, and no other group is added |
| AudioSelection.AudioSegmentsSlots | src/index.ts:56-82 | a named group's slots are its old slots plus an empty slot per language key of its renditions; other groups keep what they had |
| HlsTruncate.RequestGroup | src/index.ts:85-109 | the request loop of one group, proved against the group fold, with the local record of requested pairs equal to the pairs requested |
| HlsTruncate.HlsTruncateVod.constructor | src/index.ts:17-29 | stores the URI and target duration; audio duration zero, all maps empty |
| HlsTruncate.HlsTruncateVod.Load | src/index.ts:35-113 | records the master and every bandwidth, issues the video requests, and runs the audio phase (slots and requests) only when the video loads succeeded, which they always do when there are none |
| HlsTruncate.HlsTruncateVod.LoadVariants | src/index.ts:46-53 | every bandwidth appended in order; the video requests are those of the non-audio-only variants |
| HlsTruncate.HlsTruncateVod.LoadAudioGroups | src/index.ts:55-111 | the audio phase over the stream items with a truthy AUDIO: the `audioSegments` and requests the folds define |
| HlsTruncate.HlsTruncateVod.OpenGroup | src/index.ts:60-82 | opens the group's entry if absent and a slot per language key if absent; returns each rendition's language key in order, and changes no other group |

## Left out

- Fetching, stream piping, the `@eyevinn/m3u8` parser and `toString` serialisation are I/O or foreign library calls. Parsed playlists are inputs.
- The parser's `error` handlers of index.js are modelled as a `None` input.
- HlsTruncate.HlsTruncateVod.Load models the body of the `m3u` handler of src/index.ts (lines 35-113), with the parsed master playlist as input. src/index.ts never pipes a master stream into its parser: `fetch` is imported but not called and `_injectMasterManifest` is unused, so as written the handler never runs and `load` never settles. The file as written also has one `});` too many at line 117. A master parse failure there would raise an unhandled `error` event, which is not modelled.
- Promises: the loads run sequentially, in the order they are issued. Their completion order is taken to be that order.
- `url.resolve` and `new URL` are library calls. A request keeps the base and relative URI it passes to them. `url` is not imported in src/index.ts, and that is not modelled.
- The URL resolver is assumed never to throw. It does throw in index.js when the base expression does not match (`url.resolve` with an undefined base, line 29), and in src/index.ts when the base is `''` or not an absolute URL (`new URL`, line 49). The `m3u` handler then stops after recording one bandwidth, and `load` never settles. LegacyHlsTruncate.HlsTruncateVod.Load and HlsTruncate.HlsTruncateVod.Load instead issue every request.
- Durations are `real`, so the rounding of IEEE doubles in the running total is not modelled.
- The constructor's `options` argument is ignored by index.js and is not modelled.
- Nearest-boundary snapping, start offsets, audio alignment and subtitle handling are not in index.js or src/index.ts. They are not modelled.
- `_loadMediaManifest` and `_loadAudioManifest` of src/index.ts are not part of this model: the file calls them but does not define them. Its `Load` returns the requests it would pass to them.
- `getMediaManifest`, `getAudioManifest` and `getSubtitleManifest` of src/index.ts are not part of this model: the file does not define them.
- index.js fetches a media playlist by URL when no media source is injected. Only the injected source, keyed by bandwidth, is modelled.
- A rendition without NAME and without LANGUAGE would be stored under the key `undefined`. NAME is required by RFC 8216, so the model treats it as always present.
- LegacyHlsTruncate.HlsTruncateVod.LoadMediaManifest: the walk reassigns the stored item list on every pass; the model stores the final list once, because the intermediate lists cannot be observed by a single-threaded caller.
- Parsed playlists are values, so a master or media playlist object shared between several map entries (aliasing) is not modelled.
- JavaScript object keys are modelled as strings; a bandwidth is stored under its string form.
- Inherited object members are not modelled: the slot tables and the at-most-once table are plain JavaScript objects, so a GROUP-ID or language key that names an `Object.prototype` member (`constructor`, `toString`, ...) already reads as truthy at src/index.ts:60, 78, 99 and 104; the source then opens no slot and loads no audio playlist for it, while OpenSlots and RequestOne treat every key as absent until set.
