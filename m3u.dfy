/**
  Parsed HLS playlists as the `@eyevinn/m3u8` parser hands them to the
  truncation code: a media playlist is a header plus its `PlaylistItem`
  list (one `#EXTINF` segment each), a master playlist is its
  `#EXT-X-STREAM-INF` items (`StreamItem`) and `#EXT-X-MEDIA` items
  (`MediaItem`), as in section 4.3 of RFC 8216.
 */
module M3u {

  datatype Option<T> = None | Some(value: T)

  /** One media segment: the `#EXTINF` duration and the rest of its lines. */
  datatype Segment = Segment(duration: real, uri: string)

  /** A media playlist: everything that is not a segment stays in `header`. */
  datatype MediaPlaylist = MediaPlaylist(header: seq<string>, items: seq<Segment>)

  /**
    An `#EXT-X-STREAM-INF` item: BANDWIDTH, the variant URI and the optional
    AUDIO and RESOLUTION attributes.
   */
  datatype StreamItem = StreamItem(
    bandwidth: string,
    uri: string,
    audio: Option<string>,
    resolution: Option<string>)

  /**
    An `#EXT-X-MEDIA` item: TYPE, GROUP-ID and NAME are mandatory in
    RFC 8216; LANGUAGE and URI are optional.
   */
  datatype MediaItem = MediaItem(
    mediaType: string,
    groupId: string,
    name: string,
    language: Option<string>,
    uri: Option<string>)

  datatype MasterPlaylist = MasterPlaylist(streams: seq<StreamItem>, media: seq<MediaItem>)

  /**
    A request to load one variant playlist: the bandwidth it is stored under
    and the two arguments given to the URL resolver (base and relative URI).
   */
  datatype MediaRequest = MediaRequest(bandwidth: string, base: Option<string>, uri: string)

  /** JavaScript truthiness of an optional attribute: absent and "" are false. */
  predicate Truthy(a: Option<string>)
  {
    a.Some? && a.value != ""
  }

  /** BANDWIDTH of every stream item, in master order. */
  function Bandwidths(streams: seq<StreamItem>): (r: seq<string>)
    ensures |r| == |streams|
    ensures forall k :: 0 <= k < |streams| ==> r[k] == streams[k].bandwidth
  {
    if streams == [] then []
    else Bandwidths(streams[..|streams| - 1]) + [streams[|streams| - 1].bandwidth]
  }
}
