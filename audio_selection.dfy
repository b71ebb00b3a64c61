/**
  The selection rules of `load` in src/index.ts over the master playlist's
  `#EXT-X-STREAM-INF` and `#EXT-X-MEDIA` items (sections 4.3.4.1 and
  4.3.4.2 of RFC 8216): which variants are loaded as video, which audio
  renditions belong to a group, the key a rendition is stored under, the URI
  a rendition is loaded from, and the at-most-once rule per group and key.
  The loops of `load` are proved against the folds defined here.
 */
module AudioSelection {
  import opened M3u

  type AudioSegMap = map<string, map<string, seq<Segment>>>

  /** Identity of an audio track: its group and its language key. */
  datatype VariantKey = VariantKey(groupId: string, language: string)

  /** A request to load one audio playlist: the two URL-resolver arguments and where it is stored. */
  datatype AudioRequest = AudioRequest(groupId: string, language: string, base: string, uri: string)

  predicate IsAudio(m: MediaItem)
  {
    m.mediaType == "AUDIO"
  }

  /** The test of the `.find` of line 50: an AUDIO rendition whose URI equals the stream item's. */
  predicate IsAudioOf(m: MediaItem, s: StreamItem)
  {
    IsAudio(m) && m.uri == Some(s.uri)
  }

  /** The stream item is audio-only: some AUDIO rendition has its URI. */
  predicate IsAudioOnly(media: seq<MediaItem>, s: StreamItem)
  {
    exists k :: 0 <= k < |media| && IsAudioOf(media[k], s)
  }

  /**
    The `.find` of line 50: the first AUDIO rendition with the stream item's
    URI. It finds one exactly when the stream item is audio-only.
   */
  function FindAudioMedia(media: seq<MediaItem>, s: StreamItem): (r: Option<MediaItem>)
    ensures r.Some? <==> IsAudioOnly(media, s)
    ensures r.Some? ==> exists k :: 0 <= k < |media| && media[k] == r.value && IsAudioOf(r.value, s)
                                   && forall j :: 0 <= j < k ==> !IsAudioOf(media[j], s)
  {
    if media == [] then None
    else if IsAudioOf(media[0], s) then Some(media[0])
    else
      var r := FindAudioMedia(media[1..], s);
      assert forall k :: 0 < k < |media| ==> media[1..][k - 1] == media[k];
      r
  }

  function VideoRequest(base: string, s: StreamItem): MediaRequest
  {
    MediaRequest(s.bandwidth, Some(base), s.uri)
  }

  /**
    The video loads of lines 46-53, in master order: a stream item is loaded
    exactly when it is not audio-only.
   */
  function VideoRequests(base: string, streams: seq<StreamItem>, media: seq<MediaItem>): seq<MediaRequest>
  {
    if streams == [] then []
    else
      var s := streams[|streams| - 1];
      var before := VideoRequests(base, streams[..|streams| - 1], media);
      if IsAudioOnly(media, s) then before else before + [VideoRequest(base, s)]
  }

  /** The positions of the stream items that are not audio-only, in master order. */
  function VideoIndices(streams: seq<StreamItem>, media: seq<MediaItem>): seq<nat>
  {
    if streams == [] then []
    else
      var before := VideoIndices(streams[..|streams| - 1], media);
      if IsAudioOnly(media, streams[|streams| - 1]) then before else before + [|streams| - 1]
  }

  /**
    The positions of the non-audio-only items, each once and in increasing
    order: the index sequence is strictly increasing and holds a position
    exactly when the item there is not audio-only.
   */
  lemma {:induction false} VideoIndicesExactly(streams: seq<StreamItem>, media: seq<MediaItem>)
    ensures var idx := VideoIndices(streams, media);
      && (forall i :: 0 <= i < |idx| ==> idx[i] < |streams|)
      && (forall i, j :: 0 <= i < j < |idx| ==> idx[i] < idx[j])
      && (forall k :: 0 <= k < |streams| ==> (k in idx <==> !IsAudioOnly(media, streams[k])))
  {
    if streams != [] {
      var prefix := streams[..|streams| - 1];
      VideoIndicesExactly(prefix, media);
      assert forall k :: 0 <= k < |prefix| ==> prefix[k] == streams[k];
    }
  }

  /**
    The requests are the non-audio-only variants' requests in master order,
    one request each: request i is the one for the variant at position i of
    VideoIndices, whose positions are increasing and cover exactly the
    non-audio-only variants (VideoIndicesExactly).
   */
  lemma {:induction false} VideoRequestsInOrder(base: string, streams: seq<StreamItem>, media: seq<MediaItem>)
    ensures var r := VideoRequests(base, streams, media);
      var idx := VideoIndices(streams, media);
      && |r| == |idx|
      && (forall i :: 0 <= i < |idx| ==> idx[i] < |streams| && r[i] == VideoRequest(base, streams[idx[i]]))
  {
    if streams != [] {
      var prefix := streams[..|streams| - 1];
      VideoRequestsInOrder(base, prefix, media);
      VideoIndicesExactly(prefix, media);
      assert forall k :: 0 <= k < |prefix| ==> prefix[k] == streams[k];
    }
  }

  /**
    Every request is for a variant that is not audio-only and every such
    variant is requested, so none is requested when every variant is
    audio-only and all of them are when none is.
   */
  lemma {:induction false} VideoRequestsExactly(base: string, streams: seq<StreamItem>, media: seq<MediaItem>)
    ensures var r := VideoRequests(base, streams, media);
      && |r| <= |streams|
      && (forall q :: q in r ==>
            exists k :: 0 <= k < |streams| && !IsAudioOnly(media, streams[k]) && q == VideoRequest(base, streams[k]))
      && (forall k :: 0 <= k < |streams| && !IsAudioOnly(media, streams[k]) ==> VideoRequest(base, streams[k]) in r)
      && ((forall k :: 0 <= k < |streams| ==> !IsAudioOnly(media, streams[k])) ==> |r| == |streams|)
      && ((forall k :: 0 <= k < |streams| ==> IsAudioOnly(media, streams[k])) ==> r == [])
  {
    if streams != [] {
      var prefix := streams[..|streams| - 1];
      var s := streams[|streams| - 1];
      VideoRequestsExactly(base, prefix, media);
      assert forall k :: 0 <= k < |prefix| ==> prefix[k] == streams[k];
    }
  }

  predicate InGroup(m: MediaItem, g: string)
  {
    IsAudio(m) && m.groupId == g
  }

  /** The `.filter` of lines 64-66: the AUDIO renditions of group `g`, in master order. */
  function GroupItems(media: seq<MediaItem>, g: string): (r: seq<MediaItem>)
    ensures |r| <= |media|
    ensures forall k :: 0 <= k < |r| ==> InGroup(r[k], g) && r[k] in media
    ensures forall m :: m in media && InGroup(m, g) ==> m in r
  {
    if media == [] then []
    else
      var before := GroupItems(media[..|media| - 1], g);
      var m := media[|media| - 1];
      assert media == media[..|media| - 1] + [m];
      if InGroup(m, g) then before + [m] else before
  }

  /** Lines 72-76: LANGUAGE when it is truthy, NAME otherwise. */
  function LanguageKey(m: MediaItem): (r: string)
    ensures Truthy(m.language) ==> Some(r) == m.language
    ensures !Truthy(m.language) ==> r == m.name
  {
    if !Truthy(m.language) then m.name else m.language.value
  }

  function LanguageKeys(items: seq<MediaItem>): set<string>
  {
    set m | m in items :: LanguageKey(m)
  }

  /** Lines 77-80 for every rendition of a group, in order. */
  function OpenSlots(slots: map<string, seq<Segment>>, items: seq<MediaItem>): map<string, seq<Segment>>
  {
    if items == [] then slots
    else
      var before := OpenSlots(slots, items[..|items| - 1]);
      var key := LanguageKey(items[|items| - 1]);
      if key in before then before else before[key := []]
  }

  /**
    A slot is created, empty, only for a language key that has none: the
    keys afterwards are the old ones plus every rendition's key, and every
    old slot is untouched.
   */
  lemma {:induction false} OpenSlotsClosedForm(slots: map<string, seq<Segment>>, items: seq<MediaItem>)
    ensures var r := OpenSlots(slots, items);
      && r.Keys == slots.Keys + LanguageKeys(items)
      && (forall k :: k in slots ==> r[k] == slots[k])
      && (forall k :: k in r && k !in slots ==> r[k] == [])
  {
    if items != [] {
      var prefix := items[..|items| - 1];
      var m := items[|items| - 1];
      OpenSlotsClosedForm(slots, prefix);
      assert items == prefix + [m];
      assert LanguageKeys(items) == LanguageKeys(prefix) + {LanguageKey(m)};
    }
  }

  /** The `.find` predicate of lines 90-92. */
  predicate IsAudioVariant(s: StreamItem, g: string)
  {
    !Truthy(s.resolution) && s.audio == Some(g)
  }

  /** Index of the first audio variant of `g` at or after `from`. */
  function FirstVariantFrom(streams: seq<StreamItem>, g: string, from: nat): (r: Option<nat>)
    requires from <= |streams|
    ensures r.Some? ==> from <= r.value < |streams| && IsAudioVariant(streams[r.value], g)
    ensures r.Some? ==> forall j :: from <= j < r.value ==> !IsAudioVariant(streams[j], g)
    ensures r.None? ==> forall j :: from <= j < |streams| ==> !IsAudioVariant(streams[j], g)
    decreases |streams| - from
  {
    if from == |streams| then None
    else if IsAudioVariant(streams[from], g) then Some(from)
    else FirstVariantFrom(streams, g, from + 1)
  }

  /** The `.find` of lines 90-92: the first stream item without RESOLUTION in group `g`. */
  function FindAudioVariant(streams: seq<StreamItem>, g: string): (r: Option<StreamItem>)
    ensures r.None? <==> forall k :: 0 <= k < |streams| ==> !IsAudioVariant(streams[k], g)
    ensures r.Some? ==> exists k :: 0 <= k < |streams| && streams[k] == r.value && IsAudioVariant(r.value, g)
                                   && forall j :: 0 <= j < k ==> !IsAudioVariant(streams[j], g)
  {
    match FirstVariantFrom(streams, g, 0)
    case None => None
    case Some(k) => Some(streams[k])
  }

  /**
    Lines 87-97: the rendition's own URI when truthy, else the URI of the
    first stream item without RESOLUTION in the group; None when the result
    is still falsy, in which case nothing is loaded.
   */
  function AudioUri(streams: seq<StreamItem>, g: string, m: MediaItem): (r: Option<string>)
    ensures r.Some? ==> r.value != ""
    ensures Truthy(m.uri) ==> r == m.uri
    ensures !Truthy(m.uri) && r.Some? ==>
      exists k :: 0 <= k < |streams| && IsAudioVariant(streams[k], g) && streams[k].uri == r.value
                  && forall j :: 0 <= j < k ==> !IsAudioVariant(streams[j], g)
    ensures !Truthy(m.uri) && (forall k :: 0 <= k < |streams| ==> !IsAudioVariant(streams[k], g)) ==> r.None?
    ensures !Truthy(m.uri) ==>
      (r.Some? <==> exists k :: 0 <= k < |streams| && IsAudioVariant(streams[k], g)
                                && (forall j :: 0 <= j < k ==> !IsAudioVariant(streams[j], g)) && streams[k].uri != "")
  {
    if Truthy(m.uri) then m.uri
    else match FindAudioVariant(streams, g)
      case None => None
      case Some(s) => if s.uri != "" then Some(s.uri) else None
  }

  function KeyOf(q: AudioRequest): VariantKey
  {
    VariantKey(q.groupId, q.language)
  }

  function Keys(reqs: seq<AudioRequest>): set<VariantKey>
  {
    set q | q in reqs :: KeyOf(q)
  }

  predicate DistinctKeys(reqs: seq<AudioRequest>)
  {
    forall i, j :: 0 <= i < j < |reqs| ==> KeyOf(reqs[i]) != KeyOf(reqs[j])
  }

  /** Lines 97-107 for one rendition: load it unless its key was already loaded. */
  function RequestOne(reqs: seq<AudioRequest>, base: string, g: string, m: MediaItem, streams: seq<StreamItem>)
    : seq<AudioRequest>
  {
    match AudioUri(streams, g, m)
    case None => reqs
    case Some(u) =>
      if VariantKey(g, LanguageKey(m)) in Keys(reqs) then reqs
      else reqs + [AudioRequest(g, LanguageKey(m), base, u)]
  }

  /** Lines 85-109: every rendition of group `g`, in order. */
  function GroupRequests(reqs: seq<AudioRequest>, base: string, g: string, items: seq<MediaItem>,
                         streams: seq<StreamItem>): seq<AudioRequest>
  {
    if items == [] then reqs
    else RequestOne(GroupRequests(reqs, base, g, items[..|items| - 1], streams), base, g, items[|items| - 1], streams)
  }

  /** The groups named by the AUDIO attribute of a stream item in `streams`. */
  function NamedGroups(streams: seq<StreamItem>): set<string>
  {
    set s | s in streams && Truthy(s.audio) :: s.audio.value
  }

  /** Audio requests of lines 56-111 after the stream items `prefix` of `streams`. */
  function AudioPhaseRequests(base: string, prefix: seq<StreamItem>, streams: seq<StreamItem>, media: seq<MediaItem>)
    : seq<AudioRequest>
  {
    if prefix == [] then []
    else
      var before := AudioPhaseRequests(base, prefix[..|prefix| - 1], streams, media);
      var s := prefix[|prefix| - 1];
      if Truthy(s.audio) then GroupRequests(before, base, s.audio.value, GroupItems(media, s.audio.value), streams)
      else before
  }

  /** The slots of group `g` before lines 58-62 make sure it has an entry. */
  function SlotsOf(segs: AudioSegMap, g: string): map<string, seq<Segment>>
  {
    if g in segs then segs[g] else map[]
  }

  /** `audioSegments` after the stream items `prefix` (lines 56-82). */
  function AudioPhaseSegments(segs: AudioSegMap, prefix: seq<StreamItem>, media: seq<MediaItem>): AudioSegMap
  {
    if prefix == [] then segs
    else
      var before := AudioPhaseSegments(segs, prefix[..|prefix| - 1], media);
      var s := prefix[|prefix| - 1];
      if Truthy(s.audio) then
        var g := s.audio.value;
        before[g := OpenSlots(SlotsOf(before, g), GroupItems(media, g))]
      else before
  }

  /**
    The (group, language key) pairs the audio phase can load after the
    stream items `prefix`: AUDIO renditions of a group named in `prefix` that
    have a usable URI.
   */
  function Loadable(prefix: seq<StreamItem>, streams: seq<StreamItem>, media: seq<MediaItem>): set<VariantKey>
  {
    set m | m in media && IsAudio(m) && m.groupId in NamedGroups(prefix) && AudioUri(streams, m.groupId, m).Some?
      :: VariantKey(m.groupId, LanguageKey(m))
  }

  /** Every (group, language key) pair of an AUDIO rendition in a named group. */
  function AllPairs(streams: seq<StreamItem>, media: seq<MediaItem>): set<VariantKey>
  {
    set m | m in media && IsAudio(m) && m.groupId in NamedGroups(streams) :: VariantKey(m.groupId, LanguageKey(m))
  }

  lemma RequestOneKeys(reqs: seq<AudioRequest>, base: string, g: string, m: MediaItem, streams: seq<StreamItem>)
    ensures var r := RequestOne(reqs, base, g, m, streams);
      && (DistinctKeys(reqs) ==> DistinctKeys(r))
      && Keys(r) == Keys(reqs) + (if AudioUri(streams, g, m).Some? then {VariantKey(g, LanguageKey(m))} else {})
      && (r == reqs || (AudioUri(streams, g, m).Some?
                        && r == reqs + [AudioRequest(g, LanguageKey(m), base, AudioUri(streams, g, m).value)]))
  {
    var r := RequestOne(reqs, base, g, m, streams);
    if r != reqs {
      var q := AudioRequest(g, LanguageKey(m), base, AudioUri(streams, g, m).value);
      assert r == reqs + [q];
      assert Keys(r) == Keys(reqs) + {KeyOf(q)};
      if DistinctKeys(reqs) {
        forall i | 0 <= i < |reqs| ensures KeyOf(r[i]) != KeyOf(q) {
          assert r[i] == reqs[i] && reqs[i] in reqs;
        }
      }
    }
  }

  /** The (group, language key) pairs of the renditions in `items` that have a URI to load. */
  function UsableKeys(g: string, items: seq<MediaItem>, streams: seq<StreamItem>): set<VariantKey>
  {
    set m | m in items && AudioUri(streams, g, m).Some? :: VariantKey(g, LanguageKey(m))
  }

  lemma UsableKeysSnoc(g: string, prefix: seq<MediaItem>, m: MediaItem, streams: seq<StreamItem>)
    ensures UsableKeys(g, prefix + [m], streams)
         == UsableKeys(g, prefix, streams) + (if AudioUri(streams, g, m).Some? then {VariantKey(g, LanguageKey(m))} else {})
  {
  }

  /** The keys requested for one group: those already requested plus every usable rendition's key. */
  lemma {:induction false} GroupRequestsKeys(reqs: seq<AudioRequest>, base: string, g: string,
                                             items: seq<MediaItem>, streams: seq<StreamItem>)
    ensures var r := GroupRequests(reqs, base, g, items, streams);
      && (DistinctKeys(reqs) ==> DistinctKeys(r))
      && Keys(r) == Keys(reqs) + UsableKeys(g, items, streams)
  {
    if items != [] {
      var prefix := items[..|items| - 1];
      var m := items[|items| - 1];
      GroupRequestsKeys(reqs, base, g, prefix, streams);
      RequestOneKeys(GroupRequests(reqs, base, g, prefix, streams), base, g, m, streams);
      assert items == prefix + [m];
      UsableKeysSnoc(g, prefix, m, streams);
    }
  }

  lemma {:induction false} GroupRequestsSound(reqs: seq<AudioRequest>, base: string, g: string,
                                              items: seq<MediaItem>, streams: seq<StreamItem>)
    ensures var r := GroupRequests(reqs, base, g, items, streams);
      && |reqs| <= |r| && r[..|reqs|] == reqs
      && forall i :: |reqs| <= i < |r| ==>
           r[i].groupId == g && r[i].base == base
           && exists m :: m in items && LanguageKey(m) == r[i].language && AudioUri(streams, g, m) == Some(r[i].uri)
  {
    if items != [] {
      var prefix := items[..|items| - 1];
      var m := items[|items| - 1];
      GroupRequestsSound(reqs, base, g, prefix, streams);
      var before := GroupRequests(reqs, base, g, prefix, streams);
      RequestOneKeys(before, base, g, m, streams);
      assert forall x :: x in prefix ==> x in items;
    }
  }

  lemma NamedGroupsSnoc(prefix: seq<StreamItem>, s: StreamItem)
    ensures NamedGroups(prefix + [s]) == NamedGroups(prefix) + (if Truthy(s.audio) then {s.audio.value} else {})
  {
    assert forall x :: x in prefix + [s] <==> x in prefix || x == s;
  }

  lemma GroupItemsUsable(media: seq<MediaItem>, g: string, streams: seq<StreamItem>)
    ensures UsableKeys(g, GroupItems(media, g), streams)
         == (set m | m in media && IsAudio(m) && m.groupId == g && AudioUri(streams, g, m).Some?
               :: VariantKey(m.groupId, LanguageKey(m)))
  {
    var items := GroupItems(media, g);
    forall m | m in items ensures m in media && InGroup(m, g) {
      var k :| 0 <= k < |items| && items[k] == m;
    }
  }

  /**
    At most once per (group, language key): the audio phase never requests
    the same pair twice, and the pairs it requests are exactly the loadable
    ones.
   */
  lemma {:induction false} AudioRequestsExactlyLoadable(base: string, prefix: seq<StreamItem>,
                                                        streams: seq<StreamItem>, media: seq<MediaItem>)
    ensures DistinctKeys(AudioPhaseRequests(base, prefix, streams, media))
    ensures Keys(AudioPhaseRequests(base, prefix, streams, media)) == Loadable(prefix, streams, media)
  {
    if prefix != [] {
      var before := prefix[..|prefix| - 1];
      var s := prefix[|prefix| - 1];
      AudioRequestsExactlyLoadable(base, before, streams, media);
      assert prefix == before + [s];
      NamedGroupsSnoc(before, s);
      if Truthy(s.audio) {
        var g := s.audio.value;
        GroupRequestsKeys(AudioPhaseRequests(base, before, streams, media), base, g, GroupItems(media, g), streams);
        GroupItemsUsable(media, g, streams);
        assert Loadable(prefix, streams, media) == Loadable(before, streams, media)
          + (set m | m in media && IsAudio(m) && m.groupId == g && AudioUri(streams, m.groupId, m).Some?
               :: VariantKey(m.groupId, LanguageKey(m)));
      } else {
        assert Loadable(prefix, streams, media) == Loadable(before, streams, media);
      }
    }
  }

  /**
    Every audio request names a group of some stream item in `prefix`, is
    resolved against `base`, and comes from an AUDIO rendition of that group
    with that language key whose usable URI is the request's.
   */
  lemma {:induction false} AudioRequestsSound(base: string, prefix: seq<StreamItem>,
                                              streams: seq<StreamItem>, media: seq<MediaItem>)
    ensures forall q :: q in AudioPhaseRequests(base, prefix, streams, media) ==>
      && q.groupId in NamedGroups(prefix) && q.base == base
      && exists m :: m in media && InGroup(m, q.groupId) && LanguageKey(m) == q.language
                     && AudioUri(streams, q.groupId, m) == Some(q.uri)
  {
    if prefix != [] {
      var before := prefix[..|prefix| - 1];
      var s := prefix[|prefix| - 1];
      AudioRequestsSound(base, before, streams, media);
      assert prefix == before + [s];
      NamedGroupsSnoc(before, s);
      if Truthy(s.audio) {
        var g := s.audio.value;
        var reqs := AudioPhaseRequests(base, before, streams, media);
        var items := GroupItems(media, g);
        GroupRequestsSound(reqs, base, g, items, streams);
        var r := GroupRequests(reqs, base, g, items, streams);
        forall q | q in r
          ensures && q.groupId in NamedGroups(prefix) && q.base == base
                  && exists m :: m in media && InGroup(m, q.groupId) && LanguageKey(m) == q.language
                                 && AudioUri(streams, q.groupId, m) == Some(q.uri)
        {
          var i :| 0 <= i < |r| && r[i] == q;
          if i < |reqs| {
            assert q == reqs[i] && reqs[i] in reqs;
          } else {
            var m :| m in items && LanguageKey(m) == q.language && AudioUri(streams, g, m) == Some(q.uri);
            var k :| 0 <= k < |items| && items[k] == m;
          }
        }
      }
    }
  }

  /**
    A rendition lines 85-107 can load for group `g` under language key
    `lang`: an AUDIO rendition of the group with that key and a usable URI.
   */
  predicate Usable(m: MediaItem, g: string, lang: string, streams: seq<StreamItem>)
  {
    InGroup(m, g) && LanguageKey(m) == lang && AudioUri(streams, g, m).Some?
  }

  /** The URI of the first usable rendition in `items`, if any. */
  function FirstUsableUri(items: seq<MediaItem>, g: string, lang: string, streams: seq<StreamItem>): Option<string>
  {
    if items == [] then None
    else
      var before := FirstUsableUri(items[..|items| - 1], g, lang, streams);
      var m := items[|items| - 1];
      if before.Some? then before
      else if Usable(m, g, lang, streams) then AudioUri(streams, g, m)
      else None
  }

  /** `FirstUsableUri` finds the URI of the first usable rendition, and finds one whenever there is one. */
  lemma {:induction false} FirstUsableUriSpec(items: seq<MediaItem>, g: string, lang: string, streams: seq<StreamItem>)
    ensures var r := FirstUsableUri(items, g, lang, streams);
      && (r.None? <==> forall k :: 0 <= k < |items| ==> !Usable(items[k], g, lang, streams))
      && (r.Some? ==> exists k :: 0 <= k < |items| && Usable(items[k], g, lang, streams)
                                  && AudioUri(streams, g, items[k]) == r
                                  && forall j :: 0 <= j < k ==> !Usable(items[j], g, lang, streams))
  {
    if items != [] {
      var prefix := items[..|items| - 1];
      var last := |items| - 1;
      FirstUsableUriSpec(prefix, g, lang, streams);
      assert forall k :: 0 <= k < |prefix| ==> prefix[k] == items[k];
      var r := FirstUsableUri(items, g, lang, streams);
      if FirstUsableUri(prefix, g, lang, streams).None? && r.Some? {
        assert Usable(items[last], g, lang, streams) && AudioUri(streams, g, items[last]) == r;
      }
    }
  }

  lemma FirstUsableUriKeys(items: seq<MediaItem>, g: string, lang: string, streams: seq<StreamItem>)
    ensures FirstUsableUri(items, g, lang, streams).Some? ==> VariantKey(g, lang) in UsableKeys(g, items, streams)
  {
    FirstUsableUriSpec(items, g, lang, streams);
  }

  /** The `.filter` of lines 64-66 keeps master order: its first usable rendition is the master's. */
  lemma {:induction false} FirstUsableGroupItems(media: seq<MediaItem>, g: string, lang: string, streams: seq<StreamItem>)
    ensures FirstUsableUri(GroupItems(media, g), g, lang, streams) == FirstUsableUri(media, g, lang, streams)
  {
    if media != [] {
      var prefix := media[..|media| - 1];
      var m := media[|media| - 1];
      FirstUsableGroupItems(prefix, g, lang, streams);
      if InGroup(m, g) {
        var items := GroupItems(prefix, g) + [m];
        assert items[..|items| - 1] == GroupItems(prefix, g);
      }
    }
  }

  /** One group's loop requests each new key with the URI of the key's first usable rendition. */
  lemma {:induction false} GroupRequestsFirst(reqs: seq<AudioRequest>, base: string, g: string,
                                              items: seq<MediaItem>, streams: seq<StreamItem>)
    requires forall k :: 0 <= k < |items| ==> InGroup(items[k], g)
    ensures var r := GroupRequests(reqs, base, g, items, streams);
      forall i :: |reqs| <= i < |r| ==> FirstUsableUri(items, g, r[i].language, streams) == Some(r[i].uri)
  {
    if items != [] {
      var prefix := items[..|items| - 1];
      var m := items[|items| - 1];
      var before := GroupRequests(reqs, base, g, prefix, streams);
      var r := GroupRequests(reqs, base, g, items, streams);
      GroupRequestsFirst(reqs, base, g, prefix, streams);
      GroupRequestsSound(reqs, base, g, prefix, streams);
      GroupRequestsKeys(reqs, base, g, prefix, streams);
      RequestOneKeys(before, base, g, m, streams);
      forall i | |reqs| <= i < |r|
        ensures FirstUsableUri(items, g, r[i].language, streams) == Some(r[i].uri)
      {
        if i < |before| {
          assert r[i] == before[i];
        } else {
          FirstUsableUriKeys(prefix, g, LanguageKey(m), streams);
        }
      }
    }
  }

  /**
    Lines 99-107 keep the first rendition: every audio request carries the
    URI of the first rendition, in master order, that is usable for its
    group and language key, so a later rendition never loads over it.
   */
  lemma {:induction false} AudioRequestsFirst(base: string, prefix: seq<StreamItem>,
                                              streams: seq<StreamItem>, media: seq<MediaItem>)
    ensures forall q :: q in AudioPhaseRequests(base, prefix, streams, media) ==>
      exists k :: 0 <= k < |media| && Usable(media[k], q.groupId, q.language, streams)
                  && AudioUri(streams, q.groupId, media[k]) == Some(q.uri)
                  && forall j :: 0 <= j < k ==> !Usable(media[j], q.groupId, q.language, streams)
  {
    AudioRequestsFirstUri(base, prefix, streams, media);
    forall q | q in AudioPhaseRequests(base, prefix, streams, media)
      ensures exists k :: 0 <= k < |media| && Usable(media[k], q.groupId, q.language, streams)
                          && AudioUri(streams, q.groupId, media[k]) == Some(q.uri)
                          && forall j :: 0 <= j < k ==> !Usable(media[j], q.groupId, q.language, streams)
    {
      FirstUsableUriSpec(media, q.groupId, q.language, streams);
    }
  }

  lemma {:induction false} AudioRequestsFirstUri(base: string, prefix: seq<StreamItem>,
                                                 streams: seq<StreamItem>, media: seq<MediaItem>)
    ensures forall q :: q in AudioPhaseRequests(base, prefix, streams, media) ==>
      FirstUsableUri(media, q.groupId, q.language, streams) == Some(q.uri)
  {
    if prefix != [] {
      var before := prefix[..|prefix| - 1];
      var s := prefix[|prefix| - 1];
      AudioRequestsFirstUri(base, before, streams, media);
      if Truthy(s.audio) {
        var g := s.audio.value;
        var reqs := AudioPhaseRequests(base, before, streams, media);
        var items := GroupItems(media, g);
        GroupRequestsFirst(reqs, base, g, items, streams);
        GroupRequestsSound(reqs, base, g, items, streams);
        var r := GroupRequests(reqs, base, g, items, streams);
        forall q | q in r
          ensures FirstUsableUri(media, q.groupId, q.language, streams) == Some(q.uri)
        {
          var i :| 0 <= i < |r| && r[i] == q;
          if i < |reqs| {
            assert q == reqs[i] && reqs[i] in reqs;
          } else {
            FirstUsableGroupItems(media, g, q.language, streams);
          }
        }
      }
    }
  }

  lemma {:induction false} DistinctKeysCount(reqs: seq<AudioRequest>)
    requires DistinctKeys(reqs)
    ensures |Keys(reqs)| == |reqs|
  {
    if reqs != [] {
      var prefix := reqs[..|reqs| - 1];
      var q := reqs[|reqs| - 1];
      assert reqs == prefix + [q];
      assert DistinctKeys(prefix) by {
        forall i, j | 0 <= i < j < |prefix|
          ensures KeyOf(prefix[i]) != KeyOf(prefix[j])
        {
          assert prefix[i] == reqs[i] && prefix[j] == reqs[j];
        }
      }
      DistinctKeysCount(prefix);
      assert KeyOf(q) !in Keys(prefix) by {
        forall x | x in prefix
          ensures KeyOf(x) != KeyOf(q)
        {
          var i :| 0 <= i < |prefix| && prefix[i] == x;
          assert reqs[i] == x;
        }
      }
      KeysSnoc(prefix, q);
    }
  }

  lemma KeysSnoc(reqs: seq<AudioRequest>, q: AudioRequest)
    ensures Keys(reqs + [q]) == Keys(reqs) + {KeyOf(q)}
  {
    assert forall x :: x in reqs + [q] <==> x in reqs || x == q;
  }


  /** The number of audio loads is at most the number of distinct (group, language key) pairs. */
  lemma AudioRequestsBound(base: string, streams: seq<StreamItem>, media: seq<MediaItem>)
    ensures |AudioPhaseRequests(base, streams, streams, media)| <= |AllPairs(streams, media)|
  {
    var r := AudioPhaseRequests(base, streams, streams, media);
    AudioRequestsExactlyLoadable(base, streams, streams, media);
    DistinctKeysCount(r);
    assert Loadable(streams, streams, media) <= AllPairs(streams, media);
    SubsetCard(Loadable(streams, streams, media), AllPairs(streams, media));
  }

  lemma SubsetCard<T>(a: set<T>, b: set<T>)
    requires a <= b
    ensures |a| <= |b|
  {
    assert b == a + (b - a);
  }

  /** Opening the same renditions' slots a second time changes nothing. */
  lemma OpenSlotsIdempotent(slots: map<string, seq<Segment>>, items: seq<MediaItem>)
    ensures OpenSlots(OpenSlots(slots, items), items) == OpenSlots(slots, items)
  {
    OpenSlotsClosedForm(slots, items);
    OpenSlotsClosedForm(OpenSlots(slots, items), items);
  }

  /** Every group named by a stream item in `prefix` gets an `audioSegments` entry; no other is added. */
  lemma {:induction false} AudioSegmentsKeys(segs: AudioSegMap, prefix: seq<StreamItem>, media: seq<MediaItem>)
    ensures AudioPhaseSegments(segs, prefix, media).Keys == segs.Keys + NamedGroups(prefix)
  {
    if prefix != [] {
      var before := prefix[..|prefix| - 1];
      var s := prefix[|prefix| - 1];
      AudioSegmentsKeys(segs, before, media);
      assert prefix == before + [s];
      NamedGroupsSnoc(before, s);
    }
  }

  /**
    The slots of a named group are its old slots (if any) plus an empty
    slot for each language key of its renditions, however many stream items
    name it; a group no stream item names keeps what it had.
   */
  lemma {:induction false} AudioSegmentsSlots(segs: AudioSegMap, prefix: seq<StreamItem>, media: seq<MediaItem>, g: string)
    ensures var r := AudioPhaseSegments(segs, prefix, media);
      && (g in NamedGroups(prefix) ==> g in r && r[g] == OpenSlots(SlotsOf(segs, g), GroupItems(media, g)))
      && (g !in NamedGroups(prefix) && g in segs ==> g in r && r[g] == segs[g])
  {
    if prefix != [] {
      var before := prefix[..|prefix| - 1];
      var s := prefix[|prefix| - 1];
      AudioSegmentsSlots(segs, before, media, g);
      assert prefix == before + [s];
      NamedGroupsSnoc(before, s);
      AudioSegmentsKeys(segs, before, media);
      if Truthy(s.audio) && s.audio.value == g && g in NamedGroups(before) {
        OpenSlotsIdempotent(SlotsOf(segs, g), GroupItems(media, g));
      }
    }
  }
}
