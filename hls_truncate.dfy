/**
  `HLSTruncateVod` of src/index.ts: `load` records every variant's
  bandwidth, requests the video playlists of the variants that are not
  audio-only and, once those loads have all succeeded, opens an
  `audioSegments` slot per audio group and language key and requests each
  (group, language key) at most once.
 */
module HlsTruncate {
  import opened M3u
  import opened BaseUrl
  import opened AudioSelection

  /**
    The loop of lines 85-109 for one group: `languages` are the keys the
    `.map` of lines 70-82 returned, `seen` is the group-and-language record
    (the local `audioGroups`) and `requests` the audio loads issued so far.
   */
  method RequestGroup(base: string, g: string, groupItems: seq<MediaItem>, languages: seq<string>,
                      streams: seq<StreamItem>, seen0: set<VariantKey>, requests0: seq<AudioRequest>)
    returns (seen: set<VariantKey>, requests: seq<AudioRequest>)
    requires |languages| == |groupItems|
    requires forall k :: 0 <= k < |groupItems| ==> languages[k] == LanguageKey(groupItems[k])
    requires seen0 == Keys(requests0)
    ensures seen == Keys(requests)
    ensures requests == GroupRequests(requests0, base, g, groupItems, streams)
  {
    seen, requests := seen0, requests0;
    var j := 0;
    while j < |languages|
      invariant 0 <= j <= |languages|
      invariant seen == Keys(requests)
      invariant requests == GroupRequests(requests0, base, g, groupItems[..j], streams)
    {
      assert groupItems[..j + 1][..j] == groupItems[..j];
      var audioLang := languages[j];
      var audioUri := AudioUri(streams, g, groupItems[j]);
      RequestOneKeys(requests, base, g, groupItems[j], streams);
      if audioUri.Some? {
        if VariantKey(g, audioLang) !in seen {
          seen := seen + {VariantKey(g, audioLang)};
          requests := requests + [AudioRequest(g, audioLang, base, audioUri.value)];
        }
      }
      j := j + 1;
    }
    assert groupItems[..j] == groupItems;
  }

  class HlsTruncateVod {
    var masterManifestUri: string
    var duration: real
    var durationAudio: real
    var playlists: map<string, MediaPlaylist>
    var bandwidths: seq<string>
    var audioSegments: AudioSegMap
    var m3u: Option<MasterPlaylist>

    constructor (vodManifestUri: string, duration: real)
      ensures masterManifestUri == vodManifestUri && this.duration == duration && durationAudio == 0.0
      ensures playlists == map[] && bandwidths == [] && audioSegments == map[] && m3u == None
    {
      masterManifestUri := vodManifestUri;
      this.duration := duration;
      durationAudio := 0.0;
      playlists := map[];
      bandwidths := [];
      audioSegments := map[];
      m3u := None;
    }

    /**
      `load` once the master playlist has been parsed. `videoLoaded` is the
      outcome of the video loads (`Promise.all` at line 55): the audio phase
      runs only when all of them succeeded, and always when there are none.
      Returns the video and audio load
      requests issued, in order.
     */
    method Load(master: MasterPlaylist, videoLoaded: bool)
      returns (videoRequests: seq<MediaRequest>, audioRequests: seq<AudioRequest>)
      requires VideoRequests(BaseOrEmpty(masterManifestUri), master.streams, master.media) == [] ==> videoLoaded
      modifies this`m3u, this`bandwidths, this`audioSegments
      ensures m3u == Some(master)
      ensures bandwidths == old(bandwidths) + Bandwidths(master.streams)
      ensures videoRequests == VideoRequests(BaseOrEmpty(masterManifestUri), master.streams, master.media)
      ensures audioSegments == if videoLoaded then AudioPhaseSegments(old(audioSegments), master.streams, master.media)
                               else old(audioSegments)
      ensures audioRequests == if videoLoaded then AudioPhaseRequests(BaseOrEmpty(masterManifestUri), master.streams,
                                                                      master.streams, master.media)
                               else []
    {
      m3u := Some(master);
      var baseUrl := BaseOrEmpty(masterManifestUri);
      videoRequests := LoadVariants(master, baseUrl);
      audioRequests := [];
      if videoLoaded {
        audioRequests := LoadAudioGroups(master, baseUrl);
      }
    }

    /** Lines 46-53: record every bandwidth, request every variant that is not audio-only. */
    method LoadVariants(master: MasterPlaylist, baseUrl: string) returns (videoRequests: seq<MediaRequest>)
      modifies this`bandwidths
      ensures bandwidths == old(bandwidths) + Bandwidths(master.streams)
      ensures videoRequests == VideoRequests(baseUrl, master.streams, master.media)
    {
      var streams := master.streams;
      ghost var bws := Bandwidths(streams);
      videoRequests := [];
      var i := 0;
      while i < |streams|
        invariant 0 <= i <= |streams|
        invariant bandwidths == old(bandwidths) + bws[..i]
        invariant videoRequests == VideoRequests(baseUrl, streams[..i], master.media)
      {
        var streamItem := streams[i];
        assert bws[..i + 1] == bws[..i] + [streamItem.bandwidth];
        assert streams[..i + 1][..i] == streams[..i];
        bandwidths := bandwidths + [streamItem.bandwidth];
        if FindAudioMedia(master.media, streamItem).None? {
          videoRequests := videoRequests + [VideoRequest(baseUrl, streamItem)];
        }
        i := i + 1;
      }
      assert streams[..i] == streams && bws[..i] == bws;
    }

    /** Lines 56-111: the audio phase, over every stream item with a truthy AUDIO attribute. */
    method LoadAudioGroups(master: MasterPlaylist, baseUrl: string) returns (audioRequests: seq<AudioRequest>)
      modifies this`audioSegments
      ensures audioSegments == AudioPhaseSegments(old(audioSegments), master.streams, master.media)
      ensures audioRequests == AudioPhaseRequests(baseUrl, master.streams, master.streams, master.media)
    {
      var streams := master.streams;
      var audioGroups: set<VariantKey> := {};
      audioRequests := [];
      var i := 0;
      while i < |streams|
        invariant 0 <= i <= |streams|
        invariant audioSegments == AudioPhaseSegments(old(audioSegments), streams[..i], master.media)
        invariant audioRequests == AudioPhaseRequests(baseUrl, streams[..i], streams, master.media)
        invariant audioGroups == Keys(audioRequests)
      {
        var streamItem := streams[i];
        assert streams[..i + 1][..i] == streams[..i];
        if Truthy(streamItem.audio) {
          var audioGroupId := streamItem.audio.value;
          var audioGroupItems := GroupItems(master.media, audioGroupId);
          var audioLanguages := OpenGroup(audioGroupId, audioGroupItems);
          audioGroups, audioRequests :=
            RequestGroup(baseUrl, audioGroupId, audioGroupItems, audioLanguages, streams, audioGroups, audioRequests);
        }
        i := i + 1;
      }
      assert streams[..i] == streams;
    }

    /**
      Lines 60-82 for group `g`: give the group an entry if it has none, then
      a slot for each rendition's language key if it has none; returns the
      keys in rendition order.
     */
    method OpenGroup(g: string, groupItems: seq<MediaItem>) returns (languages: seq<string>)
      modifies this`audioSegments
      ensures audioSegments == old(audioSegments)[g := OpenSlots(SlotsOf(old(audioSegments), g), groupItems)]
      ensures |languages| == |groupItems|
      ensures forall k :: 0 <= k < |groupItems| ==> languages[k] == LanguageKey(groupItems[k])
    {
      if g !in audioSegments {
        audioSegments := audioSegments[g := map[]];
      }
      languages := [];
      ghost var slots0 := SlotsOf(old(audioSegments), g);
      var j := 0;
      while j < |groupItems|
        invariant 0 <= j <= |groupItems|
        invariant g in audioSegments && audioSegments == old(audioSegments)[g := audioSegments[g]]
        invariant audioSegments[g] == OpenSlots(slots0, groupItems[..j])
        invariant |languages| == j
        invariant forall k :: 0 <= k < j ==> languages[k] == LanguageKey(groupItems[k])
      {
        assert groupItems[..j + 1][..j] == groupItems[..j];
        var itemLang := LanguageKey(groupItems[j]);
        if itemLang !in audioSegments[g] {
          audioSegments := audioSegments[g := audioSegments[g][itemLang := []]];
        }
        languages := languages + [itemLang];
        j := j + 1;
      }
      assert groupItems[..j] == groupItems;
    }
  }
}
