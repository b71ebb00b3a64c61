/**
  `HLSTruncateVod` of index.js: it records every variant's bandwidth, loads
  one media playlist per `#EXT-X-STREAM-INF` item, keeps the first playlist
  parsed for each bandwidth and runs the segment walk on the stored one.
 */
module LegacyHlsTruncate {
  import opened M3u
  import opened BaseUrl
  import opened SegmentWalk

  /** The playlist as the walk leaves it: header untouched, item list walked. */
  function Walked(p: MediaPlaylist, target: real): MediaPlaylist
  {
    p.(items := Repeat(p.items, 1 + Appends(p.items, target)))
  }

  /**
    What one `_loadMediaManifest` does to the playlist map once its parse
    succeeded: store the parsed playlist only if the bandwidth has none yet,
    then walk the stored one.
   */
  function StoreAndWalk(playlists: map<string, MediaPlaylist>, bw: string, parsed: MediaPlaylist, target: real)
    : (r: map<string, MediaPlaylist>)
    ensures r.Keys == playlists.Keys + {bw}
    ensures forall b :: b in playlists && b != bw ==> r[b] == playlists[b]
    ensures var first := if bw in playlists then playlists[bw] else parsed;
      r[bw].header == first.header && r[bw].items == Repeat(first.items, 1 + Appends(first.items, target))
  {
    var stored := if bw in playlists then playlists[bw] else parsed;
    playlists[bw := Walked(stored, target)]
  }

  /** One `_loadMediaManifest`: a failed fetch or parse (None) changes nothing. */
  function LoadOne(playlists: map<string, MediaPlaylist>, bw: string, parsed: Option<MediaPlaylist>, target: real)
    : (r: map<string, MediaPlaylist>)
    ensures parsed.None? ==> r == playlists
    ensures r.Keys == playlists.Keys + (if parsed.Some? then {bw} else {})
    ensures forall b :: b in playlists && b != bw ==> r[b] == playlists[b]
  {
    match parsed
    case None => playlists
    case Some(p) => StoreAndWalk(playlists, bw, p, target)
  }

  /** One load per bandwidth in `bws`, in order. */
  function LoadAll(playlists: map<string, MediaPlaylist>, bws: seq<string>,
                   fetch: string -> Option<MediaPlaylist>, target: real): map<string, MediaPlaylist>
  {
    if bws == [] then playlists
    else
      var bw := bws[|bws| - 1];
      LoadOne(LoadAll(playlists, bws[..|bws| - 1], fetch, target), bw, fetch(bw), target)
  }

  /** The load requests of lines 26-31: one per stream item, none left out. */
  function Requests(base: Option<string>, streams: seq<StreamItem>): (r: seq<MediaRequest>)
    ensures |r| == |streams|
    ensures forall k :: 0 <= k < |streams| ==>
      r[k] == MediaRequest(streams[k].bandwidth, base, streams[k].uri)
  {
    if streams == [] then []
    else
      var s := streams[|streams| - 1];
      Requests(base, streams[..|streams| - 1]) + [MediaRequest(s.bandwidth, base, s.uri)]
  }

  ghost predicate IsRepetition(a: seq<Segment>, b: seq<Segment>)
  {
    exists n: nat :: n >= 1 && a == Repeat(b, n)
  }

  lemma RepetitionOfRepetition(a: seq<Segment>, b: seq<Segment>, n: nat)
    requires IsRepetition(a, b) && n >= 1
    ensures IsRepetition(Repeat(a, n), b)
  {
    var m: nat :| m >= 1 && a == Repeat(b, m);
    RepeatRepeat(b, m, n);
    assert m * n >= 1 by {
      assert m * n >= n;
    }
  }

  /** Every load in `bws` fetched and parsed its playlist, so `Promise.all` resolves. */
  predicate AllParsed(bws: seq<string>, fetch: string -> Option<MediaPlaylist>)
  {
    forall b :: b in bws ==> fetch(b).Some?
  }

  /** The bandwidths in `bws` whose playlist was fetched and parsed. */
  function Fetched(bws: seq<string>, fetch: string -> Option<MediaPlaylist>): set<string>
  {
    set b | b in bws && fetch(b).Some?
  }

  /** The playlist first stored for `bw`: the one already there, else the one parsed. */
  function First(playlists: map<string, MediaPlaylist>, bw: string, fetch: string -> Option<MediaPlaylist>)
    : MediaPlaylist
    requires bw in playlists || fetch(bw).Some?
  {
    if bw in playlists then playlists[bw] else fetch(bw).value
  }

  /** The bandwidths that end up with a stored playlist. */
  lemma {:induction false} LoadAllKeys(playlists: map<string, MediaPlaylist>, bws: seq<string>,
                                       fetch: string -> Option<MediaPlaylist>, target: real)
    ensures LoadAll(playlists, bws, fetch, target).Keys == playlists.Keys + Fetched(bws, fetch)
  {
    if bws != [] {
      var prefix := bws[..|bws| - 1];
      var last := bws[|bws| - 1];
      LoadAllKeys(playlists, prefix, fetch, target);
      assert bws == prefix + [last];
      assert Fetched(bws, fetch) == Fetched(prefix, fetch) + (if fetch(last).Some? then {last} else {});
    }
  }

  /** A bandwidth no load names keeps exactly what it had. */
  lemma {:induction false} LoadAllUntouched(playlists: map<string, MediaPlaylist>, bws: seq<string>,
                                            fetch: string -> Option<MediaPlaylist>, target: real, bw: string)
    requires bw !in bws && bw in playlists
    ensures var r := LoadAll(playlists, bws, fetch, target); bw in r && r[bw] == playlists[bw]
  {
    if bws != [] {
      var prefix := bws[..|bws| - 1];
      assert bws == prefix + [bws[|bws| - 1]];
      LoadAllUntouched(playlists, prefix, fetch, target, bw);
    }
  }

  /**
    First parse wins: a stored playlist always has the header of the
    playlist first stored for its bandwidth (the one already present, else
    the parsed one), and its items are whole copies of that playlist's items.
   */
  lemma {:induction false} LoadAllFirstWins(playlists: map<string, MediaPlaylist>, bws: seq<string>,
                                            fetch: string -> Option<MediaPlaylist>, target: real, bw: string)
    requires bw in LoadAll(playlists, bws, fetch, target)
    ensures bw in playlists || fetch(bw).Some?
    ensures var r := LoadAll(playlists, bws, fetch, target); var first := First(playlists, bw, fetch);
      r[bw].header == first.header && IsRepetition(r[bw].items, first.items)
  {
    var r := LoadAll(playlists, bws, fetch, target);
    if bws == [] {
      var items := playlists[bw].items;
      assert Repeat(items, 1) == Repeat(items, 0) + items;
      assert IsRepetition(items, items);
    } else {
      var prefix := bws[..|bws| - 1];
      var last := bws[|bws| - 1];
      var before := LoadAll(playlists, prefix, fetch, target);
      if bw in before {
        LoadAllFirstWins(playlists, prefix, fetch, target, bw);
      }
      if fetch(last).Some? && last == bw {
        var parsed := fetch(last).value;
        var stored := if bw in before then before[bw] else parsed;
        assert r[bw] == Walked(stored, target);
        var n := 1 + Appends(stored.items, target);
        if bw in before {
          RepetitionOfRepetition(stored.items, First(playlists, bw, fetch).items, n);
        } else {
          LoadAllKeys(playlists, prefix, fetch, target);
          assert bw !in playlists;
          assert IsRepetition(Repeat(parsed.items, n), parsed.items);
        }
      } else {
        assert bw in before && r[bw] == before[bw];
        LoadAllFirstWins(playlists, prefix, fetch, target, bw);
      }
    }
  }

  /**
    What `LoadVariants` has done after the first `i` stream items, starting
    from the bandwidth list `bws0` and the playlist map `playlists0`.
   */
  predicate VariantsDone(bws0: seq<string>, playlists0: map<string, MediaPlaylist>, streams: seq<StreamItem>,
                         baseUrl: Option<string>, fetch: string -> Option<MediaPlaylist>, target: real, i: nat,
                         bandwiths: seq<string>, requests: seq<MediaRequest>, playlists: map<string, MediaPlaylist>,
                         ok: bool)
  {
    && i <= |streams|
    && bandwiths == bws0 + Bandwidths(streams)[..i]
    && requests == Requests(baseUrl, streams[..i])
    && playlists == LoadAll(playlists0, Bandwidths(streams)[..i], fetch, target)
    && (ok <==> AllParsed(Bandwidths(streams)[..i], fetch))
  }

  /** Taking stream item `i`: one more bandwidth, one more request, one more load. */
  lemma VariantStep(bws0: seq<string>, playlists0: map<string, MediaPlaylist>, streams: seq<StreamItem>,
                    baseUrl: Option<string>, fetch: string -> Option<MediaPlaylist>, target: real, i: nat,
                    bandwiths: seq<string>, requests: seq<MediaRequest>, playlists: map<string, MediaPlaylist>,
                    ok: bool)
    requires VariantsDone(bws0, playlists0, streams, baseUrl, fetch, target, i, bandwiths, requests, playlists, ok)
    requires i < |streams|
    ensures var bw := streams[i].bandwidth;
      VariantsDone(bws0, playlists0, streams, baseUrl, fetch, target, i + 1, bandwiths + [bw],
                   requests + [MediaRequest(bw, baseUrl, streams[i].uri)],
                   LoadOne(playlists, bw, fetch(bw), target), ok && fetch(bw).Some?)
  {
    var bws := Bandwidths(streams);
    var bw := streams[i].bandwidth;
    BandwidthsStep(streams, i);
    RequestsStep(baseUrl, streams, i);
    LoadAllSnoc(playlists0, bws[..i], bw, fetch, target);
    AllParsedSnoc(bws[..i], bw, fetch);
  }

  lemma BandwidthsStep(streams: seq<StreamItem>, i: nat)
    requires i < |streams|
    ensures Bandwidths(streams)[..i + 1] == Bandwidths(streams)[..i] + [streams[i].bandwidth]
  {
    PrefixSnoc(Bandwidths(streams), i);
  }

  lemma PrefixSnoc(s: seq<string>, i: nat)
    requires i < |s|
    ensures s[..i + 1] == s[..i] + [s[i]]
  {
  }

  lemma RequestsStep(baseUrl: Option<string>, streams: seq<StreamItem>, i: nat)
    requires i < |streams|
    ensures Requests(baseUrl, streams[..i + 1])
         == Requests(baseUrl, streams[..i]) + [MediaRequest(streams[i].bandwidth, baseUrl, streams[i].uri)]
  {
    assert streams[..i + 1][..i] == streams[..i];
  }

  lemma LoadAllSnoc(playlists: map<string, MediaPlaylist>, bws: seq<string>, bw: string,
                    fetch: string -> Option<MediaPlaylist>, target: real)
    ensures LoadAll(playlists, bws + [bw], fetch, target)
         == LoadOne(LoadAll(playlists, bws, fetch, target), bw, fetch(bw), target)
  {
    assert (bws + [bw])[..|bws|] == bws;
  }

  lemma AllParsedSnoc(bws: seq<string>, bw: string, fetch: string -> Option<MediaPlaylist>)
    ensures AllParsed(bws + [bw], fetch) <==> AllParsed(bws, fetch) && fetch(bw).Some?
  {
    assert forall b :: b in bws + [bw] <==> b in bws || b == bw;
  }

  /** All stream items taken. */
  lemma VariantsAll(streams: seq<StreamItem>)
    ensures Bandwidths(streams)[..|streams|] == Bandwidths(streams) && streams[..|streams|] == streams
  {
  }

  class HlsTruncateVod {
    var masterManifestUri: string
    var playlists: map<string, MediaPlaylist>
    var duration: real
    var bandwiths: seq<string>
    var m3u: Option<MasterPlaylist>

    /** The options argument of the source is ignored there and is not modelled. */
    constructor (vodManifestUri: string, duration: real)
      ensures masterManifestUri == vodManifestUri && this.duration == duration
      ensures playlists == map[] && bandwiths == [] && m3u == None
    {
      masterManifestUri := vodManifestUri;
      playlists := map[];
      this.duration := duration;
      bandwiths := [];
      m3u := None;
    }

    /**
      `_loadMediaManifest` after its playlist was fetched; `parsed` is None
      when fetching or parsing failed, which rejects and changes nothing.
     */
    method LoadMediaManifest(bandwidth: string, parsed: Option<MediaPlaylist>) returns (ok: bool)
      modifies this`playlists
      ensures ok == parsed.Some?
      ensures playlists == LoadOne(old(playlists), bandwidth, parsed, duration)
    {
      if parsed.None? {
        return false;
      }
      ok := true;
      if bandwidth !in playlists {
        playlists := playlists[bandwidth := parsed.value];
      }
      var items, length, steps := Walk(playlists[bandwidth].items, duration);
      playlists := playlists[bandwidth := playlists[bandwidth].(items := items)];
    }

    /**
      `load`: `master` is the parsed master playlist (None when it fails to
      parse) and `fetch` the injected media-playlist source, called with a
      bandwidth. Returns whether every load succeeded and the load requests
      issued, in order.
     */
    method Load(master: Option<MasterPlaylist>, fetch: string -> Option<MediaPlaylist>)
      returns (ok: bool, requests: seq<MediaRequest>)
      modifies this`m3u, this`bandwiths, this`playlists
      ensures master.None? ==> !ok && requests == [] && unchanged(this)
      ensures master.Some? ==> var streams := master.value.streams;
        && m3u == master
        && bandwiths == old(bandwiths) + Bandwidths(streams)
        && requests == Requests(MatchBase(masterManifestUri), streams)
        && playlists == LoadAll(old(playlists), Bandwidths(streams), fetch, duration)
        && (ok <==> AllParsed(Bandwidths(streams), fetch))
    {
      match master
      case None =>
        ok, requests := false, [];
      case Some(m) =>
        m3u := master;
        var baseUrl := MatchBase(masterManifestUri);
        ok, requests := LoadVariants(m.streams, baseUrl, fetch);
    }

    /** The loop of lines 26-31: record the bandwidth and load the playlist of every stream item. */
    method LoadVariants(streams: seq<StreamItem>, baseUrl: Option<string>, fetch: string -> Option<MediaPlaylist>)
      returns (ok: bool, requests: seq<MediaRequest>)
      modifies this`bandwiths, this`playlists
      ensures bandwiths == old(bandwiths) + Bandwidths(streams)
      ensures requests == Requests(baseUrl, streams)
      ensures playlists == LoadAll(old(playlists), Bandwidths(streams), fetch, duration)
      ensures ok <==> AllParsed(Bandwidths(streams), fetch)
    {
      ok, requests := true, [];
      var i := 0;
      while i < |streams|
        invariant VariantsDone(old(bandwiths), old(playlists), streams, baseUrl, fetch, duration, i,
                               bandwiths, requests, playlists, ok)
      {
        var streamItem := streams[i];
        VariantStep(old(bandwiths), old(playlists), streams, baseUrl, fetch, duration, i,
                    bandwiths, requests, playlists, ok);
        bandwiths := bandwiths + [streamItem.bandwidth];
        requests := requests + [MediaRequest(streamItem.bandwidth, baseUrl, streamItem.uri)];
        var loaded := LoadMediaManifest(streamItem.bandwidth, fetch(streamItem.bandwidth));
        ok := ok && loaded;
        i := i + 1;
      }
      VariantsAll(streams);
    }

    method GetBandwidths() returns (r: seq<string>)
      ensures r == bandwiths
    {
      r := bandwiths;
    }

    /**
      The stored playlist for `bw`; None where the source would throw on a
      bandwidth it never stored. Serialisation is not modelled.
     */
    method GetMediaManifest(bw: string) returns (r: Option<MediaPlaylist>)
      ensures r.Some? <==> bw in playlists
      ensures r.Some? ==> r.value == playlists[bw]
    {
      if bw in playlists {
        r := Some(playlists[bw]);
      } else {
        r := None;
      }
    }
  }
}
