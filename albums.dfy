/** Album mode: turning an album search answer into candidates, choosing the
    first one, and ordering the album ids to fetch. The searches themselves
    are outside the model; their answers are given as values. */
module Albums {
  import opened Wrappers
  import opened Text
  import opened Seqs

  /** One album of a NetEase search answer (`result.albums[i]`). */
  datatype NeteaseAlbum = NeteaseAlbum(
    id: Option<string>,
    name: Option<string>,
    artistName: Option<string>,     // `album.artist?.name`
    artists: Option<seq<string>>)   // names in `album.artists`

  /** One album of a QQ Music search answer (`data.album.list[i]`). */
  datatype TencentAlbum = TencentAlbum(
    mid: Option<string>,
    albumMid: Option<string>,
    name: Option<string>,
    albumName: Option<string>,
    singer: Option<seq<string>>,    // names in `album.singer`, when it is an array
    singerName: Option<string>)

  /** The parts of a parsed search answer the CLI reads. */
  datatype SearchPayload = SearchPayload(
    resultAlbums: Option<seq<NeteaseAlbum>>,   // `payload.result?.albums`
    dataAlbumList: Option<seq<TencentAlbum>>)  // `payload.data?.album?.list`

  datatype Candidate = Candidate(id: Option<string>, name: Option<string>, artist: string)

  /** `a || b` on optional strings. */
  function Or(a: Option<string>, b: Option<string>): Option<string>
  {
    if Truthy(a) then a else b
  }

  /** `a || ""` on an optional string. */
  function OrEmpty(a: Option<string>): string
  {
    if Truthy(a) then a.value else ""
  }

  function NeteaseCandidate(album: NeteaseAlbum): Candidate
  {
    Candidate(album.id, album.name,
      if Truthy(album.artistName) then album.artistName.value
      else if album.artists.Some? then JoinWith(album.artists.value, "/") else "")
  }

  function TencentCandidate(album: TencentAlbum): Candidate
  {
    Candidate(Or(album.mid, album.albumMid), Or(album.name, album.albumName),
      if album.singer.Some? then JoinWith(album.singer.value, "/") else OrEmpty(album.singerName))
  }

  /** The filter of the QQ Music branch: a candidate needs an id and a name. */
  predicate Complete(c: Candidate)
  {
    Truthy(c.id) && Truthy(c.name)
  }

  /** `normalizeAlbumCandidates`; `None` is a payload that did not parse. */
  function NormalizeAlbumCandidates(payload: Option<SearchPayload>, platform: string): seq<Candidate>
  {
    if payload.None? then []
    else if platform == "netease" then
      var albums := payload.value.resultAlbums.GetOr([]);
      seq(|albums|, i requires 0 <= i < |albums| => NeteaseCandidate(albums[i]))
    else if platform == "tencent" then
      var list := payload.value.dataAlbumList.GetOr([]);
      Filter(seq(|list|, i requires 0 <= i < |list| => TencentCandidate(list[i])), Complete)
    else []
  }

  /** On QQ Music every candidate has an id and a name, preferring `mid`
      over `albumMid` and `name` over `albumName`; a candidate is kept exactly
      when the album it comes from yields both; the kept ones keep the
      answer's order, so the first candidate comes from the first album that
      yields both, and there is none when no album does. On NetEase every album yields one candidate, in order.
      Other platforms and unparsable answers yield none. */
  lemma NormalizeAlbumCandidatesSpec(payload: Option<SearchPayload>, platform: string)
    ensures var cs := NormalizeAlbumCandidates(payload, platform);
            platform == "tencent" ==> forall c :: c in cs ==> Complete(c)
    ensures var cs := NormalizeAlbumCandidates(payload, platform);
            platform == "tencent" && payload.Some? ==>
              forall album :: album in payload.value.dataAlbumList.GetOr([]) ==>
                (TencentCandidate(album) in cs <==> Truthy(Or(album.mid, album.albumMid)) && Truthy(Or(album.name, album.albumName)))
    ensures var cs := NormalizeAlbumCandidates(payload, platform);
            platform == "tencent" && payload.Some? ==>
              var list := payload.value.dataAlbumList.GetOr([]);
              forall k :: 0 <= k < |list| && Complete(TencentCandidate(list[k])) &&
                          (forall j :: 0 <= j < k ==> !Complete(TencentCandidate(list[j]))) ==>
                cs != [] && cs[0] == TencentCandidate(list[k])
    ensures var cs := NormalizeAlbumCandidates(payload, platform);
            platform == "tencent" && payload.Some? ==>
              var list := payload.value.dataAlbumList.GetOr([]);
              (forall j :: 0 <= j < |list| ==> !Complete(TencentCandidate(list[j]))) ==> cs == []
    ensures var cs := NormalizeAlbumCandidates(payload, platform);
            platform == "netease" && payload.Some? ==>
              var albums := payload.value.resultAlbums.GetOr([]);
              |cs| == |albums| && forall i :: 0 <= i < |cs| ==> cs[i].id == albums[i].id && cs[i].name == albums[i].name
    ensures payload.None? || (platform != "netease" && platform != "tencent") ==>
              NormalizeAlbumCandidates(payload, platform) == []
  {
    if platform == "tencent" && payload.Some? {
      var list := payload.value.dataAlbumList.GetOr([]);
      var mapped := seq(|list|, i requires 0 <= i < |list| => TencentCandidate(list[i]));
      forall album | album in list ensures TencentCandidate(album) in mapped {
        var i :| 0 <= i < |list| && list[i] == album;
        assert mapped[i] == TencentCandidate(album);
      }
      TencentOrder(list);
    }
  }

  /** The QQ Music filter keeps answer order: its first candidate comes from
      the first album with both an id and a name, and it has none when no
      album has both. */
  lemma TencentOrder(list: seq<TencentAlbum>)
    ensures var cs := Filter(seq(|list|, i requires 0 <= i < |list| => TencentCandidate(list[i])), Complete);
            forall k :: 0 <= k < |list| && Complete(TencentCandidate(list[k])) &&
                        (forall j :: 0 <= j < k ==> !Complete(TencentCandidate(list[j]))) ==>
              cs != [] && cs[0] == TencentCandidate(list[k])
    ensures var cs := Filter(seq(|list|, i requires 0 <= i < |list| => TencentCandidate(list[i])), Complete);
            (forall j :: 0 <= j < |list| ==> !Complete(TencentCandidate(list[j]))) ==> cs == []
  {
    var mapped := seq(|list|, i requires 0 <= i < |list| => TencentCandidate(list[i]));
    forall k | 0 <= k < |list| && Complete(TencentCandidate(list[k])) &&
               (forall j :: 0 <= j < k ==> !Complete(TencentCandidate(list[j])))
      ensures Filter(mapped, Complete) != [] && Filter(mapped, Complete)[0] == TencentCandidate(list[k])
    {
      FilterFirst(mapped, Complete, k);
    }
    if forall j :: 0 <= j < |list| ==> !Complete(TencentCandidate(list[j])) {
      if Filter(mapped, Complete) != [] {
        assert Filter(mapped, Complete)[0] in Filter(mapped, Complete);
      }
    }
  }

  /** `resolveAlbumByQuery` once the answer is parsed: the first candidate's
      id, or `None` when there is no candidate; on QQ Music that is the id of
      the first album with both an id and a name. */
  function ResolveAlbumByQuery(payload: Option<SearchPayload>, platform: string): (id: Option<string>)
    ensures NormalizeAlbumCandidates(payload, platform) == [] ==> id.None?
    ensures NormalizeAlbumCandidates(payload, platform) != [] ==> id == NormalizeAlbumCandidates(payload, platform)[0].id
    ensures platform == "tencent" && NormalizeAlbumCandidates(payload, platform) != [] ==> Truthy(id)
    ensures platform == "tencent" && payload.Some? ==>
              var list := payload.value.dataAlbumList.GetOr([]);
              forall k :: 0 <= k < |list| && Complete(TencentCandidate(list[k])) &&
                          (forall j :: 0 <= j < k ==> !Complete(TencentCandidate(list[j]))) ==>
                id == Or(list[k].mid, list[k].albumMid)
  {
    var candidates := NormalizeAlbumCandidates(payload, platform);
    NormalizeAlbumCandidatesSpec(payload, platform);
    if |candidates| == 0 then None
    else
      assert candidates[0] in candidates;
      candidates[0].id
  }

  datatype AlbumModeError = NoAlbumGiven  // "You must specify at least one --album-id or --album-query."

  /** The ids the queries resolve to, truthy ones only, in query order. */
  function QueryIds(queries: seq<string>, resolve: string -> Option<string>): seq<string>
    decreases |queries|
  {
    if |queries| == 0 then []
    else
      var last := resolve(queries[|queries| - 1]);
      QueryIds(queries[..|queries| - 1], resolve) + (if Truthy(last) then [last.value] else [])
  }

  /** Resolved ids keep query order, are never empty, every one of them
      comes from a query, and every query that resolves to a non-empty id
      contributes it: one query gives its id, or nothing when it resolves to
      no id or an empty one. */
  lemma QueryIdsSpec(queries: seq<string>, more: seq<string>, resolve: string -> Option<string>)
    ensures QueryIds(queries + more, resolve) == QueryIds(queries, resolve) + QueryIds(more, resolve)
    ensures |QueryIds(queries, resolve)| <= |queries|
    ensures forall x :: x in QueryIds(queries, resolve) ==> x != "" && exists q :: q in queries && resolve(q) == Some(x)
    ensures forall q :: q in queries && Truthy(resolve(q)) ==> resolve(q).value in QueryIds(queries, resolve)
    ensures |more| == 1 ==>
              QueryIds(more, resolve) == if Truthy(resolve(more[0])) then [resolve(more[0]).value] else []
  {
    QueryIdsConcat(queries, more, resolve);
    QueryIdsOrigin(queries, resolve);
    if |more| == 1 {
      assert more[..0] == [];
    }
  }

  /** Resolving a concatenation resolves each part in turn. */
  lemma {:induction false} QueryIdsConcat(queries: seq<string>, more: seq<string>, resolve: string -> Option<string>)
    ensures QueryIds(queries + more, resolve) == QueryIds(queries, resolve) + QueryIds(more, resolve)
    decreases |more|
  {
    if |more| > 0 {
      assert (queries + more)[..|queries + more| - 1] == queries + more[..|more| - 1];
      QueryIdsConcat(queries, more[..|more| - 1], resolve);
    } else {
      assert queries + more == queries;
    }
  }

  /** At most one id per query; every id is non-empty and comes from a
      query; every query with a non-empty id contributes it. */
  lemma {:induction false} QueryIdsOrigin(queries: seq<string>, resolve: string -> Option<string>)
    ensures |QueryIds(queries, resolve)| <= |queries|
    ensures forall x :: x in QueryIds(queries, resolve) ==> x != "" && exists q :: q in queries && resolve(q) == Some(x)
    ensures forall q :: q in queries && Truthy(resolve(q)) ==> resolve(q).value in QueryIds(queries, resolve)
    decreases |queries|
  {
    if |queries| > 0 {
      QueryIdsOrigin(queries[..|queries| - 1], resolve);
      QueryIdsLast(queries, resolve);
    }
  }

  /** The last query keeps the bound, the origin of every id and the
      inclusion of every non-empty id that the queries before it have. */
  lemma QueryIdsLast(qs: seq<string>, resolve: string -> Option<string>)
    requires |qs| > 0
    requires var init := qs[..|qs| - 1];
             |QueryIds(init, resolve)| <= |init| &&
             (forall x :: x in QueryIds(init, resolve) ==> x != "" && exists p :: p in init && resolve(p) == Some(x)) &&
             (forall p :: p in init && Truthy(resolve(p)) ==> resolve(p).value in QueryIds(init, resolve))
    ensures |QueryIds(qs, resolve)| <= |qs|
    ensures forall x :: x in QueryIds(qs, resolve) ==> x != "" && exists p :: p in qs && resolve(p) == Some(x)
    ensures forall p :: p in qs && Truthy(resolve(p)) ==> resolve(p).value in QueryIds(qs, resolve)
  {
    var init := qs[..|qs| - 1];
    var q := qs[|qs| - 1];
    assert qs == init + [q];
    forall x | x in QueryIds(qs, resolve)
      ensures x != "" && exists p :: p in qs && resolve(p) == Some(x)
    {
      if x in QueryIds(init, resolve) {
        var p :| p in init && resolve(p) == Some(x);
        assert p in qs;
      } else {
        assert q in qs;
      }
    }
  }

  /** The first half of `runAlbumMode`: reject a call with neither ids nor
      queries, then list the ids resolved from the queries, in query order,
      followed by the explicit `--album-id` values. */
  method CollectAlbumIds(albumId: Option<seq<string>>, albumQuery: Option<seq<string>>, resolve: string -> Option<string>)
    returns (r: Result<seq<string>, AlbumModeError>)
    ensures r.Err? <==> albumId.GetOr([]) == [] && albumQuery.GetOr([]) == []
    ensures r.Ok? ==> r.value == QueryIds(albumQuery.GetOr([]), resolve) + albumId.GetOr([])
  {
    var albumIds := albumId.GetOr([]);
    var albumQueries := albumQuery.GetOr([]);
    if |albumIds| == 0 && |albumQueries| == 0 {
      return Err(NoAlbumGiven);
    }
    var resolvedIds := [];
    for i := 0 to |albumQueries|
      invariant resolvedIds == QueryIds(albumQueries[..i], resolve)
    {
      assert albumQueries[..i + 1][..i] == albumQueries[..i];
      var id := resolve(albumQueries[i]);
      if Truthy(id) {
        resolvedIds := resolvedIds + [id.value];
      }
    }
    assert albumQueries[..|albumQueries|] == albumQueries;
    resolvedIds := resolvedIds + albumIds;
    return Ok(resolvedIds);
  }
}
