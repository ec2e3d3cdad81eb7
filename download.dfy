/** The per-track decisions of `downloadSingle` and the sequential batch
    loop of `downloadSongs`. The catalog's URL answer, the HTTP fetch and the
    file write are the track's environment (`SongEnv`); the output directory
    is the set of file names it holds. */
module Download {
  import opened Wrappers
  import opened Tracks
  import opened Paths

  /** What `fetch(url)` does: answer with a status, or reject. */
  datatype Network = Response(status: int) | FetchRejected

  /** The outside world as one download of one track sees it: the `url`
      field of the resolver's answer, the fetch, and whether `writeFile`
      succeeds. */
  datatype SongEnv = SongEnv(audioUrl: Option<string>, network: Network, writeSucceeds: bool)

  datatype Done = Saved(file: string) | Skipped(file: string)

  datatype DownloadError =
    | AudioUrlUnavailable   // "Audio URL not available."
    | NoFileName            // `sanitize(undefined)` throws a TypeError
    | HttpStatus(status: int)
    | FetchFailed
    | WriteFailed

  /** One attempt: its outcome and the output directory afterwards. */
  datatype Attempt = Attempt(outcome: Result<Done, DownloadError>, files: set<string>)

  /** `song.name || song.id`. */
  function NameSource(song: Song): Option<string>
  {
    if Truthy(song.name) then song.name else song.id
  }

  /** `${sanitize(name)}${ext}`, the file name joined to the output
      directory; it holds no `/`. */
  function TargetName(source: string, url: string): (r: string)
    ensures Lacks(r, '/')
  {
    var name := Sanitize(source);
    var ext := AudioExtension(url);
    SafeNameLacksSlash(name);
    LacksJoin(name, ext, '/');
    name + ext
  }

  /** A name with no forbidden character holds no `/`. */
  lemma SafeNameLacksSlash(name: string)
    requires forall i :: 0 <= i < |name| ==> !IsForbidden(name[i])
    ensures Lacks(name, '/')
  {
    assert IsForbidden('/');
  }

  /** `res.ok`. */
  predicate IsOk(status: int)
  {
    200 <= status <= 299
  }

  /** `downloadSingle`: no URL, then no name, are errors; an existing
      target is skipped unless overwriting; otherwise the fetch, the HTTP
      status and the write decide, in that order, and only a completed write
      adds the target to the directory. */
  function DownloadSingle(song: Song, env: SongEnv, overwrite: bool, files: set<string>): (a: Attempt)
    ensures files <= a.files
    ensures a.outcome.Err? ==> a.files == files
    ensures !Truthy(env.audioUrl) ==> a.outcome == Err(AudioUrlUnavailable)
    ensures a.outcome.Ok? && a.outcome.value.Skipped? ==>
              !overwrite && a.outcome.value.file in files && a.files == files
    ensures a.outcome.Ok? && a.outcome.value.Saved? ==>
              a.files == files + {a.outcome.value.file} && env.writeSucceeds &&
              env.network.Response? && IsOk(env.network.status)
    ensures a.outcome.Ok? ==> Lacks(a.outcome.value.file, '/')
    ensures Truthy(env.audioUrl) && NameSource(song).None? ==> a.outcome == Err(NoFileName)
    ensures Truthy(env.audioUrl) && NameSource(song).Some? ==>
              var t := TargetName(NameSource(song).value, env.audioUrl.value);
              (a.outcome.Ok? ==> a.outcome.value.file == t) &&
              (overwrite || t !in files ==>
                (env.network.FetchRejected? ==> a.outcome == Err(FetchFailed)) &&
                (env.network.Response? && !IsOk(env.network.status) ==>
                   a.outcome == Err(HttpStatus(env.network.status))) &&
                (env.network.Response? && IsOk(env.network.status) && !env.writeSucceeds ==>
                   a.outcome == Err(WriteFailed)) &&
                (env.network.Response? && IsOk(env.network.status) && env.writeSucceeds ==>
                   a.outcome == Ok(Saved(t))))
  {
    if !Truthy(env.audioUrl) then Attempt(Err(AudioUrlUnavailable), files)
    else
      var source := NameSource(song);
      if source.None? then Attempt(Err(NoFileName), files)
      else
        var target := TargetName(source.value, env.audioUrl.value);
        if !overwrite && target in files then Attempt(Ok(Skipped(target)), files)
        else
          match env.network
          case FetchRejected => Attempt(Err(FetchFailed), files)
          case Response(status) =>
            if !IsOk(status) then Attempt(Err(HttpStatus(status)), files)
            else if !env.writeSucceeds then Attempt(Err(WriteFailed), files)
            else Attempt(Ok(Saved(target)), files + {target})
  }

  /** The skip is decided before anything is fetched: a track is skipped
      exactly when it has a URL and a name, overwriting is off and its
      target file exists, and then the attempt is the same whatever the fetch
      and the write would have done. */
  lemma SkipDecidedBeforeFetch(song: Song, env: SongEnv, other: SongEnv, overwrite: bool, files: set<string>)
    requires other.audioUrl == env.audioUrl
    ensures var a := DownloadSingle(song, env, overwrite, files);
            (a.outcome.Ok? && a.outcome.value.Skipped?) <==>
              Truthy(env.audioUrl) && NameSource(song).Some? && !overwrite &&
              TargetName(NameSource(song).value, env.audioUrl.value) in files
    ensures var a := DownloadSingle(song, env, overwrite, files);
            a.outcome.Ok? && a.outcome.value.Skipped? ==> DownloadSingle(song, other, overwrite, files) == a
  {
  }

  /** A batch: one report per track, and the output directory afterwards. */
  datatype Batch = Batch(reports: seq<Result<Done, DownloadError>>, files: set<string>)

  /** What the loop body does for one track: an attempt against the output
      directory as it stands. */
  type Step = (Song, SongEnv, set<string>) -> Attempt

  /** The attempt `downloadSongs` makes for each track. */
  function Attempter(overwrite: bool): Step
  {
    (song, env, files) => DownloadSingle(song, env, overwrite, files)
  }

  /** The batch loop as a function: each track in turn, each against the
      directory the earlier ones left. */
  function RunBatch(songs: seq<Song>, envs: seq<SongEnv>, step: Step, files: set<string>): (b: Batch)
    requires |envs| == |songs|
    ensures |b.reports| == |songs|
    decreases |songs|
  {
    if |songs| == 0 then Batch([], files)
    else
      var a := step(songs[0], envs[0], files);
      var rest := RunBatch(songs[1..], envs[1..], step, a.files);
      Batch([a.outcome] + rest.reports, rest.files)
  }

  /** The attempt never deletes a file. */
  ghost predicate KeepsFiles(step: Step)
  {
    forall song, env, files :: files <= step(song, env, files).files
  }

  lemma AttempterKeepsFiles(overwrite: bool)
    ensures KeepsFiles(Attempter(overwrite))
  {
  }

  /** The loop of `downloadSongs`, given the attempt it makes per track:
      every track once, in list order, each against the directory the earlier
      ones left; a failed track is reported and the loop goes on with the
      next. */
  method RunSongs(songs: seq<Song>, envs: seq<SongEnv>, step: Step, files: set<string>)
    returns (reports: seq<Result<Done, DownloadError>>, filesAfter: set<string>)
    requires |envs| == |songs| && KeepsFiles(step)
    ensures Batch(reports, filesAfter) == RunBatch(songs, envs, step, files)
    ensures |reports| == |songs| && files <= filesAfter
  {
    reports, filesAfter := [], files;
    for i := 0 to |songs|
      invariant |reports| == i && files <= filesAfter
      invariant var rest := RunBatch(songs[i..], envs[i..], step, filesAfter);
                RunBatch(songs, envs, step, files) == Batch(reports + rest.reports, rest.files)
    {
      var attempt := step(songs[i], envs[i], filesAfter);
      RunBatchAdvance(songs, envs, step, files, reports, i, filesAfter);
      reports := reports + [attempt.outcome];
      filesAfter := attempt.files;
    }
  }

  /** `downloadSongs`: the loop above with `downloadSingle` as its attempt. */
  method DownloadSongs(songs: seq<Song>, envs: seq<SongEnv>, overwrite: bool, files: set<string>)
    returns (reports: seq<Result<Done, DownloadError>>, filesAfter: set<string>)
    requires |envs| == |songs|
    ensures Batch(reports, filesAfter) == RunBatch(songs, envs, Attempter(overwrite), files)
    ensures |reports| == |songs| && files <= filesAfter
  {
    AttempterKeepsFiles(overwrite);
    reports, filesAfter := RunSongs(songs, envs, Attempter(overwrite), files);
  }

  lemma RunBatchStep(songs: seq<Song>, envs: seq<SongEnv>, step: Step, files: set<string>)
    requires |envs| == |songs| > 0
    ensures var a := step(songs[0], envs[0], files);
            var rest := RunBatch(songs[1..], envs[1..], step, a.files);
            RunBatch(songs, envs, step, files) == Batch([a.outcome] + rest.reports, rest.files)
  {
  }

  /** One turn of the batch loop: with the reports so far and the rest of the
      batch still to run, running one more track moves its report over. */
  lemma RunBatchAdvance(
    songs: seq<Song>, envs: seq<SongEnv>, step: Step, files: set<string>,
    reports: seq<Result<Done, DownloadError>>, i: nat, current: set<string>)
    requires |envs| == |songs| && i < |songs|
    requires var rest := RunBatch(songs[i..], envs[i..], step, current);
             RunBatch(songs, envs, step, files) == Batch(reports + rest.reports, rest.files)
    ensures var a := step(songs[i], envs[i], current);
            var rest := RunBatch(songs[i + 1..], envs[i + 1..], step, a.files);
            RunBatch(songs, envs, step, files) == Batch(reports + [a.outcome] + rest.reports, rest.files)
  {
    var a := step(songs[i], envs[i], current);
    var rest := RunBatch(songs[i + 1..], envs[i + 1..], step, a.files);
    RunBatchStep(songs[i..], envs[i..], step, current);
    assert songs[i..][0] == songs[i] && envs[i..][0] == envs[i];
    assert songs[i..][1..] == songs[i + 1..] && envs[i..][1..] == envs[i + 1..];
    assert reports + ([a.outcome] + rest.reports) == reports + [a.outcome] + rest.reports;
  }

  /** Running two lists one after the other is running their concatenation. */
  lemma {:induction false} RunBatchConcat(
    a: seq<Song>, b: seq<Song>, ea: seq<SongEnv>, eb: seq<SongEnv>, step: Step, files: set<string>)
    requires |ea| == |a| && |eb| == |b|
    ensures var first := RunBatch(a, ea, step, files);
            var second := RunBatch(b, eb, step, first.files);
            RunBatch(a + b, ea + eb, step, files) == Batch(first.reports + second.reports, second.files)
    decreases |a|
  {
    if |a| == 0 {
      assert a + b == b && ea + eb == eb;
    } else {
      var s := step(a[0], ea[0], files);
      RunBatchStep(a + b, ea + eb, step, files);
      RunBatchStep(a, ea, step, files);
      assert (a + b)[0] == a[0] && (ea + eb)[0] == ea[0];
      assert (a + b)[1..] == a[1..] + b && (ea + eb)[1..] == ea[1..] + eb;
      RunBatchConcat(a[1..], b, ea[1..], eb, step, s.files);
    }
  }

  /** The `i`-th report is the attempt of the `i`-th track against the
      directory the first `i` tracks left, whether they failed or not. */
  lemma RunBatchAt(songs: seq<Song>, envs: seq<SongEnv>, step: Step, files: set<string>, i: nat)
    requires |envs| == |songs| && i < |songs|
    ensures RunBatch(songs, envs, step, files).reports[i] ==
            step(songs[i], envs[i], RunBatch(songs[..i], envs[..i], step, files).files).outcome
  {
    assert songs == songs[..i] + songs[i..] && envs == envs[..i] + envs[i..];
    RunBatchConcat(songs[..i], songs[i..], envs[..i], envs[i..], step, files);
    RunBatchStep(songs[i..], envs[i..], step, RunBatch(songs[..i], envs[..i], step, files).files);
  }

  /** An attempt that leaves the directory as it was changes nothing for the
      other tracks: every other report, and the final directory, are those
      of the batch without it. */
  lemma RunBatchIsolates(
    a: seq<Song>, s: Song, b: seq<Song>, ea: seq<SongEnv>, es: SongEnv, eb: seq<SongEnv>,
    step: Step, files: set<string>)
    requires |ea| == |a| && |eb| == |b|
    requires var before := RunBatch(a, ea, step, files).files; step(s, es, before).files == before
    ensures var with := RunBatch(a + [s] + b, ea + [es] + eb, step, files);
            var without := RunBatch(a + b, ea + eb, step, files);
            with.files == without.files &&
            with.reports == without.reports[..|a|] + [with.reports[|a|]] + without.reports[|a|..]
  {
    var first := RunBatch(a, ea, step, files);
    var attempt := step(s, es, first.files);
    var tail := RunBatch(b, eb, step, first.files);
    RunBatchConcat(a, [s] + b, ea, [es] + eb, step, files);
    assert a + [s] + b == a + ([s] + b) && ea + [es] + eb == ea + ([es] + eb);
    RunBatchStep([s] + b, [es] + eb, step, first.files);
    assert ([s] + b)[1..] == b && ([es] + eb)[1..] == eb;
    assert RunBatch([s] + b, [es] + eb, step, first.files) == Batch([attempt.outcome] + tail.reports, tail.files);
    RunBatchConcat(a, b, ea, eb, step, files);
    var with := RunBatch(a + [s] + b, ea + [es] + eb, step, files);
    assert with.reports == first.reports + [attempt.outcome] + tail.reports;
  }

  /** A track whose download fails changes nothing for the others in
      `downloadSongs`: the batch with it reports, for every other track,
      what the batch without it reports, and leaves the same directory. */
  lemma FailureIsIsolated(
    a: seq<Song>, s: Song, b: seq<Song>, ea: seq<SongEnv>, es: SongEnv, eb: seq<SongEnv>,
    overwrite: bool, files: set<string>)
    requires |ea| == |a| && |eb| == |b|
    requires DownloadSingle(s, es, overwrite, RunBatch(a, ea, Attempter(overwrite), files).files).outcome.Err?
    ensures var with := RunBatch(a + [s] + b, ea + [es] + eb, Attempter(overwrite), files);
            var without := RunBatch(a + b, ea + eb, Attempter(overwrite), files);
            with.files == without.files &&
            with.reports == without.reports[..|a|] + [with.reports[|a|]] + without.reports[|a|..]
  {
    RunBatchIsolates(a, s, b, ea, es, eb, Attempter(overwrite), files);
  }
}
