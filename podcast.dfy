/** The `Podcast` class (podcast.py:173-317): script generation, speech
    synthesis per segment, and assembly of the final audio file.

    Outside effects are parameters: `chat(p)(k)` is what the k-th try of the
    chat call with prompt `p` gets back, `tts(i)(k)` what the k-th try of the speech call
    for segment i gets back, `uuids(n)` the text of the n-th `uuid4()` of
    the run, and `fs` the filesystem. */
module Generator {
  import opened PyStr
  import opened Retry
  import opened Errors
  import opened Files
  import opened Script
  import opened Voices

  /** The body of a `/chat/completions` request (one system message). */
  datatype ChatRequest = ChatRequest(url: string, model: string, prompt: string)

  /** The body of an `/audio/speech` request. */
  datatype SpeechRequest = SpeechRequest(url: string, model: string, input: string, voice: string)

  const PrefixName: string := "podcast_prefix.mp3"
  const SuffixName: string := "podcast_suffix.mp3"

  /** The file name of a segment's clip: `podcast_seg_<uuid[:18]>.mp3`. */
  function SegmentName(uuid: string): string {
    "podcast_seg_" + SliceTo(uuid, 18) + ".mp3"
  }

  /** The file name of the merged podcast: `podcast_<uuid[:18]>.mp3`. */
  function MergedName(uuid: string): string {
    "podcast_" + SliceTo(uuid, 18) + ".mp3"
  }

  /** Where a segment's clip is written. The name is relative, so joining
      it to the directory is appending it to `DirPrefix` (`PathsJoined`). */
  function SegmentPath(audioDir: string, uuid: string): string {
    DirPrefix(audioDir) + SegmentName(uuid)
  }

  /** Where the merged podcast is written. */
  function MergedPath(audioDir: string, uuid: string): string {
    DirPrefix(audioDir) + MergedName(uuid)
  }

  /** The intro clip next to the module. */
  function IntroPath(moduleDir: string): string {
    DirPrefix(moduleDir) + PrefixName
  }

  /** The outro clip next to the module. */
  function OutroPath(moduleDir: string): string {
    DirPrefix(moduleDir) + SuffixName
  }

  /** All four paths are `os.path.join(directory, name)`. */
  lemma PathsJoined(moduleDir: string, audioDir: string, uuid: string)
    ensures SegmentPath(audioDir, uuid) == PathJoin(audioDir, SegmentName(uuid))
    ensures MergedPath(audioDir, uuid) == PathJoin(audioDir, MergedName(uuid))
    ensures IntroPath(moduleDir) == PathJoin(moduleDir, PrefixName)
    ensures OutroPath(moduleDir) == PathJoin(moduleDir, SuffixName)
  {
    assert SegmentName(uuid)[0] == 'p';
    assert MergedName(uuid)[0] == 'p';
    assert PrefixName[0] == 'p';
    assert SuffixName[0] == 'p';
  }

  /** The `audio_path` of every segment, in list order. */
  function AudioPaths(segs: seq<Segment>): (ps: seq<string>)
    reads set s | s in segs
    ensures |ps| == |segs| && forall i :: 0 <= i < |segs| ==> ps[i] == segs[i].audioPath
  {
    if |segs| == 0 then [] else [segs[0].audioPath] + AudioPaths(segs[1..])
  }

  /** The segment objects carry the parsed utterances, in order, with no
      audio yet. */
  predicate Describes(segs: seq<Segment>, us: seq<Utterance>)
    reads set s | s in segs
  {
    |segs| == |us|
    && forall j :: 0 <= j < |segs| ==>
      segs[j].speaker == us[j].speaker && segs[j].text == us[j].text && segs[j].audioPath == ""
  }

  /** A new segment carrying `u` extends a description by `u`. */
  lemma DescribesSnoc(segs: seq<Segment>, us: seq<Utterance>, s: Segment, u: Utterance)
    requires Describes(segs, us)
    requires s.speaker == u.speaker && s.text == u.text && s.audioPath == ""
    ensures Describes(segs + [s], us + [u])
  {
  }

  predicate Distinct(segs: seq<Segment>) {
    forall j, k :: 0 <= j < k < |segs| ==> segs[j] != segs[k]
  }

  /** An object not yet listed keeps a list of distinct objects distinct. */
  lemma DistinctSnoc(segs: seq<Segment>, s: Segment)
    requires Distinct(segs) && s !in segs
    ensures Distinct(segs + [s])
  {
  }

  /** Position `j` holds the last occurrence of its object among the
      first `n` segments. */
  predicate LastAmong(segs: seq<Segment>, j: nat, n: nat)
    requires j < n <= |segs|
  {
    segs[j] !in segs[j + 1..n]
  }

  /** The object at position `j` does not occur among the first `i`. */
  predicate Unvisited(segs: seq<Segment>, j: nat, i: nat)
    requires j < |segs| && i <= |segs|
  {
    forall k :: 0 <= k < i ==> segs[k] != segs[j]
  }

  /** Dropping the last of the first `i + 1` positions keeps `j` last among
      the rest, and a last position is apart from later ones. */
  lemma LastAmongStep(segs: seq<Segment>, j: nat, i: nat)
    requires j < i < |segs|
    ensures LastAmong(segs, j, i + 1) <==> LastAmong(segs, j, i) && segs[j] != segs[i]
  {
    assert segs[j + 1..i + 1] == segs[j + 1..i] + [segs[i]];
  }

  /** Distinct segments that each got the path of their position list
      exactly the segment paths. */
  lemma PathsRecorded(segs: seq<Segment>, audioDir: string, uuids: nat -> string)
    requires Distinct(segs)
    requires forall j :: 0 <= j < |segs| && LastAmong(segs, j, |segs|) ==> segs[j].audioPath == SegmentPath(audioDir, uuids(j))
    ensures AudioPaths(segs) == SegmentPaths(audioDir, uuids, |segs|)
  {
    var a, p := AudioPaths(segs), SegmentPaths(audioDir, uuids, |segs|);
    forall j | 0 <= j < |segs|
      ensures a[j] == p[j]
    {
      DistinctLast(segs, j);
    }
    assert a == p;
  }

  /** In a list of distinct objects every position is the last of its
      object. */
  lemma DistinctLast(segs: seq<Segment>, j: nat)
    requires Distinct(segs) && j < |segs|
    ensures LastAmong(segs, j, |segs|)
  {
    var t := segs[j + 1..];
    forall k | 0 <= k < |t|
      ensures t[k] != segs[j]
    {
      assert t[k] == segs[j + 1 + k];
    }
  }

  // ---------------------------------------------------------------------
  // Speech synthesis

  /** The `/audio/speech` requests for the given segments, in their order. */
  function SpeechRequests(url: string, model: string, segs: seq<Segment>): (rs: seq<SpeechRequest>)
    ensures |rs| == |segs|
  {
    if |segs| == 0 then []
    else
      var last := segs[|segs| - 1];
      SpeechRequests(url, model, segs[..|segs| - 1]) + [SpeechRequest(url, model, last.text, VoiceFor(last.speaker))]
  }

  /** One request per segment, in order, each carrying that segment's text
      and the voice its speaker calls for. */
  lemma {:induction false} SpeechRequestsSpec(url: string, model: string, segs: seq<Segment>)
    ensures var rs := SpeechRequests(url, model, segs);
      |rs| == |segs|
      && forall j :: 0 <= j < |segs| ==>
        rs[j] == SpeechRequest(url, model, segs[j].text, VoiceFor(segs[j].speaker))
  {
    if |segs| > 0 {
      SpeechRequestsSpec(url, model, segs[..|segs| - 1]);
    }
  }

  /** The `/audio/speech` requests a script calls for: one per utterance,
      in order, with its text and the voice of its speaker. */
  function ScriptRequests(url: string, model: string, us: seq<Utterance>): (rs: seq<SpeechRequest>)
    ensures |rs| == |us|
  {
    seq(|us|, j requires 0 <= j < |us| => SpeechRequest(url, model, us[j].text, VoiceFor(us[j].speaker)))
  }

  /** The requests a run sends for the script `us`: those of the lines up
      to and including the first whose speech call fails for good, or all
      of them when none fails. */
  function RequestsSent(url: string, model: string, tts: nat -> nat -> Outcome<Bytes>, us: seq<Utterance>): seq<SpeechRequest>
  {
    var m := Spoken(tts, |us|);
    ScriptRequests(url, model, us[..if m < |us| then m + 1 else m])
  }

  /** Segments carrying a script's utterances send, for their first `k`,
      exactly the requests those utterances call for. */
  lemma RequestsOfScript(url: string, model: string, segs: seq<Segment>, us: seq<Utterance>, k: nat)
    requires k <= |segs| == |us|
    requires forall j :: 0 <= j < |segs| ==> segs[j].text == us[j].text && segs[j].speaker == us[j].speaker
    ensures SpeechRequests(url, model, segs[..k]) == ScriptRequests(url, model, us[..k])
  {
    SpeechRequestsSpec(url, model, segs[..k]);
  }

  /** `openai_audio(...)` for segment `i`, with its default retries: at
      most four tries, returning what the last one got. */
  function Speech(tts: nat -> nat -> Outcome<Bytes>, i: nat): (c: Call<Bytes>)
    ensures 0 < c.tries <= 4 && c.outcome == tts(i)(c.tries - 1)
  {
    RetryCall(tts(i), DefaultRetries)
  }

  /** How many of the first `n` segments are spoken before the first speech
      call that fails for good. */
  function Spoken(tts: nat -> nat -> Outcome<Bytes>, n: nat): (m: nat)
    ensures m <= n
    ensures forall j :: 0 <= j < m ==> Speech(tts, j).outcome.Success?
    ensures m < n ==> Speech(tts, m).outcome.Failure?
  {
    if n == 0 then 0
    else
      var m := Spoken(tts, n - 1);
      if m < n - 1 then m
      else if Speech(tts, n - 1).outcome.Success? then n
      else n - 1
  }

  /** `Spoken` is the one count that fits: every call before it succeeds
      and, unless it is all of them, the call at it fails. */
  lemma SpokenIs(tts: nat -> nat -> Outcome<Bytes>, n: nat, m: nat)
    requires m <= n
    requires forall j :: 0 <= j < m ==> Speech(tts, j).outcome.Success?
    requires m < n ==> Speech(tts, m).outcome.Failure?
    ensures Spoken(tts, n) == m
  {
  }

  /** The filesystem after the clips of the first `m` segments are written
      (only segments whose speech call succeeded have a clip to write). */
  function Written(files: map<string, Bytes>, audioDir: string, uuids: nat -> string,
                   tts: nat -> nat -> Outcome<Bytes>, m: nat): (w: map<string, Bytes>)
    ensures files.Keys <= w.Keys
  {
    if m == 0 then files
    else
      var w := Written(files, audioDir, uuids, tts, m - 1);
      match Speech(tts, m - 1).outcome
      case Success(clip) => w[SegmentPath(audioDir, uuids(m - 1)) := clip]
      case Failure(_) => w
  }

  /** The synthesized clips of the first `n` segments, back to back. */
  function Clips(tts: nat -> nat -> Outcome<Bytes>, n: nat): Bytes {
    if n == 0 then []
    else
      match Speech(tts, n - 1).outcome
      case Success(clip) => Clips(tts, n - 1) + clip
      case Failure(_) => Clips(tts, n - 1)
  }

  function SegmentPaths(audioDir: string, uuids: nat -> string, n: nat): (ps: seq<string>)
    ensures |ps| == n && forall i :: 0 <= i < n ==> ps[i] == SegmentPath(audioDir, uuids(i))
  {
    if n == 0 then [] else SegmentPaths(audioDir, uuids, n - 1) + [SegmentPath(audioDir, uuids(n - 1))]
  }

  // ---------------------------------------------------------------------
  // Assembly

  /** The clips of the paths that exist, in order; missing ones are skipped. */
  function Assembled(files: map<string, Bytes>, paths: seq<string>): (b: Bytes)
    ensures files == map[] ==> b == []
  {
    if |paths| == 0 then []
    else
      var last := paths[|paths| - 1];
      Assembled(files, paths[..|paths| - 1]) + (if last in files then files[last] else [])
  }

  /** The paths listed in `ps`. */
  function Elements(ps: seq<string>): set<string> {
    set p | p in ps
  }

  lemma ElementsSnoc(ps: seq<string>, i: nat)
    requires i < |ps|
    ensures Elements(ps[..i + 1]) == Elements(ps[..i]) + {ps[i]}
  {
    assert ps[..i + 1] == ps[..i] + [ps[i]];
  }

  /** The state of `os.remove` over a list of paths, stopping at the first
      that does not exist. */
  datatype Removal = Removal(files: map<string, Bytes>, missing: Option<string>)

  function RemoveEach(files: map<string, Bytes>, paths: seq<string>): (r: Removal)
    ensures r.missing.Some? ==> r.missing.value in paths && r.missing.value !in r.files
  {
    if |paths| == 0 then Removal(files, None)
    else
      var before := RemoveEach(files, paths[..|paths| - 1]);
      var last := paths[|paths| - 1];
      if before.missing.Some? then before
      else if last in before.files then Removal(before.files - {last}, None)
      else Removal(before.files, Some(last))
  }

  /** What `merge_podcast_audios` returns, and the filesystem after it. */
  datatype MergeOutcome = MergeOutcome(result: Result<string>, files: map<string, Bytes>)

  /** `merge_podcast_audios` as written: after the export, every segment's
      path is passed to `os.remove`, so the first one without a file raises
      `FileNotFoundError`. */
  function MergedAsWritten(files: map<string, Bytes>, paths: seq<string>,
                           moduleDir: string, audioDir: string, uuid: string): (o: MergeOutcome)
    ensures o.result.Ok? ==> o.result.value == MergedPath(audioDir, uuid)
    ensures o.result.Err? ==> o.result.error.FileNotFound?
  {
    var pre := IntroPath(moduleDir);
    var suf := OutroPath(moduleDir);
    if pre !in files then MergeOutcome(Err(FileNotFound(pre)), files)
    else if suf !in files then MergeOutcome(Err(FileNotFound(suf)), files)
    else
      var out := MergedPath(audioDir, uuid);
      var rm := RemoveEach(files[out := files[pre] + Assembled(files, paths) + files[suf]], paths);
      MergeOutcome(if rm.missing.Some? then Err(FileNotFound(rm.missing.value)) else Ok(out), rm.files)
  }

  /** `merge_podcast_audios` with the cleanup removing only the segment
      files that exist, so a segment skipped during concatenation no longer
      turns a finished export into an error. */
  function Merged(files: map<string, Bytes>, paths: seq<string>,
                  moduleDir: string, audioDir: string, uuid: string): (o: MergeOutcome)
    ensures o.result.Ok? <==> IntroPath(moduleDir) in files && OutroPath(moduleDir) in files
    ensures o.result.Ok? ==> o.result.value == MergedPath(audioDir, uuid)
    ensures o.result.Err? ==> o.result.error.FileNotFound? && o.files == files
  {
    var pre := IntroPath(moduleDir);
    var suf := OutroPath(moduleDir);
    if pre !in files then MergeOutcome(Err(FileNotFound(pre)), files)
    else if suf !in files then MergeOutcome(Err(FileNotFound(suf)), files)
    else
      var out := MergedPath(audioDir, uuid);
      MergeOutcome(Ok(out), files[out := files[pre] + Assembled(files, paths) + files[suf]] - Elements(paths))
  }

  /** `openai_chat(prompt)` for the prompt built from `input`, with its
      default retries. */
  function ChatCall(chat: string -> nat -> Outcome<string>, input: string): (c: Call<string>)
    ensures 0 < c.tries <= 4 && c.outcome == chat(Prompt(input))(c.tries - 1)
  {
    RetryCall(chat(Prompt(input)), DefaultRetries)
  }

  /** The whole of `generate_podcast` as written: script, speech, then the
      merge with its unguarded cleanup. A podcast path comes back only when
      the chat call and every speech call succeeded, and it is the path
      named by the uuid drawn after the segments' ones. */
  function Pipeline(files: map<string, Bytes>, input: string, chat: string -> nat -> Outcome<string>,
                    tts: nat -> nat -> Outcome<Bytes>, uuids: nat -> string,
                    moduleDir: string, audioDir: string): (o: MergeOutcome)
    ensures o.result.Ok? ==>
      ChatCall(chat, input).outcome.Success?
      && var n := |ParseReply(ChatCall(chat, input).outcome.value)|;
         Spoken(tts, n) == n && o.result.value == MergedPath(audioDir, uuids(n))
  {
    var reply := ChatCall(chat, input).outcome;
    if reply.Failure? then MergeOutcome(Err(Network(reply.error)), files)
    else SpeakThenMerge(files, tts, uuids, moduleDir, audioDir, |ParseReply(reply.value)|)
  }

  /** The speech and merge steps of `generate_podcast` for a script of `n`
      lines: the first speech call that fails for good is raised with the
      clips written so far; otherwise the merge as written runs over all
      the clips, under the uuid drawn after theirs. */
  function SpeakThenMerge(files: map<string, Bytes>, tts: nat -> nat -> Outcome<Bytes>, uuids: nat -> string,
                          moduleDir: string, audioDir: string, n: nat): (o: MergeOutcome)
    ensures o.result.Ok? ==> Spoken(tts, n) == n && o.result.value == MergedPath(audioDir, uuids(n))
    ensures Spoken(tts, n) < n ==> o.result == Err(Network(Speech(tts, Spoken(tts, n)).outcome.error))
  {
    var m := Spoken(tts, n);
    if m < n then MergeOutcome(Err(Network(Speech(tts, m).outcome.error)), Written(files, audioDir, uuids, tts, m))
    else MergedAsWritten(Written(files, audioDir, uuids, tts, n), SegmentPaths(audioDir, uuids, n), moduleDir, audioDir, uuids(n))
  }

  // ---------------------------------------------------------------------
  // Lemmas

  /** A path that is not being assembled does not affect the assembly. */
  lemma {:induction false} AssembledFrame(files: map<string, Bytes>, q: string, v: Bytes, paths: seq<string>)
    requires q !in paths
    ensures Assembled(files[q := v], paths) == Assembled(files, paths)
  {
    if |paths| > 0 {
      AssembledFrame(files, q, v, paths[..|paths| - 1]);
    }
  }

  /** Assembly respects the order of the list: the clips of `a` come before
      the clips of `b`. */
  lemma {:induction false} AssembledAppend(files: map<string, Bytes>, a: seq<string>, b: seq<string>)
    ensures Assembled(files, a + b) == Assembled(files, a) + Assembled(files, b)
    decreases |b|
  {
    if |b| == 0 {
      assert a + b == a;
    } else {
      var b' := b[..|b| - 1];
      assert (a + b)[..|a + b| - 1] == a + b';
      AssembledAppend(files, a, b');
    }
  }

  /** A segment without a file is skipped and the others still come out in
      order: the three-segment case with the middle one missing. */
  lemma SkipsMissing(files: map<string, Bytes>, p1: string, p2: string, p3: string)
    requires p1 in files && p2 !in files && p3 in files
    ensures Assembled(files, [p1, p2, p3]) == files[p1] + files[p3]
  {
    assert [p1, p2, p3][..2] == [p1, p2];
    assert [p1, p2][..1] == [p1];
    assert [p1][..0] == [];
    assert Assembled(files, [p1]) == files[p1];
    assert Assembled(files, [p1, p2]) == files[p1];
  }

  /** Once every clip is written to its own path, assembling those paths
      gives the clips back to back in segment order. */
  lemma {:induction false} AssembledWritten(files: map<string, Bytes>, audioDir: string, uuids: nat -> string,
                                            tts: nat -> nat -> Outcome<Bytes>, n: nat)
    requires forall j :: 0 <= j < n ==> Speech(tts, j).outcome.Success?
    requires forall i, j :: 0 <= i < j < n ==> SegmentPath(audioDir, uuids(i)) != SegmentPath(audioDir, uuids(j))
    ensures Assembled(Written(files, audioDir, uuids, tts, n), SegmentPaths(audioDir, uuids, n)) == Clips(tts, n)
  {
    if n > 0 {
      var init := SegmentPaths(audioDir, uuids, n - 1);
      var q := SegmentPath(audioDir, uuids(n - 1));
      var clip := Speech(tts, n - 1).outcome.value;
      var w := Written(files, audioDir, uuids, tts, n - 1);
      WrittenStep(files, audioDir, uuids, tts, n);
      SegmentPathsAvoid(audioDir, uuids, n - 1, q);
      AssembledFrame(w, q, clip, init);
      AssembledWritten(files, audioDir, uuids, tts, n - 1);
      AssembledLast(w[q := clip], init, q);
    }
  }

  /** The n-th spoken segment adds its clip at its path, and to the clips. */
  lemma WrittenStep(files: map<string, Bytes>, audioDir: string, uuids: nat -> string,
                    tts: nat -> nat -> Outcome<Bytes>, n: nat)
    requires n > 0 && Speech(tts, n - 1).outcome.Success?
    ensures var clip := Speech(tts, n - 1).outcome.value;
      Written(files, audioDir, uuids, tts, n)
        == Written(files, audioDir, uuids, tts, n - 1)[SegmentPath(audioDir, uuids(n - 1)) := clip]
      && Clips(tts, n) == Clips(tts, n - 1) + clip
      && SegmentPaths(audioDir, uuids, n) == SegmentPaths(audioDir, uuids, n - 1) + [SegmentPath(audioDir, uuids(n - 1))]
  {
  }

  /** A path put last adds its clip, if it exists, at the end. */
  lemma AssembledLast(files: map<string, Bytes>, init: seq<string>, q: string)
    ensures Assembled(files, init + [q]) == Assembled(files, init) + (if q in files then files[q] else [])
  {
    assert (init + [q])[..|init|] == init;
  }

  /** One more path adds its clip, if it exists, at the end. */
  lemma AssembledSnoc(files: map<string, Bytes>, paths: seq<string>, i: nat)
    requires i < |paths|
    ensures Assembled(files, paths[..i + 1])
      == Assembled(files, paths[..i]) + (if paths[i] in files then files[paths[i]] else [])
  {
    assert paths[..i + 1] == paths[..i] + [paths[i]];
    AssembledLast(files, paths[..i], paths[i]);
  }

  /** Writing the clips touches no path other than the segment paths. */
  lemma {:induction false} WrittenElsewhere(files: map<string, Bytes>, audioDir: string, uuids: nat -> string,
                                            tts: nat -> nat -> Outcome<Bytes>, n: nat, p: string)
    requires forall j :: 0 <= j < n ==> Speech(tts, j).outcome.Success?
    requires p !in SegmentPaths(audioDir, uuids, n)
    ensures var w := Written(files, audioDir, uuids, tts, n);
      (p in w <==> p in files) && (p in files ==> w[p] == files[p])
  {
    if n > 0 {
      assert SegmentPaths(audioDir, uuids, n)[..n - 1] == SegmentPaths(audioDir, uuids, n - 1);
      WrittenElsewhere(files, audioDir, uuids, tts, n - 1, p);
    }
  }

  /** The cleaned-up merge: with the intro and outro present it always
      returns the new path; unless a segment path is that very path, the
      file there holds intro, then the existing clips in order, then outro;
      no segment path survives; every other file is untouched. */
  lemma MergedSpec(files: map<string, Bytes>, paths: seq<string>, moduleDir: string, audioDir: string, uuid: string)
    requires IntroPath(moduleDir) in files && OutroPath(moduleDir) in files
    ensures var o := Merged(files, paths, moduleDir, audioDir, uuid);
      var out := MergedPath(audioDir, uuid);
      o.result == Ok(out)
      && (out !in paths ==>
            out in o.files
            && o.files[out] == files[IntroPath(moduleDir)] + Assembled(files, paths)
                               + files[OutroPath(moduleDir)])
      && (forall p :: p in paths ==> p !in o.files)
      && (forall p :: p !in paths && p != out ==> (p in o.files <==> p in files)
                                                  && (p in files ==> o.files[p] == files[p]))
  {
  }

  /** `os.remove` over a list fails exactly when some listed path is gone by
      the time its turn comes; a path missing from the start is one such. */
  lemma {:induction false} RemoveEachMissing(files: map<string, Bytes>, paths: seq<string>, i: nat)
    requires i < |paths| && paths[i] !in files
    ensures RemoveEach(files, paths).missing.Some?
  {
    var n := |paths| - 1;
    if i < n {
      assert paths[..n][i] == paths[i];
      RemoveEachMissing(files, paths[..n], i);
    } else {
      RemoveEachShrinks(files, paths[..n]);
    }
  }

  /** Once a removal has failed, the later paths are not tried. */
  lemma {:induction false} RemoveEachStops(files: map<string, Bytes>, paths: seq<string>, k: nat)
    requires k <= |paths| && RemoveEach(files, paths[..k]).missing.Some?
    ensures RemoveEach(files, paths) == RemoveEach(files, paths[..k])
  {
    if k < |paths| {
      var n := |paths| - 1;
      assert paths[..n][..k] == paths[..k];
      RemoveEachStops(files, paths[..n], k);
    } else {
      assert paths[..k] == paths;
    }
  }

  /** Removal only ever takes files away. */
  lemma {:induction false} RemoveEachShrinks(files: map<string, Bytes>, paths: seq<string>)
    ensures RemoveEach(files, paths).files.Keys <= files.Keys
  {
    if |paths| > 0 {
      RemoveEachShrinks(files, paths[..|paths| - 1]);
    }
  }

  /** Removing distinct existing paths one by one succeeds and leaves the
      map minus those paths. */
  lemma {:induction false} RemoveEachPresent(files: map<string, Bytes>, paths: seq<string>)
    requires forall i :: 0 <= i < |paths| ==> paths[i] in files
    requires forall i, j :: 0 <= i < j < |paths| ==> paths[i] != paths[j]
    ensures RemoveEach(files, paths) == Removal(files - Elements(paths), None)
  {
    if |paths| > 0 {
      var n := |paths| - 1;
      RemoveEachPresent(files, paths[..n]);
      assert paths[n] !in paths[..n];
      ElementsSnoc(paths, n);
    }
  }

  /** A removal run that meets no missing path has removed every listed path. */
  lemma {:induction false} RemoveEachClears(files: map<string, Bytes>, paths: seq<string>)
    requires RemoveEach(files, paths).missing.None?
    ensures forall p :: p in paths ==> p !in RemoveEach(files, paths).files
  {
    if |paths| > 0 {
      var n := |paths| - 1;
      RemoveEachClears(files, paths[..n]);
      assert forall p :: p in paths ==> p in paths[..n] || p == paths[n];
    }
  }

  /** When the merge as written returns, its cleanup ran to the end: no
      segment file is left; unless a segment path is the output path, the
      output holds intro, the existing clips in order, then outro; every
      other file is untouched. */
  lemma MergedAsWrittenSpec(files: map<string, Bytes>, paths: seq<string>, moduleDir: string, audioDir: string, uuid: string)
    requires MergedAsWritten(files, paths, moduleDir, audioDir, uuid).result.Ok?
    ensures var o := MergedAsWritten(files, paths, moduleDir, audioDir, uuid);
      var out := MergedPath(audioDir, uuid);
      IntroPath(moduleDir) in files && OutroPath(moduleDir) in files
      && (forall p :: p in paths ==> p !in o.files)
      && (out !in paths ==>
            out in o.files
            && o.files[out] == files[IntroPath(moduleDir)] + Assembled(files, paths) + files[OutroPath(moduleDir)])
      && (forall p :: p !in paths && p != out ==> (p in o.files <==> p in files)
                                                  && (p in files ==> o.files[p] == files[p]))
  {
    var pre := IntroPath(moduleDir);
    var suf := OutroPath(moduleDir);
    var out := MergedPath(audioDir, uuid);
    var exported := files[out := files[pre] + Assembled(files, paths) + files[suf]];
    RemoveEachClears(exported, paths);
    if out !in paths {
      RemoveEachKeeps(exported, paths, out);
    }
    RemoveEachShrinks(exported, paths);
    forall p | p !in paths && p != out && p in files
      ensures p in RemoveEach(exported, paths).files && RemoveEach(exported, paths).files[p] == files[p]
    {
      RemoveEachKeeps(exported, paths, p);
    }
  }

  /** A path that is not listed survives the removal run unchanged. */
  lemma {:induction false} RemoveEachKeeps(files: map<string, Bytes>, paths: seq<string>, q: string)
    requires q !in paths && q in files
    ensures q in RemoveEach(files, paths).files && RemoveEach(files, paths).files[q] == files[q]
  {
    if |paths| > 0 {
      var n := |paths| - 1;
      assert q != paths[n];
      RemoveEachKeeps(files, paths[..n], q);
    }
  }

  /** The defect of the cleanup as written: a segment whose file does not
      exist, although skipped during concatenation, makes the merge raise
      `FileNotFoundError` after the export, so no path is returned. */
  lemma MissingSegmentFailsAsWritten(files: map<string, Bytes>, paths: seq<string>, moduleDir: string,
                                     audioDir: string, uuid: string, i: nat)
    requires IntroPath(moduleDir) in files && OutroPath(moduleDir) in files
    requires i < |paths| && paths[i] !in files && paths[i] != MergedPath(audioDir, uuid)
    ensures MergedAsWritten(files, paths, moduleDir, audioDir, uuid).result.Err?
    ensures Merged(files, paths, moduleDir, audioDir, uuid).result.Ok?
  {
    var pre := IntroPath(moduleDir);
    var suf := OutroPath(moduleDir);
    var out := MergedPath(audioDir, uuid);
    RemoveEachMissing(files[out := files[pre] + Assembled(files, paths) + files[suf]], paths, i);
  }

  /** When every segment file exists, the paths are distinct and none is
      the output path, the merge as written and the cleaned-up merge agree. */
  lemma MergeVersionsAgree(files: map<string, Bytes>, paths: seq<string>, moduleDir: string,
                           audioDir: string, uuid: string)
    requires forall i :: 0 <= i < |paths| ==> paths[i] in files && paths[i] != MergedPath(audioDir, uuid)
    requires forall i, j :: 0 <= i < j < |paths| ==> paths[i] != paths[j]
    ensures MergedAsWritten(files, paths, moduleDir, audioDir, uuid) == Merged(files, paths, moduleDir, audioDir, uuid)
  {
    var pre := IntroPath(moduleDir);
    var suf := OutroPath(moduleDir);
    if pre in files && suf in files {
      var out := MergedPath(audioDir, uuid);
      RemoveEachPresent(files[out := files[pre] + Assembled(files, paths) + files[suf]], paths);
    }
  }

  /** Segment files are named apart by their uuids: distinct 18-character
      uuid prefixes give distinct segment paths. */
  lemma SegmentPathsApart(audioDir: string, u: string, v: string)
    requires SliceTo(u, 18) != SliceTo(v, 18)
    ensures SegmentPath(audioDir, u) != SegmentPath(audioDir, v)
  {
    var a := SegmentName(u);
    var b := SegmentName(v);
    assert a[12..|a| - 4] == SliceTo(u, 18);
    assert b[12..|b| - 4] == SliceTo(v, 18);
    PathsJoined("", audioDir, u);
    PathsJoined("", audioDir, v);
    PathJoinApart(audioDir, a, b);
  }

  /** The text of a `uuid4()`: hex digits and hyphens. */
  predicate UuidText(u: string) {
    forall k :: 0 <= k < |u| ==> ('0' <= u[k] <= '9' || 'a' <= u[k] <= 'f' || u[k] == '-')
  }

  /** With uuid names the merged file is never one of the segment files,
      so the cleanup cannot delete the output. */
  lemma MergedPathNotSegment(audioDir: string, u: string, v: string)
    requires UuidText(v)
    ensures MergedPath(audioDir, v) != SegmentPath(audioDir, u)
  {
    var a := MergedName(v);
    var b := SegmentName(u);
    assert b[8] == 's';
    assert a[8] != 's' by {
      if |SliceTo(v, 18)| > 0 {
        assert a[8] == v[0];
      } else {
        assert a[8] == '.';
      }
    }
    Glued(DirPrefix(audioDir), a);
    Glued(DirPrefix(audioDir), b);
  }

  /** The merge step of the pipeline once every clip is written: the new
      file holds intro, every clip in order, then outro, no segment file is
      left, and every other file is as it was. */
  lemma MergeOfWritten(files: map<string, Bytes>, tts: nat -> nat -> Outcome<Bytes>, uuids: nat -> string,
                       moduleDir: string, audioDir: string, n: nat)
    requires forall j :: 0 <= j < n ==> Speech(tts, j).outcome.Success?
    requires forall i, j :: 0 <= i < j < n ==> SegmentPath(audioDir, uuids(i)) != SegmentPath(audioDir, uuids(j))
    requires forall i :: 0 <= i < n ==>
      SegmentPath(audioDir, uuids(i)) != IntroPath(moduleDir)
      && SegmentPath(audioDir, uuids(i)) != OutroPath(moduleDir)
      && SegmentPath(audioDir, uuids(i)) != MergedPath(audioDir, uuids(n))
    requires IntroPath(moduleDir) in files && OutroPath(moduleDir) in files
    ensures var o := MergedAsWritten(Written(files, audioDir, uuids, tts, n), SegmentPaths(audioDir, uuids, n),
                                     moduleDir, audioDir, uuids(n));
      var out := MergedPath(audioDir, uuids(n));
      o.result == Ok(out) && out in o.files
      && o.files[out] == files[IntroPath(moduleDir)] + Clips(tts, n) + files[OutroPath(moduleDir)]
      && (forall i :: 0 <= i < n ==> SegmentPath(audioDir, uuids(i)) !in o.files)
      && forall p :: p !in SegmentPaths(audioDir, uuids, n) && p != out ==>
           (p in o.files <==> p in files) && (p in files ==> o.files[p] == files[p])
  {
    var w := Written(files, audioDir, uuids, tts, n);
    var ps := SegmentPaths(audioDir, uuids, n);
    var out := MergedPath(audioDir, uuids(n));
    WrittenElsewhere(files, audioDir, uuids, tts, n, IntroPath(moduleDir));
    WrittenElsewhere(files, audioDir, uuids, tts, n, OutroPath(moduleDir));
    AssembledWritten(files, audioDir, uuids, tts, n);
    SegmentPathsAvoid(audioDir, uuids, n, out);
    MergedSpec(w, ps, moduleDir, audioDir, uuids(n));
    SegmentPathsListed(audioDir, uuids, n);
    WrittenMergesAgree(files, tts, uuids, moduleDir, audioDir, n);
    forall p | p !in ps && p != out
      ensures (p in w <==> p in files) && (p in files ==> w[p] == files[p])
    {
      WrittenElsewhere(files, audioDir, uuids, tts, n, p);
    }
  }

  /** Once every segment is spoken to its own path, apart from the output,
      the cleanup as written finds every file and the two merges agree. */
  lemma WrittenMergesAgree(files: map<string, Bytes>, tts: nat -> nat -> Outcome<Bytes>, uuids: nat -> string,
                           moduleDir: string, audioDir: string, n: nat)
    requires forall j :: 0 <= j < n ==> Speech(tts, j).outcome.Success?
    requires forall i, j :: 0 <= i < j < n ==> SegmentPath(audioDir, uuids(i)) != SegmentPath(audioDir, uuids(j))
    requires forall i :: 0 <= i < n ==> SegmentPath(audioDir, uuids(i)) != MergedPath(audioDir, uuids(n))
    ensures var w := Written(files, audioDir, uuids, tts, n);
      var ps := SegmentPaths(audioDir, uuids, n);
      MergedAsWritten(w, ps, moduleDir, audioDir, uuids(n)) == Merged(w, ps, moduleDir, audioDir, uuids(n))
  {
    WrittenHolds(files, audioDir, uuids, tts, n);
    MergeVersionsAgree(Written(files, audioDir, uuids, tts, n), SegmentPaths(audioDir, uuids, n), moduleDir, audioDir, uuids(n));
  }

  /** Once the first `n` segments are spoken, each of their paths holds a file. */
  lemma {:induction false} WrittenHolds(files: map<string, Bytes>, audioDir: string, uuids: nat -> string,
                                        tts: nat -> nat -> Outcome<Bytes>, n: nat)
    requires forall j :: 0 <= j < n ==> Speech(tts, j).outcome.Success?
    ensures forall i :: 0 <= i < n ==> SegmentPath(audioDir, uuids(i)) in Written(files, audioDir, uuids, tts, n)
  {
    if n > 0 {
      WrittenHolds(files, audioDir, uuids, tts, n - 1);
      WrittenStep(files, audioDir, uuids, tts, n);
    }
  }

  /** A path that no segment of the first `n` is at is not listed. */
  lemma SegmentPathsAvoid(audioDir: string, uuids: nat -> string, n: nat, q: string)
    requires forall i :: 0 <= i < n ==> SegmentPath(audioDir, uuids(i)) != q
    ensures q !in SegmentPaths(audioDir, uuids, n)
  {
    var ps := SegmentPaths(audioDir, uuids, n);
    forall i | 0 <= i < n
      ensures ps[i] != q
    {
      assert ps[i] == SegmentPath(audioDir, uuids(i));
    }
  }

  /** Every one of the first `n` segment paths is listed. */
  lemma SegmentPathsListed(audioDir: string, uuids: nat -> string, n: nat)
    ensures forall i :: 0 <= i < n ==> SegmentPath(audioDir, uuids(i)) in SegmentPaths(audioDir, uuids, n)
  {
    var ps := SegmentPaths(audioDir, uuids, n);
    forall i | 0 <= i < n
      ensures SegmentPath(audioDir, uuids(i)) in ps
    {
      assert ps[i] == SegmentPath(audioDir, uuids(i));
    }
  }

  /** End to end: when the chat reply and every speech call succeed, the
      segment paths are apart from each other, from the intro and outro and
      from the output, and the intro and outro exist, the podcast is the new
      file holding intro, every synthesized clip in script order, then
      outro; no segment file is left behind; every other file is as it was. */
  lemma PipelineOutput(files: map<string, Bytes>, input: string, chat: string -> nat -> Outcome<string>,
                       tts: nat -> nat -> Outcome<Bytes>, uuids: nat -> string,
                       moduleDir: string, audioDir: string)
    requires ChatCall(chat, input).outcome.Success?
    requires var n := |ParseReply(ChatCall(chat, input).outcome.value)|;
      Spoken(tts, n) == n
      && (forall i, j :: 0 <= i < j < n ==> SegmentPath(audioDir, uuids(i)) != SegmentPath(audioDir, uuids(j)))
      && (forall i :: 0 <= i < n ==>
            SegmentPath(audioDir, uuids(i)) != IntroPath(moduleDir)
            && SegmentPath(audioDir, uuids(i)) != OutroPath(moduleDir)
            && SegmentPath(audioDir, uuids(i)) != MergedPath(audioDir, uuids(n)))
    requires IntroPath(moduleDir) in files && OutroPath(moduleDir) in files
    ensures var n := |ParseReply(ChatCall(chat, input).outcome.value)|;
      var o := Pipeline(files, input, chat, tts, uuids, moduleDir, audioDir);
      var out := MergedPath(audioDir, uuids(n));
      o.result == Ok(out) && out in o.files
      && o.files[out] == files[IntroPath(moduleDir)] + Clips(tts, n) + files[OutroPath(moduleDir)]
      && (forall i :: 0 <= i < n ==> SegmentPath(audioDir, uuids(i)) !in o.files)
      && forall p :: p !in SegmentPaths(audioDir, uuids, n) && p != out ==>
           (p in o.files <==> p in files) && (p in files ==> o.files[p] == files[p])
  {
    var n := |ParseReply(ChatCall(chat, input).outcome.value)|;
    MergeOfWritten(files, tts, uuids, moduleDir, audioDir, n);
  }

  // ---------------------------------------------------------------------
  // The class

  class Podcast {
    const apiBase: string
    const apiKey: string
    const llmModel: string
    const audioModel: string
    const audioDir: string
    /** The directory holding podcast.py and the intro/outro clips. */
    const moduleDir: string

    constructor (apiBase: string, apiKey: string, llmModel: string, audioModel: string,
                 audioDir: string, moduleDir: string)
      ensures this.apiBase == apiBase && this.apiKey == apiKey && this.llmModel == llmModel
      ensures this.audioModel == audioModel && this.audioDir == audioDir && this.moduleDir == moduleDir
    {
      this.apiBase := apiBase;
      this.apiKey := apiKey;
      this.llmModel := llmModel;
      this.audioModel := audioModel;
      this.audioDir := audioDir;
      this.moduleDir := moduleDir;
    }

    /** `generate_podcast_texts`: one chat call with the prompt, then one
        fresh segment per reply line that contains a colon. */
    method GenerateTexts(input: string, chat: string -> nat -> Outcome<string>)
      returns (r: Result<seq<Segment>>, request: ChatRequest)
      ensures request == ChatRequest(apiBase + "/chat/completions", llmModel, Prompt(input))
      ensures var reply := ChatCall(chat, input).outcome;
        (reply.Failure? ==> r == Err(Network(reply.error)))
        && (reply.Success? ==> r.Ok? && Describes(r.value, ParseReply(reply.value)) && Distinct(r.value)
                               && forall j :: 0 <= j < |r.value| ==> fresh(r.value[j]))
    {
      request := ChatRequest(apiBase + "/chat/completions", llmModel, Prompt(input));
      var call := RetryCall(chat(request.prompt), DefaultRetries);
      if call.outcome.Failure? {
        r := Err(Network(call.outcome.error));
        return;
      }
      var segments := NewSegments(Split(Strip(call.outcome.value), '\n'));
      r := Ok(segments);
    }

    /** The loop of `generate_podcast_texts`: a fresh segment for each line
        that contains a colon, appended in line order. */
    method NewSegments(lines: seq<string>) returns (segments: seq<Segment>)
      ensures Describes(segments, ParseLines(lines)) && Distinct(segments)
      ensures forall j :: 0 <= j < |segments| ==> fresh(segments[j])
    {
      segments := [];
      for i := 0 to |lines|
        invariant Describes(segments, ParseLines(lines[..i]))
        invariant Distinct(segments)
        invariant forall j :: 0 <= j < |segments| ==> fresh(segments[j])
      {
        ParseLinesSnoc(lines, i);
        segments := AddSegment(segments, lines[i], ParseLines(lines[..i]));
      }
      assert lines[..|lines|] == lines;
    }

    /** One turn of that loop: a line with a colon gets a new segment with
        its speaker and text at the end; any other line adds nothing. */
    method AddSegment(segments: seq<Segment>, line: string, ghost us: seq<Utterance>) returns (next: seq<Segment>)
      requires Describes(segments, us) && Distinct(segments)
      ensures Describes(next, us + if ':' in line then [ParseLine(line)] else []) && Distinct(next)
      ensures |segments| <= |next| && next[..|segments|] == segments
      ensures forall j :: |segments| <= j < |next| ==> fresh(next[j])
    {
      next := segments;
      if ':' in line {
        var u := ParseLine(line);
        var segment := new Segment(u.speaker, u.text);
        DescribesSnoc(segments, us, segment, u);
        DistinctSnoc(segments, segment);
        next := segments + [segment];
      } else {
        assert us + [] == us;
      }
    }

    /** `generate_podcast_audios`: for each segment in order, choose the
        voice, synthesize, write the clip to a fresh path and record that
        path on the segment. The first speech call that fails for good
        raises, leaving the earlier segments done. A segment object listed
        twice ends with the path of its last position. */
    method GenerateAudios(segs: seq<Segment>, tts: nat -> nat -> Outcome<Bytes>, uuids: nat -> string, fs: FileSystem)
      returns (err: Option<Error>, requests: seq<SpeechRequest>)
      modifies fs, set s | s in segs
      ensures var m := Spoken(tts, |segs|);
        err == (if m < |segs| then Some(Network(Speech(tts, m).outcome.error)) else None)
        && requests == SpeechRequests(apiBase + "/audio/speech", audioModel, segs[..if m < |segs| then m + 1 else m])
        && fs.files == Written(old(fs.files), audioDir, uuids, tts, m)
        && (forall j :: 0 <= j < m && LastAmong(segs, j, m) ==> segs[j].audioPath == SegmentPath(audioDir, uuids(j)))
        && forall j :: m <= j < |segs| && Unvisited(segs, j, m) ==> segs[j].audioPath == old(segs[j].audioPath)
    {
      requests := [];
      err := None;
      ghost var start := fs.files;
      ghost var before := AudioPaths(segs);
      var i := 0;
      while i < |segs|
        invariant 0 <= i <= |segs| && Spoken(tts, i) == i
        invariant requests == SpeechRequests(apiBase + "/audio/speech", audioModel, segs[..i])
        invariant fs.files == Written(start, audioDir, uuids, tts, i)
        invariant forall j :: 0 <= j < i && LastAmong(segs, j, i) ==> segs[j].audioPath == SegmentPath(audioDir, uuids(j))
        invariant forall j :: i <= j < |segs| && Unvisited(segs, j, i) ==> segs[j].audioPath == before[j]
      {
        var request, call := SpeakOne(segs, i, tts, uuids, fs, start, before);
        requests := requests + [request];
        assert segs[..i + 1][..i] == segs[..i];
        if call.outcome.Failure? {
          assert requests == SpeechRequests(apiBase + "/audio/speech", audioModel, segs[..i + 1]);
          err := Some(Network(call.outcome.error));
          break;
        }
        i := i + 1;
      }
      if err.None? {
        assert segs[..|segs|] == segs;
      }
      SpokenIs(tts, |segs|, i);
      assert forall j :: 0 <= j < |segs| ==> before[j] == old(segs[j].audioPath);
    }

    /** One turn of the loop of `generate_podcast_audios`: the request for
        segment `i` with the voice its speaker calls for, and, when the call
        succeeds, the clip written to the segment's fresh path and that path
        recorded on the segment. */
    method SpeakOne(segs: seq<Segment>, i: nat, tts: nat -> nat -> Outcome<Bytes>, uuids: nat -> string,
                    fs: FileSystem, ghost start: map<string, Bytes>, ghost before: seq<string>)
      returns (request: SpeechRequest, call: Call<Bytes>)
      requires i < |segs| == |before| && fs.files == Written(start, audioDir, uuids, tts, i)
      requires forall j :: 0 <= j < i && LastAmong(segs, j, i) ==> segs[j].audioPath == SegmentPath(audioDir, uuids(j))
      requires forall j :: i <= j < |segs| && Unvisited(segs, j, i) ==> segs[j].audioPath == before[j]
      modifies fs, segs[i]
      ensures request == SpeechRequest(apiBase + "/audio/speech", audioModel, segs[i].text, VoiceFor(segs[i].speaker))
      ensures call == Speech(tts, i)
      ensures call.outcome.Failure? ==>
        unchanged(fs, segs[i])
        && fs.files == Written(start, audioDir, uuids, tts, i)
        && (forall j :: 0 <= j < i && LastAmong(segs, j, i) ==> segs[j].audioPath == SegmentPath(audioDir, uuids(j)))
        && forall j :: i <= j < |segs| && Unvisited(segs, j, i) ==> segs[j].audioPath == before[j]
      ensures call.outcome.Success? ==>
        fs.files == Written(start, audioDir, uuids, tts, i + 1)
        && (forall j :: 0 <= j < i + 1 && LastAmong(segs, j, i + 1) ==> segs[j].audioPath == SegmentPath(audioDir, uuids(j)))
        && forall j :: i + 1 <= j < |segs| && Unvisited(segs, j, i + 1) ==> segs[j].audioPath == before[j]
    {
      var segment := segs[i];
      var voice := VoiceFor(segment.speaker);
      request := SpeechRequest(apiBase + "/audio/speech", audioModel, segment.text, voice);
      call := Speech(tts, i);
      if call.outcome.Success? {
        SaveClip(segs, i, call.outcome.value, tts, uuids, fs, start, before);
      }
    }

    /** The success half of `SpeakOne`: the clip of segment `i` written to
        its fresh path and that path recorded on the segment. */
    method SaveClip(segs: seq<Segment>, i: nat, clip: Bytes, tts: nat -> nat -> Outcome<Bytes>, uuids: nat -> string,
                    fs: FileSystem, ghost start: map<string, Bytes>, ghost before: seq<string>)
      requires i < |segs| == |before| && fs.files == Written(start, audioDir, uuids, tts, i)
      requires Speech(tts, i).outcome == Success(clip)
      requires forall j :: 0 <= j < i && LastAmong(segs, j, i) ==> segs[j].audioPath == SegmentPath(audioDir, uuids(j))
      requires forall j :: i <= j < |segs| && Unvisited(segs, j, i) ==> segs[j].audioPath == before[j]
      modifies fs, segs[i]
      ensures fs.files == Written(start, audioDir, uuids, tts, i + 1)
      ensures forall j :: 0 <= j < i + 1 && LastAmong(segs, j, i + 1) ==> segs[j].audioPath == SegmentPath(audioDir, uuids(j))
      ensures forall j :: i + 1 <= j < |segs| && Unvisited(segs, j, i + 1) ==> segs[j].audioPath == before[j]
    {
      var path := SegmentPath(audioDir, uuids(i));
      fs.Write(path, clip);
      segs[i].audioPath := path;
      forall j | 0 <= j < i + 1 && LastAmong(segs, j, i + 1)
        ensures segs[j].audioPath == SegmentPath(audioDir, uuids(j))
      {
        if j < i {
          LastAmongStep(segs, j, i);
        }
      }
    }

    /** Shared first half of both merges: read the intro and outro, then
        append the clip of every segment whose file exists. */
    method Concatenate(segs: seq<Segment>, fs: FileSystem) returns (r: Result<Bytes>)
      ensures var pre := IntroPath(moduleDir);
        var suf := OutroPath(moduleDir);
        if pre !in fs.files then r == Err(FileNotFound(pre))
        else if suf !in fs.files then r == Err(FileNotFound(suf))
        else r == Ok(fs.files[pre] + Assembled(fs.files, AudioPaths(segs)) + fs.files[suf])
    {
      var prefix := fs.Read(IntroPath(moduleDir));
      if prefix.Err? {
        return Err(prefix.error);
      }
      var suffix := fs.Read(OutroPath(moduleDir));
      if suffix.Err? {
        return Err(suffix.error);
      }
      var combined := AppendClips(segs, fs, prefix.value);
      combined := combined + suffix.value;
      r := Ok(combined);
    }

    /** The loop of `merge_podcast_audios` over the segments: the clip of
        every segment whose file exists is appended, in segment order. */
    method AppendClips(segs: seq<Segment>, fs: FileSystem, start: Bytes) returns (combined: Bytes)
      ensures combined == start + Assembled(fs.files, AudioPaths(segs))
    {
      var paths := AudioPaths(segs);
      combined := start;
      for i := 0 to |segs|
        invariant combined == start + Assembled(fs.files, paths[..i])
      {
        AssembledSnoc(fs.files, paths, i);
        var path := segs[i].audioPath;
        assert path == paths[i];
        var present := fs.Exists(path);
        if present {
          var audio := fs.Read(path);
          combined := combined + audio.value;
        }
      }
      assert paths[..|segs|] == paths;
    }

    /** `merge_podcast_audios` as written (see `MergedAsWritten`). */
    method MergeAsWritten(segs: seq<Segment>, uuid: string, fs: FileSystem) returns (r: Result<string>)
      modifies fs
      ensures var o := MergedAsWritten(old(fs.files), old(AudioPaths(segs)), moduleDir, audioDir, uuid);
        r == o.result && fs.files == o.files
    {
      var combined := Concatenate(segs, fs);
      if combined.Err? {
        return Err(combined.error);
      }
      var merged := MergedPath(audioDir, uuid);
      fs.Write(merged, combined.value);
      var e := RemoveAll(segs, fs);
      r := if e.Some? then Err(e.value) else Ok(merged);
    }

    /** The cleanup loop as written: `os.remove` on every segment's path in
        order, raising at the first that does not exist. */
    method RemoveAll(segs: seq<Segment>, fs: FileSystem) returns (e: Option<Error>)
      modifies fs
      ensures var rm := RemoveEach(old(fs.files), old(AudioPaths(segs)));
        fs.files == rm.files && e == (if rm.missing.Some? then Some(FileNotFound(rm.missing.value)) else None)
    {
      var start := fs.files;
      var paths := AudioPaths(segs);
      for i := 0 to |segs|
        invariant RemoveEach(start, paths[..i]) == Removal(fs.files, None)
      {
        assert paths[..i + 1][..i] == paths[..i];
        e := fs.Remove(segs[i].audioPath);
        if e.Some? {
          RemoveEachStops(start, paths, i + 1);
          return;
        }
      }
      assert paths[..|segs|] == paths;
      e := None;
    }

    /** `merge_podcast_audios` with the cleanup limited to the segment files
        that exist (see `Merged`). */
    method Merge(segs: seq<Segment>, uuid: string, fs: FileSystem) returns (r: Result<string>)
      modifies fs
      ensures var o := Merged(old(fs.files), old(AudioPaths(segs)), moduleDir, audioDir, uuid);
        r == o.result && fs.files == o.files
    {
      var combined := Concatenate(segs, fs);
      if combined.Err? {
        return Err(combined.error);
      }
      var merged := MergedPath(audioDir, uuid);
      fs.Write(merged, combined.value);
      RemoveExisting(segs, fs);
      r := Ok(merged);
    }

    /** The corrected cleanup loop: each segment file that exists is removed,
        the others are passed over. */
    method RemoveExisting(segs: seq<Segment>, fs: FileSystem)
      modifies fs
      ensures fs.files == old(fs.files) - Elements(old(AudioPaths(segs)))
    {
      var start := fs.files;
      var paths := AudioPaths(segs);
      for i := 0 to |segs|
        invariant fs.files == start - Elements(paths[..i])
      {
        ElementsSnoc(paths, i);
        var present := fs.Exists(segs[i].audioPath);
        if present {
          var _ := fs.Remove(segs[i].audioPath);
        }
      }
      assert paths[..|segs|] == paths;
    }

    /** `generate_podcast`: texts, then audio, then the merge. The n-th
        `uuid4()` of the run names the n-th segment file; the next one names
        the merged file. `speech` is the speech requests sent: one per
        parsed line of the script, in order, with that line's text and the
        voice of its speaker, up to and including the call that failed. */
    method GeneratePodcast(input: string, chat: string -> nat -> Outcome<string>, tts: nat -> nat -> Outcome<Bytes>,
                           uuids: nat -> string, fs: FileSystem)
      returns (r: Result<string>, speech: seq<SpeechRequest>)
      modifies fs
      ensures var o := Pipeline(old(fs.files), input, chat, tts, uuids, moduleDir, audioDir);
        r == o.result && fs.files == o.files
      ensures var reply := ChatCall(chat, input).outcome;
        (reply.Failure? ==> speech == [])
        && (reply.Success? ==> speech == RequestsSent(apiBase + "/audio/speech", audioModel, tts, ParseReply(reply.value)))
    {
      var texts, _ := GenerateTexts(input, chat);
      if texts.Err? {
        return Err(texts.error), [];
      }
      r, speech := AudiosThenMerge(texts.value, ParseReply(ChatCall(chat, input).outcome.value), tts, uuids, fs);
    }

    /** The second and third steps of `generate_podcast`: speak every
        segment of the script `us`, then merge, unless a speech call fails
        for good. */
    method AudiosThenMerge(segs: seq<Segment>, ghost us: seq<Utterance>, tts: nat -> nat -> Outcome<Bytes>,
                           uuids: nat -> string, fs: FileSystem)
      returns (r: Result<string>, requests: seq<SpeechRequest>)
      requires Distinct(segs) && Describes(segs, us)
      modifies fs, set s | s in segs
      ensures requests == RequestsSent(apiBase + "/audio/speech", audioModel, tts, us)
      ensures MergeOutcome(r, fs.files) == SpeakThenMerge(old(fs.files), tts, uuids, moduleDir, audioDir, |us|)
    {
      ghost var m := Spoken(tts, |segs|);
      RequestsOfScript(apiBase + "/audio/speech", audioModel, segs, us, if m < |segs| then m + 1 else m);
      var err;
      err, requests := GenerateAudios(segs, tts, uuids, fs);
      if err.Some? {
        return Err(err.value), requests;
      }
      PathsRecorded(segs, audioDir, uuids);
      ghost var written := fs.files;
      ghost var paths := AudioPaths(segs);
      r := MergeAsWritten(segs, uuids(|segs|), fs);
      assert MergeOutcome(r, fs.files) == MergedAsWritten(written, paths, moduleDir, audioDir, uuids(|segs|));
    }
  }
}
