/** The chat plugin `PodcastPlugin` (podcast.py:27-135): it recognises the
    `/podcast <url>` command, admits or refuses the URL, fetches the page
    through the reader service with retries, cuts the text to the word
    budget and hands it to the podcast generator.

    The reader service is an oracle `fetch(u)(k)`: what the k-th try of
    the GET on the reader URL `u` gets back. The chat and speech services
    are oracles as in `Generator`. */
module Plugin {
  import opened PyStr
  import opened Retry
  import opened Errors
  import opened Files
  import opened Script
  import opened Generator

  /** The settings the plugin reads after `__init__`; none of them is
      reassigned later. */
  datatype Config = Config(readerBase: string, maxWords: int, whiteList: seq<string>, blackList: seq<string>)

  /** The class-level defaults: the public reader, a budget of 50000, no
      white list, and the two WeChat video and music hosts barred. */
  const DefaultConfig: Config := Config(
    "https://r.jina.ai", 50000, [],
    ["https://support.weixin.qq.com", "https://channels-aladin.wxqcloud.qq.com"])

  // ---------------------------------------------------------------------
  // URL admission (`_check_url`)

  /** `any(s.startswith(p) for p in prefixes)`. */
  predicate AnyPrefix(s: string, prefixes: seq<string>)
    decreases |prefixes|
  {
    |prefixes| > 0 && (StartsWith(s, prefixes[0]) || AnyPrefix(s, prefixes[1..]))
  }

  lemma {:induction false} AnyPrefixSpec(s: string, prefixes: seq<string>)
    ensures AnyPrefix(s, prefixes) <==> exists k :: 0 <= k < |prefixes| && StartsWith(s, prefixes[k])
    decreases |prefixes|
  {
    if |prefixes| > 0 {
      var tail := prefixes[1..];
      AnyPrefixSpec(s, tail);
      if AnyPrefix(s, tail) {
        var k :| 0 <= k < |tail| && StartsWith(s, tail[k]);
        assert prefixes[k + 1] == tail[k];
      }
      if exists k :: 0 <= k < |prefixes| && StartsWith(s, prefixes[k]) {
        var k :| 0 <= k < |prefixes| && StartsWith(s, prefixes[k]);
        if k > 0 {
          assert tail[k - 1] == prefixes[k];
        }
      }
    }
  }

  predicate HasScheme(u: string) {
    StartsWith(u, "http://") || StartsWith(u, "https://")
  }

  /** `_check_url`: on the stripped URL, a scheme test, then the white
      list when it is non-empty, then the black list. A URL is admitted
      exactly when, once stripped, it has an `http://` or `https://` scheme,
      starts with some white-list entry if there are any, and starts with no
      black-list entry. */
  function CheckUrl(target: string, whiteList: seq<string>, blackList: seq<string>): (ok: bool)
    ensures var u := Strip(target);
      ok <==> HasScheme(u)
              && (|whiteList| == 0 || exists k :: 0 <= k < |whiteList| && StartsWith(u, whiteList[k]))
              && (forall k :: 0 <= k < |blackList| ==> !StartsWith(u, blackList[k]))
  {
    var u := Strip(target);
    AnyPrefixSpec(u, whiteList);
    AnyPrefixSpec(u, blackList);
    if !HasScheme(u) then false
    else if |whiteList| > 0 && !AnyPrefix(u, whiteList) then false
    else !AnyPrefix(u, blackList)
  }

  /** The black list wins: a URL under a barred prefix is refused even
      when the same prefix is also on the white list. */
  lemma BlackListWins(target: string, whiteList: seq<string>, blackList: seq<string>, k: nat)
    requires k < |blackList| && StartsWith(Strip(target), blackList[k])
    ensures !CheckUrl(target, whiteList, blackList)
  {
  }

  /** A non-empty white list admits only URLs under one of its entries. */
  lemma WhiteListBinds(target: string, whiteList: seq<string>, blackList: seq<string>)
    requires |whiteList| > 0
    requires forall k :: 0 <= k < |whiteList| ==> !StartsWith(Strip(target), whiteList[k])
    ensures !CheckUrl(target, whiteList, blackList)
  {
  }

  /** Surrounding whitespace never changes the verdict. */
  lemma CheckUrlIgnoresPadding(target: string, whiteList: seq<string>, blackList: seq<string>)
    ensures CheckUrl(Strip(target), whiteList, blackList) == CheckUrl(target, whiteList, blackList)
  {
    StripIdempotent(target);
  }

  // ---------------------------------------------------------------------
  // The command

  const Command: string := "/podcast"

  /** The URL as the handler computes it: every `/podcast` in the message
      deleted, then the rest stripped. */
  function UrlOfAsWritten(content: string): (url: string)
    ensures |url| <= |content|
    ensures StartsWith(content, Command) ==> |url| <= |content| - |Command|
  {
    DeletionShortens(content);
    Strip(Replace(content, Command, ""))
  }

  /** Deleting `/podcast` never lengthens the message, and takes at least
      the leading command off a message that starts with it. */
  lemma DeletionShortens(content: string)
    ensures |Replace(content, Command, "")| <= |content|
    ensures StartsWith(content, Command) ==> |Replace(content, Command, "")| <= |content| - |Command|
  {
    ReplaceShrinks(content, Command);
    if StartsWith(content, Command) {
      var rest := content[|Command|..];
      assert content == Command + rest;
      ReplaceLeading(Command, rest);
      ReplaceShrinks(rest, Command);
    }
  }

  /** The URL as the command syntax `/podcast <url>` means it: the message
      after its leading `/podcast`, stripped. */
  function UrlOf(content: string): (url: string)
    requires StartsWith(content, Command)
    ensures |url| <= |content| - |Command|
    ensures url != [] ==> !IsSpace(url[0]) && !IsSpace(url[|url| - 1])
  {
    Strip(content[|Command|..])
  }

  /** The URL of `/podcast` followed by anything is that anything, stripped. */
  lemma UrlOfCommand(rest: string)
    ensures StartsWith(Command + rest, Command) && UrlOf(Command + rest) == Strip(rest)
  {
    assert (Command + rest)[..|Command|] == Command;
    assert (Command + rest)[|Command|..] == rest;
  }

  /** Deleting a pattern at the front of a string. */
  lemma ReplaceLeading(pat: string, rest: string)
    requires |pat| > 0
    ensures Replace(pat + rest, pat, "") == Replace(rest, pat, "")
  {
    assert (pat + rest)[..|pat|] == pat;
    assert (pat + rest)[|pat|..] == rest;
  }

  /** No occurrence of `pat` can start at position `i` of `a`, whatever
      follows `a`: the character there differs from the first of `pat`, or
      the next one in `a` differs from the second. */
  predicate CannotStart(a: string, i: nat, pat: string)
    requires i < |a| && |pat| >= 2
  {
    a[i] != pat[0] || (i + 1 < |a| && a[i + 1] != pat[1])
  }

  /** Deleting a pattern passes over a stretch in which no occurrence of it
      can start. */
  lemma {:induction false} ReplaceSkips(a: string, b: string, pat: string)
    requires |pat| >= 2
    requires forall i :: 0 <= i < |a| ==> CannotStart(a, i, pat)
    ensures Replace(a + b, pat, "") == a + Replace(b, pat, "")
    decreases |a|
  {
    if |a| > 0 {
      var s := a + b;
      var t := a[1..];
      assert s[1..] == t + b;
      forall i | 0 <= i < |t|
        ensures CannotStart(t, i, pat)
      {
        assert CannotStart(a, i + 1, pat);
        assert t[i] == a[i + 1];
        assert i + 1 < |t| ==> t[i + 1] == a[i + 2];
      }
      ReplaceSkips(t, b, pat);
      assert CannotStart(a, 0, pat);
      if |s| >= |pat| {
        assert s[..|pat|] != pat by {
          assert s[..|pat|][0] == a[0];
          assert |a| > 1 ==> s[..|pat|][1] == a[1];
        }
        assert [s[0]] + (t + Replace(b, pat, "")) == a + Replace(b, pat, "");
      } else {
        assert Replace(b, pat, "") == b;
      }
    } else {
      assert a + b == b;
    }
  }

  /** While the rest of the message holds no `/podcast`, the handler's URL
      is the intended one. */
  lemma AsWrittenAgrees(rest: string)
    requires !Contains(rest, Command)
    ensures UrlOfAsWritten(Command + rest) == Strip(rest)
  {
    ReplaceLeading(Command, rest);
    ReplaceAbsent(rest, Command, "");
  }

  /** A URL with `/podcast` in its path loses it: the handler turns
      `/podcast http://x/podcast/1` into `http://x/1`, while the command
      names `http://x/podcast/1`. (A host starting with `podcast` is
      mangled too, which is why the host here may not start with `p`.) */
  lemma AsWrittenMangles(host: string)
    requires host != [] && host[0] != 'p' && '/' !in host
    ensures var url := "http://" + host + Command + "/1";
      var content := Command + " " + url;
      StartsWith(content, Command)
      && UrlOf(content) == url
      && UrlOfAsWritten(content) == "http://" + host + "/1"
      && UrlOfAsWritten(content) != UrlOf(content)
  {
    var url := "http://" + host + Command + "/1";
    var m := "http://" + host + "/1";
    MangledUrl(host);
    assert url[0] == 'h' && url[|url| - 1] == '1';
    IntendedUrl(url);
    assert |url| == |m| + |Command|;
  }

  lemma MangledUrl(host: string)
    requires host != [] && host[0] != 'p' && '/' !in host
    ensures UrlOfAsWritten(Command + " " + ("http://" + host + Command + "/1")) == "http://" + host + "/1"
  {
    var m := "http://" + host + "/1";
    DeletesInPath(host, "/1");
    assert m[0] == 'h' && m[|m| - 1] == '1';
    StripLeading(" ", m);
  }

  /** `/podcast`, a space and a URL name that URL. */
  lemma IntendedUrl(url: string)
    requires url != [] && !IsSpace(url[0]) && !IsSpace(url[|url| - 1])
    ensures StartsWith(Command + " " + url, Command) && UrlOf(Command + " " + url) == url
  {
    assert Command + " " + url == Command + (" " + url);
    UrlOfCommand(" " + url);
    StripLeading(" ", url);
  }

  /** The deletion step of `AsWrittenMangles`, for any path end shorter
      than `/podcast`. */
  lemma DeletesInPath(host: string, tail: string)
    requires host != [] && host[0] != 'p' && '/' !in host
    requires |tail| < |Command|
    ensures Replace(Command + " " + ("http://" + host + Command + tail), Command, "")
      == " " + ("http://" + host + tail)
  {
    var a := " " + ("http://" + host);
    UrlHeadCannotStart(host);
    DeleteAround(Command, a, tail);
    Regroup(Command, " ", "http://", host, tail);
  }

  /** How the pieces of the example message group. */
  lemma Regroup(c: string, sp: string, scheme: string, host: string, tail: string)
    ensures c + sp + (scheme + host + c + tail) == c + ((sp + (scheme + host)) + (c + tail))
    ensures (sp + (scheme + host)) + tail == sp + (scheme + host + tail)
  {
  }

  /** A pattern in front, a stretch where it cannot start, the pattern
      again and a short end: deleting the pattern leaves the stretch and
      the end. */
  lemma DeleteAround(pat: string, a: string, tail: string)
    requires |pat| >= 2 && |tail| < |pat|
    requires forall i :: 0 <= i < |a| ==> CannotStart(a, i, pat)
    ensures Replace(pat + (a + (pat + tail)), pat, "") == a + tail
  {
    ReplaceLeading(pat, a + (pat + tail));
    ReplaceSkips(a, pat + tail, pat);
    ReplaceLeading(pat, tail);
  }

  /** No `/podcast` can start in ` http://` followed by a host without `/`
      that does not start with `p`. */
  lemma UrlHeadCannotStart(host: string)
    requires host != [] && host[0] != 'p' && '/' !in host
    ensures var a := " " + ("http://" + host);
      forall i :: 0 <= i < |a| ==> CannotStart(a, i, Command)
  {
    var a := " " + ("http://" + host);
    SchemeCannotStart(host);
    forall i | 8 <= i < |a|
      ensures CannotStart(a, i, Command)
    {
      assert a[i] == host[i - 8];
    }
  }

  /** No `/podcast` starts in ` http://` when the host does not start
      with `p`. */
  lemma SchemeCannotStart(host: string)
    requires host != [] && host[0] != 'p'
    ensures forall i :: 0 <= i < 8 ==> CannotStart(" " + ("http://" + host), i, Command)
  {
    var a := " " + ("http://" + host);
    assert a[0] == ' ' && a[1] == 'h' && a[2] == 't' && a[3] == 't' && a[4] == 'p';
    assert a[5] == ':' && a[6] == '/' && a[7] == '/' && a[8] == host[0];
    forall i | 0 <= i < 8
      ensures CannotStart(a, i, Command)
    {
      if i == 0 {
      } else if i == 1 {
      } else if i == 2 {
      } else if i == 3 {
      } else if i == 4 {
      } else if i == 5 {
      } else if i == 6 {
      } else {
        assert i == 7;
      }
    }
  }

  // ---------------------------------------------------------------------
  // Fetching and the budget

  /** The reader URL: the reader service base, a slash, the target URL. */
  function ReaderUrl(config: Config, url: string): (r: string)
    ensures var b := |config.readerBase|;
      |r| == b + 1 + |url| && r[..b] == config.readerBase && r[b] == '/' && r[b + 1..] == url
  {
    config.readerBase + "/" + url
  }

  /** `parse_url(url)`: the GET on the reader URL, with its default
      retries; every try asks for the reader URL, never for `url` itself. */
  function Page(config: Config, fetch: string -> nat -> Outcome<string>, url: string): (c: Call<string>)
    ensures 0 < c.tries <= 4 && c.outcome == fetch(ReaderUrl(config, url))(c.tries - 1)
  {
    RetryCall(fetch(ReaderUrl(config, url)), DefaultRetries)
  }

  /** `text[:max_words]`: what is handed to the generator. */
  function Excerpt(config: Config, text: string): (r: string)
    ensures StartsWith(text, r)
    ensures config.maxWords >= 0 ==> |r| == if |text| <= config.maxWords then |text| else config.maxWords
  {
    SliceTo(text, config.maxWords)
  }

  /** With the default settings, any URL under one of the two barred hosts
      is refused. */
  lemma DefaultBarsChannels(k: nat, path: string)
    requires k < |DefaultConfig.blackList|
    requires path != [] ==> !IsSpace(path[|path| - 1])
    ensures !CheckUrl(DefaultConfig.blackList[k] + path, DefaultConfig.whiteList, DefaultConfig.blackList)
  {
    var b := DefaultConfig.blackList[k];
    var u := b + path;
    assert b[0] == 'h' && b[|b| - 1] == 'm';
    assert u[0] == b[0];
    assert u[|u| - 1] == if path == [] then b[|b| - 1] else path[|path| - 1];
    StripNoEdges(u);
    assert u[..|b|] == b;
    BlackListWins(u, DefaultConfig.whiteList, DefaultConfig.blackList, k);
  }

  // ---------------------------------------------------------------------
  // `on_handle_context`

  datatype ContextKind = Text | Sharing | OtherKind

  datatype Reply =
    | ErrorReply(message: string)
    | FileReply(path: string)

  /** What the handler leaves behind: the reply it set, if any, and the
      filesystem. */
  datatype Handling = Handling(reply: Option<Reply>, files: map<string, Bytes>)

  const NotValid: string := " is not a valid url"
  const Apology: string := "我暂时无法生成播客，请稍后再试"

  /** What the handler does with the URL it extracted: a refused URL gets
      an error naming it; otherwise the page is fetched with the default
      retries, cut to the budget and turned into a podcast, whose path is
      the reply; any failure on the way gets the apology. */
  function Respond(config: Config, url: string,
                   fetch: string -> nat -> Outcome<string>, files: map<string, Bytes>,
                   chat: string -> nat -> Outcome<string>, tts: nat -> nat -> Outcome<Bytes>,
                   uuids: nat -> string, moduleDir: string, audioDir: string): (h: Handling)
    ensures h.reply.Some?
    ensures h.files != files || h.reply.value.FileReply? ==> CheckUrl(url, config.whiteList, config.blackList)
  {
    if !CheckUrl(url, config.whiteList, config.blackList) then Handling(Some(ErrorReply(url + NotValid)), files)
    else
      var page := Page(config, fetch, url).outcome;
      if page.Failure? then Handling(Some(ErrorReply(Apology)), files)
      else
        var o := Pipeline(files, Excerpt(config, page.value), chat, tts, uuids, moduleDir, audioDir);
        if o.result.Err? then Handling(Some(ErrorReply(Apology)), o.files)
        else Handling(Some(FileReply(o.result.value)), o.files)
  }

  /** `on_handle_context` as written: messages of another kind or without
      the command are passed over, with no reply and no file touched;
      otherwise the URL is what is left after deleting every `/podcast`,
      and no file changes and no podcast is sent unless that URL is
      admitted. */
  function HandleContext(config: Config, kind: ContextKind, content: string,
                         fetch: string -> nat -> Outcome<string>, files: map<string, Bytes>,
                         chat: string -> nat -> Outcome<string>, tts: nat -> nat -> Outcome<Bytes>,
                         uuids: nat -> string, moduleDir: string, audioDir: string): (h: Handling)
    ensures h.reply.None? <==> kind == OtherKind || !StartsWith(content, Command)
    ensures h.reply.None? ==> h.files == files
    ensures h.files != files || (h.reply.Some? && h.reply.value.FileReply?) ==>
      CheckUrl(UrlOfAsWritten(content), config.whiteList, config.blackList)
  {
    if kind == OtherKind || !StartsWith(content, Command) then Handling(None, files)
    else Respond(config, UrlOfAsWritten(content), fetch, files, chat, tts, uuids, moduleDir, audioDir)
  }

  /** The handler with the intended URL extraction: the message after its
      leading `/podcast`, stripped. */
  function HandleIntended(config: Config, kind: ContextKind, content: string,
                          fetch: string -> nat -> Outcome<string>, files: map<string, Bytes>,
                          chat: string -> nat -> Outcome<string>, tts: nat -> nat -> Outcome<Bytes>,
                          uuids: nat -> string, moduleDir: string, audioDir: string): (h: Handling)
    ensures h.reply.None? <==> kind == OtherKind || !StartsWith(content, Command)
  {
    if kind == OtherKind || !StartsWith(content, Command) then Handling(None, files)
    else Respond(config, UrlOf(content), fetch, files, chat, tts, uuids, moduleDir, audioDir)
  }

  /** The two handlers differ only on messages whose rest holds `/podcast`. */
  lemma HandlersAgree(config: Config, kind: ContextKind, rest: string,
                      fetch: string -> nat -> Outcome<string>, files: map<string, Bytes>,
                      chat: string -> nat -> Outcome<string>, tts: nat -> nat -> Outcome<Bytes>,
                      uuids: nat -> string, moduleDir: string, audioDir: string)
    requires !Contains(rest, Command)
    ensures HandleContext(config, kind, Command + rest, fetch, files, chat, tts, uuids, moduleDir, audioDir)
      == HandleIntended(config, kind, Command + rest, fetch, files, chat, tts, uuids, moduleDir, audioDir)
  {
    UrlOfCommand(rest);
    AsWrittenAgrees(rest);
  }

  /** A command whose URL is refused is answered with an error that names
      the URL, before anything is fetched or written. */
  lemma RefusedUrl(config: Config, kind: ContextKind, rest: string,
                   fetch: string -> nat -> Outcome<string>, files: map<string, Bytes>,
                   chat: string -> nat -> Outcome<string>, tts: nat -> nat -> Outcome<Bytes>,
                   uuids: nat -> string, moduleDir: string, audioDir: string)
    requires kind != OtherKind && !Contains(rest, Command)
    requires !CheckUrl(Strip(rest), config.whiteList, config.blackList)
    ensures HandleContext(config, kind, Command + rest, fetch, files, chat, tts, uuids, moduleDir, audioDir)
      == Handling(Some(ErrorReply(Strip(rest) + NotValid)), files)
  {
    UrlOfCommand(rest);
    AsWrittenAgrees(rest);
  }

  /** A command whose page cannot be fetched in four tries is answered
      with the apology and leaves the files alone. */
  lemma FetchFails(config: Config, kind: ContextKind, rest: string,
                   fetch: string -> nat -> Outcome<string>, files: map<string, Bytes>,
                   chat: string -> nat -> Outcome<string>, tts: nat -> nat -> Outcome<Bytes>,
                   uuids: nat -> string, moduleDir: string, audioDir: string)
    requires kind != OtherKind && !Contains(rest, Command)
    requires CheckUrl(Strip(rest), config.whiteList, config.blackList)
    requires forall j :: 0 <= j <= 3 ==> fetch(ReaderUrl(config, Strip(rest)))(j).Failure?
    ensures HandleContext(config, kind, Command + rest, fetch, files, chat, tts, uuids, moduleDir, audioDir)
      == Handling(Some(ErrorReply(Apology)), files)
  {
    UrlOfCommand(rest);
    AsWrittenAgrees(rest);
    AlwaysFailingMakesFourTries(fetch(ReaderUrl(config, Strip(rest))));
  }

  /** Once the URL is admitted and the page fetched, the reply mirrors the
      generator: the podcast's path on success, the apology on an error,
      with the generator's files either way. */
  lemma RunsPipeline(config: Config, kind: ContextKind, rest: string,
                     fetch: string -> nat -> Outcome<string>, files: map<string, Bytes>,
                     chat: string -> nat -> Outcome<string>, tts: nat -> nat -> Outcome<Bytes>,
                     uuids: nat -> string, moduleDir: string, audioDir: string)
    requires kind != OtherKind && !Contains(rest, Command)
    requires CheckUrl(Strip(rest), config.whiteList, config.blackList)
    requires Page(config, fetch, Strip(rest)).outcome.Success?
    ensures var o := Pipeline(files, Excerpt(config, Page(config, fetch, Strip(rest)).outcome.value),
                              chat, tts, uuids, moduleDir, audioDir);
      HandleContext(config, kind, Command + rest, fetch, files, chat, tts, uuids, moduleDir, audioDir)
      == Handling(Some(if o.result.Err? then ErrorReply(Apology) else FileReply(o.result.value)), o.files)
  {
    UrlOfCommand(rest);
    AsWrittenAgrees(rest);
  }

  /** End to end: an admitted URL whose page is fetched, whose script is
      written, and whose every line is spoken is answered with the path of
      the new podcast, which holds intro, the clips in script order, and
      outro; no segment file is left behind; every other file is as it was. */
  lemma Delivers(config: Config, kind: ContextKind, rest: string,
                 fetch: string -> nat -> Outcome<string>, files: map<string, Bytes>,
                 chat: string -> nat -> Outcome<string>, tts: nat -> nat -> Outcome<Bytes>,
                 uuids: nat -> string, moduleDir: string, audioDir: string)
    requires kind != OtherKind && !Contains(rest, Command)
    requires CheckUrl(Strip(rest), config.whiteList, config.blackList)
    requires Page(config, fetch, Strip(rest)).outcome.Success?
    requires ChatCall(chat, Excerpt(config, Page(config, fetch, Strip(rest)).outcome.value)).outcome.Success?
    requires var n := |ParseReply(ChatCall(chat, Excerpt(config, Page(config, fetch, Strip(rest)).outcome.value)).outcome.value)|;
      Spoken(tts, n) == n
      && (forall i, j :: 0 <= i < j < n ==> SegmentPath(audioDir, uuids(i)) != SegmentPath(audioDir, uuids(j)))
      && (forall i :: 0 <= i < n ==>
            SegmentPath(audioDir, uuids(i)) != IntroPath(moduleDir)
            && SegmentPath(audioDir, uuids(i)) != OutroPath(moduleDir)
            && SegmentPath(audioDir, uuids(i)) != MergedPath(audioDir, uuids(n)))
    requires IntroPath(moduleDir) in files && OutroPath(moduleDir) in files
    ensures var input := Excerpt(config, Page(config, fetch, Strip(rest)).outcome.value);
      var n := |ParseReply(ChatCall(chat, input).outcome.value)|;
      var out := MergedPath(audioDir, uuids(n));
      var h := HandleContext(config, kind, Command + rest, fetch, files, chat, tts, uuids, moduleDir, audioDir);
      h.reply == Some(FileReply(out)) && out in h.files
      && h.files[out] == files[IntroPath(moduleDir)] + Clips(tts, n) + files[OutroPath(moduleDir)]
      && (forall i :: 0 <= i < n ==> SegmentPath(audioDir, uuids(i)) !in h.files)
      && forall p :: p !in SegmentPaths(audioDir, uuids, n) && p != out ==>
           (p in h.files <==> p in files) && (p in files ==> h.files[p] == files[p])
  {
    var input := Excerpt(config, Page(config, fetch, Strip(rest)).outcome.value);
    RunsPipeline(config, kind, rest, fetch, files, chat, tts, uuids, moduleDir, audioDir);
    PipelineOutput(files, input, chat, tts, uuids, moduleDir, audioDir);
  }
}
