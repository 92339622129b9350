/** The dialogue script: `PodcastSegment` (podcast.py:167-171), the prompt
    that asks for a script (podcast.py:248) and the parser that turns the
    chat reply into segments (podcast.py:250-258). */
module Script {
  import opened PyStr

  /** One line of the script. `audio_path` starts empty and is assigned
      once the line has been spoken; the speaker and the text are never
      reassigned, so they are constant fields. */
  class Segment {
    const speaker: string
    const text: string
    var audioPath: string

    constructor (speaker: string, text: string)
      ensures this.speaker == speaker && this.text == text && audioPath == ""
    {
      this.speaker := speaker;
      this.text := text;
      audioPath := "";
    }
  }

  /** The value a parsed line carries: who speaks, and what. */
  datatype Utterance = Utterance(speaker: string, text: string)

  /** The delimiting tags around the input in the prompt template; the
      instruction prose before the opening tag is not modelled. */
  const InputOpen: string := "<input-text>\n"
  const InputClose: string := "\n</input-text>\n"

  /** `podcast_prompt_template.format(input_text)`: the template with the
      input put verbatim between its tags, so the input can be read back out
      of the prompt unchanged. */
  function Prompt(input: string): (p: string)
    ensures |p| == |InputOpen| + |input| + |InputClose|
    ensures p[..|InputOpen|] == InputOpen && p[|InputOpen|..|InputOpen| + |input|] == input
      && p[|InputOpen| + |input|..] == InputClose
  {
    var p := InputOpen + input + InputClose;
    assert p[..|InputOpen|] == InputOpen;
    assert p[|InputOpen|..|InputOpen| + |input|] == input;
    assert p[|InputOpen| + |input|..] == InputClose;
    p
  }

  /** `line.split(':', 1)` with both halves stripped. */
  function ParseLine(line: string): (u: Utterance)
    requires ':' in line
    ensures |u.speaker| + |u.text| < |line|
    ensures u.speaker != [] ==> !IsSpace(u.speaker[0]) && !IsSpace(u.speaker[|u.speaker| - 1])
    ensures u.text != [] ==> !IsSpace(u.text[0]) && !IsSpace(u.text[|u.text| - 1])
  {
    IndexOfFound(line, ':');
    var i := IndexOf(line, ':');
    Utterance(Strip(line[..i]), Strip(line[i + 1..]))
  }

  /** The line is cut at its FIRST colon: the speaker is the stripped text
      before it, and the text is the stripped rest, later colons included
      (so `Alice: hi: there` is spoken by `Alice` and says `hi: there`). */
  lemma ParseLineFirstColon(a: string, b: string)
    requires ':' !in a
    ensures ParseLine(a + ":" + b) == Utterance(Strip(a), Strip(b))
  {
    assert a + ":" + b == a + [':'] + b;
    IndexOfPast(a, ':', b);
    Pieces(a, ':', b);
  }

  /** The loop of `generate_podcast_texts`: one utterance per line that
      contains a colon, in line order; other lines are skipped. */
  function ParseLines(lines: seq<string>): (us: seq<Utterance>)
    ensures |us| <= |lines|
    ensures (forall k :: 0 <= k < |lines| ==> ':' !in lines[k]) ==> us == []
  {
    if |lines| == 0 then []
    else if ':' in lines[0] then [ParseLine(lines[0])] + ParseLines(lines[1..])
    else ParseLines(lines[1..])
  }

  /** The whole parse of a chat reply: strip, split on newlines, parse. */
  function ParseReply(reply: string): (us: seq<Utterance>)
    ensures Strip(reply) == [] ==> us == []
  {
    assert Split([], '\n') == [[]];
    ParseLines(Split(Strip(reply), '\n'))
  }

  /** Parsing respects concatenation of line lists, so the utterances come
      out in the order of their lines. */
  lemma {:induction false} ParseLinesAppend(a: seq<string>, b: seq<string>)
    ensures ParseLines(a + b) == ParseLines(a) + ParseLines(b)
  {
    if |a| > 0 {
      assert (a + b)[1..] == a[1..] + b;
      ParseLinesAppend(a[1..], b);
    } else {
      assert a + b == b;
    }
  }

  /** One more line adds its utterance, if it has a colon, at the end. */
  lemma ParseLinesSnoc(lines: seq<string>, i: nat)
    requires i < |lines|
    ensures ParseLines(lines[..i + 1]) == ParseLines(lines[..i]) + (if ':' in lines[i] then [ParseLine(lines[i])] else [])
  {
    assert lines[..i + 1] == lines[..i] + [lines[i]];
    ParseLinesAppend(lines[..i], [lines[i]]);
    assert [lines[i]][1..] == [];
  }

  /** Positions of the lines that contain a colon. */
  function ColonLines(lines: seq<string>): (cs: seq<nat>)
    ensures |cs| <= |lines|
    decreases |lines|
  {
    if |lines| == 0 then []
    else
      var n := |lines| - 1;
      ColonLines(lines[..n]) + (if ':' in lines[n] then [n] else [])
  }

  /** `ColonLines` lists, in increasing order, exactly the positions of
      the lines that contain a colon. */
  lemma {:induction false} ColonLinesSpec(lines: seq<string>)
    ensures forall j :: 0 <= j < |ColonLines(lines)| ==>
      ColonLines(lines)[j] < |lines| && ':' in lines[ColonLines(lines)[j]]
    ensures forall j, k :: 0 <= j < k < |ColonLines(lines)| ==> ColonLines(lines)[j] < ColonLines(lines)[k]
    ensures forall i :: 0 <= i < |lines| && ':' in lines[i] ==> i in ColonLines(lines)
    decreases |lines|
  {
    if |lines| > 0 {
      var n := |lines| - 1;
      var init := lines[..n];
      ColonLinesSpec(init);
      assert forall i :: 0 <= i < n ==> lines[i] == init[i];
    }
  }

  /** Exactly one utterance per line that contains a colon: the j-th
      utterance is the parse of the j-th such line, so utterances keep the
      order of their lines and colon-free lines contribute nothing. */
  lemma {:induction false} ParseLinesSpec(lines: seq<string>)
    ensures |ParseLines(lines)| == |ColonLines(lines)|
    ensures forall j :: 0 <= j < |ColonLines(lines)| ==>
      ColonLines(lines)[j] < |lines| && ':' in lines[ColonLines(lines)[j]]
      && ParseLines(lines)[j] == ParseLine(lines[ColonLines(lines)[j]])
    decreases |lines|
  {
    if |lines| > 0 {
      var n := |lines| - 1;
      var init := lines[..n];
      ParseLinesSpec(init);
      ParseLinesSnoc(lines, n);
      assert lines[..n + 1] == lines;
      var ps, cs := ParseLines(lines), ColonLines(lines);
      var ps0, cs0 := ParseLines(init), ColonLines(init);
      assert cs == cs0 + (if ':' in lines[n] then [n] else []);
      assert ps == ps0 + (if ':' in lines[n] then [ParseLine(lines[n])] else []);
      forall j | 0 <= j < |cs|
        ensures cs[j] < |lines| && ':' in lines[cs[j]] && ps[j] == ParseLine(lines[cs[j]])
      {
        if j < |cs0| {
          assert cs[j] == cs0[j] && ps[j] == ps0[j];
          assert lines[cs0[j]] == init[cs0[j]];
        }
      }
    }
  }

  /** A script line as the prompt asks for it: `Speaker: text`. */
  function Render(u: Utterance): string {
    u.speaker + ": " + u.text
  }

  /** What the parser can reproduce exactly: stripped parts, no colon in
      the speaker, no newline anywhere, and some text. */
  predicate WellFormed(u: Utterance) {
    Strip(u.speaker) == u.speaker && Strip(u.text) == u.text && u.text != ""
    && ':' !in u.speaker && '\n' !in u.speaker && '\n' !in u.text
  }

  function RenderAll(us: seq<Utterance>): (ls: seq<string>)
    ensures |ls| == |us| && forall k :: 0 <= k < |us| ==> ls[k] == Render(us[k])
  {
    if |us| == 0 then [] else [Render(us[0])] + RenderAll(us[1..])
  }

  lemma ParseRendered(u: Utterance)
    requires WellFormed(u)
    ensures ':' in Render(u) && ParseLine(Render(u)) == u
  {
    RenderAtColon(u);
    ParseLineFirstColon(u.speaker, " " + u.text);
    StripLeading(" ", u.text);
  }

  /** A rendered line is the speaker, the colon, then the text after one
      space. */
  lemma RenderAtColon(u: Utterance)
    ensures Render(u) == u.speaker + ":" + (" " + u.text)
    ensures Render(u)[|u.speaker|] == ':'
  {
  }

  lemma {:induction false} ParseLinesRendered(us: seq<Utterance>)
    requires forall k :: 0 <= k < |us| ==> WellFormed(us[k])
    ensures ParseLines(RenderAll(us)) == us
  {
    if |us| > 0 {
      ParseRendered(us[0]);
      ParseLinesRendered(us[1..]);
      ParseLinesCons(Render(us[0]), RenderAll(us[1..]));
      assert us == [us[0]] + us[1..];
    }
  }

  /** A line with a colon puts its utterance in front of the rest. */
  lemma ParseLinesCons(l: string, rest: seq<string>)
    requires ':' in l
    ensures ParseLines([l] + rest) == [ParseLine(l)] + ParseLines(rest)
  {
    assert ([l] + rest)[1..] == rest;
  }

  lemma JoinFirst(ls: seq<string>, c: char)
    requires |ls| >= 1 && ls[0] != []
    ensures var j := JoinWith(ls, c); j != [] && j[0] == ls[0][0]
  {
  }

  lemma {:induction false} JoinLast(ls: seq<string>, c: char)
    requires |ls| >= 1 && ls[|ls| - 1] != []
    ensures var j := JoinWith(ls, c); j != [] && j[|j| - 1] == ls[|ls| - 1][|ls[|ls| - 1]| - 1]
  {
    if |ls| > 1 {
      JoinLast(ls[1..], c);
    }
  }

  /** A rendered line has no newline, starts with a non-space character
      and ends with one. */
  lemma RenderedLineShape(u: Utterance)
    requires WellFormed(u)
    ensures var l := Render(u);
      '\n' !in l && l != [] && !IsSpace(l[0]) && !IsSpace(l[|l| - 1])
  {
    var l := Render(u);
    assert l == u.speaker + ": " + u.text;
    assert l[|l| - 1] == u.text[|u.text| - 1];
    assert l[0] == if u.speaker == [] then ':' else u.speaker[0];
    assert u.speaker != [] ==> !IsSpace(u.speaker[0]);
  }

  /** No rendered line of well-formed utterances holds a newline. */
  lemma RenderedNoNewline(us: seq<Utterance>)
    requires forall k :: 0 <= k < |us| ==> WellFormed(us[k])
    ensures forall k :: 0 <= k < |us| ==> '\n' !in RenderAll(us)[k]
  {
    forall k | 0 <= k < |us|
      ensures '\n' !in RenderAll(us)[k]
    {
      RenderedLineShape(us[k]);
    }
  }

  /** Lines whose join starts and ends with a non-space character join to a
      string that `strip()` leaves alone. */
  lemma JoinSolid(ls: seq<string>, c: char)
    requires |ls| >= 1 && ls[0] != [] && ls[|ls| - 1] != []
    requires !IsSpace(ls[0][0]) && !IsSpace(ls[|ls| - 1][|ls[|ls| - 1]| - 1])
    ensures Strip(JoinWith(ls, c)) == JoinWith(ls, c)
  {
    JoinFirst(ls, c);
    JoinLast(ls, c);
    StripNoEdges(JoinWith(ls, c));
  }

  /** A reply made of rendered lines is left unchanged by the outer strip. */
  lemma RenderedReplyStripped(us: seq<Utterance>)
    requires |us| > 0
    requires forall k :: 0 <= k < |us| ==> WellFormed(us[k])
    ensures Strip(JoinWith(RenderAll(us), '\n')) == JoinWith(RenderAll(us), '\n')
  {
    var ls := RenderAll(us);
    RenderedLineShape(us[0]);
    RenderedLineShape(us[|us| - 1]);
    JoinSolid(ls, '\n');
  }

  /** An empty reply has no lines with a colon, so no utterances. */
  lemma EmptyReply()
    ensures ParseReply("") == []
  {
    StripUnique([], [], []);
    assert Split(Strip(""), '\n') == [""];
  }

  /** Round trip: a reply made of well-formed `Speaker: text` lines joined
      by newlines parses back to exactly those utterances, in order. */
  lemma ParseReplyRoundTrip(us: seq<Utterance>)
    requires forall k :: 0 <= k < |us| ==> WellFormed(us[k])
    ensures ParseReply(JoinWith(RenderAll(us), '\n')) == us
  {
    var ls := RenderAll(us);
    if |us| == 0 {
      EmptyReply();
    } else {
      RenderedReplyStripped(us);
      RenderedNoNewline(us);
      SplitJoin(ls, '\n');
      ParseLinesRendered(us);
    }
  }
}
