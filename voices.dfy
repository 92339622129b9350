/** The speaker-to-voice choice of `generate_podcast_audios`
    (podcast.py:269): `"onyx"` when the lower-cased speaker contains
    `"bob"`, otherwise `"nova"`. */
module Voices {
  import opened PyStr

  const MaleVoice: string := "onyx"
  const FemaleVoice: string := "nova"
  const MaleToken: string := "bob"

  function VoiceFor(speaker: string): (voice: string)
    ensures voice == MaleVoice || voice == FemaleVoice
  {
    if Contains(Lower(speaker), MaleToken) then MaleVoice else FemaleVoice
  }

  /** `c` is the letter `l` (given in lower case) in either case. */
  predicate IsLetterAnyCase(c: char, l: char)
    requires 'a' <= l <= 'z'
  {
    c == l || c as int == l as int - 32
  }

  /** The speaker spells "bob" somewhere, in any mix of letter cases. */
  predicate NamesBob(speaker: string)
    ensures NamesBob(speaker) ==> |speaker| >= |MaleToken|
  {
    exists i :: 0 <= i && i + 3 <= |speaker|
      && IsLetterAnyCase(speaker[i], 'b')
      && IsLetterAnyCase(speaker[i + 1], 'o')
      && IsLetterAnyCase(speaker[i + 2], 'b')
  }

  lemma LowerIsLetter(c: char, l: char)
    requires 'a' <= l <= 'z'
    ensures LowerChar(c) == l <==> IsLetterAnyCase(c, l)
  {
  }

  lemma StartsBob(w: string)
    requires |w| >= 3
    ensures StartsWith(w, MaleToken) <==> w[0] == 'b' && w[1] == 'o' && w[2] == 'b'
  {
    if w[0] == 'b' && w[1] == 'o' && w[2] == 'b' {
      assert w[..3] == MaleToken;
    }
  }

  /** A window of the lower-cased speaker reads "bob" exactly when the
      same window of the speaker spells it in any case. */
  lemma WindowIsBob(speaker: string, i: nat)
    requires i + 3 <= |speaker|
    ensures StartsWith(Lower(speaker)[i..], MaleToken) <==>
      IsLetterAnyCase(speaker[i], 'b') && IsLetterAnyCase(speaker[i + 1], 'o')
      && IsLetterAnyCase(speaker[i + 2], 'b')
  {
    var w := Lower(speaker)[i..];
    LowerEach(speaker);
    assert w[0] == LowerChar(speaker[i]) && w[1] == LowerChar(speaker[i + 1]) && w[2] == LowerChar(speaker[i + 2]);
    StartsBob(w);
    LowerIsLetter(speaker[i], 'b');
    LowerIsLetter(speaker[i + 1], 'o');
    LowerIsLetter(speaker[i + 2], 'b');
  }

  /** The male voice is chosen exactly when the speaker names "bob" in any
      letter case ("Bob", "BOB", "bobby", "Jim-Bob"); every other speaker,
      including the empty one, gets the female voice. */
  lemma VoiceForSpec(speaker: string)
    ensures VoiceFor(speaker) == MaleVoice <==> NamesBob(speaker)
    ensures VoiceFor(speaker) == FemaleVoice <==> !NamesBob(speaker)
  {
    var low := Lower(speaker);
    ContainsWindow(low, MaleToken);
    if Contains(low, MaleToken) {
      var i :| 0 <= i <= |low| - 3 && StartsWith(low[i..], MaleToken);
      WindowIsBob(speaker, i);
    } else if NamesBob(speaker) {
      var i :| 0 <= i && i + 3 <= |speaker|
        && IsLetterAnyCase(speaker[i], 'b')
        && IsLetterAnyCase(speaker[i + 1], 'o')
        && IsLetterAnyCase(speaker[i + 2], 'b');
      WindowIsBob(speaker, i);
    }
  }

  /** The two hosts the prompt asks for get different voices. */
  lemma HostVoices()
    ensures VoiceFor("Bob") == MaleVoice
    ensures VoiceFor("Alice") == FemaleVoice
  {
    BobNamesBob();
    VoiceForSpec("Bob");
    VoiceForSpec("Alice");
  }

  lemma BobNamesBob()
    ensures NamesBob("Bob")
  {
    var b := "Bob";
    assert IsLetterAnyCase(b[0], 'b') && IsLetterAnyCase(b[1], 'o') && IsLetterAnyCase(b[2], 'b');
  }
}
