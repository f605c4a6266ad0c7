/** The trigger phrases of the bot and the test a caption must pass to be one. */
module Commands {
  import opened Text

  /** The phrases that ask the bot for a sticker. */
  const Phrases: set<string> := {"stickerize", "stickerize deven96"}

  /** Lower-case, then trim: the normal form a caption is compared in. */
  function Normalize(caption: string): (r: string)
    ensures |r| <= |caption|
    ensures |r| > 0 ==> !IsSpace(r[0]) && !IsSpace(r[|r| - 1])
  {
    TrimSpace(ToLower(caption))
  }

  /** `captionIsCommand`: the normal form of `caption` is a trigger phrase. */
  function CaptionIsCommand(caption: string): (b: bool)
    ensures b ==> |caption| >= 10
  {
    Normalize(caption) in Phrases
  }

  /** Every trigger phrase is lower case and starts and ends with a non-space. */
  lemma PhrasesAreNormal(w: string)
    requires w in Phrases
    ensures ToLower(w) == w
    ensures |w| > 0 && !IsSpace(w[0]) && !IsSpace(w[|w| - 1])
  {
    assert "stickerize deven96" == "stickerize" + " deven96";
    ToLowerConcat("stickerize", " deven96");
  }

  /**
   * A caption that neither starts nor ends with white space is its own
   * trimmed form, so it can match only if it is as long as a phrase.
   */
  lemma UnpaddedCaptionLength(caption: string)
    requires |caption| > 0 && !IsSpace(caption[0]) && !IsSpace(caption[|caption| - 1])
    ensures |Normalize(caption)| == |caption|
    ensures CaptionIsCommand(caption) ==> |caption| == 10 || |caption| == 18
  {
    var x := ToLower(caption);
    LowerCharKeepsSpace(caption[0]);
    LowerCharKeepsSpace(caption[|caption| - 1]);
    assert SkipLeading(x, 0) == 0;
    assert SkipTrailing(x, 0, |x|) == |x|;
  }

  /** Normalising a caption first changes nothing about whether it matches. */
  lemma NormalizeIdempotent(caption: string)
    ensures Normalize(Normalize(caption)) == Normalize(caption)
    ensures CaptionIsCommand(Normalize(caption)) == CaptionIsCommand(caption)
  {
    var x := ToLower(caption);
    ToLowerIdempotent(caption);
    TrimSpaceOfLower(x);
    TrimSpaceIdempotent(x);
  }

  /** A trigger phrase in any case, padded with white space, is a command. */
  lemma PaddedCommandMatches(a: string, m: string, b: string)
    requires AllSpace(a) && AllSpace(b)
    requires ToLower(m) in Phrases
    ensures CaptionIsCommand(a + m + b)
  {
    var w := ToLower(m);
    PhrasesAreNormal(w);
    ToLowerOfSpace(a);
    ToLowerOfSpace(b);
    ToLowerConcat(a, m);
    ToLowerConcat(a + m, b);
    TrimSpacePadded(a, w, b);
  }

  /** A command is a trigger phrase, in some case, padded with white space. */
  lemma MatchedCaptionIsPadded(caption: string) returns (i: nat, j: nat)
    requires CaptionIsCommand(caption)
    ensures i <= j <= |caption|
    ensures AllSpace(caption[..i]) && AllSpace(caption[j..])
    ensures ToLower(caption[i..j]) in Phrases
  {
    i := TrimSpaceSpec(caption);
    j := i + |TrimSpace(caption)|;
    TrimSpaceOfLower(caption);
  }

  /**
   * A caption is a command exactly when it is a trigger phrase, in any mix
   * of upper and lower case, with nothing but white space around it.
   */
  lemma CaptionShape(caption: string)
    ensures CaptionIsCommand(caption) <==>
      exists i, j :: 0 <= i <= j <= |caption| && AllSpace(caption[..i]) && AllSpace(caption[j..])
        && ToLower(caption[i..j]) in Phrases
  {
    if CaptionIsCommand(caption) {
      var i, j := MatchedCaptionIsPadded(caption);
    }
    if exists i, j :: 0 <= i <= j <= |caption| && AllSpace(caption[..i]) && AllSpace(caption[j..])
        && ToLower(caption[i..j]) in Phrases
    {
      var i, j :| 0 <= i <= j <= |caption| && AllSpace(caption[..i]) && AllSpace(caption[j..])
        && ToLower(caption[i..j]) in Phrases;
      assert caption[..i] + caption[i..j] + caption[j..] == caption;
      PaddedCommandMatches(caption[..i], caption[i..j], caption[j..]);
    }
  }

  /** Each trigger phrase, written exactly, is a command. */
  lemma PhraseIsCommand(w: string)
    requires w in Phrases
    ensures CaptionIsCommand(w)
  {
    PhrasesAreNormal(w);
    assert "" + w + "" == w;
    PaddedCommandMatches("", w, "");
  }

  /** The short phrase in any case, with white space around it, is a command. */
  lemma ShortCommandExamples()
    ensures CaptionIsCommand("Stickerize")
    ensures CaptionIsCommand("  Stickerize ")
  {
    assert ToLower("Stickerize") == "stickerize";
    assert "" + "Stickerize" + "" == "Stickerize";
    PaddedCommandMatches("", "Stickerize", "");
    assert "  " + "Stickerize" + " " == "  Stickerize ";
    PaddedCommandMatches("  ", "Stickerize", " ");
  }

  /** The long phrase, exactly or with white space around it, is a command. */
  lemma LongCommandExamples()
    ensures CaptionIsCommand("stickerize deven96")
    ensures CaptionIsCommand("  stickerize deven96 ")
  {
    PhraseIsCommand("stickerize deven96");
    PhrasesAreNormal("stickerize deven96");
    assert "  " + "stickerize deven96" + " " == "  stickerize deven96 ";
    PaddedCommandMatches("  ", "stickerize deven96", " ");
  }

  /** Upper case and a trailing newline still make a command. */
  lemma ShoutedCommandExample()
    ensures CaptionIsCommand("STICKERIZE DEVEN96\n")
  {
    assert ToLower("STICKERIZE DEVEN96") == "stickerize deven96";
    assert "" + "STICKERIZE DEVEN96" + "\n" == "STICKERIZE DEVEN96\n";
    PaddedCommandMatches("", "STICKERIZE DEVEN96", "\n");
  }

  /** Captions that are not commands: a prefix, nothing, blanks, inner spacing, extra words. */
  lemma NonCommandExamples()
    ensures !CaptionIsCommand("sticker")
    ensures !CaptionIsCommand("")
    ensures !CaptionIsCommand("   ")
    ensures !CaptionIsCommand("stickerize  deven96")
    ensures !CaptionIsCommand("stickerize please")
  {
    UnpaddedCaptionLength("sticker");
    UnpaddedCaptionLength("stickerize  deven96");
    UnpaddedCaptionLength("stickerize please");
    assert Normalize("   ") == "";
  }
}
