/**
 Text bounding in the reasoning engine (core/cognition/reasoning_engine.py): whitespace normalisation,
 truncation at sentence or word boundaries, and the split of a bounded answer into at most five steps.
 */
module ReasoningText {
  import opened Common
  import opened Text

  const MAX_REASONING_LENGTH := 420
  const LOW_ENERGY_STEP_LENGTH := 140
  const MAX_STEPS := 5
  const LOW_ENERGY_PREFIX := "Low-energy strategy:"

  // ---- " ".join(text.split()) -----------------------------------------------------------

  function WordEnd(s: string): (n: nat)
    ensures n <= |s| && (forall i | 0 <= i < n :: !IsSpace(s[i])) && (n < |s| ==> IsSpace(s[n]))
  {
    if s == "" || IsSpace(s[0]) then 0 else 1 + WordEnd(s[1..])
  }

  function Split(s: string): seq<string> {
    if s == "" then []
    else if IsSpace(s[0]) then Split(s[1..])
    else [s[..WordEnd(s)]] + Split(s[WordEnd(s)..])
  }

  function Join(words: seq<string>): string {
    if words == [] then ""
    else if |words| == 1 then words[0]
    else words[0] + " " + Join(words[1..])
  }

  function Compact(s: string): string { Join(Split(s)) }

  ghost predicate IsWord(w: string) { w != "" && forall i | 0 <= i < |w| :: !IsSpace(w[i]) }

  /** Single blanks between words, none at the ends. */
  ghost predicate Tidy(s: string) {
    && (s != "" ==> !IsSpace(s[0]) && !IsSpace(s[|s| - 1]))
    && forall i | 0 <= i < |s| && IsSpace(s[i]) :: s[i] == ' ' && (i + 1 < |s| ==> !IsSpace(s[i + 1]))
  }

  lemma {:induction false} SplitGivesWords(s: string)
    ensures forall w | w in Split(s) :: IsWord(w)
    ensures Split(s) == [] ==> Compact(s) == ""
    ensures |Compact(s)| <= |s|
    decreases |s|
  {
    if s != "" {
      if IsSpace(s[0]) {
        SplitGivesWords(s[1..]);
      } else {
        var n := WordEnd(s);
        SplitGivesWords(s[n..]);
        if n < |s| {
          SplitGivesWords(s[n + 1..]);
          assert s[n..][1..] == s[n + 1..];
          assert Split(s[n..]) == Split(s[n + 1..]);
        }
      }
    }
  }

  lemma {:induction false} JoinIsTidy(words: seq<string>)
    requires forall w | w in words :: IsWord(w)
    ensures Tidy(Join(words)) && (Join(words) == "" <==> words == [])
    decreases |words|
  {
    if |words| == 1 {
      assert IsWord(words[0]);
    } else if |words| > 1 {
      JoinIsTidy(words[1..]);
      var w, rest, s := words[0], Join(words[1..]), Join(words);
      assert IsWord(w) && s == w + " " + rest && rest != "";
      forall i | 0 <= i < |s| && IsSpace(s[i]) ensures s[i] == ' ' && (i + 1 < |s| ==> !IsSpace(s[i + 1])) {
        if i > |w| {
          assert s[i] == rest[i - |w| - 1];
        } else {
          assert i == |w|;
        }
      }
      assert s[|s| - 1] == rest[|rest| - 1];
    }
  }

  lemma TidyTail(s: string, n: nat)
    requires Tidy(s) && n < |s| && IsSpace(s[n])
    ensures n + 1 < |s| && s == s[..n] + " " + s[n + 1..] && Tidy(s[n + 1..])
  {
    var rest := s[n + 1..];
    assert forall i | 0 <= i < |rest| :: rest[i] == s[i + n + 1];
  }

  lemma SplitWordThen(s: string, n: nat)
    requires s != "" && !IsSpace(s[0]) && n == WordEnd(s)
    ensures n == |s| ==> Split(s) == [s]
    ensures n < |s| ==> Split(s) == [s[..n]] + Split(s[n + 1..])
  {
    if n == |s| {
      assert s[..n] == s && s[n..] == "";
    } else {
      assert s[n..][1..] == s[n + 1..];
    }
  }

  lemma {:induction false} TidyIsFixed(s: string)
    requires Tidy(s)
    ensures Compact(s) == s
    decreases |s|
  {
    if s != "" {
      var n := WordEnd(s);
      SplitWordThen(s, n);
      if n < |s| {
        TidyTail(s, n);
        TidyIsFixed(s[n + 1..]);
        assert Split(s[n + 1..]) != [];
        assert Split(s)[1..] == Split(s[n + 1..]);
      }
    }
  }

  lemma CompactIsTidy(s: string)
    ensures Tidy(Compact(s)) && Compact(Compact(s)) == Compact(s)
  {
    SplitGivesWords(s);
    JoinIsTidy(Split(s));
    TidyIsFixed(Compact(s));
  }

  /** The characters of `s` that are not blanks. */
  ghost function Visible(s: string): string {
    if s == "" then "" else (if IsSpace(s[0]) then "" else [s[0]]) + Visible(s[1..])
  }

  lemma {:induction false} VisibleConcat(a: string, b: string)
    ensures Visible(a + b) == Visible(a) + Visible(b)
    decreases |a|
  {
    if a == "" {
      assert a + b == b;
    } else {
      assert (a + b)[1..] == a[1..] + b;
      VisibleConcat(a[1..], b);
    }
  }

  /** Normalisation touches blanks only: no visible character is lost, added or moved. */
  lemma {:induction false} CompactKeepsVisible(s: string)
    ensures Visible(Compact(s)) == Visible(s)
    decreases |s|
  {
    if s != "" {
      if IsSpace(s[0]) {
        CompactKeepsVisible(s[1..]);
      } else {
        var n := WordEnd(s);
        var word, rest := s[..n], s[n..];
        assert s == word + rest;
        VisibleConcat(word, rest);
        CompactKeepsVisible(rest);
        assert Split(s)[1..] == Split(rest);
        if Split(rest) != [] {
          VisibleConcat(word + " ", Compact(rest));
          VisibleConcat(word, " ");
          assert " "[1..] == "";
        }
      }
    }
  }

  // ---- _bound_text ----------------------------------------------------------------------

  /** The last index at which `mark` followed by `after` occurs, or -1. */
  function RightFind2(s: string, mark: char, after: char): (i: int)
    ensures -1 <= i < |s| - 1 || i == -1
    ensures i >= 0 ==> s[i] == mark && s[i + 1] == after
    ensures forall j | i < j < |s| - 1 :: s[j] != mark || s[j + 1] != after
  {
    if |s| < 2 then -1
    else if s[|s| - 2] == mark && s[|s| - 1] == after then |s| - 2
    else RightFind2(s[..|s| - 1], mark, after)
  }

  function RightFind(s: string, c: char): (i: int)
    ensures -1 <= i < |s| && (i >= 0 ==> s[i] == c) && forall j | i < j < |s| :: s[j] != c
  {
    if s == "" then -1 else if s[|s| - 1] == c then |s| - 1 else RightFind(s[..|s| - 1], c)
  }

  function EffectiveLimit(maxLength: nat): nat { if maxLength == 0 then MAX_REASONING_LENGTH else maxLength }

  /** The sentence cut for the first of the three delimiters that lies past half the limit. */
  function SentenceCut(cut: string, half: nat, marks: string): (i: int)
    ensures i == -1 || (half < i < |cut| - 1 && cut[i + 1] == ' ' && cut[i] in marks)
    ensures i == -1 ==> forall j | half < j < |cut| - 1 && cut[j] in marks :: cut[j + 1] != ' '
    ensures i >= 0 ==> forall j | i < j < |cut| - 1 && cut[j] == cut[i] :: cut[j + 1] != ' '
  {
    if marks == "" then -1
    else
      var index := RightFind2(cut, marks[0], ' ');
      if index > half then index else SentenceCut(cut, half, marks[1..])
  }

  function Truncate(compact: string, limit: nat): string
    requires limit <= |compact|
  {
    var cut := compact[..limit];
    var sentence := SentenceCut(cut, limit / 2, ".!?");
    if sentence >= 0 then Strip(cut[..sentence + 1])
    else
      var space := RightFind(cut, ' ');
      if space > limit / 2 then Strip(cut[..space]) else Strip(cut)
  }

  function BoundText(text: string, maxLength: nat): string {
    var limit := EffectiveLimit(maxLength);
    var compact := Compact(text);
    if |compact| <= limit then compact else Truncate(compact, limit)
  }

  /** A prefix of tidy text that stops before a blank, or after a visible character, is tidy. */
  lemma TidyPrefix(s: string, n: nat)
    requires Tidy(s) && 0 < n <= |s| && !IsSpace(s[n - 1])
    ensures Tidy(s[..n]) && Strip(s[..n]) == s[..n]
  {
    StripKeeps(s[..n]);
  }

  /** Where a truncated text stops: before a blank, or nowhere better because the second half has none. */
  ghost predicate GoodStop(compact: string, limit: nat, n: nat)
    requires n <= limit < |compact|
  {
    compact[n] == ' ' || (n == limit && forall j | limit / 2 < j < limit :: compact[j] != ' ')
  }

  lemma StripLastBlank(s: string)
    requires |s| >= 2 && !IsSpace(s[0]) && !IsSpace(s[|s| - 2]) && IsSpace(s[|s| - 1])
    ensures Strip(s) == s[..|s| - 1]
  {
    StripKeeps(s[..|s| - 1]);
  }

  lemma StripCut(compact: string, limit: nat, n: nat)
    requires Tidy(compact) && 0 < n <= limit <= |compact| && !IsSpace(compact[n - 1])
    ensures Strip(compact[..limit][..n]) == compact[..n]
  {
    assert compact[..limit][..n] == compact[..n];
    TidyPrefix(compact, n);
  }

  lemma StripWholeCut(compact: string, limit: nat)
    requires Tidy(compact) && 0 < limit < |compact|
    ensures var n := if IsSpace(compact[limit - 1]) then limit - 1 else limit;
      0 < n && !IsSpace(compact[n - 1]) && Strip(compact[..limit]) == compact[..n]
  {
    var cut := compact[..limit];
    if IsSpace(compact[limit - 1]) {
      assert limit >= 2 && !IsSpace(compact[limit - 2]);
      StripLastBlank(cut);
      assert cut[..limit - 1] == compact[..limit - 1];
    } else {
      TidyPrefix(compact, limit);
    }
  }

  /** The three cutting rules, as the length of the prefix that is kept. */
  lemma TruncateLength(compact: string, limit: nat)
    requires Tidy(compact) && 0 < limit < |compact|
    ensures var cut := compact[..limit];
      var sentence, space := SentenceCut(cut, limit / 2, ".!?"), RightFind(cut, ' ');
      var n := if sentence >= 0 then sentence + 1 else if space > limit / 2 then space
               else if IsSpace(compact[limit - 1]) then limit - 1 else limit;
      0 < n && !IsSpace(compact[n - 1]) && Truncate(compact, limit) == compact[..n]
  {
    var cut := compact[..limit];
    var sentence, space := SentenceCut(cut, limit / 2, ".!?"), RightFind(cut, ' ');
    if sentence >= 0 {
      assert compact[sentence] == cut[sentence] && cut[sentence] in ".!?";
      StripCut(compact, limit, sentence + 1);
    } else if space > limit / 2 {
      assert compact[space] == cut[space];
      assert !IsSpace(compact[space - 1]);
      StripCut(compact, limit, space);
    } else {
      StripWholeCut(compact, limit);
    }
  }

  lemma TruncateSpec(compact: string, limit: nat)
    requires Tidy(compact) && 0 < limit < |compact|
    ensures var r := Truncate(compact, limit);
      r <= compact && |r| <= limit && Tidy(r) && |r| >= limit / 2 && GoodStop(compact, limit, |r|)
  {
    TruncateLength(compact, limit);
    var cut, n := compact[..limit], |Truncate(compact, limit)|;
    TidyPrefix(compact, n);
    assert forall j | 0 <= j < limit :: cut[j] == compact[j];
    if n == limit - 1 {
      assert compact[n] == cut[n];
    }
  }

  /** A sentence ends at `i`, past half the limit and with its blank still inside it. */
  ghost predicate SentenceEnd(s: string, limit: nat, i: int)
    requires limit <= |s|
  {
    limit / 2 < i < limit - 1 && s[i] in ".!?" && s[i + 1] == ' '
  }

  lemma CutAfterSentence(compact: string, limit: nat)
    requires Tidy(compact) && 0 < limit < |compact| && SentenceCut(compact[..limit], limit / 2, ".!?") >= 0
    ensures var n := |Truncate(compact, limit)|;
      && SentenceEnd(compact, limit, n - 1)
      && forall j | n <= j < limit - 1 && compact[j] == compact[n - 1] :: compact[j + 1] != ' '
  {
    TruncateLength(compact, limit);
    var cut := compact[..limit];
    assert forall j | 0 <= j < limit :: cut[j] == compact[j];
  }

  lemma CutBeforeBlank(compact: string, limit: nat)
    requires Tidy(compact) && 0 < limit < |compact| && SentenceCut(compact[..limit], limit / 2, ".!?") < 0
    ensures var n := |Truncate(compact, limit)|;
      if exists j :: limit / 2 < j < limit && compact[j] == ' ' then
        limit / 2 < n && compact[n] == ' ' && forall j | n < j < limit :: compact[j] != ' '
      else n >= limit - 1
  {
    TruncateLength(compact, limit);
    var cut := compact[..limit];
    assert forall j | 0 <= j < limit :: cut[j] == compact[j];
  }

  lemma NoSentenceCut(compact: string, limit: nat)
    requires 0 < limit < |compact| && SentenceCut(compact[..limit], limit / 2, ".!?") < 0
    ensures forall i :: !SentenceEnd(compact, limit, i)
  {
    var cut := compact[..limit];
    assert forall j | 0 <= j < limit :: cut[j] == compact[j];
  }

  /** Full stops are looked for first, then exclamation marks, then question marks. */
  lemma SentenceCutOrder(cut: string, half: nat)
    ensures var stop, bang, question := RightFind2(cut, '.', ' '), RightFind2(cut, '!', ' '), RightFind2(cut, '?', ' ');
      SentenceCut(cut, half, ".!?") ==
        if stop > half then stop else if bang > half then bang else if question > half then question else -1
  {
    assert ".!?"[1..] == "!?" && "!?"[1..] == "?" && "?"[1..] == "";
  }

  /** The mark found, for any cut: no sentence past half ends in a mark that is looked for earlier. */
  lemma CutPrefersEarlierMarks(cut: string, half: nat, j: int)
    requires half < j < |cut| - 1 && cut[j + 1] == ' ' && (cut[j] == '.' || cut[j] == '!')
    ensures var i := SentenceCut(cut, half, ".!?");
      0 <= i < |cut| && (cut[i] == '.' || (cut[i] == '!' && cut[j] == '!'))
  {
    SentenceCutOrder(cut, half);
  }

  /** A cut after a sentence prefers a full stop to an exclamation mark and that to a question mark. */
  lemma CutPrefersStops(compact: string, limit: nat, j: int)
    requires Tidy(compact) && 0 < limit < |compact| && SentenceEnd(compact, limit, j)
    ensures var n := |Truncate(compact, limit)|;
      && 0 < n <= limit && (compact[j] == '.' ==> compact[n - 1] == '.')
      && (compact[j] == '!' ==> compact[n - 1] == '.' || compact[n - 1] == '!')
  {
    var cut := compact[..limit];
    assert cut[j] == compact[j] && cut[j + 1] == ' ';
    TruncateLength(compact, limit);
    if compact[j] != '?' {
      CutPrefersEarlierMarks(cut, limit / 2, j);
    }
  }

  /**
   Where a cut falls: after a sentence if one ends past half the limit, and then the last with that mark; else before
   the last blank, if one lies past half the limit.
   */
  lemma CutPrefersSentences(compact: string, limit: nat)
    requires Tidy(compact) && 0 < limit < |compact|
    ensures var n := |Truncate(compact, limit)|;
      if exists i :: SentenceEnd(compact, limit, i) then
        && SentenceEnd(compact, limit, n - 1)
        && forall j | n <= j < limit - 1 && compact[j] == compact[n - 1] :: compact[j + 1] != ' '
      else if exists j :: limit / 2 < j < limit && compact[j] == ' ' then
        limit / 2 < n && compact[n] == ' ' && forall j | n < j < limit :: compact[j] != ' '
      else n >= limit - 1
  {
    if SentenceCut(compact[..limit], limit / 2, ".!?") >= 0 {
      CutAfterSentence(compact, limit);
    } else {
      NoSentenceCut(compact, limit);
      CutBeforeBlank(compact, limit);
    }
  }

  /**
   The exact guarantee: a tidy prefix of the normalised text within the limit; nothing is cut that fits, a cut
   keeps at least half the limit, and it stops at a word end unless the second half of the window has no blank.
   */
  lemma BoundTextSpec(text: string, maxLength: nat)
    ensures var r, compact := BoundText(text, maxLength), Compact(text);
      var limit := if maxLength == 0 then 420 else maxLength;
      && r <= compact && |r| <= limit && Tidy(r)
      && (|compact| <= limit ==> r == compact)
      && (|compact| > limit ==> |r| >= limit / 2 && GoodStop(compact, limit, |r|))
  {
    CompactIsTidy(text);
    if |Compact(text)| > EffectiveLimit(maxLength) {
      TruncateSpec(Compact(text), EffectiveLimit(maxLength));
    }
  }

  lemma BoundTextIdempotent(text: string, maxLength: nat)
    ensures BoundText(BoundText(text, maxLength), maxLength) == BoundText(text, maxLength)
  {
    BoundTextSpec(text, maxLength);
    TidyIsFixed(BoundText(text, maxLength));
  }

  // ---- _extract_steps -------------------------------------------------------------------

  predicate IsStepBreak(c: char) { c == '.' || c == '\n' }

  function ChunkEnd(s: string): (n: nat)
    ensures n <= |s| && (forall i | 0 <= i < n :: !IsStepBreak(s[i])) && (n < |s| ==> IsStepBreak(s[n]))
  {
    if s == "" || IsStepBreak(s[0]) then 0 else 1 + ChunkEnd(s[1..])
  }

  function SkipBreaks(s: string): (r: string)
    ensures |r| <= |s| && (s != "" && IsStepBreak(s[0]) ==> |r| < |s|)
  {
    if s != "" && IsStepBreak(s[0]) then SkipBreaks(s[1..]) else s
  }

  /** Splitting on maximal runs of full stops and newlines. */
  function Chunks(s: string): seq<string>
    decreases |s|
  {
    var n := ChunkEnd(s);
    if n == |s| then [s] else [s[..n]] + Chunks(SkipBreaks(s[n..]))
  }

  /** The characters of `s` other than full stops and newlines. */
  ghost function Unbroken(s: string): string {
    if s == "" then "" else (if s[0] == '.' || s[0] == '\n' then "" else [s[0]]) + Unbroken(s[1..])
  }

  ghost function Flatten(ss: seq<string>): string { if ss == [] then "" else ss[0] + Flatten(ss[1..]) }

  lemma {:induction false} UnbrokenConcat(a: string, b: string)
    requires forall i | 0 <= i < |a| :: !IsStepBreak(a[i])
    ensures Unbroken(a + b) == a + Unbroken(b)
    decreases |a|
  {
    if a == "" {
      assert a + b == b;
    } else {
      assert (a + b)[1..] == a[1..] + b;
      UnbrokenConcat(a[1..], b);
    }
  }

  lemma {:induction false} UnbrokenSkip(s: string)
    ensures Unbroken(SkipBreaks(s)) == Unbroken(s)
    decreases |s|
  {
    if s != "" && IsStepBreak(s[0]) { UnbrokenSkip(s[1..]); }
  }

  /** Splitting loses nothing but the separators, and leaves none inside a chunk. */
  lemma {:induction false} ChunksPartition(s: string)
    ensures Flatten(Chunks(s)) == Unbroken(s)
    ensures forall c, i | c in Chunks(s) && 0 <= i < |c| :: c[i] != '.' && c[i] != '\n'
    decreases |s|
  {
    var n := ChunkEnd(s);
    assert s == s[..n] + s[n..];
    UnbrokenConcat(s[..n], s[n..]);
    if n < |s| {
      UnbrokenSkip(s[n..]);
      ChunksPartition(SkipBreaks(s[n..]));
      assert Chunks(s)[1..] == Chunks(SkipBreaks(s[n..]));
    } else {
      assert [s][1..] == [] && s[..n] == s && s[n..] == "";
    }
  }

  /** The first `limit` chunks that hold any text, normalised. */
  function FirstSteps(chunks: seq<string>, limit: nat): seq<string> {
    if chunks == [] || limit == 0 then []
    else if Compact(chunks[0]) == "" then FirstSteps(chunks[1..], limit)
    else [Compact(chunks[0])] + FirstSteps(chunks[1..], limit - 1)
  }

  /** All chunks that hold any text, normalised, in order. */
  ghost function Meaningful(chunks: seq<string>): seq<string> {
    if chunks == [] then []
    else (if Visible(chunks[0]) == "" then [] else [Compact(chunks[0])]) + Meaningful(chunks[1..])
  }

  lemma {:induction false} BlankCompact(s: string)
    ensures Compact(s) == "" <==> Visible(s) == ""
  {
    CompactKeepsVisible(s);
    CompactIsTidy(s);
  }

  /** The steps are the first few of all chunks with a visible character: none is skipped, the order is kept. */
  lemma {:induction false} FirstStepsAreFirst(chunks: seq<string>, limit: nat)
    ensures var all := Meaningful(chunks); FirstSteps(chunks, limit) == all[..Min(limit, |all|)]
    decreases |chunks|
  {
    if chunks != [] && limit > 0 {
      BlankCompact(chunks[0]);
      if Compact(chunks[0]) == "" {
        FirstStepsAreFirst(chunks[1..], limit);
        assert Meaningful(chunks) == Meaningful(chunks[1..]);
      } else {
        FirstStepsAreFirst(chunks[1..], limit - 1);
      }
    }
  }

  lemma FirstStepsUnfold(chunks: seq<string>, i: nat, limit: nat)
    requires i < |chunks| && limit > 0
    ensures FirstSteps(chunks[i..], limit) ==
            if Compact(chunks[i]) == "" then FirstSteps(chunks[i + 1..], limit)
            else [Compact(chunks[i])] + FirstSteps(chunks[i + 1..], limit - 1)
  {
    assert chunks[i..][1..] == chunks[i + 1..];
  }

  method ExtractSteps(text: string) returns (steps: seq<string>)
    ensures steps == FirstSteps(Chunks(text), 5)
  {
    var chunks := Chunks(text);
    ghost var goal := FirstSteps(chunks, MAX_STEPS);
    assert chunks[0..] == chunks;
    steps := [];
    var i := 0;
    while i < |chunks|
      invariant i <= |chunks| && |steps| < MAX_STEPS
      invariant steps + FirstSteps(chunks[i..], MAX_STEPS - |steps|) == goal
    {
      FirstStepsUnfold(chunks, i, MAX_STEPS - |steps|);
      var cleaned := Compact(chunks[i]);
      if cleaned != "" {
        steps := steps + [cleaned];
      }
      i := i + 1;
      if |steps| >= MAX_STEPS {
        break;
      }
    }
  }

  /** Characters of all strings, plus one separator each. */
  ghost function Footprint(ss: seq<string>): nat {
    if ss == [] then 0 else |ss[0]| + 1 + Footprint(ss[1..])
  }

  lemma {:induction false} ChunksFit(s: string)
    ensures Footprint(Chunks(s)) <= |s| + 1
    decreases |s|
  {
    var n := ChunkEnd(s);
    if n < |s| {
      ChunksFit(SkipBreaks(s[n..]));
      assert Chunks(s)[1..] == Chunks(SkipBreaks(s[n..]));
    } else {
      assert [s][1..] == [];
    }
  }

  lemma {:induction false} StepsFit(chunks: seq<string>, limit: nat)
    ensures |FirstSteps(chunks, limit)| <= limit
    ensures Footprint(FirstSteps(chunks, limit)) <= Footprint(chunks)
    ensures forall s | s in FirstSteps(chunks, limit) :: s != "" && Tidy(s)
    decreases |chunks|
  {
    if chunks != [] && limit > 0 {
      var c := Compact(chunks[0]);
      SplitGivesWords(chunks[0]);
      CompactIsTidy(chunks[0]);
      if c == "" {
        StepsFit(chunks[1..], limit);
      } else {
        StepsFit(chunks[1..], limit - 1);
        assert FirstSteps(chunks, limit)[1..] == FirstSteps(chunks[1..], limit - 1);
      }
    }
  }

  lemma {:induction false} JoinFootprint(ss: seq<string>)
    requires ss != []
    ensures |Join(ss)| + 1 == Footprint(ss)
    decreases |ss|
  {
    if |ss| > 1 {
      JoinFootprint(ss[1..]);
    } else {
      assert ss[1..] == [];
    }
  }

  lemma {:induction false} FootprintCovers(ss: seq<string>, s: string)
    requires s in ss
    ensures |s| + 1 <= Footprint(ss)
  {
    if ss[0] != s { FootprintCovers(ss[1..], s); }
  }

  /** The steps shown to the user, joined by blanks, never exceed the reasoning limit. */
  lemma StepsWithinLimit(raw: string)
    ensures var steps := FirstSteps(Chunks(BoundText(raw, 0)), 5);
      && |steps| <= 5 && |Join(steps)| <= 420
      && forall s | s in steps :: s != "" && Tidy(s) && |s| <= 420
  {
    var text := BoundText(raw, 0);
    var steps := FirstSteps(Chunks(text), MAX_STEPS);
    BoundTextSpec(raw, 0);
    ChunksFit(text);
    StepsFit(Chunks(text), MAX_STEPS);
    if steps != [] {
      JoinFootprint(steps);
      forall s | s in steps ensures |s| <= MAX_REASONING_LENGTH {
        FootprintCovers(steps, s);
      }
    }
  }

  // ---- Low-energy output ----------------------------------------------------------------

  datatype Output = Output(summary: string, steps: seq<string>)

  function CompressLowEnergy(steps: seq<string>): Output {
    if steps == [] then
      Output(BoundText(LOW_ENERGY_PREFIX + " Keep one priority and defer optional work.", 0), [])
    else
      var compactStep := BoundText(steps[0], LOW_ENERGY_STEP_LENGTH);
      Output(BoundText(LOW_ENERGY_PREFIX + " " + compactStep, 0), [compactStep])
  }

  lemma TidyConcat(a: string, b: string)
    requires Tidy(a) && Tidy(b) && a != "" && b != ""
    ensures Tidy(a + " " + b)
  {
    var s := a + " " + b;
    assert forall i | 0 <= i < |a| :: s[i] == a[i];
    assert forall i | |a| < i < |s| :: s[i] == b[i - |a| - 1];
  }

  lemma PrefixIsTidy()
    ensures Tidy(LOW_ENERGY_PREFIX) && |LOW_ENERGY_PREFIX| == 20
  {
    var p := LOW_ENERGY_PREFIX;
    assert p[10] == ' ' && forall i | 0 <= i < 20 && i != 10 :: !IsSpace(p[i]);
  }

  /** The second bounding never cuts: the low-energy summary is exactly the prefix, a blank and the shown step. */
  lemma LowEnergySummaryExact(steps: seq<string>)
    requires steps != [] && Compact(steps[0]) != ""
    ensures var r := CompressLowEnergy(steps);
      && r.steps == [BoundText(steps[0], 140)] && r.summary == "Low-energy strategy:" + " " + r.steps[0]
      && |r.summary| <= 161
  {
    var step := BoundText(steps[0], LOW_ENERGY_STEP_LENGTH);
    BoundTextSpec(steps[0], LOW_ENERGY_STEP_LENGTH);
    var s := LOW_ENERGY_PREFIX + " " + step;
    PrefixIsTidy();
    TidyConcat(LOW_ENERGY_PREFIX, step);
    TidyIsFixed(s);
  }

  /** What generate_strategy returns once the generated text has passed the safety filters. */
  function Assemble(raw: string, lowEnergy: bool): Output {
    var steps := FirstSteps(Chunks(BoundText(raw, 0)), MAX_STEPS);
    if lowEnergy then CompressLowEnergy(steps)
    else Output(if steps == [] then "No strategy available." else steps[0], steps)
  }

  /** What is shown: all steps under the first, or in low energy the first alone; a fixed text if there is none. */
  lemma AssembleExactly(raw: string)
    ensures var steps := FirstSteps(Chunks(BoundText(raw, 0)), 5);
      && Assemble(raw, false).steps == steps
      && Assemble(raw, false).summary == (if steps == [] then "No strategy available." else steps[0])
      && (steps != [] ==>
            var first := BoundText(steps[0], 140);
            Assemble(raw, true) == Output("Low-energy strategy:" + " " + first, [first]))
      && (steps == [] ==>
            var text := "Low-energy strategy:" + " Keep one priority and defer optional work.";
            Assemble(raw, true) == Output(Compact(text), []))
  {
    var steps := FirstSteps(Chunks(BoundText(raw, 0)), 5);
    if steps == [] {
      SplitGivesWords(LOW_ENERGY_PREFIX + " Keep one priority and defer optional work.");
    } else {
      StepsWithinLimit(raw);
      assert steps[0] in steps;
      TidyIsFixed(steps[0]);
      LowEnergySummaryExact(steps);
    }
  }

  /** Whatever the model generated, what is shown is bounded in every part and as a whole. */
  lemma AssembleWithinLimit(raw: string, lowEnergy: bool)
    ensures var r := Assemble(raw, lowEnergy);
      |r.summary| <= 420 && |r.steps| <= 5 && |Join(r.steps)| <= 420
  {
    var steps := FirstSteps(Chunks(BoundText(raw, 0)), MAX_STEPS);
    StepsWithinLimit(raw);
    if lowEnergy {
      if steps == [] {
        BoundTextSpec(LOW_ENERGY_PREFIX + " Keep one priority and defer optional work.", 0);
      } else {
        BoundTextSpec(steps[0], LOW_ENERGY_STEP_LENGTH);
        BoundTextSpec(LOW_ENERGY_PREFIX + " " + BoundText(steps[0], LOW_ENERGY_STEP_LENGTH), 0);
      }
    } else if steps != [] {
      assert steps[0] in steps;
    }
  }
}
