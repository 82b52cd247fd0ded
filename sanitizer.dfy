/**
 * The response sanitizer of the convert endpoint (backend/app.py:102-145):
 * the model's reply is trimmed, stripped of known introductory phrases, and,
 * when it holds a markdown fence, reduced to the lines inside fenced blocks.
 *
 * The specification is given by functions (StripIntros, KeptLines,
 * RemoveFences, SanitizeWith) and the lemmas about them; the method Sanitize
 * follows the Python code loop for loop and is proved to compute SanitizeWith.
 */
module Sanitizer {
  import opened Text

  /** The introductory phrases, tried in this order. */
  const Intros: seq<string> := [
    "Here is the converted Clarity code:",
    "Here's the converted Clarity code:",
    "The converted Clarity code is:",
    "Converted Clarity code:",
    "Here is the Clarity code:",
    "Here's the Clarity code:"
  ]

  /** The markdown fence marker. */
  const Fence: string := "```"

  /** Python's `split` refuses an empty separator; every phrase is non-empty. */
  predicate NonEmptyPhrases(intros: seq<string>) {
    forall k :: 0 <= k < |intros| ==> intros[k] != []
  }

  // ---------------------------------------------------------------------------
  // Step 2: intro-phrase removal (app.py:109-123)
  // ---------------------------------------------------------------------------

  /**
   * One turn of the intro loop: a case-insensitive test decides whether to
   * split, the split itself is case-sensitive and at the first occurrence.
   */
  function StripIntro(code: string, intro: string): (r: string)
    requires intro != []
    ensures |r| <= |code|
    ensures r != code ==> Contains(code, intro) && |r| <= |code| - |intro|
  {
    if Contains(Lower(code), Lower(intro)) then
      var parts := SplitOnce(code, intro);
      if |parts| > 1 then Trim(parts[1]) else code
    else code
  }

  /** The intro loop over `intros`, each phrase applied to the previous result. */
  function StripIntros(code: string, intros: seq<string>): (r: string)
    requires NonEmptyPhrases(intros)
    ensures |r| <= |code|
    decreases |intros|
  {
    if intros == [] then code
    else StripIntro(StripIntros(code, intros[..|intros| - 1]), intros[|intros| - 1])
  }

  /**
   * What one phrase does: with an exact-case occurrence, the text becomes the
   * trimmed remainder after the first occurrence; without one (even when the
   * phrase occurs in another case) the text is left as it is.
   */
  lemma StripIntroEffect(code: string, intro: string)
    requires intro != []
    ensures Contains(code, intro) ==>
      var i := FindFirst(code, intro).value;
      i + |intro| <= |code| && StripIntro(code, intro) == Trim(code[i + |intro|..])
    ensures !Contains(code, intro) ==> StripIntro(code, intro) == code
  {
    if Contains(code, intro) {
      ContainsImpliesContainsLower(code, intro);
      var i := FindFirst(code, intro).value;
      var parts := SplitOnce(code, intro);
      assert code == parts[0] + intro + parts[1];
      assert OccursAt(code, intro, |parts[0]|) by {
        assert code[|parts[0]|..|parts[0]| + |intro|] == intro;
      }
      assert |parts[0]| == i;
      assert code[i + |intro|..] == parts[1];
    }
  }

  /** A reply that opens with the phrase loses the phrase and the blanks after it. */
  lemma StripLeadingIntro(code: string, intro: string)
    requires intro != [] && StartsWith(code, intro)
    ensures StripIntro(code, intro) == Trim(code[|intro|..])
  {
    FindFirstAtStart(code, intro);
    StripIntroEffect(code, intro);
  }

  /** Running the loop over `xs + ys` is running it over `xs`, then over `ys`. */
  lemma {:induction false} StripIntrosAppend(code: string, xs: seq<string>, ys: seq<string>)
    requires NonEmptyPhrases(xs) && NonEmptyPhrases(ys)
    ensures NonEmptyPhrases(xs + ys)
    ensures StripIntros(code, xs + ys) == StripIntros(StripIntros(code, xs), ys)
    decreases |ys|
  {
    if ys == [] {
      assert xs + ys == xs;
    } else {
      var ys' := ys[..|ys| - 1];
      StripIntrosAppend(code, xs, ys');
      assert (xs + ys)[..|xs + ys| - 1] == xs + ys';
    }
  }

  /** No phrase occurring in exact case means the loop leaves the text alone. */
  lemma {:induction false} StripIntrosNoMatch(code: string, intros: seq<string>)
    requires NonEmptyPhrases(intros)
    requires forall k :: 0 <= k < |intros| ==> !Contains(code, intros[k])
    ensures StripIntros(code, intros) == code
    decreases |intros|
  {
    if intros != [] {
      StripIntrosNoMatch(code, intros[..|intros| - 1]);
      StripIntroEffect(code, intros[|intros| - 1]);
    }
  }

  // ---------------------------------------------------------------------------
  // Step 3: fence filtering (app.py:126-145)
  // ---------------------------------------------------------------------------

  /**
   * A fence line: its lower-case form starts with "```clarity" or "```lisp",
   * or is exactly "```" (no trimming, so "``` " is not a fence line).
   */
  predicate IsFenceLine(line: string) {
    var l := Lower(line);
    StartsWith(l, "```clarity") || StartsWith(l, "```lisp") || l == Fence
  }

  /**
   * Every fence line starts with "```" as written: backticks are not
   * letters, so lower-casing cannot have produced them.
   */
  lemma FenceLineStartsWithFence(line: string)
    requires IsFenceLine(line)
    ensures StartsWith(line, Fence)
  {
    var l := Lower(line);
    forall i | 0 <= i < 3 ensures line[i] == '`' {
      assert l[i] == '`' by {
        if StartsWith(l, "```clarity") {
          assert l[..10][i] == "```clarity"[i];
        } else if StartsWith(l, "```lisp") {
          assert l[..7][i] == "```lisp"[i];
        }
      }
    }
  }

  // The filter below is stated for any fence test `isFence`; the sanitizer
  // uses it with IsFenceLine.

  /** No element of `lines` is a fence line. */
  predicate FenceFree(lines: seq<string>, isFence: string -> bool) {
    forall k :: 0 <= k < |lines| ==> !isFence(lines[k])
  }

  /** The number of fence lines among `lines`. */
  function FenceCount(lines: seq<string>, isFence: string -> bool): nat {
    if lines == [] then 0
    else FenceCount(lines[..|lines| - 1], isFence) + (if isFence(lines[|lines| - 1]) then 1 else 0)
  }

  /**
   * The lines the filter keeps, defined without the toggling flag: a line is
   * kept when it is not a fence line and an odd number of fence lines
   * precede it.
   */
  function KeptLines(lines: seq<string>, isFence: string -> bool): seq<string> {
    if lines == [] then []
    else
      var prefix := lines[..|lines| - 1];
      var last := lines[|lines| - 1];
      KeptLines(prefix, isFence) +
        (if !isFence(last) && FenceCount(prefix, isFence) % 2 == 1 then [last] else [])
  }

  /** Kept lines and fence lines are disjoint: together they never outnumber the lines. */
  lemma {:induction false} KeptLinesAndFencesFit(lines: seq<string>, isFence: string -> bool)
    ensures |KeptLines(lines, isFence)| + FenceCount(lines, isFence) <= |lines|
    decreases |lines|
  {
    if lines != [] {
      KeptLinesAndFencesFit(lines[..|lines| - 1], isFence);
    }
  }

  /** `sub` is obtained from `s` by deleting elements. */
  predicate IsSubsequence<T(==)>(sub: seq<T>, s: seq<T>)
    decreases |s|
  {
    sub == [] ||
    (s != [] &&
      ((sub[|sub| - 1] == s[|s| - 1] && IsSubsequence(sub[..|sub| - 1], s[..|s| - 1])) ||
       IsSubsequence(sub, s[..|s| - 1])))
  }

  /** The kept lines are input lines, in input order, and none is a fence line. */
  lemma {:induction false} KeptLinesAreNonFenceSubsequence(lines: seq<string>, isFence: string -> bool)
    ensures IsSubsequence(KeptLines(lines, isFence), lines)
    ensures FenceFree(KeptLines(lines, isFence), isFence)
    ensures forall k :: 0 <= k < |KeptLines(lines, isFence)| ==> KeptLines(lines, isFence)[k] in lines
  {
    if lines != [] {
      var prefix := lines[..|lines| - 1];
      var last := lines[|lines| - 1];
      KeptLinesAreNonFenceSubsequence(prefix, isFence);
      var before := KeptLines(prefix, isFence);
      var kept := KeptLines(lines, isFence);
      if !isFence(last) && FenceCount(prefix, isFence) % 2 == 1 {
        assert kept == before + [last];
        assert kept[..|kept| - 1] == before;
      } else {
        assert kept == before;
      }
      forall k | 0 <= k < |kept| ensures kept[k] in lines {
        if k < |before| {
          assert kept[k] == before[k];
          assert before[k] in prefix;
        }
      }
    }
  }

  /** Lines with no fence among them leave the fence count as it was. */
  lemma {:induction false} FenceCountAppendFenceFree(pre: seq<string>, post: seq<string>,
                                                    isFence: string -> bool)
    requires FenceFree(post, isFence)
    ensures FenceCount(pre + post, isFence) == FenceCount(pre, isFence)
    decreases |post|
  {
    if post == [] {
      assert pre + post == pre;
    } else {
      var post' := post[..|post| - 1];
      var s := pre + post;
      FenceCountAppendFenceFree(pre, post', isFence);
      assert s[..|s| - 1] == pre + post';
      assert !isFence(s[|s| - 1]);
    }
  }

  /** One more line at the end of the input: the kept lines grow by it or not. */
  lemma KeptLinesSnoc(lines: seq<string>, x: string, isFence: string -> bool)
    ensures KeptLines(lines + [x], isFence) ==
      KeptLines(lines, isFence) +
        (if !isFence(x) && FenceCount(lines, isFence) % 2 == 1 then [x] else [])
    ensures FenceCount(lines + [x], isFence) == FenceCount(lines, isFence) + (if isFence(x) then 1 else 0)
  {
    assert (lines + [x])[..|lines|] == lines;
  }

  /**
   * Appending fence-free lines: they are all kept when an odd number of
   * fences came before them, and none are otherwise.
   */
  lemma {:induction false} KeptLinesAppendFenceFree(pre: seq<string>, post: seq<string>,
                                                   isFence: string -> bool)
    requires FenceFree(post, isFence)
    ensures KeptLines(pre + post, isFence) ==
      KeptLines(pre, isFence) + (if FenceCount(pre, isFence) % 2 == 1 then post else [])
    decreases |post|
  {
    if post == [] {
      assert pre + post == pre;
    } else {
      var post' := post[..|post| - 1];
      var x := post[|post| - 1];
      assert post == post' + [x];
      assert pre + post == (pre + post') + [x];
      KeptLinesAppendFenceFree(pre, post', isFence);
      FenceCountAppendFenceFree(pre, post', isFence);
      KeptLinesSnoc(pre + post', x, isFence);
    }
  }

  /** One turn of the line loop, stated on the prefixes the loop has seen. */
  lemma FilterStep(lines: seq<string>, i: nat, isFence: string -> bool)
    requires i < |lines|
    ensures KeptLines(lines[..i + 1], isFence) == KeptLines(lines[..i], isFence) +
      (if !isFence(lines[i]) && FenceCount(lines[..i], isFence) % 2 == 1 then [lines[i]] else [])
    ensures FenceCount(lines[..i + 1], isFence) % 2 == 1 <==>
      (if isFence(lines[i]) then FenceCount(lines[..i], isFence) % 2 == 0
       else FenceCount(lines[..i], isFence) % 2 == 1)
  {
    assert lines[..i + 1] == lines[..i] + [lines[i]];
    KeptLinesSnoc(lines[..i], lines[i], isFence);
    ParityFlips(FenceCount(lines[..i], isFence));
  }

  /** A fence line is never kept and flips the inside/outside parity. */
  lemma FenceLineToggles(pre: seq<string>, fence: string, isFence: string -> bool)
    requires isFence(fence)
    ensures KeptLines(pre + [fence], isFence) == KeptLines(pre, isFence)
    ensures FenceCount(pre + [fence], isFence) == FenceCount(pre, isFence) + 1
    ensures FenceCount(pre + [fence], isFence) % 2 == 1 <==> FenceCount(pre, isFence) % 2 == 0
  {
    assert (pre + [fence])[..|pre|] == pre;
    ParityFlips(FenceCount(pre, isFence));
  }

  lemma ParityFlips(c: nat)
    ensures (c + 1) % 2 == 1 <==> c % 2 == 0
  {
  }

  /**
   * An opening fence with no closing fence after it: every later line is
   * kept.
   */
  lemma UnmatchedFenceKeepsRest(pre: seq<string>, fence: string, post: seq<string>,
                                isFence: string -> bool)
    requires FenceCount(pre, isFence) % 2 == 0 && isFence(fence) && FenceFree(post, isFence)
    ensures KeptLines(pre + [fence] + post, isFence) == KeptLines(pre, isFence) + post
    ensures FenceCount(pre + [fence] + post, isFence) % 2 == 1
  {
    var started := pre + [fence];
    FenceLineToggles(pre, fence, isFence);
    KeptLinesAppendFenceFree(started, post, isFence);
    FenceCountAppendFenceFree(started, post, isFence);
  }

  /** A closing fence: the lines after it, up to the next fence, are dropped. */
  lemma ClosingFenceDropsRest(pre: seq<string>, fence: string, post: seq<string>,
                              isFence: string -> bool)
    requires FenceCount(pre, isFence) % 2 == 1 && isFence(fence) && FenceFree(post, isFence)
    ensures KeptLines(pre + [fence] + post, isFence) == KeptLines(pre, isFence)
  {
    FenceLineToggles(pre, fence, isFence);
    KeptLinesAppendFenceFree(pre + [fence], post, isFence);
    assert KeptLines(pre, isFence) + [] == KeptLines(pre, isFence);
  }

  /**
   * A closed block after an even number of fences: exactly the block's body
   * is added, and the lines after the closing fence are dropped.
   */
  lemma ClosedBlockKeepsBody(pre: seq<string>, open: string, body: seq<string>,
                             close: string, post: seq<string>, isFence: string -> bool)
    requires FenceCount(pre, isFence) % 2 == 0 && isFence(open) && isFence(close)
    requires FenceFree(body, isFence) && FenceFree(post, isFence)
    ensures KeptLines(pre + [open] + body + [close] + post, isFence) == KeptLines(pre, isFence) + body
  {
    UnmatchedFenceKeepsRest(pre, open, body, isFence);
    ClosingFenceDropsRest(pre + [open] + body, close, post, isFence);
  }

  /** Without any fence line nothing is kept. */
  lemma NoFenceLineKeepsNothing(lines: seq<string>, isFence: string -> bool)
    requires FenceFree(lines, isFence)
    ensures KeptLines(lines, isFence) == []
  {
    KeptLinesAppendFenceFree([], lines, isFence);
    assert [] + lines == lines;
  }

  /** Step 3: when a fence marker occurs, only the fenced lines remain. */
  function RemoveFences(code: string): string {
    if Contains(code, Fence) then Join(KeptLines(Split(code, '\n'), IsFenceLine), "\n")
    else code
  }

  /**
   * The line loop with its `inside_code_block` flag; `code` is the text
   * after the intro loop.
   */
  method FilterFenceLines(code: string) returns (result: string)
    ensures result == RemoveFences(code)
  {
    result := code;
    if Contains(code, Fence) {
      var lines := Split(code, '\n');
      var filtered: seq<string> := [];
      var inside := false;
      for i := 0 to |lines|
        invariant inside == (FenceCount(lines[..i], IsFenceLine) % 2 == 1)
        invariant filtered == KeptLines(lines[..i], IsFenceLine)
      {
        var line := lines[i];
        FilterStep(lines, i, IsFenceLine);
        var lineLower := Lower(line);
        if StartsWith(lineLower, "```clarity") || StartsWith(lineLower, "```lisp") || lineLower == Fence {
          assert IsFenceLine(line);
          if !inside {
            inside := true;
          } else {
            inside := false;
          }
          continue;
        }
        assert !IsFenceLine(line);
        // The second disjunct never holds here: the enclosing test found a fence.
        if inside || !Contains(code, Fence) {
          filtered := filtered + [line];
        }
      }
      assert lines[..|lines|] == lines;
      result := Join(filtered, "\n");
    }
  }

  /** With no fence marker the text is returned as it is. */
  lemma RemoveFencesWithoutMarker(code: string)
    requires !Contains(code, Fence)
    ensures RemoveFences(code) == code
  {
  }

  /**
   * With a fence marker present, the output's lines are exactly the kept
   * lines (when at least one line is kept).
   */
  lemma RemoveFencesOutputLines(code: string)
    requires Contains(code, Fence)
    ensures var kept := KeptLines(Split(code, '\n'), IsFenceLine);
      kept != [] ==> Split(RemoveFences(code), '\n') == kept
    ensures KeptLines(Split(code, '\n'), IsFenceLine) == [] ==> RemoveFences(code) == ""
  {
    var lines := Split(code, '\n');
    var kept := KeptLines(lines, IsFenceLine);
    KeptLinesAreNonFenceSubsequence(lines, IsFenceLine);
    if kept != [] {
      forall k | 0 <= k < |kept| ensures '\n' !in kept[k] {
        var j :| 0 <= j < |lines| && lines[j] == kept[k];
      }
      SplitJoin(kept, '\n');
    }
  }

  /**
   * A fence marker that never stands as a fence line (inline, or tagged with
   * another language) makes the result empty.
   */
  lemma RemoveFencesWithoutFenceLineIsEmpty(code: string)
    requires Contains(code, Fence)
    requires FenceFree(Split(code, '\n'), IsFenceLine)
    ensures RemoveFences(code) == ""
  {
    NoFenceLineKeepsNothing(Split(code, '\n'), IsFenceLine);
  }

  // ---------------------------------------------------------------------------
  // The whole sanitizer
  // ---------------------------------------------------------------------------

  /**
   * What the sanitizer returns for the model's reply `content` when the intro
   * loop runs over `intros`; the endpoint uses Intros. The list is a
   * parameter so that every property below holds for any phrase list.
   */
  function SanitizeWith(content: string, intros: seq<string>): string
    requires NonEmptyPhrases(intros)
  {
    RemoveFences(StripIntros(Trim(content), intros))
  }

  /** The intro loop of app.py:118-123 over the phrases `intros`. */
  method StripIntroPhrases(text: string, intros: seq<string>) returns (code: string)
    requires NonEmptyPhrases(intros)
    ensures code == StripIntros(text, intros)
  {
    code := text;
    for k := 0 to |intros|
      invariant code == StripIntros(text, intros[..k])
    {
      var intro := intros[k];
      assert intros[..k + 1][..k] == intros[..k];
      if Contains(Lower(code), Lower(intro)) {
        var parts := SplitOnce(code, intro);
        if |parts| > 1 {
          code := Trim(parts[1]);
        }
      }
    }
    assert intros[..|intros|] == intros;
  }

  /** The three steps in order: trim, the intro loop, the line loop. */
  method SanitizeUsing(content: string, intros: seq<string>) returns (code: string)
    requires NonEmptyPhrases(intros)
    ensures code == SanitizeWith(content, intros)
  {
    var trimmed := Trim(content);
    var stripped := StripIntroPhrases(trimmed, intros);
    code := FilterFenceLines(stripped);
  }

  /** The sanitizer as the convert endpoint runs it on the model's reply. */
  method Sanitize(content: string) returns (code: string)
    ensures code == SanitizeWith(content, Intros)
  {
    code := SanitizeUsing(content, Intros);
  }

  /** Nothing to strip: the sanitizer is the identity on the trimmed reply. */
  lemma SanitizeIdentity(content: string, intros: seq<string>)
    requires NonEmptyPhrases(intros)
    requires forall k :: 0 <= k < |intros| ==> !Contains(Trim(content), intros[k])
    requires !Contains(Trim(content), Fence)
    ensures SanitizeWith(content, intros) == Trim(content)
  {
    StripIntrosNoMatch(Trim(content), intros);
  }

  /**
   * A reply holding a fence marker but no fence line (the marker inline, or
   * tagged with another language) sanitizes to the empty string.
   */
  lemma SanitizeWithoutFenceLineIsEmpty(content: string, intros: seq<string>)
    requires NonEmptyPhrases(intros)
    requires Contains(StripIntros(Trim(content), intros), Fence)
    requires FenceFree(Split(StripIntros(Trim(content), intros), '\n'), IsFenceLine)
    ensures SanitizeWith(content, intros) == ""
  {
    RemoveFencesWithoutFenceLineIsEmpty(StripIntros(Trim(content), intros));
  }
}
