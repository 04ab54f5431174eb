/** The line-level text helpers of the assembler: whitespace removal, comment
    stripping and label splitting. */
module AsmUtil {
  import opened GoText

  // ---------------------------------------------------------------------------
  // removeAllWhitespace

  /** removeAllWhitespace: copies the runes of s that are not spaces, one at a
      time, into a builder. */
  method RemoveAllWhitespace(s: string) returns (r: string)
    ensures r == NonSpace(s)
  {
    r := [];
    var i := 0;
    while i < |s|
      invariant 0 <= i <= |s|
      invariant r == NonSpace(s[..i])
    {
      assert s[..i + 1] == s[..i] + [s[i]];
      assert [s[i]][1..] == [];
      NonSpaceAppend(s[..i], [s[i]]);
      if !IsSpace(s[i]) {
        r := r + [s[i]];
      }
      i := i + 1;
    }
    assert s[..i] == s;
  }

  // ---------------------------------------------------------------------------
  // removeCommentAndTrim

  /** A comment runs from the first '#' or ';' to the end of the line. */
  const COMMENT_CHARS: string := "#;"

  predicate NoComment(s: string) { '#' !in s && ';' !in s }

  /** The part of a line before its first comment character: a prefix of the
      line, free of comment characters, that stops at the first one. */
  function StripComment(line: string): (code: string)
    ensures |code| <= |line| && NoComment(code) && code == line[..|code|]
    ensures |code| < |line| ==> line[|code|] in COMMENT_CHARS
    ensures ':' !in line ==> ':' !in code
  {
    var idx := IndexAny(line, COMMENT_CHARS);
    var code := if idx != -1 then line[..idx] else line;
    assert NoComment(code) by {
      if idx != -1 {
        assert forall k :: 0 <= k < idx ==> code[k] == line[k];
      }
    }
    assert ':' !in line ==> ':' !in code by {
      if ':' !in line && idx != -1 {
        NotInSlice(line, 0, idx, ':');
      }
    }
    code
  }

  /** removeCommentAndTrim: the line up to its first comment character, with
      its surrounding spaces removed. */
  function RemoveCommentAndTrim(line: string): (r: string)
    ensures NoComment(r)
    ensures r == [] || (!IsSpace(r[0]) && !IsSpace(r[|r| - 1]))
    ensures ':' !in line ==> ':' !in r
  {
    var code := StripComment(line);
    TrimSpaceKeeps(code, '#');
    TrimSpaceKeeps(code, ';');
    assert ':' !in line ==> ':' !in TrimSpace(code) by {
      if ':' !in line {
        TrimSpaceKeeps(code, ':');
      }
    }
    TrimSpace(code)
  }

  /** The result is the trimmed text before the first comment character, and
      nothing after that character matters. */
  lemma RemoveCommentKeeps(code: string, comment: string)
    requires NoComment(code)
    requires comment == [] || comment[0] in COMMENT_CHARS
    ensures RemoveCommentAndTrim(code + comment) == TrimSpace(code)
  {
    var line := code + comment;
    var idx := IndexAny(line, COMMENT_CHARS);
    if comment == [] {
      assert line == code;
      assert idx == -1 by {
        assert forall k :: 0 <= k < |line| ==> line[k] in code;
      }
    } else {
      assert line[|code|] == comment[0];
      assert forall k :: 0 <= k < |code| ==> line[k] == code[k];
      assert idx == |code|;
      assert line[..idx] == code;
    }
  }

  lemma RemoveCommentAndTrimIdempotent(line: string)
    ensures RemoveCommentAndTrim(RemoveCommentAndTrim(line)) == RemoveCommentAndTrim(line)
  {
    var r := RemoveCommentAndTrim(line);
    RemoveCommentKeeps(r, []);
    assert r + [] == r;
    TrimSpaceOf(r);
  }

  lemma NoCommentInSpaces(w: string)
    requires AllSpace(w)
    ensures NoComment(w)
  {
    assert !IsSpace('#') && !IsSpace(';');
  }

  lemma NoCommentConcat(a: string, b: string)
    requires NoComment(a) && NoComment(b)
    ensures NoComment(a + b)
  {
  }

  /** Spaces around a comment-free line make no difference. */
  lemma RemoveCommentPadCode(w1: string, code: string, w2: string)
    requires AllSpace(w1) && AllSpace(w2) && NoComment(code)
    ensures RemoveCommentAndTrim(w1 + code + w2) == RemoveCommentAndTrim(code)
  {
    var padded := w1 + code + w2;
    assert NoComment(padded) by {
      NoCommentInSpaces(w1);
      NoCommentInSpaces(w2);
      NoCommentConcat(w1, code);
      NoCommentConcat(w1 + code, w2);
    }
    assert RemoveCommentAndTrim(padded) == TrimSpace(padded) by {
      RemoveCommentKeeps(padded, []);
      assert padded + [] == padded;
    }
    assert RemoveCommentAndTrim(code) == TrimSpace(code) by {
      RemoveCommentKeeps(code, []);
      assert code + [] == code;
    }
    TrimSpacePad(w1, code, w2);
  }

  /** Spaces before a line with a comment make no difference, nor does
      anything after the comment character. */
  lemma RemoveCommentPadComment(w1: string, code: string, comment: string)
    requires AllSpace(w1) && NoComment(code) && comment != [] && comment[0] in COMMENT_CHARS
    ensures RemoveCommentAndTrim(w1 + code + comment) == RemoveCommentAndTrim(code + comment)
  {
    assert NoComment(w1 + code) by {
      NoCommentInSpaces(w1);
      NoCommentConcat(w1, code);
    }
    assert RemoveCommentAndTrim((w1 + code) + comment) == TrimSpace(w1 + code) by {
      RemoveCommentKeeps(w1 + code, comment);
    }
    assert RemoveCommentAndTrim(code + comment) == TrimSpace(code) by {
      RemoveCommentKeeps(code, comment);
    }
    assert TrimSpace(w1 + code) == TrimSpace(code) by {
      TrimSpacePad(w1, code, []);
      assert w1 + code == w1 + code + [];
    }
  }

  /** Spaces around a line make no difference. */
  lemma RemoveCommentAndTrimPad(w1: string, line: string, w2: string)
    requires AllSpace(w1) && AllSpace(w2)
    ensures RemoveCommentAndTrim(w1 + line + w2) == RemoveCommentAndTrim(line)
  {
    var idx := IndexAny(line, COMMENT_CHARS);
    if idx == -1 {
      RemoveCommentPadCode(w1, line, w2);
    } else {
      var code := line[..idx];
      var comment := line[idx..] + w2;
      assert NoComment(code) by {
        assert forall k :: 0 <= k < idx ==> code[k] == line[k];
      }
      assert line == code + line[idx..];
      assert w1 + line + w2 == w1 + code + comment by {
        Regroup(w1, code, line[idx..], w2);
      }
      assert RemoveCommentAndTrim(w1 + code + comment) == RemoveCommentAndTrim(code + comment) by {
        RemoveCommentPadComment(w1, code, comment);
      }
      assert RemoveCommentAndTrim(code + comment) == TrimSpace(code) by {
        RemoveCommentKeeps(code, comment);
      }
      assert RemoveCommentAndTrim(code + line[idx..]) == TrimSpace(code) by {
        RemoveCommentKeeps(code, line[idx..]);
      }
    }
  }

  lemma Regroup(a: string, b: string, c: string, d: string)
    ensures a + (b + c) + d == a + b + (c + d)
  {
  }

  // ---------------------------------------------------------------------------
  // splitLabelsAndInstruction

  predicate GoodLabel(l: string) { l != [] && ':' !in l }

  predicate GoodLabels(ls: seq<string>) { forall k :: 0 <= k < |ls| ==> GoodLabel(ls[k]) }

  predicate CommentFree(ls: seq<string>) { forall k :: 0 <= k < |ls| ==> NoComment(ls[k]) }

  /** What the loop of splitLabelsAndInstruction returns when it is entered with
      `labels` collected so far and `line` left: each text before a ':' that is
      not blank once trimmed is appended as a label, and what follows the last
      ':' is the instruction part. */
  function SplitFrom(labels: seq<string>, line: string): (seq<string>, string)
    decreases |line|
  {
    var idx := Index(line, ':');
    if idx == -1 then (labels, line)
    else
      var lab := TrimSpace(line[..idx]);
      SplitFrom(if lab != [] then labels + [lab] else labels, TrimSpace(line[idx + 1..]))
  }

  /** splitLabelsAndInstruction: the labels of a line, left to right, and its
      instruction part. */
  function SplitLabels(line: string): (seq<string>, string) {
    SplitFrom([], RemoveCommentAndTrim(line))
  }

  /** splitLabelsAndInstruction as the loop it is: it reassigns `line` and
      appends to `labels` until no ':' is left. */
  method SplitLabelsAndInstruction(line0: string) returns (labels: seq<string>, instr: string)
    ensures (labels, instr) == SplitLabels(line0)
  {
    var line := RemoveCommentAndTrim(line0);
    labels := [];
    while true
      invariant SplitFrom(labels, line) == SplitLabels(line0)
      decreases |line|
    {
      var idx := Index(line, ':');
      if idx == -1 {
        break;
      }
      var lab := TrimSpace(line[..idx]);
      if lab != [] {
        labels := labels + [lab];
      }
      line := TrimSpace(line[idx + 1..]);
    }
    instr := line;
  }

  lemma GoodLabelsAppend(ls: seq<string>, l: string)
    requires GoodLabels(ls) && GoodLabel(l)
    ensures GoodLabels(ls + [l])
  {
    assert forall k :: 0 <= k < |ls| ==> (ls + [l])[k] == ls[k];
  }

  lemma CommentFreeAppend(ls: seq<string>, l: string)
    requires CommentFree(ls) && NoComment(l)
    ensures CommentFree(ls + [l])
  {
    assert forall k :: 0 <= k < |ls| ==> (ls + [l])[k] == ls[k];
  }

  /** One pass of the loop body: the label it takes has no ':', and neither it
      nor the rest of the line gains a comment character. */
  lemma SplitStep(line: string, idx: int)
    requires 0 <= idx < |line| && Index(line, ':') == idx
    ensures ':' !in TrimSpace(line[..idx])
    ensures NoComment(line) ==> NoComment(TrimSpace(line[..idx])) && NoComment(TrimSpace(line[idx + 1..]))
  {
    TrimSpaceKeeps(line[..idx], ':');
    if NoComment(line) {
      NotInSlice(line, 0, idx, '#');
      NotInSlice(line, 0, idx, ';');
      NotInSlice(line, idx + 1, |line|, '#');
      NotInSlice(line, idx + 1, |line|, ';');
      TrimSpaceKeeps(line[..idx], '#');
      TrimSpaceKeeps(line[..idx], ';');
      TrimSpaceKeeps(line[idx + 1..], '#');
      TrimSpaceKeeps(line[idx + 1..], ';');
    }
  }

  /** No label is blank or holds a ':', nor does the instruction part; and
      none of them holds a comment character the line did not. */
  lemma {:induction false} SplitFromValid(labels: seq<string>, line: string)
    requires GoodLabels(labels)
    ensures GoodLabels(SplitFrom(labels, line).0) && ':' !in SplitFrom(labels, line).1
    ensures NoComment(line) && CommentFree(labels) ==>
      CommentFree(SplitFrom(labels, line).0) && NoComment(SplitFrom(labels, line).1)
    decreases |line|
  {
    var idx := Index(line, ':');
    if idx != -1 {
      var lab := TrimSpace(line[..idx]);
      var next := TrimSpace(line[idx + 1..]);
      SplitStep(line, idx);
      var labels' := if lab != [] then labels + [lab] else labels;
      if lab != [] {
        GoodLabelsAppend(labels, lab);
        if NoComment(line) && CommentFree(labels) {
          CommentFreeAppend(labels, lab);
        }
      }
      SplitFromValid(labels', next);
    }
  }

  /** Entered with trimmed text, the loop leaves a trimmed instruction part. */
  lemma SplitFromTrimmed(labels: seq<string>, line: string)
    requires line == [] || (!IsSpace(line[0]) && !IsSpace(line[|line| - 1]))
    ensures SplitFrom(labels, line).1 == TrimSpace(SplitFrom(labels, line).1)
  {
    SplitFromParts(labels, line);
    TrimSpaceIdempotent(AfterLastColon(line));
  }

  lemma SplitLabelsGood(line: string)
    ensures GoodLabels(SplitLabels(line).0) && CommentFree(SplitLabels(line).0)
  {
    SplitFromValid([], RemoveCommentAndTrim(line));
  }

  lemma SplitInstructionClean(line: string)
    ensures ':' !in SplitLabels(line).1 && NoComment(SplitLabels(line).1)
  {
    SplitFromValid([], RemoveCommentAndTrim(line));
  }

  lemma SplitInstructionTrimmed(line: string)
    ensures SplitLabels(line).1 == TrimSpace(SplitLabels(line).1)
  {
    SplitFromTrimmed([], RemoveCommentAndTrim(line));
  }

  /** Labels are never blank and, like the instruction part, carry neither ':'
      nor comment characters; the instruction part is trimmed. */
  lemma SplitLabelsValid(line: string)
    ensures GoodLabels(SplitLabels(line).0) && CommentFree(SplitLabels(line).0)
    ensures ':' !in SplitLabels(line).1 && NoComment(SplitLabels(line).1)
    ensures SplitLabels(line).1 == TrimSpace(SplitLabels(line).1)
  {
    SplitLabelsGood(line);
    SplitInstructionClean(line);
    SplitInstructionTrimmed(line);
  }

  /** A line without ':' has no labels; its instruction part is its trimmed,
      comment-free text. */
  lemma SplitNoColon(line: string)
    requires ':' !in line
    ensures SplitLabels(line) == ([], RemoveCommentAndTrim(line))
  {
  }

  /** The text of labels written one after another, each followed by ':'. */
  function LabelsText(ls: seq<string>): string {
    if ls == [] then [] else ls[0] + ":" + LabelsText(ls[1..])
  }

  predicate IsLabelName(l: string) {
    l != [] && !IsSpace(l[0]) && !IsSpace(l[|l| - 1]) && ':' !in l && NoComment(l)
  }

  predicate LabelNames(ls: seq<string>) { forall k :: 0 <= k < |ls| ==> IsLabelName(ls[k]) }

  lemma {:induction false} LabelsTextShape(ls: seq<string>)
    requires LabelNames(ls)
    ensures NoComment(LabelsText(ls))
    ensures ls != [] ==> !IsSpace(LabelsText(ls)[0]) && LabelsText(ls)[|LabelsText(ls)| - 1] == ':'
  {
    if ls != [] {
      var rest := ls[1..];
      assert LabelNames(rest) by {
        assert forall k :: 0 <= k < |rest| ==> rest[k] == ls[k + 1];
      }
      LabelsTextShape(rest);
      var t := LabelsText(ls);
      assert t == ls[0] + (":" + LabelsText(rest));
      assert t[0] == ls[0][0];
    }
  }

  lemma AppendCons<T>(acc: seq<T>, s: seq<T>)
    requires s != []
    ensures (acc + [s[0]]) + s[1..] == acc + s
  {
    assert [s[0]] + s[1..] == s;
    assert (acc + [s[0]]) + s[1..] == acc + ([s[0]] + s[1..]);
  }

  /** One label and its ':' in front of trimmed text. */
  lemma SplitFromLabelStep(acc: seq<string>, l: string, u: string)
    requires IsLabelName(l)
    requires u == [] || (!IsSpace(u[0]) && !IsSpace(u[|u| - 1]))
    ensures SplitFrom(acc, l + ":" + u) == SplitFrom(acc + [l], u)
  {
    var t := l + ":" + u;
    assert t[..|l|] == l && t[|l|] == ':';
    assert Index(t, ':') == |l|;
    assert t[|l| + 1..] == u;
    TrimSpaceOf(l);
    TrimSpaceOf(u);
  }

  /** The loop takes the labels of a labels-only text one by one. */
  lemma {:induction false} SplitFromLabels(acc: seq<string>, ls: seq<string>)
    requires LabelNames(ls)
    ensures SplitFrom(acc, LabelsText(ls)) == (acc + ls, [])
    decreases ls
  {
    if ls == [] {
      assert acc + [] == acc;
    } else {
      var rest := ls[1..];
      assert LabelNames(rest) by {
        assert forall k :: 0 <= k < |rest| ==> rest[k] == ls[k + 1];
      }
      LabelsTextShape(rest);
      SplitFromLabelStep(acc, ls[0], LabelsText(rest));
      SplitFromLabels(acc + [ls[0]], rest);
      AppendCons(acc, ls);
    }
  }

  lemma LabelsLineTrim(ls: seq<string>, comment: string)
    requires ls != [] && LabelNames(ls)
    requires comment == [] || comment[0] in COMMENT_CHARS
    ensures RemoveCommentAndTrim(LabelsText(ls) + comment) == LabelsText(ls)
  {
    var t := LabelsText(ls);
    assert NoComment(t) && !IsSpace(t[0]) && !IsSpace(t[|t| - 1]) by {
      LabelsTextShape(ls);
      assert t[|t| - 1] == ':';
    }
    RemoveCommentKeeps(t, comment);
    TrimSpaceOf(t);
  }

  /** A line of labels only, with or without a trailing comment, gives those
      labels in order and an empty instruction part. */
  lemma SplitLabelOnly(ls: seq<string>, comment: string)
    requires ls != [] && LabelNames(ls)
    requires comment == [] || comment[0] in COMMENT_CHARS
    ensures SplitLabels(LabelsText(ls) + comment) == (ls, [])
  {
    var t := LabelsText(ls);
    assert SplitLabels(t + comment) == SplitFrom([], t) by {
      LabelsLineTrim(ls, comment);
    }
    SplitFromLabels([], ls);
    assert [] + ls == ls;
  }

  // ---------------------------------------------------------------------------
  // What splitLabelsAndInstruction gives, for every line

  /** The text after the last ':' of s, or all of s when it has none. */
  function AfterLastColon(s: string): string
    decreases |s|
  {
    var idx := Index(s, ':');
    if idx == -1 then s else AfterLastColon(s[idx + 1..])
  }

  /** AfterLastColon gives a suffix of s free of ':'; it is all of s when s has
      no ':', and otherwise starts right after a ':'. */
  lemma AfterLastColonSuffix(s: string)
    ensures var r := AfterLastColon(s);
      ':' !in r && |r| <= |s| && r == s[|s| - |r|..]
      && (':' !in s ==> r == s)
      && (':' in s ==> |r| < |s| && s[|s| - |r| - 1] == ':')
  {
    AfterLastColonFree(s);
    AfterLastColonTail(s);
    if ':' in s {
      AfterLastColonAfter(s);
    } else {
      assert s[|s| - |s|..] == s;
    }
  }

  lemma {:induction false} AfterLastColonFree(s: string)
    ensures ':' !in AfterLastColon(s)
    decreases |s|
  {
    if ':' in s {
      AfterLastColonFree(s[Index(s, ':') + 1..]);
    }
  }

  lemma {:induction false} AfterLastColonTail(s: string)
    ensures |AfterLastColon(s)| <= |s|
    ensures AfterLastColon(s) == s[|s| - |AfterLastColon(s)|..]
    decreases |s|
  {
    if ':' in s {
      var idx := Index(s, ':');
      var t := s[idx + 1..];
      var r := AfterLastColon(t);
      assert AfterLastColon(s) == r;
      AfterLastColonTail(t);
      DropDrop(s, idx + 1, |t| - |r|);
    } else {
      assert s[|s| - |s|..] == s;
    }
  }

  lemma {:induction false} AfterLastColonAfter(s: string)
    requires ':' in s
    ensures |AfterLastColon(s)| < |s| && s[|s| - |AfterLastColon(s)| - 1] == ':'
    decreases |s|
  {
    var t := s[Index(s, ':') + 1..];
    if ':' in t {
      AfterLastColonAfter(t);
      AfterLastColonShift(s, t);
    } else {
      assert AfterLastColon(s) == t;
    }
  }

  lemma AfterLastColonShift(s: string, t: string)
    requires ':' in s && t == s[Index(s, ':') + 1..] && ':' in t
    requires |AfterLastColon(t)| < |t| && t[|t| - |AfterLastColon(t)| - 1] == ':'
    ensures |AfterLastColon(s)| < |s| && s[|s| - |AfterLastColon(s)| - 1] == ':'
  {
    var r := AfterLastColon(t);
    assert AfterLastColon(s) == r;
    var k := |t| - |r| - 1;
    assert s[|s| - |r| - 1] == t[k];
  }

  /** A text ending in ':' has nothing after its last ':'; otherwise what is
      after its last ':' ends with the text's last rune. */
  lemma {:induction false} AfterLastColonEnd(s: string)
    requires s != []
    ensures s[|s| - 1] == ':' ==> AfterLastColon(s) == []
    ensures s[|s| - 1] != ':' ==>
      AfterLastColon(s) != [] && AfterLastColon(s)[|AfterLastColon(s)| - 1] == s[|s| - 1]
    decreases |s|
  {
    var idx := Index(s, ':');
    if idx == |s| - 1 {
      assert s[idx + 1..] == [];
    } else if idx != -1 {
      var t := s[idx + 1..];
      assert t[|t| - 1] == s[|s| - 1];
      AfterLastColonEnd(t);
    }
  }

  lemma DropDrop<T>(s: seq<T>, a: nat, b: nat)
    requires a + b <= |s|
    ensures s[a..][b..] == s[a + b..]
  {
  }

  /** The label a text before a ':' gives: the text trimmed, if it is not blank. */
  function LabelOf(seg: string): seq<string> {
    if TrimSpace(seg) != [] then [TrimSpace(seg)] else []
  }

  /** The labels written in s: the trimmed text before each of its ':', left
      to right, leaving out the blank ones. */
  function LabelsOf(s: string): seq<string>
    decreases |s|
  {
    var idx := Index(s, ':');
    if idx == -1 then [] else LabelOf(s[..idx]) + LabelsOf(s[idx + 1..])
  }

  /** One ':' at a time: LabelsOf and AfterLastColon of a text whose first
      ':' is at index i. */
  lemma PartsAt(s: string, i: nat)
    requires i < |s| && s[i] == ':' && ':' !in s[..i]
    ensures LabelsOf(s) == LabelOf(s[..i]) + LabelsOf(s[i + 1..])
    ensures AfterLastColon(s) == AfterLastColon(s[i + 1..])
  {
    IndexUnique(s, ':', i);
  }

  /** The slices of w + y and of x + w around one index of y, resp. x. */
  lemma SliceAfter(w: string, y: string, j: nat)
    requires j < |y|
    ensures (w + y)[..|w| + j] == w + y[..j]
    ensures (w + y)[|w| + j + 1..] == y[j + 1..]
  {
  }

  lemma SliceBefore(x: string, w: string, i: nat)
    requires i < |x|
    ensures (x + w)[..i] == x[..i]
    ensures (x + w)[i + 1..] == x[i + 1..] + w
  {
  }

  /** Text without ':' in front of a text joins its first label and is cut
      off with it. */
  lemma PartsPrefix(w: string, y: string)
    requires ':' !in w && ':' in y
    ensures var j := Index(y, ':');
      LabelsOf(w + y) == LabelOf(w + y[..j]) + LabelsOf(y[j + 1..])
      && AfterLastColon(w + y) == AfterLastColon(y)
  {
    var j := Index(y, ':');
    var k := |w| + j;
    assert (w + y)[..k] == w + y[..j] && (w + y)[k + 1..] == y[j + 1..] by {
      SliceAfter(w, y, j);
    }
    assert ':' !in w + y[..j];
    assert (w + y)[k] == ':';
    PartsAt(y, j);
    PartsAt(w + y, k);
  }

  /** Spaces in front of a text change none of its labels; they stay in
      front of it when it has no ':' and are cut off with the rest when it
      does. */
  lemma PartsPadLeft(w: string, y: string)
    requires AllSpace(w)
    ensures LabelsOf(w + y) == LabelsOf(y)
    ensures AfterLastColon(w + y) == if ':' in y then AfterLastColon(y) else w + y
  {
    assert ':' !in w;
    if ':' !in y {
      assert ':' !in w + y;
    } else {
      var j := Index(y, ':');
      PartsPrefix(w, y);
      PartsAt(y, j);
      assert LabelOf(w + y[..j]) == LabelOf(y[..j]) by {
        TrimSpacePad(w, y[..j], []);
        assert w + y[..j] + [] == w + y[..j];
      }
    }
  }

  /** Text without ':' after a text changes none of its labels and ends up
      after the text after its last ':'. */
  lemma {:induction false} PartsPadRight(x: string, w: string)
    requires ':' !in w
    ensures LabelsOf(x + w) == LabelsOf(x)
    ensures AfterLastColon(x + w) == AfterLastColon(x) + w
    decreases |x|
  {
    if ':' !in x {
      assert ':' !in x + w;
    } else {
      var i := Index(x, ':');
      PartsAt(x, i);
      assert (x + w)[..i] == x[..i] && (x + w)[i + 1..] == x[i + 1..] + w by {
        SliceBefore(x, w, i);
      }
      PartsAt(x + w, i);
      PartsPadRight(x[i + 1..], w);
    }
  }

  /** Removing the leading spaces of a text changes neither its labels nor the
      trimmed text after its last ':'. */
  lemma PartsTrimLeft(s: string)
    ensures LabelsOf(TrimLeft(s)) == LabelsOf(s)
    ensures TrimSpace(AfterLastColon(TrimLeft(s))) == TrimSpace(AfterLastColon(s))
  {
    var l := TrimLeft(s);
    var w := TrimLeftPart(s);
    PartsPadLeft(w, l);
    if ':' !in l {
      assert AfterLastColon(l) == l;
      TrimSpacePadLeft(w, l);
    }
  }

  /** Removing the trailing spaces of a text changes neither its labels nor
      the trimmed text after its last ':'. */
  lemma PartsTrimRight(s: string)
    ensures LabelsOf(TrimRight(s)) == LabelsOf(s)
    ensures TrimSpace(AfterLastColon(TrimRight(s))) == TrimSpace(AfterLastColon(s))
  {
    var t := TrimRight(s);
    var w := TrimRightPart(s);
    assert ':' !in w;
    PartsPadRight(t, w);
    TrimSpacePadRight(AfterLastColon(t), w);
  }

  /** Trimming a text changes neither its labels nor the trimmed text after
      its last ':'. */
  lemma PartsTrim(s: string)
    ensures LabelsOf(TrimSpace(s)) == LabelsOf(s)
    ensures TrimSpace(AfterLastColon(TrimSpace(s))) == TrimSpace(AfterLastColon(s))
  {
    assert TrimSpace(s) == TrimRight(TrimLeft(s));
    PartsTrimLeft(s);
    PartsTrimRight(TrimLeft(s));
  }

  /** From a trimmed line, the loop collects the labels of the line after
      those it has, and leaves the trimmed text after the line's last ':'. */
  lemma {:induction false} SplitFromParts(labels: seq<string>, line: string)
    requires line == [] || (!IsSpace(line[0]) && !IsSpace(line[|line| - 1]))
    ensures SplitFrom(labels, line) == (labels + LabelsOf(line), TrimSpace(AfterLastColon(line)))
    decreases |line|, 1
  {
    if ':' !in line {
      SplitFromLast(labels, line);
    } else {
      SplitFromNext(labels, line);
    }
  }

  /** The last pass: a trimmed line without ':' is the instruction part. */
  lemma SplitFromLast(labels: seq<string>, line: string)
    requires line == [] || (!IsSpace(line[0]) && !IsSpace(line[|line| - 1]))
    requires ':' !in line
    ensures SplitFrom(labels, line) == (labels + LabelsOf(line), TrimSpace(AfterLastColon(line)))
  {
    assert labels + [] == labels;
    TrimSpaceOf(line);
  }

  /** A pass that takes a label, followed by the passes over the rest of the
      line after its first ':'. */
  lemma {:induction false} SplitFromNext(labels: seq<string>, line: string)
    requires ':' in line
    ensures SplitFrom(labels, line) == (labels + LabelsOf(line), TrimSpace(AfterLastColon(line)))
    decreases |line|, 0
  {
    var idx := Index(line, ':');
    var rest := line[idx + 1..];
    SplitFromParts(labels + LabelOf(line[..idx]), TrimSpace(rest));
    SplitFromStep(labels, line);
    PartsTrim(rest);
    PartsAt(line, idx);
    AppendAssoc(labels, LabelOf(line[..idx]), LabelsOf(rest));
  }

  /** One pass of the loop, with the label it takes written as LabelOf. */
  lemma SplitFromStep(labels: seq<string>, line: string)
    requires ':' in line
    ensures var idx := Index(line, ':');
      SplitFrom(labels, line) == SplitFrom(labels + LabelOf(line[..idx]), TrimSpace(line[idx + 1..]))
  {
    assert labels + [] == labels;
  }

  lemma AppendAssoc<T>(a: seq<T>, b: seq<T>, c: seq<T>)
    ensures a + b + c == a + (b + c)
  {
  }

  /** SplitFromParts for the first pass, which starts with no labels. */
  lemma SplitFromStart(t: string)
    requires t == [] || (!IsSpace(t[0]) && !IsSpace(t[|t| - 1]))
    ensures SplitFrom([], t).0 == LabelsOf(t)
    ensures SplitFrom([], t).1 == TrimSpace(AfterLastColon(t))
  {
    SplitFromParts([], t);
    assert [] + LabelsOf(t) == LabelsOf(t);
  }

  /** For every line: the labels are those written in its text before the
      comment, and the instruction part is the trimmed text after the last
      ':' of that text. */
  lemma SplitLabelsParts(line: string)
    ensures SplitLabels(line).0 == LabelsOf(StripComment(line))
    ensures SplitLabels(line).1 == TrimSpace(AfterLastColon(StripComment(line)))
  {
    SplitFromStart(RemoveCommentAndTrim(line));
    PartsTrim(StripComment(line));
  }

  /** The instruction part is empty exactly when the trimmed, comment-free
      line is empty or ends with ':'. */
  lemma SplitInstructionEmpty(line: string)
    ensures var t := RemoveCommentAndTrim(line);
      SplitLabels(line).1 == [] <==> t == [] || t[|t| - 1] == ':'
  {
    var t := RemoveCommentAndTrim(line);
    assert SplitLabels(line) == SplitFrom([], t);
    SplitFromParts([], t);
    var r := AfterLastColon(t);
    TrimSpaceEmpty(r);
    if t != [] {
      AfterLastColonEnd(t);
      if t[|t| - 1] != ':' {
        assert !IsSpace(r[|r| - 1]);
      }
    }
  }
}
