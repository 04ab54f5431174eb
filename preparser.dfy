/** The two passes of the assembler over the lines of a source file.

    The first pass (parseLabelsAndInstructions) splits every line into its
    labels and its instruction part, binds each label to the byte address of
    the next instruction, and keeps the non-empty instruction parts in order.
    The second pass (the loop of AssembleFile) rewrites the `j` pseudo
    instruction, replaces a label operand of a branch or `jal` by its offset
    from the instruction, and parses the line; the first failing line stops
    the pass with its 1-based number. */
module AsmPreparser {
  import opened Results
  import opened GoText
  import opened AsmUtil
  import opened AsmInstruction
  import opened AsmParser
  import Op = AsmOpcode

  // ---------------------------------------------------------------------------
  // preprocessPseudoInstructions

  /** The two-field line `j T` becomes `jal x0, T`; any other line is kept. */
  function Preprocess(line: string): string {
    var fields := Fields(line);
    if |fields| == 2 && fields[0] == "j" then "jal x0, " + fields[1] else line
  }

  /** `j T`, written with one space, is rewritten to a jal into x0. */
  lemma PreprocessJump(t: string)
    requires t != [] && NoSpace(t)
    ensures Preprocess("j " + t) == "jal x0, " + t
  {
    assert Fields("j " + t) == ["j", t] by {
      JumpFields(t);
    }
  }

  lemma JumpFields(t: string)
    requires t != [] && NoSpace(t)
    ensures Fields("j " + t) == ["j", t]
  {
    assert NoSpace("j") by {
      assert !IsSpace('j');
    }
    FieldsPair("j", t);
    assert "j" + " " + t == "j " + t;
  }

  lemma FieldsPair(a: string, b: string)
    requires a != [] && NoSpace(a) && b != [] && NoSpace(b)
    ensures Fields(a + " " + b) == [a, b]
  {
    var fs := [a, b];
    assert fs[1..] == [b];
    FieldsJoin(fs);
  }

  /** A line is rewritten only when it is the two-field form `j T`. */
  lemma PreprocessOnlyJump(line: string)
    requires Preprocess(line) != line
    ensures Fields(line) == ["j", Fields(line)[1]]
  {
  }

  lemma SignedDigitsWord(t: string)
    requires IsSignedDigits(t)
    ensures Word(t)
  {
    assert forall i :: 0 <= i < |t| ==> IsDigit(t[i]) || t[i] == '-';
  }

  lemma JalLine(t: string)
    ensures "jal x0, " + t == Join(["jal"] + ["x0,", t], " ")
    ensures Join(["x0,", t], "") == "x" + "0" + "," + t
  {
    assert ["jal"] + ["x0,", t] == ["jal", "x0,", t];
    assert ["jal", "x0,", t][1..] == ["x0,", t];
    assert ["x0,", t][1..] == [t];
    assert Join(["x0,", t], " ") == "x0," + " " + t;
    assert "jal x0, " + t == "jal" + " " + ("x0," + " " + t);
    assert Join(["x0,", t], "") == "x0," + "" + t;
  }

  lemma JalLineParses(t: string)
    requires IsSignedDigits(t)
    ensures ParseInstruction("jal x0, " + t) == ParseOperation("jal", "x" + "0" + "," + t)
  {
    SignedDigitsWord(t);
    JalLine(t);
    assert Word("jal") && Word("x0,");
    ParseWords("jal", ["x0,", t]);
  }

  /** `j <offset>` assembles to jal with x0 as the link register. */
  lemma JumpParsesAsJal(t: string)
    requires IsSignedDigits(t)
    ensures ParseInstruction(Preprocess("j " + t)) == BuildJal("0", t)
  {
    SignedDigitsWord(t);
    PreprocessJump(t);
    JalLineParses(t);
    ParseJal("0", t);
  }

  // ---------------------------------------------------------------------------
  // ReplaceLabelOperandWithOffset

  /** An error of the second pass on one line. */
  datatype AsmError = UnknownLabel(name: string) | Parse(cause: ParseError)

  /** The field that holds a label operand: the fourth of a four-field beq,
      bne or blt, the third of a three-field jal. */
  function LabelField(fields: seq<string>): (k: Option<nat>)
    ensures k.Some? ==> 2 <= k.value == |fields| - 1
  {
    if |fields| == 4 && fields[0] in {"beq", "bne", "blt"} then Some(3)
    else if |fields| == 3 && fields[0] == "jal" then Some(2)
    else None
  }

  /** An operand that strconv.Atoi accepts, or that starts with '-', is
      already an offset. */
  predicate IsOffset(operand: string) {
    Atoi(operand).Some? || (operand != [] && operand[0] == '-')
  }

  /** The byte offset from instruction idx to the address target. */
  function Offset(target: int, idx: nat): int {
    target - idx * Op.INSTRUCTION_SIZE
  }

  /** The line with its label operand replaced by the label's address minus
      the address of instruction idx, fields joined with single spaces. */
  function ReplaceLabel(line: string, idx: nat, labels: map<string, int>): Result<string, AsmError> {
    var fields := Fields(line);
    var k := LabelField(fields);
    if k.None? then Ok(line)
    else
      var lbl := fields[k.value];
      if IsOffset(lbl) then Ok(line)
      else if lbl !in labels then Err(UnknownLabel(lbl))
      else Ok(Join(fields[k.value := IntStr(Offset(labels[lbl], idx))], " "))
  }

  /** The only error is a label operand that is neither a number nor bound. */
  lemma ReplaceError(line: string, idx: nat, labels: map<string, int>)
    requires ReplaceLabel(line, idx, labels).Err?
    ensures var e := ReplaceLabel(line, idx, labels).error;
      e.UnknownLabel? && e.name !in labels && !IsOffset(e.name)
      && |Fields(line)| >= 3 && e.name == Fields(line)[|Fields(line)| - 1]
  {
  }

  lemma ReplaceAt(line: string, idx: nat, labels: map<string, int>, k: nat)
    requires LabelField(Fields(line)) == Some(k)
    requires !IsOffset(Fields(line)[k]) && Fields(line)[k] in labels
    ensures ReplaceLabel(line, idx, labels)
      == Ok(Join(Fields(line)[k := IntStr(Offset(labels[Fields(line)[k]], idx))], " "))
  {
  }

  /** A branch whose last operand is a bound label gets the offset from the
      branch to the label, in bytes. */
  lemma ReplaceBranch(mnemonic: string, a: string, b: string, lbl: string, idx: nat, labels: map<string, int>)
    requires mnemonic in {"beq", "bne", "blt"}
    requires a != [] && NoSpace(a) && b != [] && NoSpace(b) && lbl != [] && NoSpace(lbl)
    requires !IsOffset(lbl) && lbl in labels
    ensures ReplaceLabel(Join([mnemonic, a, b, lbl], " "), idx, labels)
      == Ok(Join([mnemonic, a, b, IntStr(Offset(labels[lbl], idx))], " "))
  {
    var fs := [mnemonic, a, b, lbl];
    var line := Join(fs, " ");
    var v := IntStr(Offset(labels[lbl], idx));
    assert ReplaceLabel(line, idx, labels) == Ok(Join(fs[3 := v], " ")) by {
      assert Fields(line) == fs by {
        FieldsJoin(fs);
      }
      assert LabelField(fs) == Some(3);
      ReplaceAt(line, idx, labels, 3);
    }
    assert fs[3 := v] == [mnemonic, a, b, v];
  }

  /** A jal whose last operand is a bound label gets the offset to the label. */
  lemma ReplaceJal(a: string, lbl: string, idx: nat, labels: map<string, int>)
    requires a != [] && NoSpace(a) && lbl != [] && NoSpace(lbl)
    requires !IsOffset(lbl) && lbl in labels
    ensures ReplaceLabel(Join(["jal", a, lbl], " "), idx, labels)
      == Ok(Join(["jal", a, IntStr(Offset(labels[lbl], idx))], " "))
  {
    var fs := ["jal", a, lbl];
    var line := Join(fs, " ");
    var v := IntStr(Offset(labels[lbl], idx));
    assert ReplaceLabel(line, idx, labels) == Ok(Join(fs[2 := v], " ")) by {
      assert Fields(line) == fs by {
        FieldsJoin(fs);
      }
      ReplaceAt(line, idx, labels, 2);
    }
    assert fs[2 := v] == ["jal", a, v];
  }

  /** The label map of the examples: start at address 0, loop at 8. */
  const EXAMPLE_LABELS: map<string, int> := map["start" := 0, "loop" := 8]

  lemma StartIsLabel()
    ensures !IsOffset("start") && !IsOffset("loop") && !IsOffset("missing")
  {
    assert !IsDigit("start"[0]) && !IsDigit("loop"[0]) && !IsDigit("missing"[0]);
  }

  /** A backward branch from instruction 1 to start. */
  lemma ReplaceBackward()
    ensures ReplaceLabel(Join(["beq", "x1,", "x0,", "start"], " "), 1, EXAMPLE_LABELS)
      == Ok(Join(["beq", "x1,", "x0,", "-4"], " "))
  {
    StartIsLabel();
    ReplaceBranch("beq", "x1,", "x0,", "start", 1, EXAMPLE_LABELS);
    assert IntStr(Offset(0, 1)) == "-4";
  }

  /** A forward branch from instruction 1 to loop. */
  lemma ReplaceForward()
    ensures ReplaceLabel(Join(["beq", "x1,", "x0,", "loop"], " "), 1, EXAMPLE_LABELS)
      == Ok(Join(["beq", "x1,", "x0,", "4"], " "))
  {
    StartIsLabel();
    ReplaceBranch("beq", "x1,", "x0,", "loop", 1, EXAMPLE_LABELS);
    assert IntStr(Offset(8, 1)) == "4";
  }

  lemma TwelveIsOffset()
    ensures IsOffset("12")
  {
    assert IsDigits("12");
    assert DecVal("12") == 12 by {
      assert "12"[..1] == "1";
      assert "1"[..0] == "";
    }
  }

  /** A branch that already has an offset is kept. */
  lemma ReplaceNumeric()
    ensures var line := Join(["beq", "x1,", "x0,", "12"], " "); ReplaceLabel(line, 2, EXAMPLE_LABELS) == Ok(line)
  {
    var fs := ["beq", "x1,", "x0,", "12"];
    var line := Join(fs, " ");
    assert Fields(line) == fs by {
      FieldsJoin(fs);
    }
    TwelveIsOffset();
    ReplaceKeeps(line, 2, EXAMPLE_LABELS);
  }

  /** A label operand that is neither a number nor bound is an error. */
  lemma ReplaceUnbound(line: string, idx: nat, labels: map<string, int>, k: nat)
    requires LabelField(Fields(line)) == Some(k)
    requires !IsOffset(Fields(line)[k]) && Fields(line)[k] !in labels
    ensures ReplaceLabel(line, idx, labels) == Err(UnknownLabel(Fields(line)[k]))
  {
  }

  /** A label that is not bound is an error. */
  lemma ReplaceMissing()
    ensures ReplaceLabel(Join(["beq", "x1,", "x0,", "missing"], " "), 0, EXAMPLE_LABELS) == Err(UnknownLabel("missing"))
  {
    var fs := ["beq", "x1,", "x0,", "missing"];
    var line := Join(fs, " ");
    assert Fields(line) == fs by {
      FieldsJoin(fs);
    }
    StartIsLabel();
    assert "missing" !in EXAMPLE_LABELS;
    ReplaceUnbound(line, 0, EXAMPLE_LABELS, 3);
  }

  /** A line that is not a branch or jal is kept. */
  lemma ReplaceOther()
    ensures var line := Join(["addi", "x1,", "x0,", "5"], " "); ReplaceLabel(line, 0, EXAMPLE_LABELS) == Ok(line)
  {
    var fs := ["addi", "x1,", "x0,", "5"];
    var line := Join(fs, " ");
    assert LabelField(fs) == None by {
      assert |fs[0]| == 4;
    }
    assert ReplaceLabel(line, 0, EXAMPLE_LABELS) == Ok(line) by {
      assert Fields(line) == fs by {
        FieldsJoin(fs);
      }
      ReplaceKeeps(line, 0, EXAMPLE_LABELS);
    }
  }

  /** Every field of the rewritten line is non-empty and space-free. */
  lemma ReplacedFields(fields: seq<string>, k: nat, v: int)
    requires k < |fields| && forall i :: 0 <= i < |fields| ==> fields[i] != [] && NoSpace(fields[i])
    ensures var fs := fields[k := IntStr(v)]; forall i :: 0 <= i < |fs| ==> fs[i] != [] && NoSpace(fs[i])
  {
  }

  /** A line without a label operand is left as it is. */
  lemma ReplaceKeeps(line: string, idx: nat, labels: map<string, int>)
    requires var k := LabelField(Fields(line)); k.None? || IsOffset(Fields(line)[k.value])
    ensures ReplaceLabel(line, idx, labels) == Ok(line)
  {
  }

  /** Replacing is idempotent: a line it produced is left as it is, whatever
      the index and label map, as long as the offsets fit Go's int. */
  lemma ReplaceIdempotent(line: string, idx: nat, labels: map<string, int>, idx': nat, labels': map<string, int>)
    requires ReplaceLabel(line, idx, labels).Ok?
    requires forall l :: l in labels ==> INT64_MIN <= Offset(labels[l], idx) <= INT64_MAX
    ensures var out := ReplaceLabel(line, idx, labels).value; ReplaceLabel(out, idx', labels') == Ok(out)
  {
    var fields := Fields(line);
    var k := LabelField(fields);
    if k.None? || IsOffset(fields[k.value]) {
      ReplaceKeeps(line, idx, labels);
      ReplaceKeeps(line, idx', labels');
    } else {
      var v := Offset(labels[fields[k.value]], idx);
      var fs := fields[k.value := IntStr(v)];
      assert ReplaceLabel(line, idx, labels) == Ok(Join(fs, " "));
      ReplacedFields(fields, k.value, v);
      FieldsJoin(fs);
      assert LabelField(fs) == k;
      AtoiIntStr(v);
      ReplaceKeeps(Join(fs, " "), idx', labels');
    }
  }

  // ---------------------------------------------------------------------------
  // parseLabelsAndInstructions

  lemma SnocLast<T>(s: seq<T>)
    requires s != []
    ensures s == s[..|s| - 1] + [s[|s| - 1]]
  {
  }

  lemma PrefixStep<T>(s: seq<T>, i: nat)
    requires i < |s|
    ensures s[..i + 1][..i] == s[..i] && s[..i + 1][i] == s[i]
  {
  }

  lemma PrefixAll<T>(s: seq<T>)
    ensures s[..|s|] == s
  {
  }

  lemma SnocPrefix<T>(s: seq<T>, x: T)
    ensures (s + [x])[..|s|] == s && (s + [x])[|s|] == x
  {
  }

  /** The map with each of the labels bound to addr, in order. */
  function BindLabels(m: map<string, int>, labels: seq<string>, addr: int): map<string, int>
    decreases |labels|
  {
    if labels == [] then m else BindLabels(m, labels[..|labels| - 1], addr)[labels[|labels| - 1] := addr]
  }

  lemma {:induction false} BindLabelsSpec(m: map<string, int>, labels: seq<string>, addr: int, k: string)
    ensures k in BindLabels(m, labels, addr) <==> k in m || k in labels
    ensures k in labels ==> BindLabels(m, labels, addr)[k] == addr
    ensures k !in labels && k in m ==> BindLabels(m, labels, addr)[k] == m[k]
    decreases |labels|
  {
    if labels != [] {
      SnocLast(labels);
      BindLabelsSpec(m, labels[..|labels| - 1], addr, k);
    }
  }

  /** A line split into its labels and its instruction part. */
  type Split = (seq<string>, string)

  /** splitLabelsAndInstruction on every line, in order. */
  function Splits(lines: seq<string>): (sp: seq<Split>)
    ensures |sp| == |lines|
    decreases |lines|
  {
    if lines == [] then [] else Splits(lines[..|lines| - 1]) + [SplitLabels(lines[|lines| - 1])]
  }

  /** What one line adds: its labels bound to the address of the next
      instruction, and its instruction part when that is not empty. */
  function CollectLine(acc: (map<string, int>, seq<string>), split: Split): (map<string, int>, seq<string>) {
    (BindLabels(acc.0, split.0, |acc.1| * Op.INSTRUCTION_SIZE), if split.1 == [] then acc.1 else acc.1 + [split.1])
  }

  /** The first pass over the split lines read so far. */
  function CollectSplits(sp: seq<Split>): (map<string, int>, seq<string>)
    decreases |sp|
  {
    if sp == [] then (map[], []) else CollectLine(CollectSplits(sp[..|sp| - 1]), sp[|sp| - 1])
  }

  /** parseLabelsAndInstructions: the label map and the instruction lines. */
  function Collect(lines: seq<string>): (map<string, int>, seq<string>) {
    CollectSplits(Splits(lines))
  }

  lemma CollectStep(lines: seq<string>, i: nat)
    requires i < |lines|
    ensures Collect(lines[..i + 1]) == CollectLine(Collect(lines[..i]), SplitLabels(lines[i]))
  {
    PrefixStep(lines, i);
    SnocPrefix(Splits(lines[..i]), SplitLabels(lines[i]));
  }

  lemma BindStep(m: map<string, int>, labels: seq<string>, j: nat, addr: int)
    requires j < |labels|
    ensures BindLabels(m, labels[..j + 1], addr) == BindLabels(m, labels[..j], addr)[labels[j] := addr]
  {
    PrefixStep(labels, j);
  }

  /** The label map and the instruction lines, by the loops of the source. */
  method ParseLabelsAndInstructions(lines: seq<string>) returns (labelMap: map<string, int>, instructions: seq<string>)
    ensures (labelMap, instructions) == Collect(lines)
  {
    labelMap := map[];
    instructions := [];
    var instrIndex := 0;
    for i := 0 to |lines|
      invariant (labelMap, instructions) == Collect(lines[..i])
      invariant instrIndex == |instructions|
    {
      CollectStep(lines, i);
      var labels, instr := SplitLabelsAndInstruction(lines[i]);
      labelMap := AddLabels(labelMap, labels, instrIndex * Op.INSTRUCTION_SIZE);
      if instr == [] {
        continue;
      }
      instructions := instructions + [instr];
      instrIndex := instrIndex + 1;
    }
    PrefixAll(lines);
  }

  /** The inner loop: every label of the line bound to addr. */
  method AddLabels(m: map<string, int>, labels: seq<string>, addr: int) returns (r: map<string, int>)
    ensures r == BindLabels(m, labels, addr)
  {
    r := m;
    for j := 0 to |labels|
      invariant r == BindLabels(m, labels[..j], addr)
    {
      BindStep(m, labels, j, addr);
      r := r[labels[j] := addr];
    }
    PrefixAll(labels);
  }

  /** The instruction parts that are not empty, first line first. */
  function Parts(sp: seq<Split>): seq<string>
    decreases |sp|
  {
    if sp == [] then [] else (if sp[0].1 == [] then [] else [sp[0].1]) + Parts(sp[1..])
  }

  lemma {:induction false} PartsAppend(sp: seq<Split>, x: Split)
    ensures Parts(sp + [x]) == Parts(sp) + (if x.1 == [] then [] else [x.1])
    decreases |sp|
  {
    if sp == [] {
      assert [] + [x] == [x];
      assert [x][1..] == [];
    } else {
      assert (sp + [x])[0] == sp[0];
      assert (sp + [x])[1..] == sp[1..] + [x];
      PartsAppend(sp[1..], x);
    }
  }

  /** The instruction lines are the non-empty instruction parts, in order. */
  lemma {:induction false} CollectParts(sp: seq<Split>)
    ensures CollectSplits(sp).1 == Parts(sp)
    decreases |sp|
  {
    if sp != [] {
      var n := |sp| - 1;
      SnocLast(sp);
      CollectParts(sp[..n]);
      PartsAppend(sp[..n], sp[n]);
    }
  }

  predicate CleanInstr(s: string) {
    s != [] && ':' !in s && NoComment(s) && TrimSpace(s) == s
  }

  predicate AllClean(parts: seq<string>) {
    forall k :: 0 <= k < |parts| ==> CleanInstr(parts[k])
  }

  lemma AllCleanConcat(a: seq<string>, b: seq<string>)
    requires AllClean(a) && AllClean(b)
    ensures AllClean(a + b)
  {
    assert forall k :: 0 <= k < |a + b| ==> (a + b)[k] == if k < |a| then a[k] else b[k - |a|];
  }

  /** No instruction line is empty, none holds a ':' or a comment, and each is trimmed. */
  lemma {:induction false} InstructionsClean(lines: seq<string>)
    ensures AllClean(Collect(lines).1)
    decreases |lines|
  {
    if lines != [] {
      var n := |lines| - 1;
      var prev := Collect(lines[..n]).1;
      InstructionsClean(lines[..n]);
      var part := SplitLabels(lines[n]).1;
      var last: seq<string> := if part == [] then [] else [part];
      CollectInstrStep(lines);
      LastClean(lines[n]);
      if part != [] {
        AllCleanOne(part);
      }
      AllCleanConcat(prev, last);
    }
  }

  lemma CollectInstrStep(lines: seq<string>)
    requires lines != []
    ensures var part := SplitLabels(lines[|lines| - 1]).1;
      Collect(lines).1
        == Collect(lines[..|lines| - 1]).1 + (if part == [] then [] else [part])
  {
    var n := |lines| - 1;
    CollectStep(lines, n);
    PrefixAll(lines);
    assert Collect(lines[..n]).1 + [] == Collect(lines[..n]).1;
  }

  lemma LastClean(line: string)
    ensures var part := SplitLabels(line).1;
      part != [] ==> CleanInstr(part)
  {
    SplitLabelsValid(line);
  }

  lemma AllCleanOne(s: string)
    requires CleanInstr(s)
    ensures AllClean([s])
  {
  }

  /** Some line lists label k. */
  predicate Lists(sp: seq<Split>, k: string) {
    exists i :: 0 <= i < |sp| && k in sp[i].0
  }

  lemma {:induction false} ListsSnoc(sp: seq<Split>, k: string)
    requires sp != []
    ensures Lists(sp, k) <==> Lists(sp[..|sp| - 1], k) || k in sp[|sp| - 1].0
  {
    var p := sp[..|sp| - 1];
    if Lists(sp, k) {
      var i :| 0 <= i < |sp| && k in sp[i].0;
      if i < |p| {
        assert p[i] == sp[i];
      }
    }
    if Lists(p, k) {
      var i :| 0 <= i < |p| && k in p[i].0;
      assert sp[i] == p[i];
    }
  }

  /** A label is bound exactly when some line lists it. */
  lemma {:induction false} LabelKeys(sp: seq<Split>, k: string)
    ensures k in CollectSplits(sp).0 <==> Lists(sp, k)
    decreases |sp|
  {
    if sp != [] {
      var n := |sp| - 1;
      var prev := CollectSplits(sp[..n]);
      LabelKeys(sp[..n], k);
      BindLabelsSpec(prev.0, sp[n].0, |prev.1| * Op.INSTRUCTION_SIZE, k);
      ListsSnoc(sp, k);
    }
  }

  /** Line i lists label k and no later line does. */
  predicate LastListing(sp: seq<Split>, k: string, i: int) {
    0 <= i < |sp| && k in sp[i].0 && forall j :: i < j < |sp| ==> k !in sp[j].0
  }

  lemma {:induction false} LastListingPrefix(sp: seq<Split>, k: string, i: int)
    requires LastListing(sp, k, i) && i < |sp| - 1
    ensures LastListing(sp[..|sp| - 1], k, i)
  {
    var p := sp[..|sp| - 1];
    forall j | i <= j < |p| ensures p[j] == sp[j] {
    }
  }

  /** A label is bound to four times the number of instructions on the lines
      before the last line that lists it. */
  lemma {:induction false} LabelAddress(sp: seq<Split>, k: string, i: int)
    requires LastListing(sp, k, i)
    ensures k in CollectSplits(sp).0 && CollectSplits(sp).0[k] == 4 * |Parts(sp[..i])|
    decreases |sp|
  {
    var n := |sp| - 1;
    var p := sp[..n];
    var prev := CollectSplits(p);
    BindLabelsSpec(prev.0, sp[n].0, |prev.1| * Op.INSTRUCTION_SIZE, k);
    if i == n {
      CollectParts(p);
    } else {
      LastListingPrefix(sp, k, i);
      LabelAddress(p, k, i);
      assert p[..i] == sp[..i];
    }
  }

  /** A line holding labels only, with or without a comment, adds no
      instruction and binds its labels to the address of the next one. */
  lemma {:induction false} CollectLabelOnly(lines: seq<string>, ls: seq<string>, comment: string)
    requires ls != [] && LabelNames(ls)
    requires comment == [] || comment[0] in COMMENT_CHARS
    ensures var prev := Collect(lines);
      Collect(lines + [LabelsText(ls) + comment]) == (BindLabels(prev.0, ls, 4 * |prev.1|), prev.1)
  {
    var line := LabelsText(ls) + comment;
    var sp := Splits(lines);
    var prev := Collect(lines);
    SnocPrefix(lines, line);
    assert Splits(lines + [line]) == sp + [SplitLabels(line)];
    SnocPrefix(sp, SplitLabels(line));
    assert Collect(lines + [line]) == CollectLine(prev, SplitLabels(line));
    assert SplitLabels(line) == (ls, []) by {
      SplitLabelOnly(ls, comment);
    }
    LineOfLabels(prev, ls);
  }

  /** Appending any line to the program: its labels, the names written before
      each ':' of its comment-free text, are bound to the address of the next
      instruction; the trimmed text after its last ':' becomes the next
      instruction line unless the comment-free, trimmed line is empty or ends
      with ':'. */
  lemma CollectNextLine(lines: seq<string>, line: string)
    ensures var prev := Collect(lines);
      var code := StripComment(line);
      var t := RemoveCommentAndTrim(line);
      Collect(lines + [line])
        == (BindLabels(prev.0, LabelsOf(code), 4 * |prev.1|),
            if t == [] || t[|t| - 1] == ':' then prev.1 else prev.1 + [TrimSpace(AfterLastColon(code))])
  {
    CollectSnoc(lines, line);
    CollectLineOf(Collect(lines), SplitLabels(line));
    SplitLabelsParts(line);
    SplitInstructionEmpty(line);
  }

  lemma CollectLineOf(prev: (map<string, int>, seq<string>), sp: Split)
    ensures CollectLine(prev, sp)
      == (BindLabels(prev.0, sp.0, 4 * |prev.1|), if sp.1 == [] then prev.1 else prev.1 + [sp.1])
  {
  }

  /** A line whose text before the comment is blank or ends with ':' adds no
      instruction line and binds its labels to the address of the next one. */
  lemma CollectLabelLine(lines: seq<string>, line: string)
    requires var t := RemoveCommentAndTrim(line); t == [] || t[|t| - 1] == ':'
    ensures var prev := Collect(lines);
      Collect(lines + [line]) == (BindLabels(prev.0, LabelsOf(StripComment(line)), 4 * |prev.1|), prev.1)
  {
    CollectNextLine(lines, line);
  }

  lemma CollectSnoc(lines: seq<string>, line: string)
    ensures Collect(lines + [line]) == CollectLine(Collect(lines), SplitLabels(line))
  {
    SnocPrefix(lines, line);
    assert Splits(lines + [line]) == Splits(lines) + [SplitLabels(line)];
    SnocPrefix(Splits(lines), SplitLabels(line));
  }

  lemma LineOfLabels(prev: (map<string, int>, seq<string>), ls: seq<string>)
    ensures CollectLine(prev, (ls, [])) == (BindLabels(prev.0, ls, 4 * |prev.1|), prev.1)
  {
  }

  // ---------------------------------------------------------------------------
  // The second pass of AssembleFile

  /** A failing line: its number, counted from 1, and what went wrong. */
  datatype FileError = FileError(line: nat, cause: AsmError)

  /** Instruction line idx: pseudo-instruction rewrite, label replacement, parse. */
  function AssembleLine(line: string, idx: nat, labels: map<string, int>): Result<Instruction, AsmError> {
    match ReplaceLabel(Preprocess(line), idx, labels)
    case Err(e) => Err(e)
    case Ok(l) =>
      match ParseInstruction(l)
      case Err(e) => Err(Parse(e))
      case Ok(i) => Ok(i)
  }

  /** One pass over the instruction lines read so far, with `step` turning
      line idx into an instruction: the instructions in order, or the first
      failing line counted from 1. */
  function Pass(ins: seq<string>, step: (string, nat) -> Result<Instruction, AsmError>): Result<seq<Instruction>, FileError>
    decreases |ins|
  {
    if ins == [] then Ok([])
    else
      var n := |ins| - 1;
      match Pass(ins[..n], step)
      case Err(e) => Err(e)
      case Ok(p) =>
        match step(ins[n], n)
        case Err(e) => Err(FileError(n + 1, e))
        case Ok(i) => Ok(p + [i])
  }

  /** The second pass with the label map of the first. */
  function AssembleAll(ins: seq<string>, labels: map<string, int>): Result<seq<Instruction>, FileError> {
    Pass(ins, (line: string, idx: nat) => AssembleLine(line, idx, labels))
  }

  /** AssembleFile on the lines of a file. */
  function Assemble(lines: seq<string>): Result<seq<Instruction>, FileError> {
    var c := Collect(lines);
    AssembleAll(c.1, c.0)
  }

  /** An error in a prefix is the error of the whole pass. */
  lemma {:induction false} PassErr(ins: seq<string>, step: (string, nat) -> Result<Instruction, AsmError>, j: nat)
    requires j <= |ins| && Pass(ins[..j], step).Err?
    ensures Pass(ins, step) == Pass(ins[..j], step)
    decreases |ins| - j
  {
    if j < |ins| {
      PrefixStep(ins, j);
      PassErr(ins, step, j + 1);
    } else {
      PrefixAll(ins);
    }
  }

  lemma PassStep(ins: seq<string>, step: (string, nat) -> Result<Instruction, AsmError>, idx: nat)
    requires idx < |ins| && Pass(ins[..idx], step).Ok?
    ensures var p := Pass(ins[..idx], step).value;
      Pass(ins[..idx + 1], step)
        == match step(ins[idx], idx)
           case Err(e) => Err(FileError(idx + 1, e))
           case Ok(i) => Ok(p + [i])
  {
    PrefixStep(ins, idx);
  }

  /** The body of the second pass for instruction line idx. */
  method AssembleOne(line: string, idx: nat, labelMap: map<string, int>) returns (r: Result<Instruction, AsmError>)
    ensures r == AssembleLine(line, idx, labelMap)
  {
    var replaced := ReplaceLabel(Preprocess(line), idx, labelMap);
    if replaced.Err? {
      return Err(replaced.error);
    }
    var instr := ParseInstruction(replaced.value);
    if instr.Err? {
      return Err(Parse(instr.error));
    }
    r := Ok(instr.value);
  }

  /** The second pass as the loop of the source: only a complete program is
      returned, and the first failing line is reported with its number. */
  method AssembleFile(lines: seq<string>) returns (r: Result<seq<Instruction>, FileError>)
    ensures r == Assemble(lines)
  {
    var labelMap, instructions := ParseLabelsAndInstructions(lines);
    ghost var step := (line: string, idx: nat) => AssembleLine(line, idx, labelMap);
    assert Assemble(lines) == Pass(instructions, step);
    var program: seq<Instruction> := [];
    for idx := 0 to |instructions|
      invariant Pass(instructions[..idx], step) == Ok(program)
    {
      PassStep(instructions, step, idx);
      var instr := AssembleOne(instructions[idx], idx, labelMap);
      if instr.Err? {
        PassErr(instructions, step, idx + 1);
        return Err(FileError(idx + 1, instr.error));
      }
      program := program + [instr.value];
    }
    PrefixAll(instructions);
    r := Ok(program);
  }

  /** A pass succeeds exactly when every line does, and then the program is
      those instructions in order; otherwise it reports the first failing
      line, counted from 1, with that line's error. */
  lemma {:induction false} PassSpec(ins: seq<string>, step: (string, nat) -> Result<Instruction, AsmError>)
    ensures var r := Pass(ins, step);
      r.Ok? <==> forall i :: 0 <= i < |ins| ==> step(ins[i], i).Ok?
    ensures var r := Pass(ins, step);
      r.Ok? ==> |r.value| == |ins| && forall i :: 0 <= i < |ins| ==> step(ins[i], i) == Ok(r.value[i])
    ensures var r := Pass(ins, step);
      r.Err? ==> (1 <= r.error.line <= |ins|
        && step(ins[r.error.line - 1], r.error.line - 1) == Err(r.error.cause)
        && forall j :: 0 <= j < r.error.line - 1 ==> step(ins[j], j).Ok?)
    decreases |ins|
  {
    if ins != [] {
      var n := |ins| - 1;
      var p := ins[..n];
      PassSpec(p, step);
      assert forall i :: 0 <= i < n ==> p[i] == ins[i];
    }
  }
}
