/** The operand syntax of the assembler: the six anchored regular expressions
    of the parser, each a sequence of tokens, and the submatch search Go's
    regexp package performs on them.

    A pattern is a list of literal runes and capture groups, where `Num`
    is `(\d+)` and `SNum` is `(-?\d+)`. `Match` reads its subject left to
    right, each group taking the longest run it can; `Render` writes a list
    of captures back into the pattern. On every pattern whose groups are each
    followed by the end or by a non-digit literal (all six are), `Match`
    finds a list of captures exactly when one renders to the subject, and
    then it finds that list: the only submatch the regular expression has. */
module AsmOperands {
  import opened Results
  import opened GoText

  datatype Tok = Lit(c: char) | Num | SNum

  /** The capture groups of a pattern, in order. */
  function Captures(p: seq<Tok>): seq<Tok>
    decreases |p|
  {
    if p == [] then [] else (if p[0].Lit? then [] else [p[0]]) + Captures(p[1..])
  }

  /** The text a capture group accepts. */
  predicate Fits(t: Tok, s: string) {
    match t
    case Lit(_) => false
    case Num => IsDigits(s)
    case SNum => IsSignedDigits(s)
  }

  /** One capture per group, each of the form its group accepts. */
  predicate CapsFit(p: seq<Tok>, caps: seq<string>) {
    |caps| == |Captures(p)| && forall k :: 0 <= k < |caps| ==> Fits(Captures(p)[k], caps[k])
  }

  /** Every group is followed by the end or by a literal that is not a digit. */
  predicate WellFormed(p: seq<Tok>) {
    forall k :: 0 <= k < |p| - 1 && !p[k].Lit? ==> p[k + 1].Lit? && !IsDigit(p[k + 1].c)
  }

  /** The text of a pattern with its groups filled in. */
  function Render(p: seq<Tok>, caps: seq<string>): string
    decreases |p|
  {
    if p == [] then []
    else if p[0].Lit? then [p[0].c] + Render(p[1..], caps)
    else if caps == [] then []
    else caps[0] + Render(p[1..], caps[1..])
  }

  /** The length of the run of ASCII digits s starts with. */
  function DigitRun(s: string): (n: nat)
    ensures n <= |s| && (forall i :: 0 <= i < n ==> IsDigit(s[i])) && (n < |s| ==> !IsDigit(s[n]))
  {
    if s != [] && IsDigit(s[0]) then
      var m := DigitRun(s[1..]);
      assert forall j :: 0 <= j < m ==> s[j + 1] == s[1..][j];
      1 + m
    else 0
  }

  function Prepend(c: string, r: Option<seq<string>>): Option<seq<string>> {
    match r
    case None => None
    case Some(cs) => Some([c] + cs)
  }

  /** FindStringSubmatch of an anchored pattern: the captures, or None. */
  function Match(p: seq<Tok>, s: string): (r: Option<seq<string>>)
    decreases |p|
  {
    if p == [] then (if s == [] then Some([]) else None)
    else match p[0]
      case Lit(c) => if s != [] && s[0] == c then Match(p[1..], s[1..]) else None
      case Num =>
        var n := DigitRun(s);
        if n == 0 then None else Prepend(s[..n], Match(p[1..], s[n..]))
      case SNum =>
        var k := if s != [] && s[0] == '-' then 1 else 0;
        var n := DigitRun(s[k..]);
        if n == 0 then None else Prepend(s[..k + n], Match(p[1..], s[k + n..]))
  }

  // ---------------------------------------------------------------------------
  // Soundness: what Match returns are captures that render to the subject.

  lemma CapsFitCons(p: seq<Tok>, c: string, cs: seq<string>)
    requires p != [] && !p[0].Lit?
    ensures CapsFit(p, [c] + cs) <==> Fits(p[0], c) && CapsFit(p[1..], cs)
  {
    assert Captures(p) == [p[0]] + Captures(p[1..]);
    var caps := [c] + cs;
    if Fits(p[0], c) && CapsFit(p[1..], cs) {
      forall k | 0 <= k < |caps| ensures Fits(Captures(p)[k], caps[k]) {
        if k > 0 {
          assert caps[k] == cs[k - 1];
          assert Captures(p)[k] == Captures(p[1..])[k - 1];
        }
      }
    }
    if CapsFit(p, caps) {
      assert Fits(Captures(p)[0], caps[0]);
      forall k | 0 <= k < |cs| ensures Fits(Captures(p[1..])[k], cs[k]) {
        assert Fits(Captures(p)[k + 1], caps[k + 1]);
      }
    }
  }

  lemma CapsFitLit(p: seq<Tok>, caps: seq<string>)
    requires p != [] && p[0].Lit?
    ensures CapsFit(p, caps) <==> CapsFit(p[1..], caps)
  {
    assert Captures(p) == Captures(p[1..]);
  }

  lemma DigitsSlice(s: string, n: nat)
    requires 0 < n <= |s| && forall i :: 0 <= i < n ==> IsDigit(s[i])
    ensures IsDigits(s[..n])
  {
  }

  lemma SignedSlice(s: string, n: nat)
    requires s != [] && s[0] == '-' && 0 < n < |s|
    requires forall i :: 0 <= i < n ==> IsDigit(s[1..][i])
    ensures IsSignedDigits(s[..1 + n])
  {
    assert s[..1 + n][1..] == s[1..][..n];
  }

  /** One group, then a subject the rest of the pattern matches soundly. */
  lemma SoundGroup(p: seq<Tok>, s: string, j: nat, cs: seq<string>)
    requires p != [] && !p[0].Lit? && 0 < j <= |s|
    requires Fits(p[0], s[..j])
    requires CapsFit(p[1..], cs) && Render(p[1..], cs) == s[j..]
    ensures CapsFit(p, [s[..j]] + cs) && Render(p, [s[..j]] + cs) == s
  {
    CapsFitCons(p, s[..j], cs);
    assert ([s[..j]] + cs)[1..] == cs;
    assert s == s[..j] + s[j..];
  }

  lemma SoundLit(p: seq<Tok>, s: string, cs: seq<string>)
    requires p != [] && p[0].Lit? && s != [] && s[0] == p[0].c
    requires CapsFit(p[1..], cs) && Render(p[1..], cs) == s[1..]
    ensures CapsFit(p, cs) && Render(p, cs) == s
  {
    CapsFitLit(p, cs);
    assert s == [s[0]] + s[1..];
  }

  /** Whatever Match returns fits the groups and renders back to the subject. */
  lemma {:induction false} MatchSound(p: seq<Tok>, s: string)
    requires Match(p, s).Some?
    ensures CapsFit(p, Match(p, s).value)
    ensures Render(p, Match(p, s).value) == s
    decreases |p|
  {
    if p != [] {
      match p[0]
      case Lit(c) => {
        MatchSound(p[1..], s[1..]);
        SoundLit(p, s, Match(p[1..], s[1..]).value);
      }
      case Num => {
        var n := DigitRun(s);
        MatchSound(p[1..], s[n..]);
        DigitsSlice(s, n);
        SoundGroup(p, s, n, Match(p[1..], s[n..]).value);
      }
      case SNum => {
        var k := if s != [] && s[0] == '-' then 1 else 0;
        var n := DigitRun(s[k..]);
        MatchSound(p[1..], s[k + n..]);
        if k == 0 {
          assert s[k..] == s;
          DigitsSlice(s, n);
        } else {
          SignedSlice(s, n);
        }
        SoundGroup(p, s, k + n, Match(p[1..], s[k + n..]).value);
      }
    }
  }

  // ---------------------------------------------------------------------------
  // Completeness: on a well-formed pattern, Match finds every rendering.

  lemma WellFormedTail(p: seq<Tok>)
    requires p != [] && WellFormed(p)
    ensures WellFormed(p[1..])
  {
    forall k | 0 <= k < |p[1..]| - 1 && !p[1..][k].Lit?
      ensures p[1..][k + 1].Lit? && !IsDigit(p[1..][k + 1].c)
    {
      assert p[1..][k] == p[k + 1];
    }
  }

  /** A rendering of a pattern that starts with a literal starts with that literal. */
  lemma RenderLitHead(p: seq<Tok>, caps: seq<string>)
    requires p != [] && p[0].Lit?
    ensures Render(p, caps) != [] && Render(p, caps)[0] == p[0].c
  {
  }

  /** The digits of a capture end where its group does. */
  lemma {:induction false} DigitRunOf(d: string, t: string)
    requires forall i :: 0 <= i < |d| ==> IsDigit(d[i])
    requires t == [] || !IsDigit(t[0])
    ensures DigitRun(d + t) == |d|
    decreases |d|
  {
    if d != [] {
      assert (d + t)[1..] == d[1..] + t;
      DigitRunOf(d[1..], t);
    } else {
      assert d + t == t;
    }
  }

  /** After a group, the rendering goes on with the end or a non-digit. */
  lemma AfterGroup(p: seq<Tok>, caps: seq<string>)
    requires p != [] && !p[0].Lit? && WellFormed(p)
    ensures Render(p[1..], caps) == [] || !IsDigit(Render(p[1..], caps)[0])
  {
    if |p| > 1 {
      assert p[1..][0] == p[1];
      RenderLitHead(p[1..], caps);
    }
  }

  lemma {:induction false} MatchComplete(p: seq<Tok>, caps: seq<string>)
    requires WellFormed(p) && CapsFit(p, caps)
    ensures Match(p, Render(p, caps)) == Some(caps)
    decreases |p|
  {
    if p == [] {
    } else {
      WellFormedTail(p);
      var s := Render(p, caps);
      match p[0]
      case Lit(c) => {
        CapsFitLit(p, caps);
        MatchComplete(p[1..], caps);
        assert s[1..] == Render(p[1..], caps);
      }
      case Num => {
        var c, cs := caps[0], caps[1..];
        assert caps == [c] + cs;
        CapsFitCons(p, c, cs);
        var t := Render(p[1..], cs);
        assert s == c + t;
        AfterGroup(p, cs);
        DigitRunOf(c, t);
        assert s[..|c|] == c && s[|c|..] == t;
        MatchComplete(p[1..], cs);
      }
      case SNum => {
        var c, cs := caps[0], caps[1..];
        assert caps == [c] + cs;
        CapsFitCons(p, c, cs);
        var t := Render(p[1..], cs);
        assert s == c + t;
        AfterGroup(p, cs);
        if c[0] == '-' {
          assert s[0] == '-';
          assert s[1..] == c[1..] + t;
          DigitRunOf(c[1..], t);
          assert s[..1 + |c[1..]|] == c && s[1 + |c[1..]|..] == t;
        } else {
          assert IsDigits(c);
          DigitRunOf(c, t);
          assert s[0..] == s;
          assert s[..|c|] == c && s[|c|..] == t;
        }
        MatchComplete(p[1..], cs);
      }
    }
  }

  /** The subject is the rendering of some fitting captures. */
  ghost predicate Renders(p: seq<Tok>, s: string) {
    exists caps :: CapsFit(p, caps) && Render(p, caps) == s
  }

  /** On a well-formed pattern, Match fails exactly on the text no captures render to. */
  lemma MatchFails(p: seq<Tok>, s: string)
    requires WellFormed(p)
    ensures Match(p, s).None? <==> !Renders(p, s)
  {
    if Match(p, s).Some? {
      MatchSound(p, s);
    }
    if Renders(p, s) {
      var caps :| CapsFit(p, caps) && Render(p, caps) == s;
      MatchComplete(p, caps);
    }
  }
}
