/** The parts of Go's `unicode`, `strings` and `strconv` packages that the
    assembler relies on. A Go string is modelled as its sequence of runes. */
module GoText {
  import opened Results

  // ---------------------------------------------------------------------------
  // unicode.IsSpace

  /** unicode.IsSpace: the Latin-1 spaces '\t', '\n', '\v', '\f', '\r', ' ',
      U+0085 and U+00A0, and the other runes with the White_Space property. */
  predicate IsSpace(c: char) {
    c == '\t' || c == '\n' || c == '\U{000B}' || c == '\U{000C}' || c == '\r' || c == ' '
    || c == '\U{0085}' || c == '\U{00A0}' || c == '\U{1680}' || ('\U{2000}' <= c <= '\U{200A}')
    || c == '\U{2028}' || c == '\U{2029}' || c == '\U{202F}' || c == '\U{205F}' || c == '\U{3000}'
  }

  predicate NoSpace(s: string) { forall i :: 0 <= i < |s| ==> !IsSpace(s[i]) }
  predicate AllSpace(s: string) { forall i :: 0 <= i < |s| ==> IsSpace(s[i]) }

  /** The runes of s that are not spaces, in their original order. */
  function NonSpace(s: string): (r: string)
    ensures NoSpace(r) && |r| <= |s|
  {
    if s == [] then []
    else
      var r := NonSpace(s[1..]);
      if IsSpace(s[0]) then r
      else
        assert forall i :: 0 <= i < 1 + |r| ==> ([s[0]] + r)[i] == if i == 0 then s[0] else r[i - 1];
        [s[0]] + r
  }

  lemma {:induction false} NonSpaceAppend(a: string, b: string)
    ensures NonSpace(a + b) == NonSpace(a) + NonSpace(b)
  {
    if a != [] {
      assert (a + b)[0] == a[0];
      assert (a + b)[1..] == a[1..] + b;
      NonSpaceAppend(a[1..], b);
      if !IsSpace(a[0]) {
        assert [a[0]] + (NonSpace(a[1..]) + NonSpace(b)) == [a[0]] + NonSpace(a[1..]) + NonSpace(b);
      }
    } else {
      assert a + b == b;
    }
  }

  /** Filtering out spaces is the identity exactly on space-free strings. */
  lemma {:induction false} NonSpaceId(s: string)
    ensures NonSpace(s) == s <==> NoSpace(s)
  {
    if s != [] {
      NonSpaceId(s[1..]);
      if IsSpace(s[0]) {
        assert |NonSpace(s)| <= |s[1..]| < |s|;
      }
    }
  }

  /** An all-space string has no runes left. */
  lemma {:induction false} NonSpaceOfSpaces(s: string)
    requires AllSpace(s)
    ensures NonSpace(s) == []
  {
    if s != [] {
      NonSpaceOfSpaces(s[1..]);
    }
  }

  // ---------------------------------------------------------------------------
  // strings.TrimSpace

  /** The length of the run of spaces s starts with. */
  function LeadingSpaces(s: string): (n: nat)
    ensures n <= |s| && AllSpace(s[..n]) && (n < |s| ==> !IsSpace(s[n]))
  {
    if s != [] && IsSpace(s[0]) then
      var m := LeadingSpaces(s[1..]);
      assert forall j :: 0 <= j < m ==> s[..1 + m][j + 1] == s[1..][..m][j];
      1 + m
    else 0
  }

  /** The length of the run of spaces s ends with. */
  function TrailingSpaces(s: string): (n: nat)
    ensures n <= |s| && AllSpace(s[|s| - n..]) && (n < |s| ==> !IsSpace(s[|s| - n - 1]))
  {
    if s != [] && IsSpace(s[|s| - 1]) then
      var p := s[..|s| - 1];
      var m := TrailingSpaces(p);
      assert s[|s| - (1 + m)..] == p[|p| - m..] + [s[|s| - 1]];
      1 + m
    else 0
  }

  /** The two counts are determined by the properties their contracts state. */
  lemma {:induction false} LeadingUnique(s: string, n: nat)
    requires n <= |s| && AllSpace(s[..n]) && (n < |s| ==> !IsSpace(s[n]))
    ensures LeadingSpaces(s) == n
  {
    if n > 0 {
      assert IsSpace(s[..n][0]);
      assert s[1..][..n - 1] == s[..n][1..];
      LeadingUnique(s[1..], n - 1);
    }
  }

  lemma TrailingUnique(s: string, n: nat)
    requires n <= |s| && AllSpace(s[|s| - n..]) && (n < |s| ==> !IsSpace(s[|s| - n - 1]))
    ensures TrailingSpaces(s) == n
  {
  }

  function TrimLeft(s: string): (r: string)
    ensures |r| <= |s| && r == s[|s| - |r|..] && AllSpace(s[..|s| - |r|])
    ensures r == [] || !IsSpace(r[0])
  {
    s[LeadingSpaces(s)..]
  }

  function TrimRight(s: string): (r: string)
    ensures |r| <= |s| && r == s[..|r|] && AllSpace(s[|r|..])
    ensures r == [] || !IsSpace(r[|r| - 1])
  {
    s[..|s| - TrailingSpaces(s)]
  }

  /** strings.TrimSpace: s without its leading and trailing spaces. What is
      left starts and ends with a non-space and is no longer than s. */
  function TrimSpace(s: string): (r: string)
    ensures r == [] || (!IsSpace(r[0]) && !IsSpace(r[|r| - 1]))
    ensures |r| <= |s|
  {
    TrimRight(TrimLeft(s))
  }

  /** TrimSpace leaves nothing exactly when s is all spaces. */
  lemma TrimSpaceEmpty(s: string)
    ensures TrimSpace(s) == [] <==> AllSpace(s)
  {
    TrimBothEmpty(s);
  }

  lemma TrimBothEmpty(s: string)
    ensures TrimRight(TrimLeft(s)) == [] <==> AllSpace(s)
  {
    var t := TrimLeft(s);
    var r := TrimRight(t);
    if r == [] {
      assert t == [];
      assert forall i :: 0 <= i < |s| ==> s[i] == s[..|s|][i];
    } else {
      assert s[|s| - |t|] == t[0];
    }
  }

  /** A rune missing from s is missing from each slice of s. */
  lemma NotInSlice(s: string, i: int, j: int, c: char)
    requires 0 <= i <= j <= |s| && c !in s
    ensures c !in s[i..j]
  {
  }

  /** TrimSpace only removes runes: a rune missing from s is missing from its trim. */
  lemma TrimSpaceKeeps(s: string, c: char)
    requires c !in s
    ensures c !in TrimSpace(s)
  {
    var t := TrimLeft(s);
    NotInSlice(s, |s| - |t|, |s|, c);
    NotInSlice(t, 0, |TrimSpace(s)|, c);
  }

  /** A string that is empty or neither starts nor ends with a space is its own trim. */
  lemma TrimSpaceOf(s: string)
    requires s == [] || (!IsSpace(s[0]) && !IsSpace(s[|s| - 1]))
    ensures TrimSpace(s) == s
  {
    if s != [] {
      LeadingUnique(s, 0);
      TrailingUnique(s, 0);
      assert s[0..] == s;
      assert s[..|s|] == s;
    }
  }

  lemma TrimSpaceIdempotent(s: string)
    ensures TrimSpace(TrimSpace(s)) == TrimSpace(s)
  {
    TrimSpaceOf(TrimSpace(s));
  }

  lemma TrimLeftPad(w: string, x: string)
    requires AllSpace(w)
    ensures TrimLeft(w + x) == TrimLeft(x)
  {
    var s := w + x;
    var n := LeadingSpaces(x);
    assert s[..|w| + n] == w + x[..n];
    assert |w| + n < |s| ==> s[|w| + n] == x[n];
    LeadingUnique(s, |w| + n);
  }

  lemma TrimRightPad(x: string, w: string)
    requires AllSpace(w)
    ensures TrimRight(x + w) == TrimRight(x)
  {
    var s := x + w;
    var n := TrailingSpaces(x);
    assert s[|s| - (n + |w|)..] == x[|x| - n..] + w;
    assert n + |w| < |s| ==> s[|s| - (n + |w|) - 1] == x[|x| - n - 1];
    TrailingUnique(s, n + |w|);
    assert s[..|x| - n] == x[..|x| - n];
  }

  /** An all-space string trims to nothing from either end. */
  lemma {:induction false} TrimAllSpaces(s: string)
    requires LeadingSpaces(s) == |s|
    ensures TrimRight(TrimLeft(s)) == [] && TrimLeft(TrimRight(s)) == []
  {
    assert AllSpace(s) by {
      assert s[..|s|] == s;
    }
    TrailingUnique(s, |s|);
  }

  lemma {:induction false} TrimLeftRight(s: string, l: nat, t: nat)
    requires LeadingSpaces(s) == l && TrailingSpaces(s) == t && l + t < |s|
    ensures TrimRight(TrimLeft(s)) == s[l..|s| - t]
  {
    var x := s[l..];
    assert TrimLeft(s) == x;
    TrailingOfSuffix(s, l, t);
    assert x[..|x| - t] == s[l..|s| - t];
  }

  /** Dropping leading runes that the trailing spaces do not reach keeps their count. */
  lemma {:induction false} TrailingOfSuffix(s: string, l: nat, t: nat)
    requires TrailingSpaces(s) == t && l + t < |s|
    ensures TrailingSpaces(s[l..]) == t
  {
    var x := s[l..];
    assert x[|x| - t..] == s[|s| - t..];
    assert x[|x| - t - 1] == s[|s| - t - 1];
    TrailingUnique(x, t);
  }

  lemma {:induction false} TrimRightLeft(s: string, l: nat, t: nat)
    requires LeadingSpaces(s) == l && TrailingSpaces(s) == t && l + t < |s|
    ensures TrimLeft(TrimRight(s)) == s[l..|s| - t]
  {
    var x := s[..|s| - t];
    assert TrimRight(s) == x;
    assert LeadingSpaces(x) == l by {
      LeadingOfPrefix(s, l, t);
    }
    assert x[l..] == s[l..|s| - t];
  }

  /** Dropping trailing runes that the leading spaces do not reach keeps their count. */
  lemma {:induction false} LeadingOfPrefix(s: string, l: nat, t: nat)
    requires LeadingSpaces(s) == l && l + t < |s|
    ensures LeadingSpaces(s[..|s| - t]) == l
  {
    var x := s[..|s| - t];
    assert x[..l] == s[..l];
    assert x[l] == s[l];
    LeadingUnique(x, l);
  }

  /** Trimming the left end first or the right end first gives the same. */
  lemma TrimCommute(s: string)
    ensures TrimRight(TrimLeft(s)) == TrimLeft(TrimRight(s))
  {
    var l := LeadingSpaces(s);
    var t := TrailingSpaces(s);
    if l == |s| {
      TrimAllSpaces(s);
    } else {
      assert l + t < |s|;
      TrimLeftRight(s, l, t);
      TrimRightLeft(s, l, t);
    }
  }

  /** Spaces added around a string do not survive TrimSpace. */
  lemma TrimSpacePad(w1: string, s: string, w2: string)
    requires AllSpace(w1) && AllSpace(w2)
    ensures TrimSpace(w1 + s + w2) == TrimSpace(s)
  {
    assert w1 + s + w2 == w1 + (s + w2);
    TrimLeftPad(w1, s + w2);
    TrimCommute(s + w2);
    TrimRightPad(s, w2);
    TrimCommute(s);
  }

  lemma TrimSpacePadLeft(w: string, s: string)
    requires AllSpace(w)
    ensures TrimSpace(w + s) == TrimSpace(s)
  {
    TrimLeftPad(w, s);
  }

  lemma TrimSpacePadRight(s: string, w: string)
    requires AllSpace(w)
    ensures TrimSpace(s + w) == TrimSpace(s)
  {
    TrimCommute(s + w);
    TrimRightPad(s, w);
    TrimCommute(s);
  }

  /** s is its TrimLeft with the removed spaces in front of it. */
  lemma TrimLeftPart(s: string) returns (w: string)
    ensures AllSpace(w) && s == w + TrimLeft(s)
  {
    w := s[..|s| - |TrimLeft(s)|];
    assert s == s[..|s| - |TrimLeft(s)|] + s[|s| - |TrimLeft(s)|..];
  }

  /** s is its TrimRight with the removed spaces after it. */
  lemma TrimRightPart(s: string) returns (w: string)
    ensures AllSpace(w) && s == TrimRight(s) + w
  {
    w := s[|TrimRight(s)|..];
    assert s == s[..|TrimRight(s)|] + s[|TrimRight(s)|..];
  }

  // ---------------------------------------------------------------------------
  // strings.IndexAny, strings.Index and strings.HasPrefix for one rune

  /** The index of the first rune of s that is in chars, or -1. */
  function IndexAny(s: string, chars: string): (r: int)
    ensures -1 <= r < |s|
    ensures r >= 0 ==> s[r] in chars && forall k :: 0 <= k < r ==> s[k] !in chars
    ensures r == -1 <==> forall k :: 0 <= k < |s| ==> s[k] !in chars
  {
    if s == [] then -1
    else if s[0] in chars then 0
    else
      var r := IndexAny(s[1..], chars);
      assert forall j :: 0 <= j < |s| - 1 ==> s[j + 1] == s[1..][j];
      if r == -1 then -1 else r + 1
  }

  /** strings.Index with a one-rune separator. */
  function Index(s: string, c: char): (r: int)
    ensures -1 <= r < |s|
    ensures r >= 0 ==> s[r] == c && c !in s[..r]
    ensures r == -1 <==> c !in s
  {
    var r := IndexAny(s, [c]);
    assert r >= 0 ==> forall k :: 0 <= k < r ==> s[..r][k] == s[k];
    r
  }

  /** The first occurrence of c is the only index that Index can give. */
  lemma IndexUnique(s: string, c: char, i: int)
    requires 0 <= i < |s| && s[i] == c && c !in s[..i]
    ensures Index(s, c) == i
  {
    assert c in s by {
      assert s[i] == c;
    }
  }

  // ---------------------------------------------------------------------------
  // strings.Fields and strings.Join

  /** The length of the run of non-spaces s starts with. */
  function WordLen(s: string): (n: nat)
    ensures n <= |s| && NoSpace(s[..n]) && (n < |s| ==> IsSpace(s[n]))
  {
    if s != [] && !IsSpace(s[0]) then
      var m := WordLen(s[1..]);
      assert forall j :: 0 <= j < m ==> s[..1 + m][j + 1] == s[1..][..m][j];
      1 + m
    else 0
  }

  lemma {:induction false} WordLenUnique(s: string, n: nat)
    requires n <= |s| && NoSpace(s[..n]) && (n < |s| ==> IsSpace(s[n]))
    ensures WordLen(s) == n
  {
    if n > 0 {
      assert !IsSpace(s[..n][0]);
      assert s[1..][..n - 1] == s[..n][1..];
      WordLenUnique(s[1..], n - 1);
    }
  }

  /** strings.Fields: the maximal runs of non-spaces, left to right. */
  function Fields(s: string): (r: seq<string>)
    ensures forall k :: 0 <= k < |r| ==> r[k] != [] && NoSpace(r[k])
    decreases |s|
  {
    var t := TrimLeft(s);
    if t == [] then [] else
      var n := WordLen(t);
      [t[..n]] + Fields(t[n..])
  }

  /** strings.Join. */
  function Join(parts: seq<string>, sep: string): string {
    if parts == [] then []
    else if |parts| == 1 then parts[0]
    else parts[0] + sep + Join(parts[1..], sep)
  }

  /** Leading spaces do not change the fields. */
  lemma FieldsAfterSpaces(w: string, s: string)
    requires AllSpace(w)
    ensures Fields(w + s) == Fields(s)
  {
    var x := w + s;
    var n := LeadingSpaces(s);
    assert x[..|w| + n] == w + s[..n];
    assert forall i :: 0 <= i < |w| + n ==> IsSpace((w + s[..n])[i]);
    assert |w| + n < |x| ==> x[|w| + n] == s[n];
    LeadingUnique(x, |w| + n);
    assert TrimLeft(x) == TrimLeft(s);
  }

  /** A non-empty space-free prefix followed by a space or nothing is the first field. */
  lemma FieldsCons(f: string, rest: string)
    requires f != [] && NoSpace(f) && (rest == [] || IsSpace(rest[0]))
    ensures Fields(f + rest) == [f] + Fields(rest)
  {
    var s := f + rest;
    LeadingUnique(s, 0);
    assert s[0..] == s;
    assert s[..|f|] == f;
    WordLenUnique(s, |f|);
    assert s[|f|..] == rest;
  }

  /** A field, one space, then the rest. */
  lemma FieldsSpaced(f: string, tail: string)
    requires f != [] && NoSpace(f)
    ensures Fields(f + (" " + tail)) == [f] + Fields(tail)
  {
    FieldsCons(f, " " + tail);
    FieldsAfterSpaces(" ", tail);
  }

  /** Joining non-empty, space-free parts with single spaces and splitting the
      result into fields gives the parts back. */
  lemma {:induction false} FieldsJoin(fs: seq<string>)
    requires forall k :: 0 <= k < |fs| ==> fs[k] != [] && NoSpace(fs[k])
    ensures Fields(Join(fs, " ")) == fs
  {
    if |fs| == 1 {
      var f := fs[0];
      assert f + [] == f;
      FieldsCons(f, []);
    } else if |fs| > 1 {
      var rest := fs[1..];
      assert forall k :: 0 <= k < |rest| ==> rest[k] != [] && NoSpace(rest[k]) by {
        forall k | 0 <= k < |rest| ensures rest[k] != [] && NoSpace(rest[k]) {
          assert rest[k] == fs[k + 1];
        }
      }
      FieldsJoin(rest);
      FieldsJoinStep(fs);
    }
  }

  lemma FieldsJoinStep(fs: seq<string>)
    requires |fs| > 1 && fs[0] != [] && NoSpace(fs[0])
    requires Fields(Join(fs[1..], " ")) == fs[1..]
    ensures Fields(Join(fs, " ")) == fs
  {
    var tail := Join(fs[1..], " ");
    assert Join(fs, " ") == fs[0] + (" " + tail);
    FieldsSpaced(fs[0], tail);
    assert fs == [fs[0]] + fs[1..];
  }

  lemma JoinConsEmpty(w: string, fs: seq<string>)
    ensures Join([w] + fs, "") == w + Join(fs, "")
  {
    if fs == [] {
      assert [w] + fs == [w];
      assert w + [] == w;
    } else {
      assert ([w] + fs)[1..] == fs;
    }
  }

  /** Gluing the fields of s back together leaves exactly its non-space runes. */
  lemma {:induction false} JoinFields(s: string)
    ensures Join(Fields(s), "") == NonSpace(s)
    decreases |s|
  {
    var t := TrimLeft(s);
    var lead := s[..|s| - |t|];
    assert s == lead + t;
    NonSpaceAppend(lead, t);
    NonSpaceOfSpaces(lead);
    if t != [] {
      var n := WordLen(t);
      var w := t[..n];
      assert t == w + t[n..];
      NonSpaceAppend(w, t[n..]);
      NonSpaceId(w);
      JoinConsEmpty(w, Fields(t[n..]));
      JoinFields(t[n..]);
    }
  }

  /** A string has no fields exactly when it is all spaces. */
  lemma FieldsEmpty(s: string)
    ensures Fields(s) == [] <==> AllSpace(s)
  {
    var t := TrimLeft(s);
    if t == [] {
      assert s[..|s|] == s;
    } else {
      assert s[|s| - |t|] == t[0];
    }
  }

  lemma JoinHead(fs: seq<string>, sep: string)
    requires fs != [] && fs[0] != []
    ensures Join(fs, sep) != [] && Join(fs, sep)[0] == fs[0][0]
  {
  }

  lemma {:induction false} JoinLast(fs: seq<string>, sep: string)
    requires fs != [] && fs[|fs| - 1] != []
    ensures var j := Join(fs, sep); j != [] && j[|j| - 1] == fs[|fs| - 1][|fs[|fs| - 1]| - 1]
  {
    if |fs| > 1 {
      assert fs[1..][|fs[1..]| - 1] == fs[|fs| - 1];
      JoinLast(fs[1..], sep);
    }
  }

  /** Joining space-free parts with a space-free separator gives a space-free string. */
  lemma {:induction false} JoinNoSpace(fs: seq<string>, sep: string)
    requires NoSpace(sep) && forall k :: 0 <= k < |fs| ==> NoSpace(fs[k])
    ensures NoSpace(Join(fs, sep))
  {
    if |fs| > 1 {
      assert forall k :: 0 <= k < |fs[1..]| ==> fs[1..][k] == fs[k + 1];
      JoinNoSpace(fs[1..], sep);
      var j := Join(fs[1..], sep);
      assert forall i :: 0 <= i < |fs[0] + sep + j| ==>
        (fs[0] + sep + j)[i] == if i < |fs[0]| then fs[0][i] else if i < |fs[0]| + |sep| then sep[i - |fs[0]|] else j[i - |fs[0]| - |sep|];
    }
  }

  /** A rune that is in neither the parts nor the separator is not in their join. */
  lemma {:induction false} JoinAvoids(fs: seq<string>, sep: string, c: char)
    requires c !in sep && forall k :: 0 <= k < |fs| ==> c !in fs[k]
    ensures c !in Join(fs, sep)
  {
    if |fs| > 1 {
      assert forall k :: 0 <= k < |fs[1..]| ==> fs[1..][k] == fs[k + 1];
      JoinAvoids(fs[1..], sep, c);
    }
  }

  // ---------------------------------------------------------------------------
  // Decimal numbers: strconv.ParseInt, strconv.ParseUint, strconv.Atoi and
  // fmt's %d verb.

  predicate IsDigit(c: char) { '0' <= c <= '9' }

  /** One or more decimal digits: the regular expression `\d+`, whose `\d` is ASCII only. */
  predicate IsDigits(s: string) { s != [] && forall i :: 0 <= i < |s| ==> IsDigit(s[i]) }

  /** An optional minus sign, then digits: the regular expression `-?\d+`. */
  predicate IsSignedDigits(s: string) {
    IsDigits(s) || (|s| >= 2 && s[0] == '-' && IsDigits(s[1..]))
  }

  function DigitVal(c: char): (d: nat)
    requires IsDigit(c)
    ensures d < 10
  {
    (c as int) - ('0' as int)
  }

  function DigitChar(d: nat): (c: char)
    requires d < 10
    ensures IsDigit(c) && DigitVal(c) == d
  {
    ('0' as int + d) as char
  }

  /** The value of a run of digits, most significant first. */
  function DecVal(s: string): nat
    requires forall i :: 0 <= i < |s| ==> IsDigit(s[i])
  {
    if s == [] then 0 else DecVal(s[..|s| - 1]) * 10 + DigitVal(s[|s| - 1])
  }

  /** The value of a string matching `-?\d+`. */
  function SignedVal(s: string): int
    requires IsSignedDigits(s)
  {
    if s[0] == '-' then -(DecVal(s[1..]) as int) else DecVal(s)
  }

  /** The decimal digits of n, without leading zeros. */
  function NatStr(n: nat): (s: string)
    ensures IsDigits(s) && NoSpace(s)
  {
    if n < 10 then [DigitChar(n)] else NatStr(n / 10) + [DigitChar(n % 10)]
  }

  /** fmt.Sprintf("%d", v). */
  function IntStr(v: int): (s: string)
    ensures s != [] && NoSpace(s)
  {
    if v < 0 then "-" + NatStr(-v) else NatStr(v)
  }

  lemma {:induction false} DecValNatStr(n: nat)
    ensures DecVal(NatStr(n)) == n
  {
    if n >= 10 {
      var s := NatStr(n);
      assert s[..|s| - 1] == NatStr(n / 10);
      DecValNatStr(n / 10);
    }
  }

  /** Formatting with %d and reading back `-?\d+` gives the number again. */
  lemma IntStrRoundTrip(v: int)
    ensures IsSignedDigits(IntStr(v)) && SignedVal(IntStr(v)) == v
  {
    if v < 0 {
      assert IntStr(v)[1..] == NatStr(-v);
      DecValNatStr(-v);
    } else {
      DecValNatStr(v);
    }
  }

  /** The value of a formatted number never starts with a minus sign unless it is negative. */
  lemma IntStrSign(v: int)
    ensures IntStr(v)[0] == '-' <==> v < 0
  {
    if v >= 0 {
      assert IsDigit(NatStr(v)[0]);
    }
  }

  const INT32_MIN: int := -0x8000_0000
  const INT32_MAX: int := 0x7FFF_FFFF
  const UINT32_MAX: int := 0xFFFF_FFFF
  const INT64_MIN: int := -0x8000_0000_0000_0000
  const INT64_MAX: int := 0x7FFF_FFFF_FFFF_FFFF

  /** strconv.ParseInt(s, 10, 32) on a string matching `-?\d+`, with the range
      error ignored: a value outside int32 saturates to the nearer bound. */
  function ParseInt32(s: string): (v: int)
    requires IsSignedDigits(s)
    ensures INT32_MIN <= v <= INT32_MAX
    ensures INT32_MIN <= SignedVal(s) <= INT32_MAX ==> v == SignedVal(s)
    ensures SignedVal(s) > INT32_MAX ==> v == INT32_MAX
    ensures SignedVal(s) < INT32_MIN ==> v == INT32_MIN
  {
    var x := SignedVal(s);
    if x < INT32_MIN then INT32_MIN else if x > INT32_MAX then INT32_MAX else x
  }

  /** strconv.ParseUint(s, 10, 32) on digits, with the range error ignored:
      a value above 2^32 - 1 saturates to it. */
  function ParseUint32(s: string): (v: nat)
    requires IsDigits(s)
    ensures v <= UINT32_MAX
    ensures DecVal(s) <= UINT32_MAX ==> v == DecVal(s)
    ensures DecVal(s) > UINT32_MAX ==> v == UINT32_MAX
  {
    if DecVal(s) > UINT32_MAX then UINT32_MAX else DecVal(s)
  }

  /** strconv.Atoi: an optional sign, then digits, with a value that fits int64. */
  function Atoi(s: string): (r: Option<int>)
    ensures r.Some? ==> INT64_MIN <= r.value <= INT64_MAX
    ensures r.Some? ==> IsDigits(s) || (|s| >= 2 && s[0] in "+-" && IsDigits(s[1..]))
  {
    if IsDigits(s) then
      if DecVal(s) <= INT64_MAX then Some(DecVal(s)) else None
    else if |s| >= 2 && s[0] in "+-" && IsDigits(s[1..]) then
      var v := if s[0] == '-' then -(DecVal(s[1..]) as int) else DecVal(s[1..]);
      if INT64_MIN <= v <= INT64_MAX then Some(v) else None
    else None
  }

  /** Atoi reads back every int64 formatted with %d. */
  lemma AtoiIntStr(v: int)
    requires INT64_MIN <= v <= INT64_MAX
    ensures Atoi(IntStr(v)) == Some(v)
  {
    IntStrRoundTrip(v);
    if v < 0 {
      assert !IsDigit(IntStr(v)[0]);
    }
  }
}
