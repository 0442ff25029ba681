/**
  Python's `str` operations as the core uses them, on ASCII text:
  `strip`, `split()[0]`, `startswith`, `find`, `sep.join`, `s.split(sep)` and
  case-insensitive containment.

  The functions carry only their cheap facts; what they mean is stated by the
  `...Spec` lemmas below them, which callers invoke where they need it.
 */
module Text {
  import opened Wrappers

  /** Python's `str.isspace` restricted to ASCII: \t \n \v \f \r (9 to 13),
      the four information separators \x1c..\x1f and the space (28 to 32). */
  predicate IsSpace(c: char) {
    ('\t' <= c <= '\r') || ('\U{001c}' <= c <= ' ')
  }

  predicate AllSpace(s: string) {
    forall i :: 0 <= i < |s| ==> IsSpace(s[i])
  }

  predicate NoSpace(s: string) {
    forall i :: 0 <= i < |s| ==> !IsSpace(s[i])
  }

  /** `s.lstrip()` */
  function StripLeft(s: string): string {
    if |s| > 0 && IsSpace(s[0]) then StripLeft(s[1..]) else s
  }

  /** `s.rstrip()` */
  function StripRight(s: string): string {
    if |s| > 0 && IsSpace(s[|s| - 1]) then StripRight(s[..|s| - 1]) else s
  }

  /** `s.strip()` */
  function Strip(s: string): string {
    StripRight(StripLeft(s))
  }

  /** The leading run of non-space characters. */
  function TakeWord(s: string): string {
    if s == [] || IsSpace(s[0]) then [] else [s[0]] + TakeWord(s[1..])
  }

  /** `s.split()[0]` when the split is not empty, `None` when it is. */
  function FirstToken(s: string): Option<string> {
    var t := StripLeft(s);
    if t == [] then None else Some(TakeWord(t))
  }

  lemma {:induction false} StripLeftSpec(s: string)
    ensures |StripLeft(s)| <= |s| && StripLeft(s) == s[|s| - |StripLeft(s)|..]
    ensures AllSpace(s[..|s| - |StripLeft(s)|])
    ensures StripLeft(s) == [] || !IsSpace(StripLeft(s)[0])
    decreases |s|
  {
    if |s| > 0 && IsSpace(s[0]) {
      StripLeftSpec(s[1..]);
      var r := StripLeft(s);
      assert s[..|s| - |r|] == [s[0]] + s[1..][..|s[1..]| - |r|];
    }
  }

  lemma {:induction false} StripRightSpec(s: string)
    ensures |StripRight(s)| <= |s| && StripRight(s) == s[..|StripRight(s)|]
    ensures AllSpace(s[|StripRight(s)|..])
    ensures StripRight(s) == [] || !IsSpace(StripRight(s)[|StripRight(s)| - 1])
    decreases |s|
  {
    if |s| > 0 && IsSpace(s[|s| - 1]) {
      var t := s[..|s| - 1];
      StripRightSpec(t);
      var r := StripRight(s);
      assert s[|r|..] == t[|r|..] + [s[|s| - 1]];
    }
  }

  lemma {:induction false} TakeWordSpec(s: string)
    ensures |TakeWord(s)| <= |s| && TakeWord(s) == s[..|TakeWord(s)|] && NoSpace(TakeWord(s))
    ensures |TakeWord(s)| == |s| || IsSpace(s[|TakeWord(s)|])
    decreases |s|
  {
    if s != [] && !IsSpace(s[0]) {
      TakeWordSpec(s[1..]);
    }
  }

  /** The first token exists exactly when the text is not all blank, and it
      is a non-empty run of non-space characters. */
  lemma FirstTokenSpec(s: string)
    ensures FirstToken(s).None? <==> AllSpace(s)
    ensures FirstToken(s).Some? ==> |FirstToken(s).value| > 0 && NoSpace(FirstToken(s).value)
  {
    StripLeftSpec(s);
    var t := StripLeft(s);
    if t == [] {
      assert s == s[..|s|];
    } else {
      TakeWordSpec(t);
      assert !IsSpace(s[|s| - |t|]);
    }
  }

  predicate StartsWith(s: string, prefix: string) {
    |prefix| <= |s| && s[..|prefix|] == prefix
  }

  predicate EndsWith(s: string, suffix: string) {
    |suffix| <= |s| && s[|s| - |suffix|..] == suffix
  }

  predicate OccursAt(s: string, p: string, i: int) {
    0 <= i && i + |p| <= |s| && s[i..i + |p|] == p
  }

  /** `s.find(p)`: the first index at which `p` occurs in `s`, or -1. */
  function Find(s: string, p: string): (r: int)
    ensures -1 <= r <= |s|
    ensures r >= 0 ==> OccursAt(s, p, r)
  {
    FindFrom(s, p, 0)
  }

  function FindFrom(s: string, p: string, i: nat): (r: int)
    requires i <= |s|
    ensures r == -1 || (i <= r <= |s| && OccursAt(s, p, r))
    decreases |s| - i
  {
    if OccursAt(s, p, i) then i
    else if i == |s| then -1
    else FindFrom(s, p, i + 1)
  }

  lemma {:induction false} FindFromSpec(s: string, p: string, i: nat)
    requires i <= |s|
    requires forall j :: 0 <= j < i ==> !OccursAt(s, p, j)
    ensures FindFrom(s, p, i) >= 0 ==> OccursAt(s, p, FindFrom(s, p, i))
    ensures forall j :: 0 <= j < FindFrom(s, p, i) ==> !OccursAt(s, p, j)
    ensures FindFrom(s, p, i) == -1 ==> forall j :: 0 <= j <= |s| ==> !OccursAt(s, p, j)
    decreases |s| - i
  {
    if !OccursAt(s, p, i) && i < |s| {
      FindFromSpec(s, p, i + 1);
    }
  }

  /** `find` gives the first occurrence, and -1 exactly when there is none. */
  lemma FindSpec(s: string, p: string)
    ensures Find(s, p) >= 0 ==> OccursAt(s, p, Find(s, p))
    ensures forall j :: 0 <= j < Find(s, p) ==> !OccursAt(s, p, j)
    ensures Find(s, p) == -1 ==> forall j :: 0 <= j <= |s| ==> !OccursAt(s, p, j)
  {
    FindFromSpec(s, p, 0);
  }

  /** `sep.join(parts)` */
  function Join(parts: seq<string>, sep: string): string {
    if |parts| == 0 then []
    else if |parts| == 1 then parts[0]
    else parts[0] + sep + Join(parts[1..], sep)
  }

  /** `s.split(sep)` for a non-empty separator. */
  function Split(s: string, sep: string): (r: seq<string>)
    requires |sep| > 0
    ensures |r| > 0
    decreases |s|
  {
    var i := Find(s, sep);
    if i < 0 then [s] else [s[..i]] + Split(s[i + |sep|..], sep)
  }

  /** Splitting then joining with the same separator gives back the text. */
  lemma {:induction false} JoinSplit(s: string, sep: string)
    requires |sep| > 0
    ensures Join(Split(s, sep), sep) == s
    decreases |s|
  {
    var i := Find(s, sep);
    if i >= 0 {
      FindSpec(s, sep);
      var rest := s[i + |sep|..];
      JoinSplit(rest, sep);
      assert Split(s, sep) == [s[..i]] + Split(rest, sep);
      assert s == s[..i] + sep + rest;
    }
  }

  /** Joining then splitting gives back the parts, provided no part contains
      the separator's first character. */
  lemma {:induction false} SplitJoin(parts: seq<string>, sep: string)
    requires |sep| > 0 && |parts| > 0
    requires forall k :: 0 <= k < |parts| ==> sep[0] !in parts[k]
    ensures Split(Join(parts, sep), sep) == parts
  {
    var p := parts[0];
    if |parts| == 1 {
      assert Join(parts, sep) == p;
      NoOccurrence(p, sep);
      assert Split(p, sep) == [p];
    } else {
      var rest := Join(parts[1..], sep);
      var s := p + sep + rest;
      assert Join(parts, sep) == s;
      FirstOccurrenceAfter(p, sep, rest);
      assert s[..|p|] == p;
      assert s[|p| + |sep|..] == rest;
      assert Split(s, sep) == [p] + Split(rest, sep);
      SplitJoin(parts[1..], sep);
      assert parts == [p] + parts[1..];
    }
  }

  lemma NoOccurrence(p: string, sep: string)
    requires |sep| > 0 && sep[0] !in p
    ensures Find(p, sep) == -1
  {
    FindSpec(p, sep);
  }

  lemma FirstOccurrenceAfter(p: string, sep: string, rest: string)
    requires |sep| > 0 && sep[0] !in p
    ensures Find(p + sep + rest, sep) == |p|
  {
    var s := p + sep + rest;
    FindSpec(s, sep);
    assert OccursAt(s, sep, |p|) by { assert s[|p|..|p| + |sep|] == sep; }
  }

  /** ASCII `str.lower` of one character. */
  function Lower(c: char): (r: char)
    ensures 'A' <= c <= 'Z' ==> r as int == c as int + 32
    ensures !('A' <= c <= 'Z') ==> r == c
  {
    if 'A' <= c <= 'Z' then (c as int + 32) as char else c
  }

  function LowerAll(s: string): (r: string)
    ensures |r| == |s|
  {
    if s == [] then [] else [Lower(s[0])] + LowerAll(s[1..])
  }

  /** `needle` occurs in `hay` ignoring ASCII letter case. */
  predicate ContainsIgnoreCase(hay: string, needle: string) {
    Find(LowerAll(hay), LowerAll(needle)) >= 0
  }

  /** The empty needle is found in every text. */
  lemma ContainsIgnoreCaseEmpty(hay: string)
    ensures ContainsIgnoreCase(hay, "")
  {
    assert OccursAt(LowerAll(hay), LowerAll(""), 0);
  }

  /** Concatenation of the stripped pieces: `''.join(p.strip() for p in pieces)`. */
  function StripJoin(pieces: seq<string>): string {
    if pieces == [] then [] else Strip(pieces[0]) + StripJoin(pieces[1..])
  }

  lemma {:induction false} StripJoinAppend(a: seq<string>, b: seq<string>)
    ensures StripJoin(a + b) == StripJoin(a) + StripJoin(b)
    decreases |a|
  {
    if a == [] {
      assert a + b == b;
    } else {
      var ab := a + b;
      assert ab[0] == a[0];
      assert ab[1..] == a[1..] + b;
      StripJoinAppend(a[1..], b);
    }
  }

  // ---------------------------------------------------------------------
  // Facts about stripping that the FASTA readers rely on.

  /** A trailing line break makes no difference to `strip`. */
  lemma StripNewline(t: string)
    ensures Strip(t + "\n") == Strip(t)
  {
    if StripLeft(t) == [] {
      StripLeftAllSpace(t);
      assert AllSpace(t + "\n");
      StripLeftAllSpace(t + "\n");
    } else {
      StripLeftAppend(t, "\n");
      var l := StripLeft(t);
      assert (l + "\n")[..|l + "\n"| - 1] == l;
    }
  }

  /** `lstrip` empties exactly the all-blank texts. */
  lemma {:induction false} StripLeftAllSpace(s: string)
    ensures StripLeft(s) == [] <==> AllSpace(s)
    decreases |s|
  {
    if |s| > 0 && IsSpace(s[0]) {
      StripLeftAllSpace(s[1..]);
      assert AllSpace(s) <==> AllSpace(s[1..]) by {
        if AllSpace(s[1..]) {
          forall i | 0 <= i < |s| ensures IsSpace(s[i]) {
            if i > 0 { assert s[i] == s[1..][i - 1]; }
          }
        }
      }
    }
  }

  lemma {:induction false} StripLeftAppend(a: string, b: string)
    requires StripLeft(a) != []
    ensures StripLeft(a + b) == StripLeft(a) + b
    decreases |a|
  {
    if |a| > 0 && IsSpace(a[0]) {
      assert (a + b)[1..] == a[1..] + b;
      StripLeftAppend(a[1..], b);
    }
  }

  /** Stripping the right end keeps the first word. */
  lemma {:induction false} TakeWordStripRight(s: string)
    ensures TakeWord(StripRight(s)) == TakeWord(s)
    decreases |s|
  {
    if s != [] {
      if IsSpace(s[0]) {
        StripRightSpec(s);
        var r := StripRight(s);
        assert r == [] || r[0] == s[0];
      } else {
        StripRightCons(s[0], s[1..]);
        assert s == [s[0]] + s[1..];
        TakeWordStripRight(s[1..]);
        assert ([s[0]] + StripRight(s[1..]))[1..] == StripRight(s[1..]);
      }
    }
  }

  /** `StripRight` of a text that starts with a non-space character. */
  lemma {:induction false} StripRightCons(a: char, z: string)
    requires !IsSpace(a)
    ensures StripRight([a] + z) == [a] + StripRight(z)
    decreases |z|
  {
    var s := [a] + z;
    if |z| > 0 && IsSpace(z[|z| - 1]) {
      assert s[..|s| - 1] == [a] + z[..|z| - 1];
      StripRightCons(a, z[..|z| - 1]);
    }
  }

  /** `strip` before taking the first token changes nothing. */
  lemma {:induction false} FirstTokenStripRight(s: string)
    ensures FirstToken(StripRight(s)) == FirstToken(s)
    decreases |s|
  {
    if s != [] {
      if IsSpace(s[0]) {
        if AllSpace(s) {
          StripRightSpec(s);
          var r := StripRight(s);
          assert r == [];
          StripLeftAllSpace(r);
          StripLeftAllSpace(s);
        } else {
          assert !AllSpace(s[1..]) by {
            var k :| 0 <= k < |s| && !IsSpace(s[k]);
            assert s[1..][k - 1] == s[k];
          }
          StripRightConsSpace(s[0], s[1..]);
          assert s == [s[0]] + s[1..];
          assert StripLeft([s[0]] + StripRight(s[1..])) == StripLeft(StripRight(s[1..])) by {
            assert ([s[0]] + StripRight(s[1..]))[1..] == StripRight(s[1..]);
          }
          FirstTokenStripRight(s[1..]);
        }
      } else {
        StripRightCons(s[0], s[1..]);
        assert s == [s[0]] + s[1..];
        TakeWordStripRight(s);
      }
    }
  }

  lemma {:induction false} StripRightConsSpace(a: char, z: string)
    requires !AllSpace(z)
    ensures StripRight([a] + z) == [a] + StripRight(z)
    decreases |z|
  {
    var s := [a] + z;
    if |z| > 0 && IsSpace(z[|z| - 1]) {
      assert s[..|s| - 1] == [a] + z[..|z| - 1];
      assert !AllSpace(z[..|z| - 1]) by {
        var k :| 0 <= k < |z| && !IsSpace(z[k]);
        assert k < |z| - 1;
        assert z[..|z| - 1][k] == z[k];
      }
      StripRightConsSpace(a, z[..|z| - 1]);
    }
  }

  /** `(">" + rest).strip()` keeps the marker and strips `rest` on the right. */
  lemma StripMarked(c: char, rest: string)
    requires !IsSpace(c)
    ensures Strip([c] + rest) == [c] + StripRight(rest)
  {
    assert StripLeft([c] + rest) == [c] + rest;
    StripRightCons(c, rest);
  }

  /** Stripping keeps only characters of the text. */
  lemma StripWithin(s: string)
    ensures forall c :: c in Strip(s) ==> c in s
  {
    StripLeftSpec(s);
    StripRightSpec(StripLeft(s));
  }
}
