/**
 * The handful of Python string operations the application relies on:
 * `str.strip()` (whitespace trimming), the blank test `not s.strip()`,
 * and `str.split("\n")`.
 */
module Text {

  /** The characters Python's `str.isspace` (and so `str.strip()`) treats as whitespace. */
  predicate IsSpace(c: char) {
    ('\t' <= c <= '\r') || ('\U{1C}' <= c <= '\U{1F}') || c == ' '
    || c == '\U{85}' || c == '\U{A0}' || c == '\U{1680}'
    || ('\U{2000}' <= c <= '\U{200A}') || c == '\U{2028}' || c == '\U{2029}'
    || c == '\U{202F}' || c == '\U{205F}' || c == '\U{3000}'
  }

  /** Every character of `s` is whitespace (the empty string included). */
  predicate IsBlank(s: string) {
    forall i :: 0 <= i < |s| ==> IsSpace(s[i])
  }

  /** `s.lstrip()`: the longest suffix of `s` that does not start with whitespace. */
  function TrimStart(s: string): (r: string)
    ensures |r| <= |s| && r == s[|s| - |r|..]
    ensures IsBlank(s[..|s| - |r|])
    ensures r == [] || !IsSpace(r[0])
  {
    if |s| > 0 && IsSpace(s[0]) then
      var r := TrimStart(s[1..]);
      assert s[1..][..|s[1..]| - |r|] == s[1..|s| - |r|];
      r
    else s
  }

  /** `s.rstrip()`: the longest prefix of `s` that does not end with whitespace. */
  function TrimEnd(s: string): (r: string)
    ensures |r| <= |s| && r == s[..|r|]
    ensures IsBlank(s[|r|..])
    ensures r == [] || !IsSpace(r[|r| - 1])
  {
    if |s| > 0 && IsSpace(s[|s| - 1]) then
      var t := s[..|s| - 1];
      var r := TrimEnd(t);
      assert t[..|r|] == s[..|r|];
      assert s[|r|..] == t[|r|..] + [s[|s| - 1]];
      r
    else s
  }

  /** `s.strip()`. */
  function Strip(s: string): (r: string)
    ensures |r| <= |s|
    ensures r == [] || (!IsSpace(r[0]) && !IsSpace(r[|r| - 1]))
  {
    TrimEnd(TrimStart(s))
  }

  /** Cutting a suffix of `s` at `j` cuts `s` itself at `k + j`. */
  lemma SliceOfSuffix(s: string, k: nat, j: nat)
    requires k + j <= |s|
    ensures s[k..][..j] == s[k..k + j] && s[k..][j..] == s[k + j..]
  {
  }

  /** The result of `Strip` sits inside `s`, at offset `k`, between two runs of whitespace. */
  lemma StripDecompose(s: string) returns (k: nat)
    ensures k + |Strip(s)| <= |s|
    ensures s[k..k + |Strip(s)|] == Strip(s)
    ensures IsBlank(s[..k]) && IsBlank(s[k + |Strip(s)|..])
  {
    var t := TrimStart(s);
    k := |s| - |t|;
    var r := TrimEnd(t);
    assert r == Strip(s);
    SliceOfSuffix(s, k, |r|);
  }

  /** `lstrip` removes exactly a leading run of whitespace. */
  lemma {:induction false} TrimStartUnique(lead: string, rest: string)
    requires IsBlank(lead)
    requires rest == [] || !IsSpace(rest[0])
    ensures TrimStart(lead + rest) == rest
  {
    if lead != [] {
      assert (lead + rest)[1..] == lead[1..] + rest;
      TrimStartUnique(lead[1..], rest);
    } else {
      assert lead + rest == rest;
    }
  }

  /** `rstrip` removes exactly a trailing run of whitespace. */
  lemma {:induction false} TrimEndUnique(rest: string, trail: string)
    requires IsBlank(trail)
    requires rest == [] || !IsSpace(rest[|rest| - 1])
    ensures TrimEnd(rest + trail) == rest
  {
    if trail != [] {
      var s := rest + trail;
      assert s[..|s| - 1] == rest + trail[..|trail| - 1];
      assert s[|s| - 1] == trail[|trail| - 1];
      TrimEndUnique(rest, trail[..|trail| - 1]);
    } else {
      assert rest + trail == rest;
    }
  }

  /**
   * Trimming is determined by its defining property: whichever way `s` is cut
   * into blank + core + blank with a core that neither starts nor ends with
   * whitespace, the core is `Strip(s)`.
   */
  lemma StripUnique(s: string, lead: string, core: string, trail: string)
    requires s == lead + core + trail
    requires IsBlank(lead) && IsBlank(trail)
    requires core == [] || (!IsSpace(core[0]) && !IsSpace(core[|core| - 1]))
    ensures Strip(s) == core
  {
    if core == [] {
      assert IsBlank(s) by {
        forall i | 0 <= i < |s| ensures IsSpace(s[i]) {
          if i < |lead| { assert s[i] == lead[i]; } else { assert s[i] == trail[i - |lead|]; }
        }
      }
      assert s + [] == s;
      TrimStartUnique(s, []);
    } else {
      assert s == lead + (core + trail);
      assert (core + trail)[0] == core[0];
      TrimStartUnique(lead, core + trail);
      TrimEndUnique(core, trail);
    }
  }

  /** A string whose strip is empty is whitespace only. */
  lemma StripEmptyIsBlank(s: string)
    requires Strip(s) == []
    ensures IsBlank(s)
  {
    var t := TrimStart(s);
    assert IsBlank(t[|TrimEnd(t)|..]);
    assert t == [] by {
      assert t[0..] == t;
    }
    assert s[..|s|] == s;
  }

  /** Python's blank test `not s.strip()` holds exactly for whitespace-only strings. */
  lemma BlankIffStripEmpty(s: string)
    ensures Strip(s) == [] <==> IsBlank(s)
  {
    if IsBlank(s) {
      StripUnique(s, s, [], []);
    }
    if Strip(s) == [] {
      StripEmptyIsBlank(s);
    }
  }

  /** Stripping twice is stripping once. */
  lemma StripIdempotent(s: string)
    ensures Strip(Strip(s)) == Strip(s)
  {
    StripUnique(Strip(s), [], Strip(s), []);
  }

  /** `s.split("\n")`: the pieces between newlines; the empty string gives `[""]`. */
  function SplitLines(s: string): (r: seq<string>)
    ensures |r| >= 1
    ensures forall k :: 0 <= k < |r| ==> '\n' !in r[k]
  {
    if |s| == 0 then [""]
    else
      var rest := SplitLines(s[1..]);
      if s[0] == '\n' then [""] + rest
      else [[s[0]] + rest[0]] + rest[1..]
  }

  /** `"\n".join(lines)`. */
  function JoinLines(lines: seq<string>): (s: string) {
    if |lines| == 0 then ""
    else if |lines| == 1 then lines[0]
    else lines[0] + "\n" + JoinLines(lines[1..])
  }

  /** A string without a newline is a single piece. */
  lemma {:induction false} SplitLineFree(s: string)
    requires '\n' !in s
    ensures SplitLines(s) == [s]
  {
    if |s| > 0 {
      assert '\n' !in s[1..];
      SplitLineFree(s[1..]);
      assert [s[0]] + s[1..] == s;
    }
  }

  /** Splitting distributes over a newline: `(a + "\n" + b).split("\n") == a.split("\n") + b.split("\n")`. */
  lemma {:induction false} SplitConcat(a: string, b: string)
    ensures SplitLines(a + "\n" + b) == SplitLines(a) + SplitLines(b)
  {
    var s := a + "\n" + b;
    if |a| == 0 {
      assert s[1..] == b;
    } else {
      assert s[1..] == a[1..] + "\n" + b;
      SplitConcat(a[1..], b);
    }
  }

  /** Joining the pieces with newlines gives back the text. */
  lemma {:induction false} JoinSplit(s: string)
    ensures JoinLines(SplitLines(s)) == s
  {
    if '\n' in s {
      var i :| 0 <= i < |s| && s[i] == '\n';
      assert s == s[..i] + "\n" + s[i + 1..];
      SplitConcat(s[..i], s[i + 1..]);
      JoinSplit(s[..i]);
      JoinSplit(s[i + 1..]);
      JoinConcat(SplitLines(s[..i]), SplitLines(s[i + 1..]));
    } else {
      SplitLineFree(s);
    }
  }

  /** Joining two non-empty lists of pieces puts one newline between the two joins. */
  lemma {:induction false} JoinConcat(xs: seq<string>, ys: seq<string>)
    requires |xs| >= 1 && |ys| >= 1
    ensures JoinLines(xs + ys) == JoinLines(xs) + "\n" + JoinLines(ys)
  {
    if |xs| > 1 {
      assert (xs + ys)[1..] == xs[1..] + ys;
      JoinConcat(xs[1..], ys);
    } else {
      assert (xs + ys)[1..] == ys;
    }
  }

  /** Splitting a join of newline-free pieces gives back the pieces. */
  lemma {:induction false} SplitJoin(lines: seq<string>)
    requires |lines| >= 1
    requires forall k :: 0 <= k < |lines| ==> '\n' !in lines[k]
    ensures SplitLines(JoinLines(lines)) == lines
  {
    if |lines| == 1 {
      SplitLineFree(lines[0]);
    } else {
      SplitJoin(lines[1..]);
      SplitConcat(lines[0], JoinLines(lines[1..]));
      SplitLineFree(lines[0]);
    }
  }
}
