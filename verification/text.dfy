/**
 * Character classes and string operations of JavaScript, restricted to what the
 * district-name normalizer uses: `toUpperCase`, `replace(/-/g, ' ')`,
 * `replace(/\s+/g, ' ')`, `trim`, `includes` and `slice`.
 *
 * Case mapping is modelled on ASCII letters only; every other character is left
 * as it is. Whitespace is the exact set JavaScript's `\s` and `trim` use.
 */
module Text {

  /** ECMAScript WhiteSpace and LineTerminator code points: the `\s` class, and what `trim` removes. */
  predicate IsSpace(c: char) {
    var n := c as int;
    n == 0x09 || n == 0x0A || n == 0x0B || n == 0x0C || n == 0x0D || n == 0x20
    || n == 0xA0 || n == 0x1680 || (0x2000 <= n <= 0x200A) || n == 0x2028 || n == 0x2029
    || n == 0x202F || n == 0x205F || n == 0x3000 || n == 0xFEFF
  }

  predicate IsAsciiLower(c: char) { 'a' <= c <= 'z' }

  predicate IsAsciiUpper(c: char) { 'A' <= c <= 'Z' }

  function UpperChar(c: char): char {
    if IsAsciiLower(c) then (c as int - 32) as char else c
  }

  function LowerChar(c: char): char {
    if IsAsciiUpper(c) then (c as int + 32) as char else c
  }

  /** `toUpperCase` on ASCII letters. */
  function Upper(s: string): string {
    seq(|s|, i requires 0 <= i < |s| => UpperChar(s[i]))
  }

  /** `toLowerCase` on ASCII letters. */
  function Lower(s: string): string {
    seq(|s|, i requires 0 <= i < |s| => LowerChar(s[i]))
  }

  /** `replace(/-/g, ' ')`. */
  function HyphensToSpaces(s: string): string {
    seq(|s|, i requires 0 <= i < |s| => if s[i] == '-' then ' ' else s[i])
  }

  /** `p` occurs in `s` starting at index `i`. */
  predicate OccursAt(s: string, p: string, i: int) {
    0 <= i <= |s| - |p| && s[i..i + |p|] == p
  }

  /** `s.includes(p)`. */
  predicate Contains(s: string, p: string) {
    exists i | 0 <= i <= |s| - |p| :: OccursAt(s, p, i)
  }

  /** No two adjacent spaces. */
  predicate NoDoubleSpace(s: string) {
    forall i :: 0 <= i < |s| - 1 ==> !(s[i] == ' ' && s[i + 1] == ' ')
  }

  /** The end of the whitespace run of `s` that starts at `i`. */
  function SpaceRunEnd(s: string, i: nat): (j: nat)
    requires i <= |s|
    ensures i <= j <= |s|
    ensures forall k :: i <= k < j ==> IsSpace(s[k])
    ensures j < |s| ==> !IsSpace(s[j])
    decreases |s| - i
  {
    if i < |s| && IsSpace(s[i]) then SpaceRunEnd(s, i + 1) else i
  }

  /** The start of the whitespace run of `s` that ends at `j`. */
  function SpaceRunStart(s: string, j: nat): (i: nat)
    requires j <= |s|
    ensures i <= j
    ensures forall k :: i <= k < j ==> IsSpace(s[k])
    ensures 0 < i ==> !IsSpace(s[i - 1])
    decreases j
  {
    if 0 < j && IsSpace(s[j - 1]) then SpaceRunStart(s, j - 1) else j
  }

  /** `s` with its leading whitespace removed (the first half of `trim`). */
  function TrimStart(s: string): (r: string)
    ensures |r| <= |s|
    ensures r == s[|s| - |r|..]
    ensures |r| == 0 || !IsSpace(r[0])
    ensures forall k :: 0 <= k < |s| - |r| ==> IsSpace(s[k])
  {
    s[SpaceRunEnd(s, 0)..]
  }

  /** `s` with its trailing whitespace removed (the second half of `trim`). */
  function TrimEnd(s: string): (r: string)
    ensures |r| <= |s|
    ensures r == s[..|r|]
    ensures |r| == 0 || !IsSpace(r[|r| - 1])
    ensures forall k :: |r| <= k < |s| ==> IsSpace(s[k])
  {
    s[..SpaceRunStart(s, |s|)]
  }

  /** `trim`. */
  function Trim(s: string): string {
    TrimEnd(TrimStart(s))
  }

  /**
   * `replace(/\s+/g, ' ')`: every maximal run of whitespace becomes one space.
   * What is left contains no whitespace but single spaces, and every other
   * character it holds comes from `s`.
   */
  function CollapseSpaces(s: string): (r: string)
    ensures |s| > 0 ==> |r| > 0 && (r[0] == ' ' <==> IsSpace(s[0]))
    ensures forall c :: c in r && IsSpace(c) ==> c == ' '
    ensures forall c :: c in r && c != ' ' ==> c in s
    ensures NoDoubleSpace(r)
    decreases |s|
  {
    if |s| == 0 then ""
    else if IsSpace(s[0]) then
      var t := TrimStart(s[1..]);
      var rest := CollapseSpaces(t);
      assert forall c :: c in t ==> c in s;
      " " + rest
    else
      [s[0]] + CollapseSpaces(s[1..])
  }

  /** `s.slice(0, n)`. */
  function Prefix(s: string, n: nat): (r: string)
    ensures |r| == if |s| <= n then |s| else n
    ensures r == s[..|r|]
  {
    if |s| <= n then s else s[..n]
  }

  // ----- substring facts -----

  lemma ContainsAt(s: string, p: string, i: int)
    requires 0 <= i <= |s| - |p|
    requires s[i..i + |p|] == p
    ensures Contains(s, p)
  {
    assert OccursAt(s, p, i);
  }

  /**
   * A refutation of `Contains(s, p)` that needs no search: if the character
   * `p[k]` does not occur in the only positions of `s` where an occurrence of
   * `p` could put it, `p` does not occur in `s`.
   */
  lemma NotContainsByWindow(s: string, p: string, k: nat)
    requires k < |p|
    requires |p| > |s| || p[k] !in s[k..|s| - |p| + k + 1]
    ensures !Contains(s, p)
  {
    forall i | 0 <= i <= |s| - |p|
      ensures !OccursAt(s, p, i)
    {
      assert s[k..|s| - |p| + k + 1][i] == s[i + k];
    }
  }

  lemma ContainsUnderPrefix(pre: string, s: string, p: string)
    requires Contains(s, p)
    ensures Contains(pre + s, p)
  {
    var i :| 0 <= i <= |s| - |p| && OccursAt(s, p, i);
    assert (pre + s)[|pre| + i..|pre| + i + |p|] == s[i..i + |p|];
    ContainsAt(pre + s, p, |pre| + i);
  }

  /** A word: a non-empty string with no whitespace. */
  predicate IsWord(w: string) {
    |w| > 0 && forall j :: 0 <= j < |w| ==> !IsSpace(w[j])
  }

  lemma {:induction false} CollapseKeepsPrefix(s: string, w: string)
    requires |w| <= |s| && s[..|w|] == w
    requires forall j :: 0 <= j < |w| ==> !IsSpace(w[j])
    ensures |w| <= |CollapseSpaces(s)| && CollapseSpaces(s)[..|w|] == w
    decreases |w|
  {
    if |w| > 0 {
      assert s[0] == w[0];
      assert s[1..][..|w| - 1] == w[1..];
      CollapseKeepsPrefix(s[1..], w[1..]);
      assert CollapseSpaces(s) == [s[0]] + CollapseSpaces(s[1..]);
    }
  }

  /** Collapsing whitespace keeps every word that occurs in the string. */
  lemma {:induction false} CollapseKeepsWord(s: string, w: string, i: nat)
    requires IsWord(w)
    requires i <= |s| - |w| && s[i..i + |w|] == w
    ensures Contains(CollapseSpaces(s), w)
    decreases |s|
  {
    if i == 0 {
      CollapseKeepsPrefix(s, w);
      ContainsAt(CollapseSpaces(s), w, 0);
    } else if !IsSpace(s[0]) {
      assert s[1..][i - 1..i - 1 + |w|] == w;
      CollapseKeepsWord(s[1..], w, i - 1);
      assert CollapseSpaces(s) == [s[0]] + CollapseSpaces(s[1..]);
      ContainsUnderPrefix([s[0]], CollapseSpaces(s[1..]), w);
    } else {
      CollapseKeepsWordAfterSpace(s, w, i);
    }
  }

  lemma {:induction false} CollapseKeepsWordAfterSpace(s: string, w: string, i: nat)
    requires IsWord(w)
    requires 0 < i <= |s| - |w| && s[i..i + |w|] == w
    requires IsSpace(s[0])
    ensures Contains(CollapseSpaces(s), w)
    decreases |s|, 0
  {
    var u := s[1..];
    var t := TrimStart(u);
    var d := |u| - |t|;
    assert u[i - 1] == w[0];
    assert i - 1 >= d;
    assert u[i - 1..i - 1 + |w|] == w;
    assert t[i - 1 - d..i - 1 - d + |w|] == u[i - 1..i - 1 + |w|];
    CollapseKeepsWord(t, w, i - 1 - d);
    assert CollapseSpaces(s) == " " + CollapseSpaces(t);
    ContainsUnderPrefix(" ", CollapseSpaces(t), w);
  }

  lemma TrimStartAt(s: string)
    ensures forall k :: 0 <= k < |TrimStart(s)| ==> TrimStart(s)[k] == s[|s| - |TrimStart(s)| + k]
  {
    var a := TrimStart(s);
    assert a == s[|s| - |a|..];
  }

  lemma TrimEndAt(s: string)
    ensures forall k :: 0 <= k < |TrimEnd(s)| ==> TrimEnd(s)[k] == s[k]
  {
    var a := TrimEnd(s);
    assert a == s[..|a|];
  }

  /** `Trim(s)` read off `s`: it starts at offset `d`, and only whitespace lies around it. */
  lemma TrimAt(s: string) returns (d: nat)
    ensures d + |Trim(s)| <= |s|
    ensures forall k :: 0 <= k < |Trim(s)| ==> Trim(s)[k] == s[d + k]
    ensures forall k :: 0 <= k < d ==> IsSpace(s[k])
    ensures forall k :: d + |Trim(s)| <= k < |s| ==> IsSpace(s[k])
  {
    var a := TrimStart(s);
    var t := TrimEnd(a);
    assert Trim(s) == t;
    d := |s| - |a|;
    TrimStartAt(s);
    TrimEndAt(a);
    assert forall k :: |t| <= k < |a| ==> IsSpace(a[k]);
    InnerSlice(s, a, t, d);
  }

  /** `t` is a prefix of `a`, which is `s` from `d` on: `t` is `s` from `d` on, and `s` is spaces after it if `a` is. */
  lemma InnerSlice(s: string, a: string, t: string, d: nat)
    requires d + |a| == |s| && |t| <= |a|
    requires forall k :: 0 <= k < |a| ==> a[k] == s[d + k]
    requires forall k :: 0 <= k < |t| ==> t[k] == a[k]
    requires forall k :: |t| <= k < |a| ==> IsSpace(a[k])
    ensures forall k :: 0 <= k < |t| ==> t[k] == s[d + k]
    ensures forall k :: d + |t| <= k < |s| ==> IsSpace(s[k])
  {
    forall k | d + |t| <= k < |s|
      ensures IsSpace(s[k])
    {
      assert a[k - d] == s[k];
    }
  }

  /** A pointwise match of `w` at offset `i` is an occurrence. */
  lemma OccursPointwise(s: string, w: string, i: nat)
    requires i + |w| <= |s|
    requires forall j :: 0 <= j < |w| ==> s[i + j] == w[j]
    ensures OccursAt(s, w, i)
  {
    assert s[i..i + |w|] == w;
  }

  /** Trimming keeps every word that occurs in the string. */
  lemma TrimKeepsWord(s: string, w: string, i: nat)
    requires IsWord(w)
    requires i <= |s| - |w| && s[i..i + |w|] == w
    ensures Contains(Trim(s), w)
  {
    var t := Trim(s);
    var d := TrimAt(s);
    assert s[i] == w[0] && s[i + |w| - 1] == w[|w| - 1];
    assert d <= i;
    assert i + |w| <= d + |t|;
    forall j | 0 <= j < |w|
      ensures t[i - d + j] == w[j]
    {
      assert s[i + j] == w[j];
    }
    OccursPointwise(t, w, i - d);
  }

  /** Replacing hyphens keeps every string without a hyphen that occurs in the string. */
  lemma HyphensKeepWord(s: string, w: string, i: nat)
    requires '-' !in w
    requires i <= |s| - |w| && s[i..i + |w|] == w
    ensures HyphensToSpaces(s)[i..i + |w|] == w
  {
    forall j | 0 <= j < |w|
      ensures HyphensToSpaces(s)[i + j] == w[j]
    {
      assert s[i + j] == w[j];
    }
  }

  /** A string whose only whitespace is single spaces is left unchanged by collapsing. */
  lemma {:induction false} CollapseFixes(s: string)
    requires forall c :: c in s && IsSpace(c) ==> c == ' '
    requires NoDoubleSpace(s)
    ensures CollapseSpaces(s) == s
    decreases |s|
  {
    if |s| > 0 {
      var u := s[1..];
      assert forall c :: c in u ==> c in s;
      NoDoubleSpaceTail(s);
      CollapseFixes(u);
      if IsSpace(s[0]) {
        assert s[0] in s;
        if |u| > 0 {
          assert u[0] == s[1] && s[1] in s;
          assert !IsSpace(u[0]);
          assert SpaceRunEnd(u, 0) == 0;
        }
        assert TrimStart(u) == u;
        assert CollapseSpaces(s) == " " + u;
      } else {
        assert CollapseSpaces(s) == [s[0]] + u;
      }
    }
  }

  lemma NoDoubleSpaceTail(s: string)
    requires |s| > 0 && NoDoubleSpace(s)
    ensures NoDoubleSpace(s[1..])
  {
    var u := s[1..];
    forall i | 0 <= i < |u| - 1
      ensures !(u[i] == ' ' && u[i + 1] == ' ')
    {
      assert u[i] == s[i + 1] && u[i + 1] == s[i + 2];
    }
  }

  /** A string that neither starts nor ends with whitespace is left unchanged by trimming. */
  lemma TrimFixes(s: string)
    requires |s| == 0 || (!IsSpace(s[0]) && !IsSpace(s[|s| - 1]))
    ensures Trim(s) == s
  {
    assert SpaceRunEnd(s, 0) == 0;
    assert TrimStart(s) == s;
    assert SpaceRunStart(s, |s|) == |s|;
  }

  // ----- an independent definition of whitespace collapsing -----

  /** Every whitespace character of `s` replaced by a plain space. */
  function Blanked(s: string): string {
    seq(|s|, i requires 0 <= i < |s| => if IsSpace(s[i]) then ' ' else s[i])
  }

  /** `s` without the spaces that follow a space. */
  function DropRepeatedSpaces(s: string): string
    decreases |s|
  {
    if |s| <= 1 then s
    else if s[0] == ' ' && s[1] == ' ' then DropRepeatedSpaces(s[1..])
    else [s[0]] + DropRepeatedSpaces(s[1..])
  }

  /** Collapsing is blanking every whitespace character and then dropping every repeated space. */
  lemma {:induction false} CollapseIsBlankedDeduplicated(s: string)
    ensures CollapseSpaces(s) == DropRepeatedSpaces(Blanked(s))
    decreases |s|
  {
    if |s| > 0 {
      var b := Blanked(s);
      assert b[1..] == Blanked(s[1..]);
      if IsSpace(s[0]) {
        var t := TrimStart(s[1..]);
        assert b == " " + Blanked(s[1..]);
        BlankRunAfterSpace(s[1..]);
        CollapseIsBlankedDeduplicated(t);
      } else {
        assert b[0] == s[0] && s[0] != ' ';
        CollapseIsBlankedDeduplicated(s[1..]);
        assert DropRepeatedSpaces(b) == [b[0]] + DropRepeatedSpaces(b[1..]);
      }
    }
  }

  /** After one space, a blanked whitespace run collapses to nothing more. */
  lemma {:induction false} BlankRunAfterSpace(u: string)
    ensures DropRepeatedSpaces(" " + Blanked(u)) == " " + DropRepeatedSpaces(Blanked(TrimStart(u)))
    decreases |u|
  {
    var x := " " + Blanked(u);
    if |u| == 0 {
      assert x == " ";
    } else if !IsSpace(u[0]) {
      assert SpaceRunEnd(u, 0) == 0;
      assert TrimStart(u) == u;
      assert x[1..] == Blanked(u) && x[1] == u[0] && u[0] != ' ';
    } else {
      assert x[1..] == Blanked(u) && x[1] == ' ';
      assert Blanked(u) == " " + Blanked(u[1..]);
      BlankRunAfterSpace(u[1..]);
      TrimStartSkipsSpace(u);
    }
  }

  /** Leading whitespace is trimmed one character at a time. */
  lemma TrimStartSkipsSpace(u: string)
    requires |u| > 0 && IsSpace(u[0])
    ensures TrimStart(u) == TrimStart(u[1..])
  {
    SpaceRunEndShift(u, 0);
    var k := SpaceRunEnd(u[1..], 0);
    assert SpaceRunEnd(u, 0) == SpaceRunEnd(u, 1) == k + 1;
    assert u[k + 1..] == u[1..][k..];
  }

  lemma {:induction false} SpaceRunEndShift(s: string, i: nat)
    requires i < |s|
    ensures SpaceRunEnd(s[1..], i) + 1 == SpaceRunEnd(s, i + 1)
    decreases |s| - i
  {
    if i < |s| - 1 {
      assert s[1..][i] == s[i + 1];
      if IsSpace(s[i + 1]) {
        SpaceRunEndShift(s, i + 1);
      }
    }
  }

  // ----- what survives the string operations, read backwards -----

  /** A word at the start of the collapsed string starts the string itself. */
  lemma {:induction false} CollapseRevealsPrefix(s: string, w: string)
    requires forall j :: 0 <= j < |w| ==> !IsSpace(w[j])
    requires |w| <= |CollapseSpaces(s)| && CollapseSpaces(s)[..|w|] == w
    ensures |w| <= |s| && s[..|w|] == w
    decreases |w|
  {
    if |w| > 0 {
      var c := CollapseSpaces(s);
      assert c[0] == w[0] && w[0] != ' ';
      assert !IsSpace(s[0]);
      assert c == [s[0]] + CollapseSpaces(s[1..]);
      assert CollapseSpaces(s[1..])[..|w| - 1] == w[1..];
      CollapseRevealsPrefix(s[1..], w[1..]);
      assert s[..|w|] == [s[0]] + s[1..][..|w| - 1];
    }
  }

  /** Every word of the collapsed string already occurs in the string. */
  lemma {:induction false} CollapseRevealsWord(s: string, w: string, i: nat)
    requires IsWord(w)
    requires OccursAt(CollapseSpaces(s), w, i)
    ensures Contains(s, w)
    decreases |s|
  {
    var c := CollapseSpaces(s);
    if i == 0 {
      CollapseRevealsPrefix(s, w);
      ContainsAt(s, w, 0);
    } else if !IsSpace(s[0]) {
      assert c == [s[0]] + CollapseSpaces(s[1..]);
      assert CollapseSpaces(s[1..])[i - 1..i - 1 + |w|] == c[i..i + |w|];
      CollapseRevealsWord(s[1..], w, i - 1);
      ContainsInSuffix(s, w, 1);
    } else {
      CollapseRevealsWordAfterSpace(s, w, i);
    }
  }

  lemma {:induction false} CollapseRevealsWordAfterSpace(s: string, w: string, i: nat)
    requires IsWord(w)
    requires 0 < i && OccursAt(CollapseSpaces(s), w, i)
    requires IsSpace(s[0])
    ensures Contains(s, w)
    decreases |s|, 0
  {
    var u := s[1..];
    var t := TrimStart(u);
    CollapseAfterSpace(s);
    OccursAfterHead(' ', CollapseSpaces(t), w, i);
    CollapseRevealsWord(t, w, i - 1);
    ContainsInSuffix(u, w, |u| - |t|);
    ContainsInSuffix(s, w, 1);
  }

  lemma CollapseAfterSpace(s: string)
    requires |s| > 0 && IsSpace(s[0])
    ensures CollapseSpaces(s) == " " + CollapseSpaces(TrimStart(s[1..]))
  {
  }

  lemma OccursAfterHead(h: char, s: string, p: string, i: nat)
    requires 0 < i && OccursAt([h] + s, p, i)
    ensures OccursAt(s, p, i - 1)
  {
    assert ([h] + s)[i..i + |p|] == s[i - 1..i - 1 + |p|];
  }

  lemma ContainsInSuffix(s: string, p: string, n: nat)
    requires n <= |s| && Contains(s[n..], p)
    ensures Contains(s, p)
  {
    var i :| 0 <= i <= |s[n..]| - |p| && OccursAt(s[n..], p, i);
    assert s[n + i..n + i + |p|] == s[n..][i..i + |p|];
    ContainsAt(s, p, n + i);
  }

  /** Everything the trimmed string contains, the string contains. */
  lemma TrimRevealsWord(s: string, w: string, i: nat)
    requires OccursAt(Trim(s), w, i)
    ensures Contains(s, w)
  {
    var t := Trim(s);
    var d := TrimAt(s);
    forall j | 0 <= j < |w|
      ensures s[d + i + j] == w[j]
    {
      assert t[i + j] == w[j];
    }
    OccursPointwise(s, w, d + i);
  }

  /** A word found after replacing hyphens was there before. */
  lemma HyphensRevealWord(s: string, w: string, i: nat)
    requires IsWord(w)
    requires OccursAt(HyphensToSpaces(s), w, i)
    ensures OccursAt(s, w, i)
  {
    forall j | 0 <= j < |w|
      ensures s[i + j] == w[j]
    {
      assert HyphensToSpaces(s)[i + j] == w[j] && w[j] != ' ';
    }
    OccursPointwise(s, w, i);
  }

  lemma UpperOfLower(s: string)
    ensures Upper(Lower(s)) == Upper(s)
  {
    assert forall i :: 0 <= i < |s| ==> UpperChar(LowerChar(s[i])) == UpperChar(s[i]);
  }

  lemma UpperOfUpper(s: string)
    ensures Upper(Upper(s)) == Upper(s)
  {
    assert forall i :: 0 <= i < |s| ==> UpperChar(UpperChar(s[i])) == UpperChar(s[i]);
  }
}
