/** The string operations of JavaScript that the core relies on, over `seq<char>`. */
module Text {
  import opened Wrappers

  /** `pat` occurs in `s` starting at index `i`. */
  predicate OccursAt(s: string, pat: string, i: int) {
    0 <= i && i + |pat| <= |s| && s[i..i + |pat|] == pat
  }

  /** The first index at or after `from` where `pat` occurs (`s.indexOf(pat, from)` with `None` for -1). */
  function IndexOfFrom(s: string, pat: string, from: nat): (r: Option<nat>)
    decreases |s| - from
    ensures r.Some? ==> from <= r.value && OccursAt(s, pat, r.value)
  {
    if from + |pat| > |s| then None
    else if OccursAt(s, pat, from) then Some(from)
    else IndexOfFrom(s, pat, from + 1)
  }

  /** `IndexOfFrom` finds the first occurrence: none lies between `from` and the answer, and `None`
      means there is none at all from `from` on. */
  lemma {:induction false} IndexOfFromIsFirst(s: string, pat: string, from: nat)
    decreases |s| - from
    ensures var r := IndexOfFrom(s, pat, from);
      r.Some? ==> forall k :: from <= k < r.value ==> !OccursAt(s, pat, k)
    ensures IndexOfFrom(s, pat, from).None? ==> forall k :: from <= k ==> !OccursAt(s, pat, k)
  {
    if from + |pat| <= |s| && !OccursAt(s, pat, from) {
      IndexOfFromIsFirst(s, pat, from + 1);
    }
  }

  /** `s.includes(sub)`. */
  predicate Contains(s: string, sub: string) {
    IndexOfFrom(s, sub, 0).Some?
  }

  lemma ContainsIff(s: string, sub: string)
    ensures Contains(s, sub) <==> exists k :: OccursAt(s, sub, k)
  {
    IndexOfFromIsFirst(s, sub, 0);
    if !Contains(s, sub) {
      forall k ensures !OccursAt(s, sub, k) {
        if 0 <= k {
          assert !OccursAt(s, sub, k);
        }
      }
    }
  }

  lemma EveryStringContainsEmpty(s: string)
    ensures Contains(s, "")
  {
    assert OccursAt(s, "", 0);
  }

  /** `s.startsWith(prefix)`. */
  predicate StartsWith(s: string, prefix: string) {
    prefix <= s
  }

  /** The characters `String.prototype.trim` removes: WhiteSpace and LineTerminator of ECMAScript. */
  predicate IsJsSpace(c: char) {
    c == ' ' || c == '\t' || c == '\n' || c == '\U{000B}' || c == '\U{000C}' || c == '\r'
    || c == '\U{00A0}' || c == '\U{1680}' || ('\U{2000}' <= c <= '\U{200A}')
    || c == '\U{2028}' || c == '\U{2029}' || c == '\U{202F}' || c == '\U{205F}'
    || c == '\U{3000}' || c == '\U{FEFF}'
  }

  /** The characters a regular-expression `.` does not match (no `s` flag). */
  predicate IsLineTerminator(c: char) {
    c == '\n' || c == '\r' || c == '\U{2028}' || c == '\U{2029}'
  }

  ghost predicate AllSpace(s: string) {
    forall k :: 0 <= k < |s| ==> IsJsSpace(s[k])
  }

  /** The end of the run of white space in `s` that starts at `i`. */
  function SkipSpace(s: string, i: nat): (n: nat)
    requires i <= |s|
    decreases |s| - i
    ensures i <= n <= |s|
    ensures forall k :: i <= k < n ==> IsJsSpace(s[k])
    ensures n < |s| ==> !IsJsSpace(s[n])
  {
    if i < |s| && IsJsSpace(s[i]) then SkipSpace(s, i + 1) else i
  }

  /** The start of the run of white space that ends at `j`, looking no further back than `lo`. */
  function SkipSpaceBack(s: string, lo: nat, j: nat): (n: nat)
    requires lo <= j <= |s|
    decreases j - lo
    ensures lo <= n <= j
    ensures forall k :: n <= k < j ==> IsJsSpace(s[k])
    ensures lo < n ==> !IsJsSpace(s[n - 1])
  {
    if lo < j && IsJsSpace(s[j - 1]) then SkipSpaceBack(s, lo, j - 1) else j
  }

  /** Where `Trim(s)` begins in `s`. */
  function TrimOffset(s: string): (i: nat)
    ensures i <= |s|
  {
    SkipSpace(s, 0)
  }

  /** `s.trim()`: the result is the slice of `s` at `TrimOffset(s)`, everything around it is JS white
      space, and the result neither starts nor ends with white space. */
  function Trim(s: string): (r: string)
    ensures TrimOffset(s) + |r| <= |s|
    ensures r == s[TrimOffset(s)..TrimOffset(s) + |r|]
    ensures AllSpace(s[..TrimOffset(s)]) && AllSpace(s[TrimOffset(s) + |r|..])
    ensures r != [] ==> !IsJsSpace(r[0]) && !IsJsSpace(r[|r| - 1])
  {
    var i := SkipSpace(s, 0);
    var j := SkipSpaceBack(s, i, |s|);
    assert forall k :: 0 <= k < |s[j..]| ==> s[j..][k] == s[j + k];
    s[i..j]
  }

  lemma TrimEmptyIffAllSpace(s: string)
    ensures Trim(s) == [] <==> AllSpace(s)
  {
    var r := Trim(s);
    var i := TrimOffset(s);
    if r == [] {
      forall k | 0 <= k < |s| ensures IsJsSpace(s[k]) {
        assert s[..i][k] == s[k];
      }
    } else {
      assert s[i] == r[0];
    }
  }

  /** `!s.trim()`: the string is empty or white space throughout, checked one character at a time
      so that a guard over several fields stays cheap. */
  predicate Blank(s: string) {
    s == [] || (IsJsSpace(s[0]) && Blank(s[1..]))
  }

  lemma {:induction false} BlankIffAllSpace(s: string)
    ensures Blank(s) <==> AllSpace(s)
  {
    if s != [] {
      BlankIffAllSpace(s[1..]);
      assert AllSpace(s) <==> IsJsSpace(s[0]) && AllSpace(s[1..]) by {
        if IsJsSpace(s[0]) && AllSpace(s[1..]) {
          forall k | 0 <= k < |s| ensures IsJsSpace(s[k]) {
            if k > 0 { assert s[k] == s[1..][k - 1]; }
          }
        }
      }
    }
  }

  /** `Blank` is exactly "trims to the empty string". */
  lemma BlankIff(s: string)
    ensures Blank(s) <==> Trim(s) == ""
  {
    BlankIffAllSpace(s);
    TrimEmptyIffAllSpace(s);
  }

  /** `value || null`: the empty string becomes null, anything else is kept. */
  function NullIfEmpty(s: string): (r: Option<string>)
    ensures r.GetOr("") == s
    ensures r != Some("")
  {
    if s == "" then None else Some(s)
  }

  /** Reading a field back (`?? ''`) and storing it again gives the stored value, unless that value
      was the empty string, which is stored as null. */
  lemma NullIfEmptyRoundTrip(o: Option<string>)
    ensures o != Some("") ==> NullIfEmpty(o.GetOr("")) == o
    ensures o == Some("") ==> NullIfEmpty(o.GetOr("")) == None
  {
  }

  /** `s || fallback` on strings: the empty string is the only falsy string. */
  function OrElse(s: string, fallback: string): (r: string)
    ensures r == s || r == fallback
    ensures r == "" <==> s == "" && fallback == ""
    ensures s != "" ==> r == s
  {
    if s == "" then fallback else s
  }

  /** Trimming twice is trimming once. */
  lemma TrimIdempotent(s: string)
    ensures Trim(Trim(s)) == Trim(s)
  {
    var r := Trim(s);
    if r != [] {
      assert SkipSpace(r, 0) == 0;
      assert SkipSpaceBack(r, 0, |r|) == |r|;
      assert r[0..|r|] == r;
    }
  }

  predicate IsAsciiUpper(c: char) {
    'A' <= c <= 'Z'
  }

  /** `toLowerCase` restricted to ASCII letters. */
  function LowerChar(c: char): (r: char)
    ensures !IsAsciiUpper(r)
    ensures IsAsciiUpper(c) ==> r as int == c as int + 32
    ensures !IsAsciiUpper(c) ==> r == c
  {
    if IsAsciiUpper(c) then (c as int + 32) as char else c
  }

  /** `s.toLowerCase()` for ASCII letters. */
  function Lower(s: string): (r: string)
    ensures |r| == |s|
  {
    if s == [] then [] else [LowerChar(s[0])] + Lower(s[1..])
  }

  /** Lower-casing works character by character. */
  lemma {:induction false} LowerChars(s: string)
    ensures forall k :: 0 <= k < |s| ==> Lower(s)[k] == LowerChar(s[k])
  {
    if s != [] {
      LowerChars(s[1..]);
    }
  }

  lemma LowerIdempotent(s: string)
    ensures Lower(Lower(s)) == Lower(s)
  {
    LowerChars(s);
    LowerChars(Lower(s));
  }

  lemma LowerConcat(a: string, b: string)
    ensures Lower(a + b) == Lower(a) + Lower(b)
  {
    LowerChars(a);
    LowerChars(b);
    LowerChars(a + b);
    assert forall k :: 0 <= k < |a + b| ==> Lower(a + b)[k] == (Lower(a) + Lower(b))[k];
  }

  /** Strings of different lengths lower-case to different strings. */
  lemma LowerLengthDiffers(s: string, t: string)
    requires |s| != |t|
    ensures Lower(s) != Lower(t)
  {
  }

  /** Strings whose `k`-th characters lower-case differently lower-case to different strings. */
  lemma LowerDiffersAt(s: string, t: string, k: nat)
    requires k < |s| && k < |t| && LowerChar(s[k]) != LowerChar(t[k])
    ensures Lower(s) != Lower(t)
  {
    LowerChars(s);
    LowerChars(t);
    assert Lower(s)[k] != Lower(t)[k];
  }

  /** A capitalised word lower-cases to its lower-case initial followed by the rest, unchanged. */
  lemma LowerCapitalized(c: char, rest: string)
    requires forall k :: 0 <= k < |rest| ==> !IsAsciiUpper(rest[k])
    ensures Lower([c] + rest) == [LowerChar(c)] + rest
  {
    LowerChars(rest);
    assert Lower([c] + rest)[1..] == Lower(rest);
    assert Lower(rest) == rest;
  }

  /** `s.replace(from, to)` with a one-character string pattern: exactly the first occurrence of
      `from` becomes `to`, every other character is kept. */
  function ReplaceFirst(s: string, from: char, to: char): (r: string)
    ensures |r| == |s|
    ensures forall k :: 0 <= k < |s| ==> r[k] == if s[k] == from && from !in s[..k] then to else s[k]
  {
    IndexOfFromIsFirst(s, [from], 0);
    match IndexOfFrom(s, [from], 0)
    case None =>
      assert forall k :: 0 <= k < |s| ==> s[k] != from by {
        forall k | 0 <= k < |s| ensures s[k] != from { assert !OccursAt(s, [from], k); }
      }
      s
    case Some(i) =>
      var r := s[..i] + [to] + s[i + 1..];
      assert forall k :: 0 <= k < i ==> s[k] != from by {
        forall k | 0 <= k < i ensures s[k] != from { assert !OccursAt(s, [from], k); }
      }
      assert s[i] == from by { assert s[i..i + 1] == [from]; }
      r
  }

  /** The number a run of decimal digits denotes, read most significant digit first. */
  function DigitsValue(r: string): nat
    requires forall k :: 0 <= k < |r| ==> '0' <= r[k] <= '9'
  {
    if r == [] then 0 else DigitsValue(r[..|r| - 1]) * 10 + (r[|r| - 1] as int - '0' as int)
  }

  /** The decimal digits of `n`, as a template literal `${n}` writes an integer: digits only, read
      back as `n`, and without a leading zero unless `n` is 0. */
  function DecimalString(n: nat): (r: string)
    ensures |r| >= 1
    ensures forall k :: 0 <= k < |r| ==> '0' <= r[k] <= '9'
    ensures DigitsValue(r) == n
    ensures r[0] == '0' <==> n == 0
  {
    var d := [(('0' as int) + n % 10) as char];
    if n < 10 then
      assert d[..0] == [];
      d
    else
      var h := DecimalString(n / 10);
      assert (h + d)[..|h + d| - 1] == h;
      h + d
  }
}
