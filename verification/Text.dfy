/** The string primitives of the Go standard library that the models rely on.

    Trimming is exact (the White_Space characters that Go's unicode.IsSpace accepts).
    Case mapping is a record of functions: every result that mentions it holds for
    whatever tables the Go runtime ships. */
module Text {

  datatype Casing = Casing(lower: string -> string, upper: string -> string, fold: string -> string)

  predicate IsSpace(c: char) {
    var u := c as int;
    9 <= u <= 13 || u == 0x20 || u == 0x85 || u == 0xA0 || u == 0x1680 || 0x2000 <= u <= 0x200A ||
    u == 0x2028 || u == 0x2029 || u == 0x202F || u == 0x205F || u == 0x3000
  }

  /** The first position from `i` on that holds no space. */
  function SkipLeft(s: string, i: nat): (r: nat)
    requires i <= |s|
    ensures i <= r <= |s|
    decreases |s| - i
  {
    if i < |s| && IsSpace(s[i]) then SkipLeft(s, i + 1) else i
  }

  /** The end of s[lo..hi] without trailing space. */
  function SkipRight(s: string, lo: nat, hi: nat): (r: nat)
    requires lo <= hi <= |s|
    ensures lo <= r <= hi
    decreases hi
  {
    if lo < hi && IsSpace(s[hi - 1]) then SkipRight(s, lo, hi - 1) else hi
  }

  function TrimSpace(s: string): string {
    s[SkipLeft(s, 0)..SkipRight(s, SkipLeft(s, 0), |s|)]
  }

  /** Nothing is left to trim. */
  predicate Trimmed(s: string) {
    s == [] || (!IsSpace(s[0]) && !IsSpace(s[|s| - 1]))
  }

  lemma {:induction false} SkipLeftStops(s: string, i: nat)
    requires i <= |s|
    ensures SkipLeft(s, i) == |s| || !IsSpace(s[SkipLeft(s, i)])
    decreases |s| - i
  {
    if i < |s| && IsSpace(s[i]) {
      SkipLeftStops(s, i + 1);
    }
  }

  lemma {:induction false} SkipRightStops(s: string, lo: nat, hi: nat)
    requires lo <= hi <= |s|
    ensures SkipRight(s, lo, hi) == lo || !IsSpace(s[SkipRight(s, lo, hi) - 1])
    decreases hi
  {
    if lo < hi && IsSpace(s[hi - 1]) {
      SkipRightStops(s, lo, hi - 1);
    }
  }

  /** Trimming leaves no space at either end, and does nothing to such a text. */
  lemma TrimSpaceTrims(s: string)
    ensures Trimmed(TrimSpace(s))
    ensures Trimmed(s) ==> TrimSpace(s) == s
  {
    SkipLeftStops(s, 0);
    SkipRightStops(s, SkipLeft(s, 0), |s|);
  }

  lemma {:induction false} SkippedLeft(s: string, i: nat)
    requires i <= |s|
    ensures forall j :: i <= j < SkipLeft(s, i) ==> IsSpace(s[j])
    decreases |s| - i
  {
    if i < |s| && IsSpace(s[i]) {
      SkippedLeft(s, i + 1);
    }
  }

  lemma {:induction false} SkippedRight(s: string, lo: nat, hi: nat)
    requires lo <= hi <= |s|
    ensures forall j :: SkipRight(s, lo, hi) <= j < hi ==> IsSpace(s[j])
    decreases hi
  {
    if lo < hi && IsSpace(s[hi - 1]) {
      SkippedRight(s, lo, hi - 1);
    }
  }

  /** Trimming removes white space at the ends and nothing else. */
  lemma TrimSpaceRemovesSpace(s: string) returns (l: nat, r: nat)
    ensures l <= r <= |s| && TrimSpace(s) == s[l..r]
    ensures forall i :: 0 <= i < l || r <= i < |s| ==> IsSpace(s[i])
  {
    l := SkipLeft(s, 0);
    r := SkipRight(s, l, |s|);
    SkippedLeft(s, 0);
    SkippedRight(s, l, |s|);
  }

  predicate HasPrefix(s: string, prefix: string) {
    prefix <= s
  }

  predicate Contains(s: string, part: string) {
    |part| <= |s| && (part <= s || Contains(s[1..], part))
  }

  predicate OccursAt(s: string, part: string, i: int) {
    0 <= i <= |s| - |part| && s[i..i + |part|] == part
  }

  lemma {:induction false} ContainsAt(s: string, part: string) returns (i: nat)
    requires Contains(s, part)
    ensures OccursAt(s, part, i)
  {
    if part <= s {
      i := 0;
    } else {
      var j := ContainsAt(s[1..], part);
      i := j + 1;
    }
  }

  lemma {:induction false} ContainsFrom(s: string, part: string, i: nat)
    requires OccursAt(s, part, i)
    ensures Contains(s, part)
  {
    if i > 0 {
      assert s[1..][i - 1..i - 1 + |part|] == s[i..i + |part|];
      ContainsFrom(s[1..], part, i - 1);
    } else {
      assert s[0..|part|] == s[..|part|];
    }
  }

  /** `part` occurs in `s` somewhere. */
  lemma ContainsExactly(s: string, part: string)
    ensures Contains(s, part) <==> exists i :: OccursAt(s, part, i)
  {
    if Contains(s, part) {
      var i := ContainsAt(s, part);
    }
    if i :| OccursAt(s, part, i) {
      ContainsFrom(s, part, i);
    }
  }

  predicate EqualFold(cs: Casing, a: string, b: string) {
    cs.fold(a) == cs.fold(b)
  }

  /** The longest prefix without white space. */
  function Word(s: string): (w: string)
    ensures w <= s
  {
    if s == [] || IsSpace(s[0]) then [] else [s[0]] + Word(s[1..])
  }

  /** strings.Fields(s)[0], or "" when there is no field. */
  function FirstField(s: string): string {
    Word(s[SkipLeft(s, 0)..])
  }

  lemma {:induction false} WordIsMaximal(s: string)
    ensures forall i :: 0 <= i < |Word(s)| ==> !IsSpace(Word(s)[i])
    ensures |Word(s)| == |s| || IsSpace(s[|Word(s)|])
  {
    if s != [] && !IsSpace(s[0]) {
      WordIsMaximal(s[1..]);
    }
  }

  /** The first field starts behind the leading white space and ends where the next white space begins. */
  lemma FirstFieldIs(s: string) returns (i: nat)
    ensures i + |FirstField(s)| <= |s| && s[i..i + |FirstField(s)|] == FirstField(s)
    ensures forall j :: 0 <= j < i ==> IsSpace(s[j])
    ensures forall j :: 0 <= j < |FirstField(s)| ==> !IsSpace(FirstField(s)[j])
    ensures i + |FirstField(s)| == |s| || IsSpace(s[i + |FirstField(s)|])
  {
    i := SkipLeft(s, 0);
    SkippedLeft(s, 0);
    WordIsMaximal(s[i..]);
  }

  /** `a` is a proper prefix of `b`, or has the smaller character where they first differ. */
  ghost predicate TextBefore(a: string, b: string) {
    exists n :: FirstDifferenceAt(a, b, n)
  }

  predicate FirstDifferenceAt(a: string, b: string, n: int) {
    0 <= n <= |a| && n < |b| && a[..n] == b[..n] && (n == |a| || a[n] < b[n])
  }

  /** Go's < on strings; UTF-8 keeps the order of code points. */
  predicate LexLess(a: string, b: string) {
    b != [] && (a == [] || a[0] < b[0] || (a[0] == b[0] && LexLess(a[1..], b[1..])))
  }

  lemma {:induction false} LexLessAt(a: string, b: string) returns (n: nat)
    requires LexLess(a, b)
    ensures FirstDifferenceAt(a, b, n)
  {
    if a == [] || a[0] < b[0] {
      n := 0;
    } else {
      var m := LexLessAt(a[1..], b[1..]);
      n := m + 1;
      assert a[..n] == [a[0]] + a[1..][..m] && b[..n] == [b[0]] + b[1..][..m];
    }
  }

  lemma {:induction false} LexLessFrom(a: string, b: string, n: nat)
    requires FirstDifferenceAt(a, b, n)
    ensures LexLess(a, b)
  {
    if n > 0 {
      assert a[0] == a[..n][0] == b[..n][0] == b[0];
      assert a[1..][..n - 1] == a[..n][1..] && b[1..][..n - 1] == b[..n][1..];
      LexLessFrom(a[1..], b[1..], n - 1);
    }
  }

  lemma LexLessExactly(a: string, b: string)
    ensures LexLess(a, b) <==> TextBefore(a, b)
  {
    if LexLess(a, b) {
      var n := LexLessAt(a, b);
    }
    if n :| FirstDifferenceAt(a, b, n) {
      LexLessFrom(a, b, n);
    }
  }
}
