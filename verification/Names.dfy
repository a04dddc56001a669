/** The names of the custom resources: a string made safe for Kubernetes. Letters are lowered as in ASCII. */
module Names {
  const MAX_NAME := 63

  function NormalChar(c: char): char {
    if 'A' <= c <= 'Z' then (c as int + 32) as char
    else if c == '/' || c == '_' || c == '.' then '-'
    else c
  }

  function Normalized(s: string): string {
    seq(|s|, i requires 0 <= i < |s| => NormalChar(s[i]))
  }

  function TrimLeft(s: string): string {
    if s != [] && s[0] == '-' then TrimLeft(s[1..]) else s
  }

  function TrimRight(s: string): string {
    if s != [] && s[|s| - 1] == '-' then TrimRight(s[..|s| - 1]) else s
  }

  function Trimmed(s: string): string {
    TrimRight(TrimLeft(Normalized(s)))
  }

  /** The order matters: the cut to the maximal length comes after the hyphens are trimmed. */
  function SanitizeName(s: string): string {
    var t := Trimmed(s);
    if |t| > MAX_NAME then t[..MAX_NAME] else t
  }

  ghost predicate AllNormal(s: string) {
    forall i | 0 <= i < |s| :: NormalChar(s[i]) == s[i]
  }

  const UPPER := "ABCDEFGHIJKLMNOPQRSTUVWXYZ"
  const LOWER := "abcdefghijklmnopqrstuvwxyz"

  /** Upper-case letters are lowered, the three separators become hyphens, and all else stays. */
  lemma NormalCharIs(c: char)
    ensures forall i | 0 <= i < 26 :: c == UPPER[i] ==> NormalChar(c) == LOWER[i]
    ensures c in "/_." ==> NormalChar(c) == '-'
    ensures c !in UPPER && c !in "/_." ==> NormalChar(c) == c
  {
    assert 'A' <= c <= 'Z' ==> c == UPPER[c as int - 65];
  }

  predicate NoLeading(s: string) {
    s == [] || s[0] != '-'
  }

  predicate NoTrailing(s: string) {
    s == [] || s[|s| - 1] != '-'
  }

  lemma {:induction false} TrimLeftShape(s: string)
    ensures NoLeading(TrimLeft(s)) && |TrimLeft(s)| <= |s| && s[|s| - |TrimLeft(s)|..] == TrimLeft(s)
    ensures NoLeading(s) ==> TrimLeft(s) == s
    decreases |s|
  {
    if s != [] && s[0] == '-' {
      TrimLeftShape(s[1..]);
    }
  }

  lemma {:induction false} TrimRightShape(s: string)
    ensures NoTrailing(TrimRight(s)) && TrimRight(s) <= s
    ensures NoTrailing(s) ==> TrimRight(s) == s
    decreases |s|
  {
    if s != [] && s[|s| - 1] == '-' {
      TrimRightShape(s[..|s| - 1]);
    }
  }

  /** What every sanitized name looks like; only a name cut to the maximal length can end in a hyphen. */
  lemma SanitizedShape(s: string)
    ensures var r := SanitizeName(s);
            && |r| <= MAX_NAME && AllNormal(r) && NoLeading(r)
            && (|r| < MAX_NAME || |s| <= MAX_NAME ==> NoTrailing(r))
  {
    var n := Normalized(s);
    TrimLeftShape(n);
    TrimRightShape(TrimLeft(n));
    var l, t := TrimLeft(n), TrimRight(TrimLeft(n));
    forall i | 0 <= i < |n| ensures NormalChar(n[i]) == n[i] {
    }
    forall i | 0 <= i < |t| ensures NormalChar(t[i]) == t[i] {
      assert t[i] == l[i] == n[|n| - |l| + i];
    }
  }

  /** The names that sanitizing leaves unchanged. */
  lemma FixedIff(s: string)
    ensures SanitizeName(s) == s <==> |s| <= MAX_NAME && AllNormal(s) && NoLeading(s) && NoTrailing(s)
  {
    SanitizedShape(s);
    if AllNormal(s) && NoLeading(s) && NoTrailing(s) {
      assert Normalized(s) == s;
      TrimLeftShape(s);
      TrimRightShape(s);
    }
  }

  // ---------- The characters that sanitizing turns into hyphens ----------

  predicate HyphenLike(c: char) {
    c == '-' || c == '/' || c == '_' || c == '.'
  }

  function StripLeft(s: string): string {
    if s != [] && HyphenLike(s[0]) then StripLeft(s[1..]) else s
  }

  function StripRight(s: string): string {
    if s != [] && HyphenLike(s[|s| - 1]) then StripRight(s[..|s| - 1]) else s
  }

  /** The name without the hyphen-like characters at its ends. */
  function Core(s: string): string {
    StripRight(StripLeft(s))
  }

  lemma {:induction false} StripLeftTrims(s: string)
    ensures TrimLeft(Normalized(s)) == Normalized(StripLeft(s))
    decreases |s|
  {
    if s != [] && HyphenLike(s[0]) {
      assert Normalized(s)[1..] == Normalized(s[1..]);
      StripLeftTrims(s[1..]);
    }
  }

  lemma {:induction false} StripRightTrims(s: string)
    ensures TrimRight(Normalized(s)) == Normalized(StripRight(s))
    decreases |s|
  {
    if s != [] && HyphenLike(s[|s| - 1]) {
      assert Normalized(s)[..|s| - 1] == Normalized(s[..|s| - 1]);
      StripRightTrims(s[..|s| - 1]);
    }
  }

  lemma TrimmedIsCore(s: string)
    ensures Trimmed(s) == Normalized(Core(s))
  {
    StripLeftTrims(s);
    StripRightTrims(StripLeft(s));
  }

  /** Sanitizing twice is sanitizing once exactly when the name, without what is hyphen-like at its ends, is short
      enough or has no hyphen-like character where it is cut. */
  lemma IdempotentIff(s: string)
    ensures SanitizeName(SanitizeName(s)) == SanitizeName(s)
            <==> |Core(s)| <= MAX_NAME || !HyphenLike(Core(s)[MAX_NAME - 1])
    ensures SanitizeName(SanitizeName(s)) == SanitizeName(s) <==> NoTrailing(SanitizeName(s))
  {
    TrimmedIsCore(s);
    FixedIff(SanitizeName(s));
    SanitizedShape(s);
    TrimRightShape(TrimLeft(Normalized(s)));
  }

  predicate SameSoFar(a: string, b: string, n: nat) {
    n <= |a| && n <= |b| && forall i | 0 <= i < n :: NormalChar(a[i]) == NormalChar(b[i])
  }

  function CutLength(s: string): nat {
    if |s| > MAX_NAME then MAX_NAME else |s|
  }

  /** Two names share a resource name exactly when, without what is hyphen-like at their ends, they agree up to case
      and the kind of hyphen: in full if they are short, and up to the cut if they are not. */
  lemma CollideIff(a: string, b: string)
    ensures SanitizeName(a) == SanitizeName(b)
            <==> CutLength(Core(a)) == CutLength(Core(b)) && SameSoFar(Core(a), Core(b), CutLength(Core(a)))
  {
    TrimmedIsCore(a);
    TrimmedIsCore(b);
    var x, y := SanitizeName(a), SanitizeName(b);
    assert |x| == CutLength(Core(a)) && |y| == CutLength(Core(b));
    assert forall i | 0 <= i < |x| :: x[i] == NormalChar(Core(a)[i]);
    assert forall i | 0 <= i < |y| :: y[i] == NormalChar(Core(b)[i]);
    if x == y {
      forall i | 0 <= i < |x| ensures NormalChar(Core(a)[i]) == NormalChar(Core(b)[i]) {
        assert x[i] == y[i];
      }
    }
  }

  /** Short names with nothing hyphen-like at their ends collide just when they agree character by character. */
  lemma ShortNamesCollideIff(a: string, b: string)
    requires |a| <= MAX_NAME && |b| <= MAX_NAME && Core(a) == a && Core(b) == b
    ensures SanitizeName(a) == SanitizeName(b) <==> |a| == |b| && SameSoFar(a, b, |a|)
  {
    CollideIff(a, b);
  }

  /** The second pass always reaches a name that the third leaves unchanged. */
  lemma TwoPassesSettle(s: string)
    ensures var twice := SanitizeName(SanitizeName(s)); SanitizeName(twice) == twice
  {
    SanitizedShape(s);
    SanitizedShape(SanitizeName(s));
    FixedIff(SanitizeName(SanitizeName(s)));
  }

  /** A name that is cut right after a hyphen is not a fixed point. */
  lemma SanitizeNotIdempotent() returns (s: string)
    ensures SanitizeName(SanitizeName(s)) != SanitizeName(s)
  {
    s := seq(62, i => 'a') + "-b";
    assert forall i | 0 <= i < |s| :: NormalChar(s[i]) == s[i];
    assert Normalized(s) == s;
    assert StripLeft(s) == s && StripRight(s) == s;
    IdempotentIff(s);
  }

  /** Two names that differ only where one has a dot or underscore and the other a hyphen share a resource name. */
  lemma SanitizeNotInjective(s: string, i: nat)
    requires i < |s|
    ensures SanitizeName(s[i := '.']) == SanitizeName(s[i := '_']) == SanitizeName(s[i := '-'])
  {
    assert Normalized(s[i := '.']) == Normalized(s[i := '_']) == Normalized(s[i := '-']);
  }

  /** Long names collide whatever follows the cut. */
  lemma CutNamesCollide(s: string, a: string, b: string)
    requires |s| >= MAX_NAME && Core(s + a) == s + a && Core(s + b) == s + b
    ensures SanitizeName(s + a) == SanitizeName(s + b)
  {
    CollideIff(s + a, s + b);
  }
}
