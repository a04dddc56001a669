/** The error-line filter of the diagnostics phase: matching lines, deduplicated and annotated with their counts. */
module LogFilter {
  const ERROR_PATTERNS := ["error", "fatal", "panic", "traceback", "exception"]

  predicate OccursAt(s: string, sub: string, i: int) {
    0 <= i <= |s| - |sub| && s[i..i + |sub|] == sub
  }

  predicate Contains(s: string, sub: string) {
    exists i | 0 <= i <= |s| - |sub| :: OccursAt(s, sub, i)
  }

  /** A line is kept when its lower-case form contains a pattern; how letters are lowered is a parameter. */
  predicate Matches(lower: string -> string, line: string) {
    exists p | p in ERROR_PATTERNS :: Contains(lower(line), p)
  }

  /** A line is kept exactly when, lowered, it is one of the five words with something before and after it. */
  lemma MatchesIff(lower: string -> string, line: string)
    ensures Matches(lower, line) <==>
            exists before, after, p :: p in ["error", "fatal", "panic", "traceback", "exception"]
                                       && lower(line) == before + p + after
  {
    var s := lower(line);
    if p :| p in ERROR_PATTERNS && Contains(s, p) {
      var i :| 0 <= i <= |s| - |p| && OccursAt(s, p, i);
      assert s == s[..i] + p + s[i + |p|..];
    }
    if before, after, p :| p in ERROR_PATTERNS && s == before + p + after {
      assert s[|before|..|before| + |p|] == p;
      assert OccursAt(s, p, |before|);
      assert Contains(s, p);
    }
  }

  /** Matching keeps exactly the matching lines, in their order and as often as they occur. */
  lemma {:induction false} MatchingKeeps(lower: string -> string, lines: seq<string>, line: string)
    ensures multiset(Matching(lower, lines))[line] == if Matches(lower, line) then multiset(lines)[line] else 0
    decreases |lines|
  {
    if lines != [] {
      MatchingKeeps(lower, lines[..|lines| - 1], line);
      assert lines == lines[..|lines| - 1] + [lines[|lines| - 1]];
    }
  }

  lemma {:induction false} MatchingInOrder(lower: string -> string, a: seq<string>, b: seq<string>)
    ensures Matching(lower, a + b) == Matching(lower, a) + Matching(lower, b)
    decreases |b|
  {
    if b == [] {
      assert a + b == a;
    } else {
      MatchingInOrder(lower, a, b[..|b| - 1]);
      assert (a + b)[..|a + b| - 1] == a + b[..|b| - 1];
    }
  }

  function Matching(lower: string -> string, lines: seq<string>): seq<string> {
    if lines == [] then []
    else
      var rest := Matching(lower, lines[..|lines| - 1]);
      var last := lines[|lines| - 1];
      if Matches(lower, last) then rest + [last] else rest
  }

  /** The distinct elements, in order of first occurrence. */
  function Firsts(ms: seq<string>): seq<string> {
    if ms == [] then []
    else
      var rest := Firsts(ms[..|ms| - 1]);
      var last := ms[|ms| - 1];
      if last in rest then rest else rest + [last]
  }

  // ---------- Decimal notation ----------

  const DIGITS := "0123456789"

  function Decimal(n: nat): (s: string)
    ensures |s| >= 1
    ensures forall c | c in s :: c in DIGITS
  {
    if n < 10 then [DIGITS[n]] else Decimal(n / 10) + [DIGITS[n % 10]]
  }

  /** What a decimal notation stands for. */
  function Value(s: string): nat {
    if s == [] then 0 else 10 * Value(s[..|s| - 1]) + DigitValue(s[|s| - 1])
  }

  function DigitValue(c: char): nat {
    if '0' <= c <= '9' then c as int - '0' as int else 0
  }

  lemma {:induction false} DecimalMeans(n: nat)
    ensures Value(Decimal(n)) == n
  {
    if n >= 10 {
      DecimalMeans(n / 10);
      var s := Decimal(n);
      assert s[..|s| - 1] == Decimal(n / 10) && s[|s| - 1] == DIGITS[n % 10];
    } else {
      assert Decimal(n)[..0] == [];
    }
  }

  function Annotated(line: string, count: nat): string {
    if count > 1 then line + " (seen " + Decimal(count) + " times)" else line
  }

  // ---------- The code ----------

  method FilterErrorLines(lower: string -> string, lines: seq<string>) returns (result: seq<string>)
    ensures var ms := Matching(lower, lines);
            && |result| == |Firsts(ms)|
            && forall i | 0 <= i < |result| :: result[i] == Annotated(Firsts(ms)[i], multiset(ms)[Firsts(ms)[i]])
  {
    var seen;
    result, seen := CountMatching(lower, lines);
    ghost var ms := Matching(lower, lines);
    for i := 0 to |result|
      invariant |result| == |Firsts(ms)|
      invariant forall j | 0 <= j < i :: result[j] == Annotated(Firsts(ms)[j], multiset(ms)[Firsts(ms)[j]])
      invariant forall j | i <= j < |result| :: result[j] == Firsts(ms)[j]
    {
      var line := result[i];
      assert line in Firsts(ms);
      var count := seen[line];
      if count > 1 {
        result := result[i := line + " (seen " + Decimal(count) + " times)"];
      }
    }
  }

  method CountMatching(lower: string -> string, lines: seq<string>)
    returns (distinct: seq<string>, seen: map<string, nat>)
    ensures distinct == Firsts(Matching(lower, lines))
    ensures forall s :: s in seen <==> s in distinct
    ensures forall s | s in seen :: seen[s] == multiset(Matching(lower, lines))[s]
  {
    seen, distinct := map[], [];
    for k := 0 to |lines|
      invariant distinct == Firsts(Matching(lower, lines[..k]))
      invariant forall s :: s in seen <==> s in distinct
      invariant Tallied(Matching(lower, lines[..k]), seen)
    {
      assert lines[..k + 1][..k] == lines[..k];
      var line := lines[k];
      ghost var before := Matching(lower, lines[..k]);
      if Matches(lower, line) {
        assert (before + [line])[..|before|] == before;
        TallyOneMore(before, seen, line);
        if line in seen {
          seen := seen[line := seen[line] + 1];
        } else {
          seen := seen[line := 1];
          distinct := distinct + [line];
        }
      }
    }
    assert lines[..|lines|] == lines;
  }

  ghost predicate Tallied(ms: seq<string>, seen: map<string, nat>) {
    && (forall s | s in ms :: s in seen)
    && (forall s | s in seen :: seen[s] == multiset(ms)[s])
  }

  lemma TallyOneMore(ms: seq<string>, seen: map<string, nat>, line: string)
    requires Tallied(ms, seen)
    ensures Tallied(ms + [line], seen[line := if line in seen then seen[line] + 1 else 1])
  {
    if line !in seen {
      assert line !in ms && multiset(ms)[line] == 0;
    }
  }

  // ---------- What the result means ----------

  ghost predicate Distinct(s: seq<string>) {
    forall i, j | 0 <= i < j < |s| :: s[i] != s[j]
  }

  /** Position i is where its value first occurs. */
  ghost predicate FirstAt(ms: seq<string>, i: int) {
    0 <= i < |ms| && ms[i] !in ms[..i]
  }

  /** Firsts lists every element once, in the order of first occurrences. */
  lemma {:induction false} FirstsInOrder(ms: seq<string>) returns (at: seq<int>)
    ensures Distinct(Firsts(ms)) && forall s :: s in Firsts(ms) <==> s in ms
    ensures |at| == |Firsts(ms)| && forall a, b | 0 <= a < b < |at| :: at[a] < at[b]
    ensures forall a | 0 <= a < |at| :: FirstAt(ms, at[a]) && ms[at[a]] == Firsts(ms)[a]
    decreases |ms|
  {
    if ms == [] {
      at := [];
    } else {
      var n := |ms| - 1;
      var init := ms[..n];
      at := FirstsInOrder(init);
      assert ms == init + [ms[n]];
      forall a | 0 <= a < |at| ensures FirstAt(ms, at[a]) && ms[at[a]] == Firsts(init)[a] {
        assert ms[..at[a]] == init[..at[a]];
      }
      if ms[n] !in Firsts(init) {
        assert FirstAt(ms, n);
        at := at + [n];
      }
    }
  }

  function Multiplicities(distinct: seq<string>, ms: multiset<string>): nat {
    if distinct == [] then 0
    else Multiplicities(distinct[..|distinct| - 1], ms) + ms[distinct[|distinct| - 1]]
  }

  /** The multiplicities of distinct elements that cover a multiset add up to its size. */
  lemma {:induction false} MultiplicitiesCover(distinct: seq<string>, ms: multiset<string>)
    requires Distinct(distinct) && forall s | s in ms :: s in distinct
    ensures Multiplicities(distinct, ms) == |ms|
    decreases |distinct|
  {
    if distinct == [] {
      assert ms == multiset{};
    } else {
      var n := |distinct| - 1;
      var init, last := distinct[..n], distinct[n];
      var fewer := ms[last := 0];
      assert last !in init;
      MultiplicitiesCover(init, fewer);
      MultiplicitiesSame(init, ms, fewer);
      assert ms == fewer + multiset{}[last := ms[last]];
    }
  }

  lemma {:induction false} MultiplicitiesSame(distinct: seq<string>, a: multiset<string>, b: multiset<string>)
    requires forall s | s in distinct :: a[s] == b[s]
    ensures Multiplicities(distinct, a) == Multiplicities(distinct, b)
    decreases |distinct|
  {
    if distinct != [] {
      MultiplicitiesSame(distinct[..|distinct| - 1], a, b);
    }
  }

  /** Conservation: the counts of the reported lines add up to the number of matching lines, at most all lines. */
  lemma CountsConserved(lower: string -> string, lines: seq<string>)
    ensures var ms := Matching(lower, lines);
            Multiplicities(Firsts(ms), multiset(ms)) == |ms| <= |lines|
  {
    var ms := Matching(lower, lines);
    var at := FirstsInOrder(ms);
    MultiplicitiesCover(Firsts(ms), multiset(ms));
    MatchingFewer(lower, lines);
  }

  lemma {:induction false} MatchingFewer(lower: string -> string, lines: seq<string>)
    ensures |Matching(lower, lines)| <= |lines|
  {
    if lines != [] {
      MatchingFewer(lower, lines[..|lines| - 1]);
    }
  }

  // ---------- When the annotated lines are still distinct ----------

  /** The annotation determines the line: the count's digits are what follows the last "(seen ". */
  lemma AnnotationInjective(a: string, m: nat, b: string, n: nat)
    requires m > 1 && n > 1 && Annotated(a, m) == Annotated(b, n)
    ensures a == b && m == n
  {
    var sa, sb := a + " (seen ", b + " (seen ";
    var x, y := Annotated(a, m), Annotated(b, n);
    assert x == sa + Decimal(m) + " times)" && y == sb + Decimal(n) + " times)";
    assert x[..|x| - 7] == sa + Decimal(m) && y[..|y| - 7] == sb + Decimal(n);
    LastSpace(sa, Decimal(m), sb, Decimal(n));
    assert sa[..|a|] == a && sb[..|b|] == b;
    DecimalInjective(m, n);
  }

  lemma {:induction false} DecimalInjective(m: nat, n: nat)
    requires Decimal(m) == Decimal(n)
    ensures m == n
  {
    var s := Decimal(m);
    if m >= 10 && n >= 10 {
      assert s[..|s| - 1] == Decimal(m / 10) && s[..|s| - 1] == Decimal(n / 10);
      DecimalInjective(m / 10, n / 10);
      SameDigit(m % 10, n % 10);
    } else if m < 10 && n < 10 {
      SameDigit(m, n);
    }
  }

  lemma SameDigit(i: int, j: int)
    requires 0 <= i < 10 && 0 <= j < 10 && DIGITS[i] == DIGITS[j]
    ensures i == j
  {
  }

  lemma LastSpace(p: string, d: string, q: string, e: string)
    requires p + d == q + e && p != [] && q != [] && p[|p| - 1] == ' ' && q[|q| - 1] == ' '
    requires (forall c | c in d :: c in DIGITS) && (forall c | c in e :: c in DIGITS)
    ensures p == q && d == e
  {
    NoLaterSpace(p, d, q, e);
    NoLaterSpace(q, e, p, d);
    var s := p + d;
    assert p == s[..|p|] && q == s[..|q|];
    assert d == s[|p|..] && e == s[|q|..];
  }

  lemma NoLaterSpace(p: string, d: string, q: string, e: string)
    requires p + d == q + e && q != [] && q[|q| - 1] == ' '
    requires forall c | c in d :: c in DIGITS
    ensures |q| <= |p|
  {
    var s := p + d;
    forall i | |p| <= i < |s| ensures s[i] in DIGITS {
      assert s[i] == d[i - |p|];
    }
    assert s[|q| - 1] == q[|q| - 1];
  }

  /** A line of the log that reads like the annotation of another, repeated, line. */
  ghost predicate Lookalike(ms: seq<string>, plain: string, repeated: string) {
    && plain in ms && repeated in ms
    && multiset(ms)[plain] == 1 && multiset(ms)[repeated] > 1
    && plain == Annotated(repeated, multiset(ms)[repeated])
  }

  /** The annotated lines are distinct exactly when no single line of the log reads like an annotation. */
  lemma AnnotatedDistinctIff(ms: seq<string>, result: seq<string>)
    requires |result| == |Firsts(ms)|
    requires forall i | 0 <= i < |result| :: result[i] == Annotated(Firsts(ms)[i], multiset(ms)[Firsts(ms)[i]])
    ensures Distinct(result) <==> !exists a, b :: Lookalike(ms, a, b)
  {
    if a, b :| Lookalike(ms, a, b) {
      LookalikesCollide(ms, result, a, b);
    }
    if !Distinct(result) {
      var i, j :| 0 <= i < j < |result| && result[i] == result[j];
      CollisionsLookAlike(ms, i, j);
    }
  }

  /** A log that quotes an annotated line of another: both are reported as "error (seen 2 times)". */
  lemma LookalikeLog(lower: string -> string)
    requires forall line | line in ["error", "error (seen 2 times)"] :: lower(line) == line
    ensures var lines := ["error", "error", "error (seen 2 times)"];
            Matching(lower, lines) == lines && Lookalike(lines, "error (seen 2 times)", "error")
  {
    var lines := ["error", "error", "error (seen 2 times)"];
    forall line | line in lines ensures Matches(lower, line) {
      StartsWithError(lower, line);
    }
    AllMatching(lower, lines);
    QuotedLine();
  }

  lemma StartsWithError(lower: string -> string, line: string)
    requires lower(line) == line && |line| >= 5 && line[..5] == "error"
    ensures Matches(lower, line)
  {
    assert ERROR_PATTERNS[0] == "error" && OccursAt(line, "error", 0);
    assert Contains(lower(line), ERROR_PATTERNS[0]);
  }

  lemma {:induction false} AllMatching(lower: string -> string, lines: seq<string>)
    requires forall line | line in lines :: Matches(lower, line)
    ensures Matching(lower, lines) == lines
  {
    if lines != [] {
      AllMatching(lower, lines[..|lines| - 1]);
    }
  }

  lemma QuotedLine()
    ensures Lookalike(["error", "error", "error (seen 2 times)"], "error (seen 2 times)", "error")
  {
    var quote := "error (seen 2 times)";
    assert Decimal(2) == "2";
    assert Annotated("error", 2) == quote;
    assert |quote| > |"error"|;
    assert multiset(["error", "error", quote]) == multiset{"error", "error", quote};
  }

  lemma LookalikesCollide(ms: seq<string>, result: seq<string>, a: string, b: string)
    requires |result| == |Firsts(ms)|
    requires forall i | 0 <= i < |result| :: result[i] == Annotated(Firsts(ms)[i], multiset(ms)[Firsts(ms)[i]])
    requires Lookalike(ms, a, b)
    ensures !Distinct(result)
  {
    var at := FirstsInOrder(ms);
    var i :| 0 <= i < |result| && Firsts(ms)[i] == a;
    var j :| 0 <= j < |result| && Firsts(ms)[j] == b;
    assert result[i] == result[j] && i != j;
  }

  lemma CollisionsLookAlike(ms: seq<string>, i: int, j: int)
    requires 0 <= i < j < |Firsts(ms)|
    requires Annotated(Firsts(ms)[i], multiset(ms)[Firsts(ms)[i]])
             == Annotated(Firsts(ms)[j], multiset(ms)[Firsts(ms)[j]])
    ensures exists a, b :: Lookalike(ms, a, b)
  {
    var at := FirstsInOrder(ms);
    var a, b := Firsts(ms)[i], Firsts(ms)[j];
    assert a != b && a in ms && b in ms;
    var m, n := multiset(ms)[a], multiset(ms)[b];
    if m > 1 && n > 1 {
      AnnotationInjective(a, m, b, n);
    } else if m > 1 {
      assert Lookalike(ms, b, a);
    } else {
      assert Lookalike(ms, a, b);
    }
  }
}
