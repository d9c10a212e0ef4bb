/** The two global regular-expression scans the entropy estimator runs:
    `password.match(/(.)\1{2,}/g)` for repeated characters and
    `password.match(new RegExp(pattern, 'g'))` for the three sequential-pattern
    families. A global `match` scans from the left; where the expression
    matches it records the match and resumes after it, otherwise it moves on by
    one code unit. */
module Patterns {
  import opened Text

  /** One match of a global scan: where it starts and how many code units it spans. */
  datatype Match = Match(start: nat, len: nat)

  /** The number of copies of p[i] that follow one another from position i. */
  function RunLength(p: Password, i: nat): (k: nat)
    requires i < |p|
    ensures 1 <= k <= |p| - i
    ensures forall j :: i <= j < i + k ==> p[j] == p[i]
    ensures i + k == |p| || p[i + k] != p[i]
    decreases |p| - i
  {
    if i + 1 < |p| && p[i + 1] == p[i] then 1 + RunLength(p, i + 1) else 1
  }

  /** `/(.)\1{2,}/` matches at position i: the code unit there is not a line
      terminator and at least two more copies of it follow. The greedy `{2,}`
      then takes the whole run. */
  predicate RepeatAt(p: Password, i: nat)
    requires i < |p|
  {
    RunLength(p, i) >= 3 && !IsLineTerminator(p[i])
  }

  /** The matches of `/(.)\1{2,}/g` from position i on. */
  function RepeatMatchesFrom(p: Password, i: nat): seq<Match>
    requires i <= |p|
    decreases |p| - i
  {
    if i == |p| then []
    else if RepeatAt(p, i) then [Match(i, RunLength(p, i))] + RepeatMatchesFrom(p, i + RunLength(p, i))
    else RepeatMatchesFrom(p, i + 1)
  }

  /** `password.match(/(.)\1{2,}/g)`, as the list of its matches. */
  function RepeatMatches(p: Password): (ms: seq<Match>)
    ensures Ordered(p, ms)
    ensures forall m :: m in ms ==> IsMaximalRun(p, m.start, m.len) && m.len >= 3 && !IsLineTerminator(p[m.start])
  {
    RepeatMatchesFromSound(p, 0);
    RepeatMatchesFromOrdered(p, 0);
    RepeatMatchesFrom(p, 0)
  }

  /** The code units p[s..s+k] are one maximal block of a single repeated code unit. */
  predicate IsMaximalRun(p: Password, s: nat, k: nat)
  {
    1 <= k && s + k <= |p|
    && (forall j :: s <= j < s + k ==> p[j] == p[s])
    && (s == 0 || p[s - 1] != p[s])
    && (s + k == |p| || p[s + k] != p[s])
  }

  /** Matches lie inside the password, left to right, without overlapping. */
  predicate Ordered(p: Password, ms: seq<Match>)
  {
    (forall a :: 0 <= a < |ms| ==> ms[a].start + ms[a].len <= |p|)
    && (forall a, b :: 0 <= a < b < |ms| ==> ms[a].start + ms[a].len <= ms[b].start)
  }

  /** The scan never resumes in the middle of a run it could have matched. */
  predicate ScanInvariant(p: Password, i: nat)
  {
    0 < i < |p| && p[i - 1] == p[i] ==> !RepeatAt(p, i)
  }

  lemma {:induction false} RepeatMatchesFromSound(p: Password, i: nat)
    requires i <= |p| && ScanInvariant(p, i)
    ensures forall m :: m in RepeatMatchesFrom(p, i) ==>
              i <= m.start && IsMaximalRun(p, m.start, m.len) && m.len >= 3 && !IsLineTerminator(p[m.start])
    decreases |p| - i
  {
    if i < |p| {
      var k := RunLength(p, i);
      if RepeatAt(p, i) {
        assert p[i + k - 1] == p[i];
        assert ScanInvariant(p, i + k);
        assert IsMaximalRun(p, i, k);
        RepeatMatchesFromSound(p, i + k);
        assert RepeatMatchesFrom(p, i) == [Match(i, k)] + RepeatMatchesFrom(p, i + k);
      } else {
        if i + 1 < |p| && p[i + 1] == p[i] {
          assert RunLength(p, i) == 1 + RunLength(p, i + 1);
        }
        assert ScanInvariant(p, i + 1);
        RepeatMatchesFromSound(p, i + 1);
      }
    }
  }

  lemma {:induction false} RepeatMatchesFromComplete(p: Password, i: nat, s: nat, k: nat)
    requires i <= s && IsMaximalRun(p, s, k) && k >= 3 && !IsLineTerminator(p[s])
    ensures Match(s, k) in RepeatMatchesFrom(p, i)
    decreases |p| - i
  {
    if i == s {
      assert RunLength(p, s) == k;
    } else {
      var r := RunLength(p, i);
      if RepeatAt(p, i) {
        assert i + r <= s;
        RepeatMatchesFromComplete(p, i + r, s, k);
      } else {
        RepeatMatchesFromComplete(p, i + 1, s, k);
      }
    }
  }

  lemma {:induction false} RepeatMatchesFromOrdered(p: Password, i: nat)
    requires i <= |p|
    ensures Ordered(p, RepeatMatchesFrom(p, i))
    ensures forall m :: m in RepeatMatchesFrom(p, i) ==> i <= m.start
    decreases |p| - i
  {
    if i < |p| {
      if RepeatAt(p, i) {
        RepeatMatchesFromOrdered(p, i + RunLength(p, i));
      } else {
        RepeatMatchesFromOrdered(p, i + 1);
      }
    }
  }

  /** The repeated-character scan finds exactly the maximal runs of three or
      more identical code units (other than line terminators), each matched
      whole, from left to right. */
  lemma RepeatMatchesAreMaximalRuns(p: Password)
    ensures Ordered(p, RepeatMatches(p))
    ensures forall m :: m in RepeatMatches(p) ==>
              IsMaximalRun(p, m.start, m.len) && m.len >= 3 && !IsLineTerminator(p[m.start])
    ensures forall s: nat, k: nat :: IsMaximalRun(p, s, k) && k >= 3 && !IsLineTerminator(p[s]) ==>
              Match(s, k) in RepeatMatches(p)
  {
    forall s: nat, k: nat | IsMaximalRun(p, s, k) && k >= 3 && !IsLineTerminator(p[s])
      ensures Match(s, k) in RepeatMatches(p)
    {
      RepeatMatchesFromComplete(p, 0, s, k);
    }
  }

  /** `/(.)\1{2,}/.test(p)`: the expression matches somewhere. */
  predicate HasRepeat(p: Password)
  {
    exists i :: 0 <= i < |p| && RepeatAt(p, i)
  }

  lemma {:induction false} RepeatMatchesFromNonEmpty(p: Password, i: nat, j: nat)
    requires i <= j < |p| && RepeatAt(p, j)
    ensures RepeatMatchesFrom(p, i) != []
    decreases |p| - i
  {
    if !RepeatAt(p, i) {
      RepeatMatchesFromNonEmpty(p, i + 1, j);
    }
  }

  /** The `test` used for feedback and the global `match` used for entropy agree
      on whether a repeated run exists. */
  lemma HasRepeatIffMatches(p: Password)
    ensures HasRepeat(p) <==> RepeatMatches(p) != []
  {
    if HasRepeat(p) {
      var j :| 0 <= j < |p| && RepeatAt(p, j);
      RepeatMatchesFromNonEmpty(p, 0, j);
    }
    if RepeatMatches(p) != [] {
      RepeatMatchesFromSound(p, 0);
      var m := RepeatMatches(p)[0];
      assert m in RepeatMatches(p);
      assert RunLength(p, m.start) == m.len;
      assert RepeatAt(p, m.start);
    }
  }

  // ---------------------------------------------------------------------------
  // Sequential patterns

  /** `abc|bcd|...|xyz` */
  const AlphabetTriads: seq<string> :=
    ["abc", "bcd", "cde", "def", "efg", "fgh", "ghi", "hij", "ijk", "jkl", "klm", "lmn",
     "mno", "nop", "opq", "pqr", "qrs", "rst", "stu", "tuv", "uvw", "vwx", "wxy", "xyz"]

  /** `012|123|...|789` */
  const DigitTriads: seq<string> :=
    ["012", "123", "234", "345", "456", "567", "678", "789"]

  /** `qwe|wer|...|bnm` */
  const KeyboardTriads: seq<string> :=
    ["qwe", "wer", "ert", "rty", "tyu", "yui", "uio", "iop", "asd", "sdf", "dfg", "fgh",
     "ghj", "hjk", "jkl", "zxc", "xcv", "cvb", "vbn", "bnm"]

  /** The three families in the order the estimator scans them. */
  const SequenceFamilies: seq<seq<string>> := [AlphabetTriads, DigitTriads, KeyboardTriads]

  /** Some alternative of the family matches at position i. The scan is
      case-sensitive: `new RegExp(pattern, 'g')` keeps the source of `pattern`
      and replaces its flags, so the `i` of the literal is dropped. */
  predicate TriadAt(p: Password, i: nat, family: seq<string>)
  {
    i + 3 <= |p| &&
    exists t :: t in family && |t| == 3 && forall j :: 0 <= j < 3 ==> p[i + j] as int == t[j] as int
  }

  /** The matches of one family's global scan from position i on. */
  function SequenceMatchesFrom(p: Password, family: seq<string>, i: nat): (ms: seq<Match>)
    requires i <= |p|
    ensures forall m :: m in ms ==> m.len == 3 && i <= m.start && TriadAt(p, m.start, family)
    decreases |p| - i
  {
    if i == |p| then []
    else if TriadAt(p, i, family) then [Match(i, 3)] + SequenceMatchesFrom(p, family, i + 3)
    else SequenceMatchesFrom(p, family, i + 1)
  }

  /** `password.match(new RegExp(pattern, 'g'))` for one family. */
  function SequenceMatches(p: Password, family: seq<string>): (ms: seq<Match>)
    ensures forall m :: m in ms ==> m.len == 3 && TriadAt(p, m.start, family)
  {
    SequenceMatchesFrom(p, family, 0)
  }
}
