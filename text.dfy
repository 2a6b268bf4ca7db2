/** The string operations the backend relies on: `String.prototype.split`
    with a one-character separator, ASCII lower-casing and substring search
    (the `contains` filter of the query layer). */
module Text {

  /** The inverse of `Split`: the parts glued back together with `sep`. */
  function Join(parts: seq<string>, sep: char): string
  {
    if parts == [] then []
    else if |parts| == 1 then parts[0]
    else parts[0] + [sep] + Join(parts[1..], sep)
  }

  /** `s.split(sep)`: the maximal runs between separators, in order; an empty
      run wherever two separators meet or the string starts or ends with one. */
  function Split(s: string, sep: char): (parts: seq<string>)
    ensures |parts| >= 1
    ensures forall i :: 0 <= i < |parts| ==> sep !in parts[i]
    ensures Join(parts, sep) == s
    decreases |s|
  {
    if s == [] then [[]]
    else
      var rest := Split(s[1..], sep);
      if s[0] == sep then
        assert s == [sep] + s[1..];
        [[]] + rest
      else
        var parts := [[s[0]] + rest[0]] + rest[1..];
        assert parts[1..] == rest[1..];
        assert |rest| > 1 ==> Join(rest, sep) == rest[0] + [sep] + Join(rest[1..], sep);
        assert s == [s[0]] + s[1..];
        parts
  }

  /** Splitting undoes joining whenever no part contains the separator. */
  lemma {:induction false} SplitJoin(parts: seq<string>, sep: char)
    requires |parts| >= 1
    requires forall i :: 0 <= i < |parts| ==> sep !in parts[i]
    ensures Split(Join(parts, sep), sep) == parts
    decreases |parts|, |parts[0]|
  {
    if |parts| == 1 {
      SplitJoinWord(parts[0], sep);
    } else if parts[0] == [] {
      SplitJoin(parts[1..], sep);
      var s := Join(parts, sep);
      assert s == [sep] + Join(parts[1..], sep);
      assert s[1..] == Join(parts[1..], sep);
      assert parts == [[]] + parts[1..];
    } else {
      var w := parts[0];
      var shorter := [w[1..]] + parts[1..];
      forall i | 0 <= i < |shorter| ensures sep !in shorter[i] {
        if i == 0 { assert forall c :: c in w[1..] ==> c in w; } else { assert shorter[i] == parts[i]; }
      }
      SplitJoin(shorter, sep);
      assert shorter[1..] == parts[1..];
      var s := Join(parts, sep);
      assert s == w + [sep] + Join(parts[1..], sep);
      assert Join(shorter, sep) == w[1..] + [sep] + Join(parts[1..], sep);
      assert s[0] == w[0] && w[0] != sep;
      assert s[1..] == Join(shorter, sep);
      var rest := Split(s[1..], sep);
      assert rest == shorter;
      assert [w[0]] + w[1..] == w;
      assert parts == [w] + parts[1..];
    }
  }

  /** A word without the separator splits into itself. */
  lemma {:induction false} SplitJoinWord(w: string, sep: char)
    requires sep !in w
    ensures Split(w, sep) == [w]
    decreases |w|
  {
    if w != [] {
      assert forall c :: c in w[1..] ==> c in w;
      SplitJoinWord(w[1..], sep);
      assert [w[0]] + w[1..] == w;
    }
  }

  /** ASCII case folding, the folding the model applies for case-insensitive matching. */
  function LowerChar(c: char): char
  {
    if 'A' <= c <= 'Z' then (c as int + 32) as char else c
  }

  function Lower(s: string): (r: string)
    ensures |r| == |s|
    ensures forall i :: 0 <= i < |s| ==> r[i] == LowerChar(s[i])
  {
    seq(|s|, i requires 0 <= i < |s| => LowerChar(s[i]))
  }

  /** Two strings that differ at most in the case of ASCII letters. */
  ghost predicate SameIgnoringCase(a: string, b: string)
  {
    |a| == |b| && forall i :: 0 <= i < |a| ==> LowerChar(a[i]) == LowerChar(b[i])
  }

  /** Folding identifies exactly the strings that are equal up to case. */
  lemma LowerSameIgnoringCase(a: string, b: string)
    ensures SameIgnoringCase(a, b) <==> Lower(a) == Lower(b)
  {
    if Lower(a) == Lower(b) {
      assert forall i :: 0 <= i < |a| ==> Lower(a)[i] == Lower(b)[i];
    }
  }

  /** `sub` occurs in `s` starting at index `k`. */
  ghost predicate OccursAt(sub: string, s: string, k: int)
  {
    0 <= k && k + |sub| <= |s| && s[k..k + |sub|] == sub
  }

  /** Substring search by scanning every start position. */
  function Contains(s: string, sub: string): (b: bool)
    ensures b <==> exists k :: OccursAt(sub, s, k)
    decreases |s|
  {
    if |sub| <= |s| && s[..|sub|] == sub then
      assert OccursAt(sub, s, 0);
      true
    else if s == [] then
      assert forall k :: !OccursAt(sub, s, k);
      false
    else
      var found := Contains(s[1..], sub);
      assert forall k :: OccursAt(sub, s[1..], k) ==> OccursAt(sub, s, k + 1) by {
        forall k | OccursAt(sub, s[1..], k) ensures OccursAt(sub, s, k + 1) {
          assert s[1..][k..k + |sub|] == s[k + 1..k + 1 + |sub|];
        }
      }
      assert forall k :: OccursAt(sub, s, k) ==> k >= 1 && OccursAt(sub, s[1..], k - 1) by {
        forall k | OccursAt(sub, s, k) ensures k >= 1 && OccursAt(sub, s[1..], k - 1) {
          assert s[..|sub|] == s[0..0 + |sub|];
          assert s[1..][k - 1..k - 1 + |sub|] == s[k..k + |sub|];
        }
      }
      found
  }

  /** Case-insensitive substring test: `contains` with `mode: 'insensitive'`. */
  function ContainsIgnoringCase(s: string, sub: string): (b: bool)
    ensures b <==> exists k :: MatchesAtIgnoringCase(sub, s, k)
  {
    ContainsFolded(s, sub);
    Contains(Lower(s), Lower(sub))
  }

  /** `sub` appears in `s` at offset `k`, up to case. */
  ghost predicate MatchesAtIgnoringCase(sub: string, s: string, k: int)
  {
    0 <= k && k + |sub| <= |s| && SameIgnoringCase(s[k..k + |sub|], sub)
  }

  /** An occurrence of the folded pattern in the folded subject is a stretch
      of the subject that equals the pattern up to case. */
  lemma ContainsFolded(s: string, sub: string)
    ensures forall k :: OccursAt(Lower(sub), Lower(s), k) <==> MatchesAtIgnoringCase(sub, s, k)
  {
    forall k | 0 <= k && k + |sub| <= |s|
      ensures OccursAt(Lower(sub), Lower(s), k) <==> MatchesAtIgnoringCase(sub, s, k)
    {
      LowerSameIgnoringCase(s[k..k + |sub|], sub);
      assert Lower(s)[k..k + |sub|] == Lower(s[k..k + |sub|]);
    }
  }

  /** The case of the pattern and of the subject never changes the answer. */
  lemma ContainsIgnoringCaseRespectsCase(s: string, s': string, sub: string, sub': string)
    requires SameIgnoringCase(s, s') && SameIgnoringCase(sub, sub')
    ensures ContainsIgnoringCase(s, sub) == ContainsIgnoringCase(s', sub')
  {
    LowerSameIgnoringCase(s, s');
    LowerSameIgnoringCase(sub, sub');
  }
}
