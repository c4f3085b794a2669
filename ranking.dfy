/**
 * The hybrid rescoring rule of the query path: query terms, lexical matches
 * against a candidate's source, the additive boost, and Python's stable
 * `list.sort(key=score, reverse=True)`.
 */
module Ranking {
  import opened Types
  import opened Strings
  import opened Collections

  /** The query terms: the distinct whitespace-separated tokens of the lower-cased question with at least 3 characters. */
  function Terms(question: string): (ts: set<string>)
    ensures forall t :: t in ts ==> |t| >= 3 && NoSpace(t) && forall c :: c in t ==> !IsUpper(c)
  {
    assert forall c :: c in Lower(question) ==> !IsUpper(c);
    set t | t in Split(Lower(question)) && |t| >= 3
  }

  /** Terms of text joined by a whitespace character are the terms of both sides. */
  lemma TermsAtSpace(a: string, c: char, b: string)
    requires IsSpace(c)
    ensures Terms(a + [c] + b) == Terms(a) + Terms(b)
  {
    LowerAppend(a + [c], b);
    LowerAppend(a, [c]);
    assert Lower([c]) == [c];
    SplitAtSpace(Lower(a), c, Lower(b));
  }

  /** A single word yields its lower-cased self when it has at least 3 characters, and nothing otherwise. */
  lemma TermsOfWord(w: string)
    requires w != [] && NoSpace(w)
    ensures Terms(w) == if |w| >= 3 then {Lower(w)} else {}
  {
    SplitWord(Lower(w));
  }

  /** A question of whitespace only has no terms. */
  lemma TermsOfBlank(s: string)
    requires Blank(s)
    ensures Terms(s) == {}
  {
    SplitBlank(Lower(s));
  }

  /** How many terms occur in the lower-cased source. */
  function Matches(terms: set<string>, source: string): (m: nat)
    ensures m <= |terms|
    ensures m == 0 <==> forall t :: t in terms ==> !Contains(Lower(source), t)
  {
    var hits := set t | t in terms && Contains(Lower(source), t);
    SubsetCard(hits, terms);
    assert forall t :: t in terms && Contains(Lower(source), t) ==> t in hits;
    assert (forall t :: t in terms ==> !Contains(Lower(source), t)) ==> hits == {};
    |hits|
  }

  /** One candidate after rescoring. */
  function Rescored(terms: set<string>, r: SearchResult): (b: SearchResult)
    ensures b.text == r.text && b.source == r.source
    ensures Matches(terms, r.source) > 0 ==> b.score - r.score == 0.5 + 0.1 * (Matches(terms, r.source) as real)
    ensures b.score >= r.score
    ensures b.score == r.score <==> forall t :: t in terms ==> !Contains(Lower(r.source), t)
    ensures b.score <= r.score + 0.5 + 0.1 * (|terms| as real)
  {
    var m := Matches(terms, r.source);
    if m > 0 then r.(score := r.score + (0.5 + (m as real) * 0.1)) else r
  }

  /** Every candidate rescored, in place. */
  function RescoreAll(terms: set<string>, rs: seq<SearchResult>): (out: seq<SearchResult>)
    ensures |out| == |rs|
    ensures forall i :: 0 <= i < |rs| ==> out[i] == Rescored(terms, rs[i])
  {
    seq(|rs|, i requires 0 <= i < |rs| => Rescored(terms, rs[i]))
  }

  /** Without terms no score changes. */
  lemma NoTermsNoBoost(rs: seq<SearchResult>)
    ensures RescoreAll({}, rs) == rs
  {
    assert forall i :: 0 <= i < |rs| ==> RescoreAll({}, rs)[i] == rs[i];
  }

  // ---------------------------------------------------------------- sorting

  predicate NonIncreasing(s: seq<SearchResult>) {
    forall i, j :: 0 <= i < j < |s| ==> s[i].score >= s[j].score
  }

  /** The results with score `v`, in their order in `s`. */
  function WithScore(s: seq<SearchResult>, v: real): seq<SearchResult> {
    if s == [] then [] else (if s[0].score == v then [s[0]] else []) + WithScore(s[1..], v)
  }

  /** Inserts `x` after every element whose score is at least its own. */
  function InsertDesc(x: SearchResult, s: seq<SearchResult>): (r: seq<SearchResult>)
    ensures |r| == |s| + 1
    ensures multiset(r) == multiset(s) + multiset{x}
  {
    if s == [] then [x]
    else if s[0].score >= x.score then
      assert s == [s[0]] + s[1..];
      [s[0]] + InsertDesc(x, s[1..])
    else [x] + s
  }

  /** `list.sort(key=lambda r: r["score"], reverse=True)`: insertion sort, one element at a time. */
  function SortDesc(s: seq<SearchResult>): (r: seq<SearchResult>)
    ensures |r| == |s|
    ensures multiset(r) == multiset(s)
  {
    if s == [] then []
    else
      assert s == s[..|s| - 1] + [s[|s| - 1]];
      InsertDesc(s[|s| - 1], SortDesc(s[..|s| - 1]))
  }

  lemma {:induction false} InsertDescSorted(x: SearchResult, s: seq<SearchResult>)
    requires NonIncreasing(s)
    ensures NonIncreasing(InsertDesc(x, s))
  {
    if s != [] && s[0].score >= x.score {
      InsertDescSorted(x, s[1..]);
      var tail := InsertDesc(x, s[1..]);
      forall j | 0 <= j < |tail| ensures s[0].score >= tail[j].score {
        assert tail[j] in multiset(tail);
        if tail[j] != x {
          assert tail[j] in multiset(s[1..]);
          var k :| 0 <= k < |s[1..]| && s[1..][k] == tail[j];
          assert s[k + 1] == tail[j];
        }
      }
    }
  }

  /** The sorted list is non-increasing by adjusted score. */
  lemma {:induction false} SortDescSorted(s: seq<SearchResult>)
    ensures NonIncreasing(SortDesc(s))
  {
    if s != [] {
      SortDescSorted(s[..|s| - 1]);
      InsertDescSorted(s[|s| - 1], SortDesc(s[..|s| - 1]));
    }
  }

  lemma NonIncreasingPrefix(s: seq<SearchResult>, k: nat)
    requires NonIncreasing(s) && k <= |s|
    ensures NonIncreasing(s[..k])
  {
    assert forall i :: 0 <= i < k ==> s[..k][i] == s[i];
  }

  lemma NonIncreasingTail(s: seq<SearchResult>)
    requires NonIncreasing(s) && s != []
    ensures NonIncreasing(s[1..])
  {
    forall i, j | 0 <= i < j < |s| - 1 ensures s[1..][i].score >= s[1..][j].score {
      assert s[1..][i] == s[i + 1] && s[1..][j] == s[j + 1];
    }
  }

  lemma {:induction false} WithScoreAppend(a: seq<SearchResult>, b: seq<SearchResult>, v: real)
    ensures WithScore(a + b, v) == WithScore(a, v) + WithScore(b, v)
  {
    if a != [] {
      assert (a + b)[1..] == a[1..] + b;
      WithScoreAppend(a[1..], b, v);
    } else {
      assert a + b == b;
    }
  }

  lemma {:induction false} WithScoreAbsent(s: seq<SearchResult>, v: real)
    requires forall i :: 0 <= i < |s| ==> s[i].score != v
    ensures WithScore(s, v) == []
  {
    if s != [] {
      WithScoreAbsent(s[1..], v);
    }
  }

  lemma WithScoreCons(y: SearchResult, t: seq<SearchResult>, v: real)
    ensures WithScore([y] + t, v) == (if y.score == v then [y] else []) + WithScore(t, v)
  {
    assert ([y] + t)[1..] == t;
  }

  /** Placing a result before all smaller scores puts it last among those of its own score. */
  lemma InsertFrontWithScore(x: SearchResult, s: seq<SearchResult>, v: real)
    requires NonIncreasing(s) && s != [] && s[0].score < x.score
    ensures WithScore([x] + s, v) == WithScore(s, v) + WithScore([x], v)
  {
    WithScoreCons(x, s, v);
    WithScoreCons(x, [], v);
    if x.score == v {
      WithScoreAbsent(s, v);
    }
  }

  /** One step of the insertion: keeping the head in front keeps its place among the results of its score. */
  lemma InsertBehindWithScore(x: SearchResult, s: seq<SearchResult>, v: real)
    requires s != [] && s[0].score >= x.score
    requires WithScore(InsertDesc(x, s[1..]), v) == WithScore(s[1..], v) + WithScore([x], v)
    ensures WithScore(InsertDesc(x, s), v) == WithScore(s, v) + WithScore([x], v)
  {
    var tail := InsertDesc(x, s[1..]);
    var h := if s[0].score == v then [s[0]] else [];
    assert InsertDesc(x, s) == [s[0]] + tail;
    WithScoreCons(s[0], tail, v);
    assert WithScore(s, v) == h + WithScore(s[1..], v);
    ConcatAssoc(h, WithScore(s[1..], v), WithScore([x], v));
  }

  lemma {:induction false} InsertDescWithScore(x: SearchResult, s: seq<SearchResult>, v: real)
    requires NonIncreasing(s)
    ensures WithScore(InsertDesc(x, s), v) == WithScore(s, v) + WithScore([x], v)
  {
    if s == [] {
      WithScoreCons(x, [], v);
    } else if s[0].score >= x.score {
      NonIncreasingTail(s);
      InsertDescWithScore(x, s[1..], v);
      InsertBehindWithScore(x, s, v);
    } else {
      assert InsertDesc(x, s) == [x] + s;
      InsertFrontWithScore(x, s, v);
    }
  }

  /** The sort is stable: the results of each score keep their order. */
  lemma {:induction false} SortDescStable(s: seq<SearchResult>, v: real)
    ensures WithScore(SortDesc(s), v) == WithScore(s, v)
  {
    if s != [] {
      var init, last := s[..|s| - 1], s[|s| - 1];
      SortDescSorted(init);
      InsertDescWithScore(last, SortDesc(init), v);
      SortDescStable(init, v);
      WithScoreAppend(init, [last], v);
      assert init + [last] == s;
    }
  }

  lemma {:induction false} WithScoreMembers(s: seq<SearchResult>, v: real, x: SearchResult)
    ensures x in WithScore(s, v) <==> x in s && x.score == v
  {
    if s != [] {
      WithScoreMembers(s[1..], v, x);
      assert s == [s[0]] + s[1..];
    }
  }

  /**
   * A non-increasing arrangement that keeps the order within each score is unique:
   * any stable descending sort gives exactly SortDesc.
   */
  lemma {:induction false} SortedStableUnique(a: seq<SearchResult>, b: seq<SearchResult>)
    requires NonIncreasing(a) && NonIncreasing(b)
    requires forall v :: WithScore(a, v) == WithScore(b, v)
    ensures a == b
    decreases |a|
  {
    if a == [] || b == [] {
      if a != [] {
        WithScoreMembers(a, a[0].score, a[0]);
        assert false;
      }
      if b != [] {
        WithScoreMembers(b, b[0].score, b[0]);
        assert false;
      }
    } else {
      var va, vb := a[0].score, b[0].score;
      WithScoreMembers(a, vb, b[0]);
      WithScoreMembers(b, vb, b[0]);
      WithScoreMembers(a, va, a[0]);
      WithScoreMembers(b, va, a[0]);
      var i :| 0 <= i < |a| && a[i] == b[0];
      var j :| 0 <= j < |b| && b[j] == a[0];
      assert va >= vb && vb >= va;
      assert WithScore(a, va) == [a[0]] + WithScore(a[1..], va);
      assert WithScore(b, va) == [b[0]] + WithScore(b[1..], va);
      assert a[0] == WithScore(a, va)[0] == WithScore(b, va)[0] == b[0];
      forall v ensures WithScore(a[1..], v) == WithScore(b[1..], v) {
        var h := if va == v then [a[0]] else [];
        assert WithScore(a, v) == h + WithScore(a[1..], v);
        assert WithScore(b, v) == h + WithScore(b[1..], v);
        assert (h + WithScore(a[1..], v))[|h|..] == WithScore(a[1..], v);
        assert (h + WithScore(b[1..], v))[|h|..] == WithScore(b[1..], v);
      }
      NonIncreasingTail(a);
      NonIncreasingTail(b);
      SortedStableUnique(a[1..], b[1..]);
      assert a == [a[0]] + a[1..] && b == [b[0]] + b[1..];
    }
  }
}
