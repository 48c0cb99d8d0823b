/** What `analyzeCommits` computes, stated on values: every label of every
    merged pull request is mapped through the label map onto the ladder, and the
    highest rung found is the release type. */
module Analysis {
  import opened Wrappers
  import opened JsValues
  import opened ReleaseTypes
  import opened Host
  import opened Repository
  import opened PullRequest
  import opened Decimal

  /** The GitHub pull-request lookup: from request path to the names of the
      pull request's labels, or `undefined` when the response has no `labels`. */
  type LabelFetcher = string -> Option<seq<string>>

  /** The ladder position of the release type a label is mapped to. */
  function LabelIndex(labels: JsValue, name: string): (i: int)
    ensures -1 <= i < |Ladder|
    ensures i == -1 <==> !OnLadder(Prop(labels, name))
    ensures i >= 0 ==> Prop(labels, name) == Str(Ladder[i])
  {
    IndexOf(Prop(labels, name))
  }

  /** The labels of the pull request a commit merged, `undefined` for any other commit. */
  function PullRequestLabels(c: Commit, r: Repo, fetch: LabelFetcher): (ls: Option<seq<string>>)
    ensures ls.Some? ==> exists digits, rest ::
      MergeSubjectWith(c.subject, digits, rest) && ls == fetch(PullRequestPath(r, ParseDecimal(digits)))
  {
    MapOptional(MatchMergeSubject(c.subject), (n: nat) => fetch(PullRequestPath(r, n)))
  }

  /** The ladder positions one commit contributes: one per label of its pull request. */
  function CommitIndexes(labels: JsValue, r: Repo, fetch: LabelFetcher, c: Commit): (xs: seq<int>)
    ensures forall i :: 0 <= i < |xs| ==> -1 <= xs[i] < |Ladder|
  {
    match PullRequestLabels(c, r, fetch)
    case None => []
    case Some(names) => seq(|names|, i requires 0 <= i < |names| => LabelIndex(labels, names[i]))
  }

  /** The positions of each commit, commit by commit. */
  function PerCommit(labels: JsValue, r: Repo, fetch: LabelFetcher, commits: seq<Commit>): (xss: seq<seq<int>>)
    ensures |xss| == |commits|
    ensures forall j :: 0 <= j < |commits| ==> xss[j] == CommitIndexes(labels, r, fetch, commits[j])
  {
    seq(|commits|, j requires 0 <= j < |commits| => CommitIndexes(labels, r, fetch, commits[j]))
  }

  /** The lists one after the other. */
  function Flatten(xss: seq<seq<int>>): seq<int> {
    if xss == [] then [] else Flatten(xss[..|xss| - 1]) + xss[|xss| - 1]
  }

  /** A value occurs in the flattened list exactly when it occurs in one of the lists. */
  lemma {:induction false} InFlatten(xss: seq<seq<int>>, x: int)
    ensures x in Flatten(xss) <==> exists j :: 0 <= j < |xss| && x in xss[j]
  {
    if xss != [] {
      var init := xss[..|xss| - 1];
      InFlatten(init, x);
      if exists j :: 0 <= j < |init| && x in init[j] {
        var j :| 0 <= j < |init| && x in init[j];
        assert xss[j] == init[j];
      }
      if exists j :: 0 <= j < |xss| && x in xss[j] {
        var j :| 0 <= j < |xss| && x in xss[j];
        if j < |init| {
          assert xss[j] == init[j];
        }
      }
    }
  }

  lemma {:induction false} FlattenConcat(xss: seq<seq<int>>, yss: seq<seq<int>>)
    ensures Flatten(xss + yss) == Flatten(xss) + Flatten(yss)
  {
    if yss == [] {
      assert xss + yss == xss;
    } else {
      assert (xss + yss)[..|xss + yss| - 1] == xss + yss[..|yss| - 1];
      assert (xss + yss)[|xss + yss| - 1] == yss[|yss| - 1];
      FlattenConcat(xss, yss[..|yss| - 1]);
    }
  }

  /** The positions contributed by all commits, in commit order: what the loop
      of `analyzeCommits` spreads into `Math.max`, commit after commit. */
  function AllIndexes(labels: JsValue, r: Repo, fetch: LabelFetcher, commits: seq<Commit>): (xs: seq<int>)
    ensures forall i :: 0 <= i < |xs| ==> -1 <= xs[i] < |Ladder|
  {
    var xss := PerCommit(labels, r, fetch, commits);
    var xs := Flatten(xss);
    assert forall i :: 0 <= i < |xs| ==> -1 <= xs[i] < |Ladder| by {
      forall i | 0 <= i < |xs| ensures -1 <= xs[i] < |Ladder| {
        InFlatten(xss, xs[i]);
      }
    }
    xs
  }

  function Max(a: int, b: int): int {
    if a < b then b else a
  }

  /** `Math.max(k, ...xs)` */
  function MaxOf(k: int, xs: seq<int>): (m: int)
    ensures k <= m
    ensures forall i :: 0 <= i < |xs| ==> xs[i] <= m
    ensures m == k || m in xs
  {
    if xs == [] then k
    else Max(MaxOf(k, xs[..|xs| - 1]), xs[|xs| - 1])
  }

  /** The result of `analyzeCommits` once the token and repository are resolved:
      the rung at the highest position found, `undefined` when none is. */
  function ReleaseType(labels: JsValue, r: Repo, fetch: LabelFetcher, commits: seq<Commit>): (t: Option<string>)
    ensures t.Some? ==> t.value in Ladder
  {
    RungAt(MaxOf(-1, AllIndexes(labels, r, fetch, commits)))
  }

  /** Spreading two lists into `Math.max` one after the other is spreading their concatenation. */
  lemma {:induction false} MaxOfConcat(k: int, xs: seq<int>, ys: seq<int>)
    ensures MaxOf(MaxOf(k, xs), ys) == MaxOf(k, xs + ys)
  {
    if ys == [] {
      assert xs + ys == xs;
    } else {
      assert (xs + ys)[..|xs + ys| - 1] == xs + ys[..|ys| - 1];
      assert (xs + ys)[|xs + ys| - 1] == ys[|ys| - 1];
      MaxOfConcat(k, xs, ys[..|ys| - 1]);
    }
  }

  /** The maximum depends only on which values occur, not on their order or number. */
  lemma MaxOfSameElements(k: int, xs: seq<int>, ys: seq<int>)
    requires forall x :: x in xs <==> x in ys
    ensures MaxOf(k, xs) == MaxOf(k, ys)
  {
    var a, b := MaxOf(k, xs), MaxOf(k, ys);
    assert a == k || a in ys;
    assert b == k || b in xs;
  }

  lemma AllIndexesConcat(labels: JsValue, r: Repo, fetch: LabelFetcher, cs: seq<Commit>, ds: seq<Commit>)
    ensures AllIndexes(labels, r, fetch, cs + ds) == AllIndexes(labels, r, fetch, cs) + AllIndexes(labels, r, fetch, ds)
  {
    assert PerCommit(labels, r, fetch, cs + ds) == PerCommit(labels, r, fetch, cs) + PerCommit(labels, r, fetch, ds);
    FlattenConcat(PerCommit(labels, r, fetch, cs), PerCommit(labels, r, fetch, ds));
  }

  /** One more commit appends its positions. */
  lemma AllIndexesStep(labels: JsValue, r: Repo, fetch: LabelFetcher, commits: seq<Commit>, i: nat)
    requires i < |commits|
    ensures AllIndexes(labels, r, fetch, commits[..i + 1])
            == AllIndexes(labels, r, fetch, commits[..i]) + CommitIndexes(labels, r, fetch, commits[i])
  {
    var xss := PerCommit(labels, r, fetch, commits[..i]);
    var ys := CommitIndexes(labels, r, fetch, commits[i]);
    var pre, next := commits[..i], commits[..i + 1];
    assert forall j :: 0 <= j < i ==> next[j] == pre[j];
    assert next[i] == commits[i];
    assert PerCommit(labels, r, fetch, next) == xss + [ys];
    assert (xss + [ys])[..|xss|] == xss;
  }

  /** Some commit contributes position `x`. */
  ghost predicate Contributed(labels: JsValue, r: Repo, fetch: LabelFetcher, commits: seq<Commit>, x: int) {
    exists j :: 0 <= j < |commits| && x in CommitIndexes(labels, r, fetch, commits[j])
  }

  /** A position occurs among all commits' positions exactly when some commit contributes it. */
  lemma InAllIndexes(labels: JsValue, r: Repo, fetch: LabelFetcher, commits: seq<Commit>, x: int)
    ensures x in AllIndexes(labels, r, fetch, commits) <==> Contributed(labels, r, fetch, commits, x)
  {
    var xss := PerCommit(labels, r, fetch, commits);
    InFlatten(xss, x);
    if Contributed(labels, r, fetch, commits, x) {
      var j :| 0 <= j < |commits| && x in CommitIndexes(labels, r, fetch, commits[j]);
      assert x in xss[j];
    }
  }

  /** Every position in the list is off the ladder. */
  predicate NoneOnLadder(xs: seq<int>) {
    forall i :: 0 <= i < |xs| ==> xs[i] == -1
  }

  /** The rung of the highest position in a list of positions, `undefined`
      exactly when every position is off the ladder. */
  lemma RungOfHighest(xs: seq<int>)
    requires forall i :: 0 <= i < |xs| ==> -1 <= xs[i] < |Ladder|
    ensures RungAt(MaxOf(-1, xs)).None? <==> NoneOnLadder(xs)
    ensures RungAt(MaxOf(-1, xs)).Some? ==>
      exists i :: 0 <= i < |xs| && 0 <= xs[i] && RungAt(MaxOf(-1, xs)) == Some(Ladder[xs[i]]) &&
        forall j :: 0 <= j < |xs| ==> xs[j] <= xs[i]
  {
    var m := MaxOf(-1, xs);
    if m != -1 {
      var i :| 0 <= i < |xs| && xs[i] == m;
      assert xs[i] != -1;
    }
  }

  /** `analyzeCommits` returns the highest rung that some label of some merged
      pull request is mapped to, and `undefined` exactly when no label is
      mapped onto the ladder. */
  lemma HighestRungWins(labels: JsValue, r: Repo, fetch: LabelFetcher, commits: seq<Commit>)
    ensures var xs := AllIndexes(labels, r, fetch, commits);
      (ReleaseType(labels, r, fetch, commits).None? <==> NoneOnLadder(xs)) &&
      (ReleaseType(labels, r, fetch, commits).Some? ==>
        exists i :: 0 <= i < |xs| && 0 <= xs[i] && ReleaseType(labels, r, fetch, commits) == Some(Ladder[xs[i]]) &&
          forall j :: 0 <= j < |xs| ==> xs[j] <= xs[i])
  {
    var xs := AllIndexes(labels, r, fetch, commits);
    assert ReleaseType(labels, r, fetch, commits) == RungAt(MaxOf(-1, xs));
    RungOfHighest(xs);
  }

  /** The result does not depend on the order of the commits. */
  lemma CommitOrderIrrelevant(labels: JsValue, r: Repo, fetch: LabelFetcher, cs: seq<Commit>, ds: seq<Commit>)
    requires multiset(cs) == multiset(ds)
    ensures ReleaseType(labels, r, fetch, cs) == ReleaseType(labels, r, fetch, ds)
  {
    var xs, ys := AllIndexes(labels, r, fetch, cs), AllIndexes(labels, r, fetch, ds);
    forall x ensures x in xs <==> x in ys {
      InAllIndexes(labels, r, fetch, cs, x);
      InAllIndexes(labels, r, fetch, ds, x);
      if x in xs {
        assert Contributed(labels, r, fetch, cs, x);
        var j :| 0 <= j < |cs| && x in CommitIndexes(labels, r, fetch, cs[j]);
        assert cs[j] in multiset(ds);
        var j' :| 0 <= j' < |ds| && ds[j'] == cs[j];
      }
      if x in ys {
        assert Contributed(labels, r, fetch, ds, x);
        var j :| 0 <= j < |ds| && x in CommitIndexes(labels, r, fetch, ds[j]);
        assert ds[j] in multiset(cs);
        var j' :| 0 <= j' < |cs| && cs[j'] == ds[j];
      }
    }
    MaxOfSameElements(-1, xs, ys);
  }

  /** The position after a prefix of the commits never exceeds the position
      after a longer prefix: the running index never decreases. */
  lemma RunningIndexNeverDecreases(labels: JsValue, r: Repo, fetch: LabelFetcher, commits: seq<Commit>, i: nat, j: nat)
    requires i <= j <= |commits|
    ensures MaxOf(-1, AllIndexes(labels, r, fetch, commits[..i])) <= MaxOf(-1, AllIndexes(labels, r, fetch, commits[..j]))
  {
    assert commits[..j] == commits[..i] + commits[i..j];
    AllIndexesConcat(labels, r, fetch, commits[..i], commits[i..j]);
    MaxOfConcat(-1, AllIndexes(labels, r, fetch, commits[..i]), AllIndexes(labels, r, fetch, commits[i..j]));
  }

  /** A commit whose positions are all off the ladder leaves the result unchanged. */
  lemma OffLadderCommitChangesNothing(labels: JsValue, r: Repo, fetch: LabelFetcher, commits: seq<Commit>, c: Commit)
    requires NoneOnLadder(CommitIndexes(labels, r, fetch, c))
    ensures ReleaseType(labels, r, fetch, commits + [c]) == ReleaseType(labels, r, fetch, commits)
  {
    var xs := AllIndexes(labels, r, fetch, commits);
    var ys := CommitIndexes(labels, r, fetch, c);
    AllIndexesStep(labels, r, fetch, commits + [c], |commits|);
    assert (commits + [c])[..|commits|] == commits && (commits + [c])[..|commits| + 1] == commits + [c];
    MaxOfConcat(-1, xs, ys);
  }

  /** A commit that is no merge contributes nothing, nor does one whose pull
      request has no labels, an empty label list, or only labels that are
      absent from the map or mapped off the ladder. */
  lemma SilentCommitIndexes(labels: JsValue, r: Repo, fetch: LabelFetcher, c: Commit)
    requires var n := MatchMergeSubject(c.subject);
      n.None? || fetch(PullRequestPath(r, n.value)).None? ||
      forall name :: name in fetch(PullRequestPath(r, n.value)).value ==> !OnLadder(Prop(labels, name))
    ensures NoneOnLadder(CommitIndexes(labels, r, fetch, c))
  {
    var ys := CommitIndexes(labels, r, fetch, c);
    if PullRequestLabels(c, r, fetch).Some? {
      var names := PullRequestLabels(c, r, fetch).value;
      assert forall i :: 0 <= i < |ys| ==> ys[i] == LabelIndex(labels, names[i]) && names[i] in names;
    }
  }

  /** Such a commit leaves the release type unchanged. */
  lemma SilentCommitChangesNothing(labels: JsValue, r: Repo, fetch: LabelFetcher, commits: seq<Commit>, c: Commit)
    requires var n := MatchMergeSubject(c.subject);
      n.None? || fetch(PullRequestPath(r, n.value)).None? ||
      forall name :: name in fetch(PullRequestPath(r, n.value)).value ==> !OnLadder(Prop(labels, name))
    ensures ReleaseType(labels, r, fetch, commits + [c]) == ReleaseType(labels, r, fetch, commits)
  {
    SilentCommitIndexes(labels, r, fetch, c);
    OffLadderCommitChangesNothing(labels, r, fetch, commits, c);
  }

  /** Rungs do not add up: when every contributing label is mapped to the same
      rung, that rung is the result. */
  lemma SameRungNotAdditive(labels: JsValue, r: Repo, fetch: LabelFetcher, commits: seq<Commit>, k: nat)
    requires k < |Ladder|
    requires var xs := AllIndexes(labels, r, fetch, commits);
      (forall i :: 0 <= i < |xs| ==> xs[i] == k || xs[i] == -1) && k in xs
    ensures ReleaseType(labels, r, fetch, commits) == Some(Ladder[k])
  {
    var xs := AllIndexes(labels, r, fetch, commits);
    assert MaxOf(-1, xs) == k;
  }

  /** A merge commit contributes one position per label of its pull request,
      looked up at the path of the number in its subject. */
  lemma MergeCommitIndexes(labels: JsValue, r: Repo, fetch: LabelFetcher, c: Commit, digits: string, rest: string)
    requires MergeSubjectWith(c.subject, digits, rest)
    requires fetch(PullRequestPath(r, Decimal.ParseDecimal(digits))).Some?
    ensures var names := fetch(PullRequestPath(r, Decimal.ParseDecimal(digits))).value;
      CommitIndexes(labels, r, fetch, c) == seq(|names|, i requires 0 <= i < |names| => LabelIndex(labels, names[i]))
  {
    MatchComplete(c.subject, digits, rest);
  }
}
