/** `getPullRequestInfo`: recognise GitHub's merge-commit subject and build the
    path of the pull request it names. */
module PullRequest {
  import opened Wrappers
  import opened Decimal
  import opened Repository

  const MergePrefix: string := "Merge pull request #"
  const FromMarker: string := " from"

  /** `subject` is `Merge pull request #<digits> from<rest>`. */
  predicate MergeSubjectWith(subject: string, digits: string, rest: string) {
    digits != [] && AllDigits(digits) && subject == MergePrefix + digits + FromMarker + rest
  }

  /** Length of the run of digits at the start of `s`. */
  function DigitRun(s: string): (k: nat)
    ensures k <= |s| && AllDigits(s[..k])
    ensures k < |s| ==> !IsDigit(s[k])
  {
    if s == [] || !IsDigit(s[0]) then 0
    else
      var k := 1 + DigitRun(s[1..]);
      assert s[..k] == [s[0]] + s[1..][..k - 1];
      k
  }

  /** The anchored merge-subject pattern and the base-10 parse of its digit
      group: the pull request number, or `undefined`. The
      greedy digit run is followed by a space, which is no digit, so the match
      never backtracks into it. */
  function MatchMergeSubject(subject: string): (r: Option<nat>)
    ensures r.Some? ==>
      exists digits, rest :: MergeSubjectWith(subject, digits, rest) && r.value == ParseDecimal(digits)
  {
    if !(MergePrefix <= subject) then None
    else
      var tail := subject[|MergePrefix|..];
      var k := DigitRun(tail);
      if k > 0 && FromMarker <= tail[k..] then
        assert MergeSubjectWith(subject, tail[..k], tail[k + |FromMarker|..]) by {
          assert tail == tail[..k] + FromMarker + tail[k + |FromMarker|..];
          assert subject == MergePrefix + tail;
        }
        Some(ParseDecimal(tail[..k]))
      else None
  }

  /** The digit run stops at the first character that is not a digit. */
  lemma {:induction false} DigitRunOf(digits: string, rest: string)
    requires AllDigits(digits) && rest != [] && !IsDigit(rest[0])
    ensures DigitRun(digits + rest) == |digits|
  {
    if digits != [] {
      assert (digits + rest)[1..] == digits[1..] + rest;
      DigitRunOf(digits[1..], rest);
    }
  }

  /** Every subject of the merge-commit form is recognised, with its number. */
  lemma MatchComplete(subject: string, digits: string, rest: string)
    requires MergeSubjectWith(subject, digits, rest)
    ensures MatchMergeSubject(subject) == Some(ParseDecimal(digits))
  {
    var tail := digits + FromMarker + rest;
    assert subject == MergePrefix + tail;
    assert subject[|MergePrefix|..] == tail;
    assert tail == digits + (FromMarker + rest);
    DigitRunOf(digits, FromMarker + rest);
    assert tail[..|digits|] == digits;
    assert tail[|digits|..] == FromMarker + rest;
  }

  /** The subject of a merged pull request numbered 42. */
  lemma MatchExample()
    ensures MatchMergeSubject("Merge pull request #42 from feature/x") == Some(42)
  {
    assert "Merge pull request #42 from feature/x" == MergePrefix + "42" + FromMarker + " feature/x";
    MatchComplete("Merge pull request #42 from feature/x", "42", " feature/x");
  }

  /** A subject whose digits are not followed by ` from` is no merge subject. */
  lemma RejectExample()
    ensures MatchMergeSubject("Merge pull request #42: fix") == None
  {
    var s := "Merge pull request #42: fix";
    var tail := s[|MergePrefix|..];
    assert tail == "42: fix";
    DigitRunOf("42", ": fix");
    assert tail[2..] == ": fix";
  }

  /** The request path `/repos/{owner}/{repo}/pulls/{number}`. */
  function PullRequestPath(r: Repo, n: nat): (p: string)
    ensures var prefix := "/repos/" + r.owner + "/" + r.repo + "/pulls/";
      prefix <= p && Canonical(p[|prefix|..]) && ParseDecimal(p[|prefix|..]) == n
  {
    ParsePrinted(n);
    "/repos/" + r.owner + "/" + r.repo + "/pulls/" + NatToString(n)
  }

  /** Different pull requests of one repository are looked up at different paths. */
  lemma PathDistinguishesNumbers(r: Repo, n: nat, m: nat)
    requires PullRequestPath(r, n) == PullRequestPath(r, m)
    ensures n == m
  {
    var prefix := "/repos/" + r.owner + "/" + r.repo + "/pulls/";
    assert PullRequestPath(r, n)[|prefix|..] == NatToString(n);
    assert PullRequestPath(r, m)[|prefix|..] == NatToString(m);
    PrintInjective(n, m);
  }

  /** A subject whose number is written without leading zeros is looked up at
      the path ending in exactly those digits. */
  lemma PathCarriesSubjectNumber(subject: string, digits: string, rest: string, r: Repo)
    requires MergeSubjectWith(subject, digits, rest) && Canonical(digits)
    ensures MatchMergeSubject(subject).Some?
    ensures PullRequestPath(r, MatchMergeSubject(subject).value)
            == "/repos/" + r.owner + "/" + r.repo + "/pulls/" + digits
  {
    MatchComplete(subject, digits, rest);
    PrintParsed(digits);
  }

  /** Leading zeros are dropped: `#007` is looked up as pull request 7. */
  lemma LeadingZerosDropped(r: Repo)
    ensures MatchMergeSubject("Merge pull request #007 from x") == Some(7)
    ensures PullRequestPath(r, 7) == "/repos/" + r.owner + "/" + r.repo + "/pulls/7"
  {
    var subject := "Merge pull request #007 from x";
    assert subject == MergePrefix + "007" + FromMarker + " x" by {
      assert subject[..|MergePrefix|] == MergePrefix;
      assert subject[|MergePrefix|..] == "007" + FromMarker + " x";
    }
    MatchComplete(subject, "007", " x");
    ParseZeroPadded();
  }

  lemma ParseZeroPadded()
    ensures ParseDecimal("007") == 7
  {
    assert "007"[..2] == "00" && "00"[..1] == "0" && "0"[..0] == "";
  }
}
