/** The seven-rung ladder of semantic-release release types, weakest first.
    A rung's position on the ladder is its priority. */
module ReleaseTypes {
  import opened Wrappers
  import opened JsValues

  const Ladder: seq<string> :=
    ["prerelease", "prepatch", "patch", "preminor", "minor", "premajor", "major"]

  /** `releaseTypes.includes(v)`: strict equality with one of the rungs, so
      only a string can be on the ladder. */
  predicate OnLadder(v: JsValue)
    ensures OnLadder(v) <==> exists i :: 0 <= i < |Ladder| && v == Str(Ladder[i])
  {
    v.Str? && v.s in Ladder
  }

  /** `releaseTypes.indexOf(v)`: the rung of a ladder string, -1 for any other value. */
  function IndexOf(v: JsValue): (i: int)
    ensures -1 <= i < |Ladder|
    ensures i == -1 <==> !OnLadder(v)
    ensures i >= 0 ==> v == Str(Ladder[i])
  {
    if !v.Str? then -1
    else if v.s == "prerelease" then 0
    else if v.s == "prepatch" then 1
    else if v.s == "patch" then 2
    else if v.s == "preminor" then 3
    else if v.s == "minor" then 4
    else if v.s == "premajor" then 5
    else if v.s == "major" then 6
    else -1
  }

  /** `releaseTypes[i]`: the rung at a position, `undefined` off the ladder. */
  function RungAt(i: int): (r: Option<string>)
    ensures r.Some? <==> 0 <= i < |Ladder|
    ensures r.Some? ==> IndexOf(Str(r.value)) == i
  {
    if 0 <= i < |Ladder| then Some(Ladder[i]) else None
  }

  /** Each rung is at exactly one position, so position and name determine each other. */
  lemma RungsDistinct(i: int, j: int)
    requires 0 <= i < |Ladder| && 0 <= j < |Ladder| && Ladder[i] == Ladder[j]
    ensures i == j
  {
    assert IndexOf(Str(Ladder[i])) == i;
  }

  /** No rung contains a slash, so none reads as an `owner/repo` identifier. */
  lemma RungsHaveNoSlash(v: JsValue)
    requires OnLadder(v)
    ensures '/' !in v.s
  {
  }
}
