/** Substring search as the scheduler's stop-sequence check uses it:
    `std::string::find` from the start of the text. */
module Text {
  import opened Outcomes

  /** `pat` occurs in `text` starting at position `i`. */
  predicate OccursAt(text: string, pat: string, i: nat) {
    i + |pat| <= |text| && text[i..i + |pat|] == pat
  }

  /** The first position at or after `from` where `pat` occurs, or `None`
      (`npos`). The empty pattern occurs at every position up to `|text|`. */
  function Find(text: string, pat: string, from: nat): (r: Option<nat>)
    ensures r.Some? ==> from <= r.value && OccursAt(text, pat, r.value)
    ensures r.Some? ==> forall i :: from <= i < r.value ==> !OccursAt(text, pat, i)
    ensures r.None? <==> forall i :: from <= i ==> !OccursAt(text, pat, i)
    decreases |text| - from
  {
    if from + |pat| > |text| then
      None
    else if text[from..from + |pat|] == pat then
      assert OccursAt(text, pat, from);
      Some(from)
    else
      Find(text, pat, from + 1)
  }

  /** Some stop sequence occurs somewhere in `text`. */
  function MatchesStop(text: string, stops: seq<string>): (r: bool)
    ensures r <==> exists j, i :: 0 <= j < |stops| && OccursAt(text, stops[j], i)
  {
    if |stops| == 0 then
      false
    else if Find(text, stops[0], 0).Some? then
      assert OccursAt(text, stops[0], Find(text, stops[0], 0).value);
      true
    else
      var rest := MatchesStop(text, stops[1..]);
      assert rest ==> exists j, i :: 0 <= j < |stops| && OccursAt(text, stops[j], i) by {
        if rest {
          var j, i :| 0 <= j < |stops[1..]| && OccursAt(text, stops[1..][j], i);
          assert OccursAt(text, stops[j + 1], i);
        }
      }
      assert (exists j, i :: 0 <= j < |stops| && OccursAt(text, stops[j], i)) ==> rest by {
        if exists j, i :: 0 <= j < |stops| && OccursAt(text, stops[j], i) {
          var j, i :| 0 <= j < |stops| && OccursAt(text, stops[j], i);
          assert j != 0;
          assert OccursAt(text, stops[1..][j - 1], i);
        }
      }
      rest
  }

  /** The empty stop sequence matches every text. */
  lemma EmptyStopMatches(text: string, stops: seq<string>)
    requires "" in stops
    ensures MatchesStop(text, stops)
  {
    var j :| 0 <= j < |stops| && stops[j] == "";
    assert OccursAt(text, stops[j], 0);
  }
}
