/** Resolving the end anchors of a drafted batch inside a source window
    (lib/episode_planner.py, `_resolve_boundaries`). */
module Boundaries {
  import opened Options
  import opened SourceText

  datatype Reason =
    | Missing(draft: nat)
    | Ambiguous(draft: nat, count: nat)
    | OutOfOrder(draft: nat)
    | TailLeft

  datatype Resolution = Resolved(ends: seq<nat>) | Rejected(reasons: seq<Reason>)

  // ---------- where an anchor stands ----------

  /** Every start of `a` in `w` from `from` on, overlapping ones included. */
  function Starts(w: string, a: string, from: nat): (s: seq<nat>)
    ensures |s| > 0 ==> s[0] + |a| <= |w|
    decreases |w| + 1 - from
  {
    if from + |a| > |w| then []
    else if OccursAt(w, a, from) then [from] + Starts(w, a, from + 1)
    else Starts(w, a, from + 1)
  }

  /** How often an anchor occurs, and where its first occurrence ends. */
  datatype Sight = Sight(count: nat, end: nat)

  function Look(w: string, a: string): (s: Sight)
    ensures s.end <= |w|
  {
    var starts := Starts(w, a, 0);
    Sight(|starts|, if |starts| == 0 then 0 else starts[0] + |a|)
  }

  function Sights(w: string, anchors: seq<string>): (s: seq<Sight>)
    ensures |s| == |anchors| && forall k :: 0 <= k < |anchors| ==> s[k] == Look(w, anchors[k]) && s[k].end <= |w|
  {
    if |anchors| == 0 then [] else [Look(w, anchors[0])] + Sights(w, anchors[1..])
  }

  ghost predicate OccursOnce(w: string, a: string) {
    exists i :: OccursAt(w, a, i) && forall j :: OccursAt(w, a, j) ==> j == i
  }

  lemma {:induction false} StartsAreTheOccurrences(w: string, a: string, from: nat)
    ensures forall i :: i in Starts(w, a, from) <==> from <= i && OccursAt(w, a, i)
    decreases |w| + 1 - from
  {
    if from + |a| <= |w| {
      StartsAreTheOccurrences(w, a, from + 1);
      var rest := Starts(w, a, from + 1);
      forall i ensures i in Starts(w, a, from) <==> from <= i && OccursAt(w, a, i) {
        assert i in rest <==> from + 1 <= i && OccursAt(w, a, i);
      }
    }
  }

  lemma {:induction false} StartsIncrease(w: string, a: string, from: nat)
    ensures forall j, k :: 0 <= j < k < |Starts(w, a, from)| ==> Starts(w, a, from)[j] < Starts(w, a, from)[k]
    decreases |w| + 1 - from
  {
    StartsAreTheOccurrences(w, a, from + 1);
    if from + |a| <= |w| {
      StartsIncrease(w, a, from + 1);
      var rest := Starts(w, a, from + 1);
      assert forall k :: 0 <= k < |rest| ==> rest[k] in rest;
    }
  }

  /** Counting with overlaps decides between missing, unique and ambiguous. */
  lemma CountDecides(w: string, a: string)
    ensures Look(w, a).count == 0 <==> forall i :: !OccursAt(w, a, i)
    ensures Look(w, a).count == 1 <==> OccursOnce(w, a)
  {
    StartsAreTheOccurrences(w, a, 0);
    StartsIncrease(w, a, 0);
    var s := Starts(w, a, 0);
    if |s| > 0 {
      assert OccursAt(w, a, s[0]) by { assert s[0] in s; }
      if |s| > 1 {
        assert OccursAt(w, a, s[1]) by { assert s[1] in s; }
      } else {
        forall j | OccursAt(w, a, j) ensures j == s[0] { assert j in s; }
      }
    }
  }

  // ---------- what a batch must satisfy ----------

  /** Where the episode before draft `k` ends. */
  function EndBefore(s: seq<Sight>, k: nat): nat
    requires k <= |s|
  {
    if k == 0 then 0 else s[k - 1].end
  }

  /** Draft `k` has a unique anchor that ends after the draft before it. */
  ghost predicate Advances(s: seq<Sight>, k: nat)
    requires k < |s|
  {
    s[k].count == 1 && EndBefore(s, k) < s[k].end
  }

  /** The first `n` drafts advance from offset 0. */
  ghost predicate Advancing(s: seq<Sight>, n: nat)
    requires n <= |s|
  {
    forall k :: 0 <= k < n ==> Advances(s, k)
  }

  /** Unique anchors, strictly advancing ends, and in a closed window only blank text after the last end. */
  ghost predicate Acceptable(w: string, anchors: seq<string>, coverToEnd: bool)
    requires |anchors| > 0
  {
    var s := Sights(w, anchors);
    Advancing(s, |s|) && (coverToEnd ==> Blank(w[s[|s| - 1].end..]))
  }

  /** Anchor `k` stands in the window exactly once, and its end comes after the end of the anchor before it. */
  ghost predicate StandsInOrder(w: string, anchors: seq<string>, k: nat)
    requires k < |anchors|
  {
    OccursOnce(w, anchors[k]) && (if k == 0 then 0 else Look(w, anchors[k - 1]).end) < Look(w, anchors[k]).end
  }

  /** The decision in words: every anchor stands in the window exactly once, overlaps counted;
      the ends advance; and a closed window leaves only blank text behind. */
  lemma AcceptableMeans(w: string, anchors: seq<string>, coverToEnd: bool)
    requires |anchors| > 0
    ensures Acceptable(w, anchors, coverToEnd) <==>
              && (forall k :: 0 <= k < |anchors| ==> StandsInOrder(w, anchors, k))
              && (coverToEnd ==> Blank(w[Look(w, anchors[|anchors| - 1]).end..]))
  {
    var s := Sights(w, anchors);
    forall k | 0 <= k < |anchors| ensures Advances(s, k) <==> StandsInOrder(w, anchors, k) {
      CountDecides(w, anchors[k]);
    }
  }

  /** Ends that cut a window of length `n` into non-empty consecutive pieces. */
  ghost predicate CutsPrefix(ends: seq<nat>, n: nat) {
    && |ends| > 0
    && 0 < ends[0]
    && (forall j, k :: 0 <= j < k < |ends| ==> ends[j] < ends[k])
    && ends[|ends| - 1] <= n
  }

  function EndsOf(s: seq<Sight>): (ends: seq<nat>)
    ensures |ends| == |s| && forall k :: 0 <= k < |s| ==> ends[k] == s[k].end
  {
    if |s| == 0 then [] else [s[0].end] + EndsOf(s[1..])
  }

  /** The ends a batch resolves to, if it is acceptable: the anchors' ends, the last one moved to the end of
      the window when only blank text is left and the window is closed or final. */
  ghost function ResolvedEnds(w: string, anchors: seq<string>, coverToEnd: bool,
                              snapBlankTail: bool): (r: Option<seq<nat>>)
    requires |anchors| > 0
  {
    if !Acceptable(w, anchors, coverToEnd) then None
    else
      var ends, k := EndsOf(Sights(w, anchors)), |anchors| - 1;
      if (coverToEnd || snapBlankTail) && Blank(w[ends[k]..]) then Some(ends[k := |w|]) else Some(ends)
  }

  /** Advancing ends increase. */
  lemma {:induction false} AdvancingIncreases(s: seq<Sight>, j: nat, k: nat)
    requires j < k < |s| && Advancing(s, |s|)
    ensures s[j].end < s[k].end
  {
    assert Advances(s, k);
    if j < k - 1 {
      AdvancingIncreases(s, j, k - 1);
    }
  }

  lemma AdvancingEndsCut(s: seq<Sight>, n: nat)
    requires |s| > 0 && Advancing(s, |s|) && s[|s| - 1].end <= n
    ensures CutsPrefix(EndsOf(s), n)
  {
    assert Advances(s, 0);
    forall j, k | 0 <= j < k < |s| ensures s[j].end < s[k].end {
      AdvancingIncreases(s, j, k);
    }
  }

  lemma MovingLastEnd(ends: seq<nat>, n: nat)
    requires CutsPrefix(ends, n)
    ensures CutsPrefix(ends[|ends| - 1 := n], n)
  {
  }

  /** Resolved ends cut a prefix of the window into non-empty consecutive pieces, a closed window to its end,
      and a final window to its end whenever only blank text would be left. */
  lemma ResolvedEndsCut(w: string, anchors: seq<string>, coverToEnd: bool, snapBlankTail: bool)
    requires |anchors| > 0
    ensures var r := ResolvedEnds(w, anchors, coverToEnd, snapBlankTail);
            r.Some? ==>
              && |r.value| == |anchors| && CutsPrefix(r.value, |w|)
              && (coverToEnd ==> r.value[|anchors| - 1] == |w|)
              && (snapBlankTail && Blank(w[r.value[|anchors| - 1]..]) ==> r.value[|anchors| - 1] == |w|)
  {
    if Acceptable(w, anchors, coverToEnd) {
      AdvancingEndsCut(Sights(w, anchors), |w|);
      MovingLastEnd(EndsOf(Sights(w, anchors)), |w|);
    }
  }

  /** Where the ends lie, in words: every anchor stands in the window once, and its episode ends with it. Only the
      last episode may end later, at the end of the window, and does so exactly when the window is closed or final and
      nothing but blank text is left behind the anchor. */
  ghost predicate EndWithAnchors(w: string, anchors: seq<string>, ends: seq<nat>, mayMove: bool) {
    var last := |anchors| - 1;
    && |ends| == |anchors| > 0
    && (forall k :: 0 <= k < |anchors| ==> OccursOnce(w, anchors[k]))
    && (forall k :: 0 <= k < last ==> OccursAt(w, anchors[k], ends[k] - |anchors[k]|))
    && exists i :: EndsBehind(w, anchors[last], i, ends[last], mayMove)
  }

  /** An episode ends with its anchor at `i`, or at the end of the window if it may and only blank text lies between. */
  ghost predicate EndsBehind(w: string, anchor: string, i: int, end: nat, mayMove: bool) {
    && OccursAt(w, anchor, i)
    && end == if mayMove && Blank(w[i + |anchor|..]) then |w| else i + |anchor|
  }

  lemma LookIsTheOccurrence(w: string, a: string)
    requires Look(w, a).count == 1
    ensures OccursOnce(w, a) && OccursAt(w, a, Look(w, a).end - |a|)
  {
    CountDecides(w, a);
    StartsAreTheOccurrences(w, a, 0);
    assert Starts(w, a, 0)[0] in Starts(w, a, 0);
  }

  lemma AcceptedAnchorsOccur(w: string, anchors: seq<string>, coverToEnd: bool)
    requires |anchors| > 0 && Acceptable(w, anchors, coverToEnd)
    ensures forall k :: 0 <= k < |anchors| ==>
              OccursOnce(w, anchors[k]) && OccursAt(w, anchors[k], Sights(w, anchors)[k].end - |anchors[k]|)
  {
    hide OccursAt, OccursOnce, Look;
    var s := Sights(w, anchors);
    forall k | 0 <= k < |anchors|
      ensures OccursOnce(w, anchors[k]) && OccursAt(w, anchors[k], s[k].end - |anchors[k]|)
    {
      assert Advances(s, k);
      LookIsTheOccurrence(w, anchors[k]);
    }
  }

  lemma ResolvedEndsAreTheAnchors(w: string, anchors: seq<string>, coverToEnd: bool, snapBlankTail: bool)
    requires |anchors| > 0
    ensures var r := ResolvedEnds(w, anchors, coverToEnd, snapBlankTail);
            r.Some? ==> EndWithAnchors(w, anchors, r.value, coverToEnd || snapBlankTail)
  {
    hide OccursAt, OccursOnce, Look, Acceptable, Blank, Sights, EndsOf;
    var r := ResolvedEnds(w, anchors, coverToEnd, snapBlankTail);
    if r.Some? {
      var s := Sights(w, anchors);
      AcceptedAnchorsOccur(w, anchors, coverToEnd);
      var ends, last := r.value, |anchors| - 1;
      forall k | 0 <= k < last ensures OccursAt(w, anchors[k], ends[k] - |anchors[k]|) {
        assert ends[k] == s[k].end;
      }
      var i := s[last].end - |anchors[last]|;
      assert i + |anchors[last]| == s[last].end;
      EndTogether(w, anchors, ends, i, coverToEnd || snapBlankTail);
    }
  }

  lemma EndTogether(w: string, anchors: seq<string>, ends: seq<nat>, i: int, mayMove: bool)
    requires |ends| == |anchors| > 0 && forall k :: 0 <= k < |anchors| ==> OccursOnce(w, anchors[k])
    requires forall k :: 0 <= k < |anchors| - 1 ==> OccursAt(w, anchors[k], ends[k] - |anchors[k]|)
    requires EndsBehind(w, anchors[|anchors| - 1], i, ends[|anchors| - 1], mayMove)
    ensures EndWithAnchors(w, anchors, ends, mayMove)
  {
  }

  // ---------- the complaints ----------

  /** The complaint about draft `k`; order is only judged while nothing is wrong yet. */
  function Complaint(s: seq<Sight>, k: nat, clean: bool): Option<Reason>
    requires k < |s|
  {
    if s[k].count == 0 then Some(Missing(k))
    else if s[k].count > 1 then Some(Ambiguous(k, s[k].count))
    else if clean && s[k].end <= EndBefore(s, k) then Some(OutOfOrder(k))
    else None
  }

  function Append(reasons: seq<Reason>, c: Option<Reason>): (r: seq<Reason>)
    ensures |r| == |reasons| + (if c.Some? then 1 else 0)
    ensures forall x :: x in r <==> x in reasons || c == Some(x)
  {
    if c.Some? then reasons + [c.value] else reasons
  }

  /** The complaints about the first `n` drafts. */
  function ReasonsUpTo(s: seq<Sight>, n: nat): seq<Reason>
    requires n <= |s|
  {
    if n == 0 then [] else
    var prior := ReasonsUpTo(s, n - 1);
    Append(prior, Complaint(s, n - 1, |prior| == 0))
  }

  /** There are no complaints exactly when the drafts advance. */
  lemma {:induction false} NoReasonsMeansAdvancing(s: seq<Sight>, n: nat)
    requires n <= |s|
    ensures |ReasonsUpTo(s, n)| == 0 <==> Advancing(s, n)
  {
    if n > 0 {
      NoReasonsMeansAdvancing(s, n - 1);
      assert Advancing(s, n) <==> Advancing(s, n - 1) && Advances(s, n - 1);
    }
  }

  /** The complaints name every missing and every repeated anchor with its count, the first
      end that is out of order, and nothing else. */
  lemma {:induction false} ReasonsAreExact(s: seq<Sight>, n: nat, k: nat, c: nat)
    requires n <= |s|
    ensures Missing(k) in ReasonsUpTo(s, n) <==> k < n && s[k].count == 0
    ensures Ambiguous(k, c) in ReasonsUpTo(s, n) <==> k < n && c == s[k].count && c > 1
    ensures OutOfOrder(k) in ReasonsUpTo(s, n) <==>
              k < n && Advancing(s, k) && s[k].count == 1 && s[k].end <= EndBefore(s, k)
    ensures TailLeft !in ReasonsUpTo(s, n)
  {
    if n > 0 {
      ReasonsAreExact(s, n - 1, k, c);
      NoReasonsMeansAdvancing(s, n - 1);
    }
  }

  // ---------- the loop ----------

  method ResolveBoundaries(w: string, anchors: seq<string>, coverToEnd: bool, snapBlankTail: bool)
    returns (r: Resolution)
    requires |anchors| > 0
    // The decision is exact.
    ensures r.Resolved? <==> Acceptable(w, anchors, coverToEnd)
    ensures r.Resolved? ==> Some(r.ends) == ResolvedEnds(w, anchors, coverToEnd, snapBlankTail)
    // Every episode ends with its anchor, the last one perhaps with the window.
    ensures r.Resolved? ==> EndWithAnchors(w, anchors, r.ends, coverToEnd || snapBlankTail)
    // On rejection the complaints are all there.
    ensures r.Rejected? ==>
              var s := Sights(w, anchors);
              r.reasons ==
              if Advancing(s, |s|) then [TailLeft] else ReasonsUpTo(s, |s|)
  {
    var reasons, ends := PlaceAnchors(w, anchors, Sights(w, anchors));
    NoReasonsMeansAdvancing(Sights(w, anchors), |anchors|);
    if |reasons| > 0 {
      return Rejected(reasons);
    }
    AdvancingEndsCut(Sights(w, anchors), |w|);
    ResolvedEndsAreTheAnchors(w, anchors, coverToEnd, snapBlankTail);
    r := CloseWindow(w, ends, coverToEnd, snapBlankTail);
  }

  method PlaceAnchors(w: string, anchors: seq<string>, ghost s: seq<Sight>)
    returns (reasons: seq<Reason>, ends: seq<nat>)
    requires |s| == |anchors| && forall k :: 0 <= k < |s| ==> s[k] == Look(w, anchors[k])
    ensures reasons == ReasonsUpTo(s, |s|)
    ensures |reasons| == 0 ==> ends == EndsOf(s)
  {
    hide Complaint, Look;
    reasons, ends := [], [];
    var pos := 0;
    var orderingValid := true;
    var idx := 0;
    while idx < |anchors|
      invariant 0 <= idx <= |anchors|
      invariant reasons == ReasonsUpTo(s, idx)
      invariant orderingValid <==> |reasons| == 0
      invariant orderingValid ==> ends == EndsOf(s[..idx]) && pos == EndBefore(s, idx)
    {
      var end, complaint := PlaceAnchor(w, anchors[idx], s, idx, orderingValid, pos);
      reasons := Append(reasons, complaint);
      if complaint.Some? {
        orderingValid := false;
      } else {
        ends := ends + [end];
        pos := end;
      }
      idx := idx + 1;
      assert orderingValid ==> ends == EndsOf(s[..idx]);
    }
    assert s[..|s|] == s;
  }

  /** One round of the loop: where the anchor's only occurrence ends, or what is wrong with it. */
  method PlaceAnchor(w: string, anchor: string, ghost s: seq<Sight>, idx: nat, orderingValid: bool, pos: nat)
    returns (end: nat, complaint: Option<Reason>)
    requires idx < |s| && s[idx] == Look(w, anchor)
    requires orderingValid ==> pos == EndBefore(s, idx)
    ensures complaint == Complaint(s, idx, orderingValid)
    ensures complaint.None? ==> end == s[idx].end
  {
    var count, first := Survey(w, anchor);
    end := 0;
    if count == 0 {
      complaint := Some(Missing(idx));
    } else if count > 1 {
      complaint := Some(Ambiguous(idx, count));
    } else {
      end := first + |anchor|;
      if orderingValid && end <= pos {
        complaint := Some(OutOfOrder(idx));
      } else {
        complaint := None;
      }
    }
  }

  /** The last two checks: a blank tail goes to the last episode, any other tail of a closed window is an error. */
  method CloseWindow(w: string, resolved: seq<nat>, coverToEnd: bool, snapBlankTail: bool) returns (r: Resolution)
    requires CutsPrefix(resolved, |w|)
    ensures var k := |resolved| - 1;
            var blank := Blank(w[resolved[k]..]);
            r == if coverToEnd && !blank then Rejected([TailLeft])
                 else if (coverToEnd || snapBlankTail) && blank then Resolved(resolved[k := |w|])
                 else Resolved(resolved)
  {
    var ends, last := resolved, |resolved| - 1;
    if (coverToEnd || snapBlankTail) && ends[last] < |w| && Blank(w[ends[last]..]) {
      ends := ends[last := |w|];
    }
    if coverToEnd && ends[last] < |w| {
      return Rejected([TailLeft]);
    }
    return Resolved(ends);
  }

  /** The starts from a match on. */
  ghost function Rest(w: string, a: string, found: int): seq<nat>
    requires -1 <= found
  {
    if found == -1 then [] else [found as nat] + Starts(w, a, found + 1)
  }

  /** One `find` step peels the first start off. */
  lemma {:induction false} FindPeelsStarts(w: string, a: string, from: nat)
    ensures Starts(w, a, from) == Rest(w, a, Find(w, a, from))
    decreases |w| + 1 - from
  {
    if from + |a| <= |w| && !OccursAt(w, a, from) {
      FindPeelsStarts(w, a, from + 1);
    }
  }

  /** `window.find(anchor, from)`, and what it leaves to be found. */
  method FindNext(w: string, a: string, from: nat) returns (found: int)
    requires from <= |w| + 1
    ensures found == -1 || from <= found <= |w|
    ensures Starts(w, a, from) == Rest(w, a, found)
  {
    FindPeelsStarts(w, a, from);
    found := Find(w, a, from);
  }

  /** The sliding search that collects overlapping matches: how many there are and where the first starts. */
  method Survey(w: string, a: string) returns (count: nat, first: nat)
    ensures count == Look(w, a).count
    ensures count > 0 ==> first + |a| == Look(w, a).end
  {
    var starts: seq<nat> := [];
    var found := FindNext(w, a, 0);
    while found != -1
      invariant -1 <= found <= |w|
      invariant Starts(w, a, 0) == starts + Rest(w, a, found)
      decreases if found == -1 then 0 else |w| + 1 - found
    {
      starts := Collect(w, a, starts, found);
      found := FindNext(w, a, found + 1);
    }
    count := |starts|;
    first := if count > 0 then starts[0] else 0;
  }

  /** `starts.append(found)` */
  method Collect(w: string, a: string, starts: seq<nat>, found: nat) returns (r: seq<nat>)
    ensures r == starts + [found]
    ensures starts + Rest(w, a, found) == r + Starts(w, a, found + 1)
  {
    hide Starts;
    r := starts + [found];
    assert Rest(w, a, found) == [found] + Starts(w, a, found + 1);
    assert starts + ([found] + Starts(w, a, found + 1)) == r + Starts(w, a, found + 1);
  }
}
