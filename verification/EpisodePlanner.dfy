/** The planner as the program runs it: loops over rows and drafts, and a store updated in place under the lock.
    Each method is tied to the functions whose properties the other planner modules prove. */
module EpisodePlanner {
  import opened Options
  import opened SourceText
  import opened SortedSets
  import opened EpisodeLedger
  import opened Planner
  import opened ReplanLaws
  import opened PlannerRuns

  // ---------- drafts from the text model ----------

  /** One answer of the text model: unusable, or drafts that fit the schema (at least one). */
  datatype Reply = Malformed | Parsed(drafts: seq<Draft>)

  /** A batch is cut down to the configured size before it is judged. */
  function Truncated(drafts: seq<Draft>, maxEpisodes: Option<nat>): (r: seq<Draft>)
    ensures |drafts| > 0 && (maxEpisodes.Some? ==> maxEpisodes.value > 0) ==> |r| > 0
  {
    if maxEpisodes.Some? && |drafts| > maxEpisodes.value then drafts[..maxEpisodes.value] else drafts
  }

  /** The cut one answer amounts to, if it passes. */
  ghost function Judge(window: string, reply: Reply, coverToEnd: bool, snap: bool,
                       maxEpisodes: Option<nat>): Option<Cut> {
    if reply.Malformed? || |Truncated(reply.drafts, maxEpisodes)| == 0 then None
    else
      var drafts := Truncated(reply.drafts, maxEpisodes);
      var ends := B.ResolvedEnds(window, Anchors(drafts), coverToEnd, snap);
      if ends.None? then None else Some(Cut(drafts, ends.value))
  }

  /** The first answer that passes, from answer `k` on. */
  ghost function FirstGood(window: string, replies: seq<Reply>, k: nat, coverToEnd: bool, snap: bool,
                           maxEpisodes: Option<nat>): Option<Cut>
    decreases |replies| - k
  {
    if k >= |replies| then None
    else
      var c := Judge(window, replies[k], coverToEnd, snap, maxEpisodes);
      if c.Some? then c else FirstGood(window, replies, k + 1, coverToEnd, snap, maxEpisodes)
  }

  /** The cut that closes a piece, if one of the answers gives one. */
  ghost function GoodCut(env: Env, p: Piece, replies: seq<Reply>, maxAttempts: nat): Option<Cut>
    requires |replies| >= maxAttempts
  {
    FirstGood(TextOf(env, p), replies[..maxAttempts], 0, true, false, None)
  }

  /** The first answer that passes, for every piece. */
  ghost predicate CutsAreGood(env: Env, pieces: seq<Piece>, cuts: seq<Cut>, replies: seq<seq<Reply>>, maxAttempts: nat)
    requires |replies| >= |pieces| && forall i :: 0 <= i < |replies| ==> |replies[i]| >= maxAttempts
  {
    && |cuts| == |pieces|
    && forall i :: 0 <= i < |cuts| ==> GoodCut(env, pieces[i], replies[i], maxAttempts) == Some(cuts[i])
  }

  /** Some piece gets no answer that passes. */
  ghost predicate SomePieceFails(env: Env, pieces: seq<Piece>, replies: seq<seq<Reply>>, maxAttempts: nat)
    requires |replies| >= |pieces| && forall i :: 0 <= i < |replies| ==> |replies[i]| >= maxAttempts
  {
    exists i :: 0 <= i < |pieces| && GoodCut(env, pieces[i], replies[i], maxAttempts).None?
  }

  /** Schema check passed, now the mechanical one. */
  method TryReply(window: string, reply: Reply, coverToEnd: bool, snap: bool, maxEpisodes: Option<nat>)
    returns (cut: Option<Cut>)
    requires maxEpisodes.Some? ==> maxEpisodes.value > 0
    requires reply.Parsed? ==> |reply.drafts| > 0
    ensures cut == Judge(window, reply, coverToEnd, snap, maxEpisodes)
    ensures cut.Some? ==>
              CutOk(cut.value, |window|) && (coverToEnd ==> cut.value.ends[|cut.value.ends| - 1] == |window|)
  {
    if reply.Malformed? {
      return None;
    }
    var drafts := Truncated(reply.drafts, maxEpisodes);
    var r := B.ResolveBoundaries(window, Anchors(drafts), coverToEnd, snap);
    if r.Rejected? {
      return None;
    }
    B.ResolvedEndsCut(window, Anchors(drafts), coverToEnd, snap);
    return Some(Cut(drafts, r.ends));
  }

  /** The drafts that are judged: all, or the first `maxEpisodes`. */
  ghost predicate AreKept(kept: seq<Draft>, drafts: seq<Draft>, maxEpisodes: Option<nat>) {
    && kept <= drafts
    && |kept| == if maxEpisodes.Some? && maxEpisodes.value < |drafts| then maxEpisodes.value else |drafts|
  }

  /** An answer that cannot be used: malformed, or its kept drafts do not stand in the window as they must. */
  ghost predicate Fails(window: string, reply: Reply, coverToEnd: bool, maxEpisodes: Option<nat>) {
    reply.Parsed? ==> forall kept :: AreKept(kept, reply.drafts, maxEpisodes) ==>
      |kept| == 0 || !B.Acceptable(window, Anchors(kept), coverToEnd)
  }

  /** An answer that amounts to a cut: its kept drafts, each ending with its anchor. */
  ghost predicate Answers(window: string, reply: Reply, cut: Cut, coverToEnd: bool, snap: bool,
                          maxEpisodes: Option<nat>) {
    && reply.Parsed? && AreKept(cut.drafts, reply.drafts, maxEpisodes) && |cut.drafts| > 0
    && B.Acceptable(window, Anchors(cut.drafts), coverToEnd)
    && B.EndWithAnchors(window, Anchors(cut.drafts), cut.ends, coverToEnd || snap)
  }

  /** The cut comes from answer `k`, and no earlier one could be used. */
  ghost predicate FirstAnswer(window: string, replies: seq<Reply>, k: nat, cut: Cut, coverToEnd: bool, snap: bool,
                              maxEpisodes: Option<nat>) {
    && k < |replies| && Answers(window, replies[k], cut, coverToEnd, snap, maxEpisodes)
    && forall j :: 0 <= j < k ==> Fails(window, replies[j], coverToEnd, maxEpisodes)
  }

  lemma JudgeMeans(window: string, reply: Reply, coverToEnd: bool, snap: bool, maxEpisodes: Option<nat>)
    ensures var c := Judge(window, reply, coverToEnd, snap, maxEpisodes);
            if c.Some? then Answers(window, reply, c.value, coverToEnd, snap, maxEpisodes)
            else Fails(window, reply, coverToEnd, maxEpisodes)
  {
    hide B.Acceptable, B.EndWithAnchors, Anchors;
    if reply.Parsed? {
      var drafts := Truncated(reply.drafts, maxEpisodes);
      forall kept | AreKept(kept, reply.drafts, maxEpisodes) ensures kept == drafts {
      }
      if |drafts| > 0 {
        B.ResolvedEndsAreTheAnchors(window, Anchors(drafts), coverToEnd, snap);
      }
    }
  }

  lemma {:induction false} FirstGoodMeans(window: string, replies: seq<Reply>, k: nat, coverToEnd: bool, snap: bool,
                                          maxEpisodes: Option<nat>)
    requires k <= |replies| && forall j :: 0 <= j < k ==> Fails(window, replies[j], coverToEnd, maxEpisodes)
    ensures var c := FirstGood(window, replies, k, coverToEnd, snap, maxEpisodes);
            if c.Some? then exists i: nat :: FirstAnswer(window, replies, i, c.value, coverToEnd, snap, maxEpisodes)
            else forall j :: 0 <= j < |replies| ==> Fails(window, replies[j], coverToEnd, maxEpisodes)
    decreases |replies| - k
  {
    hide Judge, Fails, Answers;
    if k < |replies| {
      JudgeMeans(window, replies[k], coverToEnd, snap, maxEpisodes);
      var c := Judge(window, replies[k], coverToEnd, snap, maxEpisodes);
      if c.Some? {
        assert FirstAnswer(window, replies, k, c.value, coverToEnd, snap, maxEpisodes);
      } else {
        FirstGoodMeans(window, replies, k + 1, coverToEnd, snap, maxEpisodes);
      }
    }
  }

  /** Asks up to `maxAttempts` times and takes the first answer that passes; gives up when none does. */
  method RequestDrafts(window: string, replies: seq<Reply>, coverToEnd: bool, snap: bool,
                       maxEpisodes: Option<nat>, maxAttempts: nat) returns (cut: Option<Cut>)
    requires |replies| >= maxAttempts
    requires maxEpisodes.Some? ==> maxEpisodes.value > 0
    requires forall k :: 0 <= k < |replies| && replies[k].Parsed? ==> |replies[k].drafts| > 0
    ensures cut == FirstGood(window, replies[..maxAttempts], 0, coverToEnd, snap, maxEpisodes)
    ensures if cut.Some? then
              exists k: nat ::
                FirstAnswer(window, replies[..maxAttempts], k, cut.value, coverToEnd, snap, maxEpisodes)
            else forall k :: 0 <= k < maxAttempts ==> Fails(window, replies[k], coverToEnd, maxEpisodes)
    ensures cut.Some? ==>
              CutOk(cut.value, |window|) && (coverToEnd ==> cut.value.ends[|cut.value.ends| - 1] == |window|)
  {
    hide Judge, Fails, FirstAnswer;
    FirstGoodMeans(window, replies[..maxAttempts], 0, coverToEnd, snap, maxEpisodes);
    var attempt := 0;
    while attempt < maxAttempts
      invariant 0 <= attempt <= maxAttempts
      invariant FirstGood(window, replies[..maxAttempts], 0, coverToEnd, snap, maxEpisodes)
                == FirstGood(window, replies[..maxAttempts], attempt, coverToEnd, snap, maxEpisodes)
    {
      cut := TryReply(window, replies[attempt], coverToEnd, snap, maxEpisodes);
      if cut.Some? {
        return cut;
      }
      attempt := attempt + 1;
    }
    return None;
  }

  // ---------- loops over rows ----------

  /** Row `k` has the highest number of the first `n` rows that have a number and a range, and is the first such. */
  ghost predicate HighestRanged(eps: seq<Entry>, n: nat, k: nat) {
    && k < n <= |eps| && eps[k].num.Some? && eps[k].range.Some?
    && forall j :: 0 <= j < n && eps[j].num.Some? && eps[j].range.Some? ==>
         if j < k then eps[j].num.value < eps[k].num.value else eps[j].num.value <= eps[k].num.value
  }

  /** Where the highest-numbered planned row ends; of several with that number, the first. */
  method LedgerEnd(eps: seq<Entry>) returns (last: Option<Cursor>)
    ensures last.None? <==> forall j :: 0 <= j < |eps| ==> eps[j].num.None? || eps[j].range.None?
    ensures last.Some? ==> exists k: nat :: HighestRanged(eps, |eps|, k)
                                       && last.value == Cursor(eps[k].range.value.rel, eps[k].range.value.end)
    ensures last == LastAnchored(eps, None, None)
  {
    last := None;
    var best: Option<int> := None;
    ghost var k: nat := 0;
    for i := 0 to |eps|
      invariant LastAnchored(eps, None, None) == LastAnchored(eps[i..], best, last)
      invariant best.Some? <==> last.Some?
      invariant best.None? ==> forall j :: 0 <= j < i ==> eps[j].num.None? || eps[j].range.None?
      invariant best.Some? ==>
        && HighestRanged(eps, i, k) && eps[k].num == best
        && last.value == Cursor(eps[k].range.value.rel, eps[k].range.value.end)
    {
      var e := eps[i];
      if e.num.Some? && e.range.Some? && (best.None? || e.num.value > best.value) {
        best := e.num;
        last := Some(Cursor(e.range.value.rel, e.range.value.end));
        k := i;
      }
    }
  }

  /** Highest positive number plus one. */
  method NextNumber(eps: seq<Entry>) returns (n: int)
    ensures n == NextNum(eps)
  {
    var top := 0;
    for i := 0 to |eps|
      invariant top >= 0
      invariant forall j :: 0 <= j < i && eps[j].num.Some? ==> eps[j].num.value <= top
      invariant top == 0 || exists j :: 0 <= j < i && eps[j].num == Some(top)
    {
      if eps[i].num.Some? && eps[i].num.value > top {
        top := eps[i].num.value;
      }
    }
    n := top + 1;
  }

  method BuildPlanRows(t: PlanTicket, num: int) returns (rows: seq<Entry>)
    requires TicketShape(t)
    ensures rows == PlanRows(t.drafts, t.ends, num, t.rel, t.start, t.start)
  {
    hide PlanRows;
    rows := [];
    var prev := t.start;
    assert t.drafts[0..] == t.drafts && t.ends[0..] == t.ends;
    for k := 0 to |t.drafts|
      invariant rows + PlanRows(t.drafts[k..], t.ends[k..], num + k, t.rel, t.start, prev)
                == PlanRows(t.drafts, t.ends, num, t.rel, t.start, t.start)
    {
      var absEnd := t.start + t.ends[k];
      FirstPlanRow(t, num + k, prev, k);
      rows := rows + [Entry(Some(num + k), t.drafts[k].title, t.drafts[k].hook, EpisodeScript(num + k),
                            Some(SourceRange(t.rel, prev, absEnd)), Some(Planned))];
      prev := absEnd;
    }
  }

  lemma FirstPlanRow(t: PlanTicket, num: int, prev: int, k: nat)
    requires TicketShape(t) && k < |t.drafts|
    ensures PlanRows(t.drafts[k..], t.ends[k..], num, t.rel, t.start, prev)
            == [Entry(Some(num), t.drafts[k].title, t.drafts[k].hook, EpisodeScript(num),
                      Some(SourceRange(t.rel, prev, t.start + t.ends[k])), Some(Planned))]
               + PlanRows(t.drafts[k + 1..], t.ends[k + 1..], num + 1, t.rel, t.start, t.start + t.ends[k])
  {
    assert t.drafts[k..][1..] == t.drafts[k + 1..] && t.ends[k..][1..] == t.ends[k + 1..];
  }

  method BuildReplanRows(affected: seq<Entry>, planned: seq<PlannedEpisode>, from: int) returns (rows: seq<Entry>)
    ensures rows == ReplanRows(affected, planned, from)
  {
    rows := [];
    for k := 0 to |planned|
      invariant rows + ReplanRows(affected, planned[k..], from + k) == ReplanRows(affected, planned, from)
    {
      assert planned[k..][1..] == planned[k + 1..];
      rows := rows + [ReplanRow(affected, planned[k], from + k)];
    }
  }

  /** Merges the affected rows into pieces, extending the last piece in place. */
  method MergeIntoPieces(rows: seq<Entry>) returns (r: Result<seq<Piece>, ScopeError>)
    requires AllNumbered(rows)
    ensures r == MergeRows([], rows)
  {
    var pieces: seq<Piece> := [];
    for k := 0 to |rows|
      invariant MergeRows([], rows) == MergeRows(pieces, rows[k..])
    {
      assert rows[k..][0] == rows[k] && rows[k..][1..] == rows[k + 1..];
      var num := rows[k].num.value;
      if rows[k].range.None? {
        return Err(NoRange(num));
      }
      var range := rows[k].range.value;
      if range.start >= range.end {
        return Err(EmptyRange(num));
      }
      var last := |pieces| - 1;
      if |pieces| > 0 && pieces[last].rel == range.rel {
        if range.start != pieces[last].end {
          return Err(Gap(num));
        }
        pieces := pieces[last := pieces[last].(end := range.end)];
      } else {
        if exists i :: 0 <= i < |pieces| && pieces[i].rel == range.rel {
          return Err(Interleaved(num));
        }
        pieces := pieces + [range];
      }
    }
    return Ok(pieces);
  }

  /** The validation pass of the reconciliation: nothing is written before every row has passed. */
  method PlanWrites(env: Env, cache: map<string, string>, eps: seq<Entry>) returns (r: Result<seq<(int, string)>, int>)
    ensures r == CollectWrites(env, cache, eps)
  {
    var writes: seq<(int, string)> := [];
    for k := 0 to |eps|
      invariant CollectWrites(env, cache, eps[k..]).Err? ==>
                  CollectWrites(env, cache, eps) == CollectWrites(env, cache, eps[k..])
      invariant CollectWrites(env, cache, eps[k..]).Ok? ==>
                  CollectWrites(env, cache, eps).Ok?
                  && CollectWrites(env, cache, eps).value == writes + CollectWrites(env, cache, eps[k..]).value
    {
      assert eps[k..][0] == eps[k] && eps[k..][1..] == eps[k + 1..];
      if Rewritten(eps[k]) {
        var text := EntryText(env, cache, eps[k]);
        if text.None? {
          return Err(eps[k].num.value);
        }
        writes := writes + [(eps[k].num.value, text.value)];
      }
    }
    assert eps[|eps|..] == [] && writes + [] == writes;
    return Ok(writes);
  }

  /** The ledger a plan installs. */
  method Extend(p: Project, t: PlanTicket) returns (next: Project)
    requires TicketShape(t)
    ensures next == PlannedLedger(p, t)
  {
    var num := NextNumber(p.episodes);
    var rows := BuildPlanRows(t, num);
    next := Project(Arrange(p.episodes + rows), Some(Cursor(t.rel, t.start + t.ends[|t.ends| - 1])));
  }

  // ---------- one more piece ----------

  lemma {:induction false} LayOutAllSnoc(pieces: seq<Piece>, cuts: seq<Cut>, p: Piece, c: Cut)
    requires |pieces| == |cuts| && (forall i :: 0 <= i < |cuts| ==> |cuts[i].drafts| == |cuts[i].ends|)
             && |c.drafts| == |c.ends|
    ensures LayOutAll(pieces + [p], cuts + [c]) == LayOutAll(pieces, cuts) + LayOut(c, p.rel, p.start, p.start)
  {
    if |pieces| == 0 {
      assert pieces + [p] == [p] && cuts + [c] == [c];
      assert [p][1..] == [] && [c][1..] == [];
    } else {
      assert (pieces + [p])[1..] == pieces[1..] + [p] && (cuts + [c])[1..] == cuts[1..] + [c];
      LayOutAllSnoc(pieces[1..], cuts[1..], p, c);
    }
  }

  lemma {:induction false} ClosedSnoc(pieces: seq<Piece>, cuts: seq<Cut>, p: Piece, c: Cut)
    requires AllClosed(pieces, cuts) && AllClosed([p], [c]) && |c.drafts| == |c.ends|
    ensures AllClosed(pieces + [p], cuts + [c])
    ensures LayOutAll(pieces + [p], cuts + [c]) == LayOutAll(pieces, cuts) + LayOut(c, p.rel, p.start, p.start)
  {
    assert [p][0] == p && [c][0] == c;
    LayOutAllSnoc(pieces, cuts, p, c);
  }

  lemma NoCuts(env: Env, pieces: seq<Piece>, replies: seq<seq<Reply>>, maxAttempts: nat)
    requires |pieces| == 0 && forall i :: 0 <= i < |replies| ==> |replies[i]| >= maxAttempts
    ensures CutsAreGood(env, pieces, [], replies, maxAttempts)
  {
  }

  lemma GoodSnoc(env: Env, pieces: seq<Piece>, i: nat, cuts: seq<Cut>, c: Cut, replies: seq<seq<Reply>>,
                 maxAttempts: nat)
    requires i < |pieces| <= |replies| && forall k :: 0 <= k < |replies| ==> |replies[k]| >= maxAttempts
    requires CutsAreGood(env, pieces[..i], cuts, replies, maxAttempts)
    requires GoodCut(env, pieces[i], replies[i], maxAttempts) == Some(c)
    ensures CutsAreGood(env, pieces[..i + 1], cuts + [c], replies, maxAttempts)
  {
    hide GoodCut;
  }

  lemma PieceFails(env: Env, pieces: seq<Piece>, i: nat, replies: seq<seq<Reply>>, maxAttempts: nat)
    requires i < |pieces| <= |replies| && forall k :: 0 <= k < |replies| ==> |replies[k]| >= maxAttempts
    requires GoodCut(env, pieces[i], replies[i], maxAttempts).None?
    ensures SomePieceFails(env, pieces, replies, maxAttempts)
  {
  }

  datatype ReplanRead =
    | OutOfScope(error: ScopeError)
    | NeedsConfirmation(consumed: seq<int>)
    | Unusable
    | GaveUp
    | Ready(ticket: ReplanTicket)

  class EpisodePlanner {
    const env: Env
    var project: Project
    var files: map<int, string>
    var remaining: Option<string>

    constructor (env: Env, s: Store)
      ensures this.env == env && Snapshot() == s
    {
      this.env := env;
      project := s.project;
      files := s.files;
      remaining := s.remaining;
    }

    ghost function Snapshot(): Store
      reads this
    {
      Store(project, files, remaining)
    }

    method Backfill() returns (p: Project)
      ensures p == Backfilled(env, Snapshot())
    {
      p := BackfillLedger(project, Disk(env.docs, files, remaining, env.scripts, env.drafted));
    }

    method StartOf(p: Project) returns (start: Option<Cursor>)
      ensures start == EffectiveStart(p, env.docs)
    {
      var last := LedgerEnd(p.episodes);
      var cur := if p.cursor.Some? && p.cursor.value.offset >= 0 then p.cursor else None;
      if last.Some? && cur.Some? {
        return Some(Later(env.docs, last.value, cur.value));
      } else if last.Some? {
        return last;
      } else if cur.Some? {
        return cur;
      } else if |env.docs| > 0 {
        return Some(Cursor(env.docs[0].rel, 0));
      }
      return None;
    }

    /** The unlocked read of a plan call, moving on to the next source while only blank text is left. */
    method AimPlan() returns (aim: Aim)
      requires DistinctDocs(env.docs)
      ensures aim == AimOf(env, Snapshot())
    {
      hide Backfilled, EffectiveStart, Load, IsSpace;
      var p := Backfill();
      var startRef := StartOf(p);
      if startRef.None? {
        return NoSource;
      }
      var rel, start := startRef.value.rel, startRef.value.offset;
      var loaded := Load(env, rel);
      if loaded.None? {
        return Unreadable(rel);
      }
      var text := loaded.value;
      if start > |text| {
        return BeyondEnd;
      }
      while Blank(Slice(text, start, |text|))
        invariant AimOf(env, Snapshot()) == SkipBlank(env.docs, startRef.value, rel, start, text)
        decreases |env.docs| - DocIndex(env.docs, rel)
      {
        var next := NextRel(env.docs, rel);
        if next.None? {
          return Exhausted;
        }
        var i := DocIndex(env.docs, rel) + 1;
        DocIndexOfDoc(env.docs, i);
        rel, start, text := next.value, 0, env.docs[i].text;
      }
      return Window(startRef.value, rel, start, text);
    }

    /** A plan call up to its commit: aim, ask the model, and keep what the commit needs. */
    method PreparePlan(windowChars: nat, maxEpisodes: nat, maxAttempts: nat, replies: seq<Reply>)
      returns (ticket: Option<PlanTicket>)
      requires DistinctDocs(env.docs) && windowChars > 0 && maxEpisodes > 0 && |replies| >= maxAttempts
      requires forall k :: 0 <= k < |replies| && replies[k].Parsed? ==> |replies[k].drafts| > 0
      ensures var aim := AimOf(env, Snapshot());
              ticket ==
                if !aim.Window? then None
                else
                  var window := Slice(aim.text, aim.start, aim.start + windowChars);
                  var first := FirstGood(window, replies[..maxAttempts], 0, false,
                                         aim.start + windowChars >= |aim.text|, Some(maxEpisodes));
                  if first.None? then None else PlanTicketOf(aim, windowChars, first.value)
    {
      hide FirstGood, FirstAnswer, Fails, AimOf;
      var aim := AimPlan();
      if !aim.Window? {
        return None;
      }
      var window := Slice(aim.text, aim.start, aim.start + windowChars);
      var isFinal := aim.start + windowChars >= |aim.text|;
      var cut := RequestDrafts(window, replies, false, isFinal, Some(maxEpisodes), maxAttempts);
      if cut.None? {
        return None;
      }
      ticket := Some(PlanTicket(aim.startRef, aim.rel, aim.start, aim.text, cut.value.drafts, cut.value.ends, isFinal));
      assert ticket == PlanTicketOf(aim, windowChars, cut.value);
    }

    /** Rewrites the derived files after a validation pass, removes residue and the remainder file.
        A row that cannot be written stops everything before the first write. */
    method Reconcile(cache: map<string, string>, eps: seq<Entry>) returns (bad: Option<int>)
      modifies this`files, this`remaining
      ensures var w := CollectWrites(env, cache, eps);
              if w.Err? then bad == Some(w.error) && files == old(files) && remaining == old(remaining)
              else bad == None && remaining == None
                   && files == WithoutResidue(ApplyWrites(old(files), w.value), NumsOf(eps))
    {
      hide Ascending;
      var plan := PlanWrites(env, cache, eps);
      if plan.Err? {
        return Some(plan.error);
      }
      var writes := plan.value;
      for k := 0 to |writes|
        invariant ApplyWrites(old(files), writes) == ApplyWrites(files, writes[k..])
      {
        assert writes[k..][0] == writes[k] && writes[k..][1..] == writes[k + 1..];
        files := files[writes[k].0 := writes[k].1];
      }
      var keep := NumsOf(eps);
      var residue := Ascending(Discovered(files) - keep);
      ghost var written := files;
      for k := 0 to |residue|
        invariant files == map n | n in written && n !in residue[..k] :: written[n]
      {
        files := files - {residue[k]};
        assert residue[..k + 1] == residue[..k] + [residue[k]];
      }
      assert residue[..|residue|] == residue;
      assert files == WithoutResidue(written, keep);
      remaining := None;
      return None;
    }

    /** The locked commit of a plan: backfill again, re-check the start, append, reconcile, then save. */
    method CommitPlan(t: PlanTicket) returns (refused: Option<Refusal>)
      requires TicketShape(t)
      modifies this
      ensures var c := Planner.CommitPlan(env, old(Snapshot()), t);
              && Snapshot() == Settle(old(Snapshot()), c)
              && (refused == if c.Done? then None else Some(c.why))
    {
      var p := Backfill();
      var now := StartOf(p);
      if now.None? {
        return Some(NoSources);
      }
      if now.value != t.startRef {
        return Some(Conflict);
      }
      var next := Extend(p, t);
      var bad := Reconcile(map[t.rel := t.text], next.episodes);
      if bad.Some? {
        return Some(BadRow(bad.value));
      }
      project := next;
      return None;
    }

    method ScopeFrom(p: Project, from: int) returns (scope: Result<Scope, ScopeError>)
      ensures scope == ReplanScope(p, from)
    {
      var affected := Affected(p.episodes, from);
      if |affected| == 0 || affected[0].num.value != from {
        return Err(NotInLedger);
      }
      if exists i :: 0 <= i < |affected| && affected[i].status == Some(Unanchored) {
        return Err(HitsUnanchored);
      }
      var pieces := MergeIntoPieces(affected);
      if pieces.Err? {
        return Err(pieces.error);
      }
      return Ok(Scope(pieces.value, affected));
    }

    /** The locked commit of a replan: the scope must still read the same, and no episode may have been consumed
        that the user was not asked about. */
    method CommitReplan(t: ReplanTicket) returns (refused: Option<Refusal>)
      modifies this
      ensures var c := Planner.CommitReplan(env, old(Snapshot()), t);
              && Snapshot() == Settle(old(Snapshot()), c)
              && (refused == if c.Done? then None else Some(c.why))
    {
      var p := Backfill();
      var scope := ScopeFrom(p, t.from);
      if scope.Err? {
        return Some(Conflict);
      }
      var affected := scope.value.affected;
      if RangesOf(affected) != RangesOf(t.affected) {
        return Some(Conflict);
      }
      if exists n :: n in ConsumedNums(affected) && n !in t.consumed {
        return Some(NewlyConsumed);
      }
      var rows := BuildReplanRows(affected, t.planned, t.from);
      var next := Project(Arrange(Unaffected(p.episodes, NumsOf(affected)) + rows), p.cursor);
      var bad := Reconcile(t.texts, next.episodes);
      if bad.Some? {
        return Some(BadRow(bad.value));
      }
      project := next;
      return None;
    }

    /** Loads every piece's source; a piece that does not lie inside its source stops the call before any model call. */
    method LoadPieces(pieces: seq<Piece>) returns (texts: Option<map<string, string>>)
      ensures texts == if PiecesReadable(env, pieces) then Some(TextsOf(env, pieces)) else None
    {
      var loaded: map<string, string> := map[];
      for i := 0 to |pieces|
        invariant PiecesReadable(env, pieces[..i]) && loaded == TextsOf(env, pieces[..i])
      {
        var text := Load(env, pieces[i].rel);
        if text.None? || !(0 <= pieces[i].start < pieces[i].end <= |text.value|) {
          assert !Inside(env, pieces[i]);
          return None;
        }
        loaded := loaded[pieces[i].rel := text.value];
        assert pieces[..i + 1] == pieces[..i] + [pieces[i]];
        TextsOfSnoc(env, pieces[..i], pieces[i]);
      }
      assert pieces[..|pieces|] == pieces;
      return Some(loaded);
    }

    /** Asks the model to close one piece. */
    method CutPiece(p: Piece, maxAttempts: nat, replies: seq<Reply>) returns (cut: Option<Cut>)
      requires Inside(env, p) && |replies| >= maxAttempts
      requires forall k :: 0 <= k < |replies| && replies[k].Parsed? ==> |replies[k].drafts| > 0
      ensures cut == GoodCut(env, p, replies, maxAttempts)
      ensures cut.Some? ==> AllClosed([p], [cut.value]) && |cut.value.drafts| == |cut.value.ends|
    {
      hide FirstGood, FirstAnswer, Fails;
      var window := Slice(Load(env, p.rel).value, p.start, p.end);
      cut := RequestDrafts(window, replies, true, false, None, maxAttempts);
    }

    /** Asks the model for every piece in turn and lays the answers out one after another. */
    method CutPieces(pieces: seq<Piece>, maxAttempts: nat, replies: seq<seq<Reply>>)
      returns (layout: Option<seq<PlannedEpisode>>, cuts: seq<Cut>)
      requires PiecesReadable(env, pieces) && |replies| >= |pieces|
      requires forall i :: 0 <= i < |replies| ==> |replies[i]| >= maxAttempts
      requires forall i, k :: 0 <= i < |replies| && 0 <= k < |replies[i]| && replies[i][k].Parsed? ==>
               |replies[i][k].drafts| > 0
      ensures layout.Some? ==>
                CutsAreGood(env, pieces, cuts, replies, maxAttempts) && AllClosed(pieces, cuts)
                && layout.value == LayOutAll(pieces, cuts)
      ensures layout.None? ==> SomePieceFails(env, pieces, replies, maxAttempts)
    {
      hide GoodCut, CutsAreGood, SomePieceFails, B.CutsPrefix, TextOf, Inside, LayOut;
      var planned := [];
      NoCuts(env, pieces[..0], replies, maxAttempts);
      cuts := [];
      for i := 0 to |pieces|
        invariant AllClosed(pieces[..i], cuts) && planned == LayOutAll(pieces[..i], cuts)
        invariant CutsAreGood(env, pieces[..i], cuts, replies, maxAttempts)
      {
        var p := pieces[i];
        var cut := CutPiece(p, maxAttempts, replies[i]);
        if cut.None? {
          PieceFails(env, pieces, i, replies, maxAttempts);
          return None, cuts;
        }
        ClosedSnoc(pieces[..i], cuts, p, cut.value);
        GoodSnoc(env, pieces, i, cuts, cut.value, replies, maxAttempts);
        assert pieces[..i + 1] == pieces[..i] + [p];
        planned := planned + LayOut(cut.value, p.rel, p.start, p.start);
        cuts := cuts + [cut.value];
      }
      assert pieces[..|pieces|] == pieces;
      return Some(planned), cuts;
    }

    /** A replan call up to its commit: scope, confirmation, then one batch of drafts per piece. */
    method PrepareReplan(from: int, confirmed: bool, maxAttempts: nat, replies: seq<seq<Reply>>) returns (r: ReplanRead)
      requires forall i :: 0 <= i < |replies| ==> |replies[i]| >= maxAttempts
      requires forall i, k :: 0 <= i < |replies| && 0 <= k < |replies[i]| && replies[i][k].Parsed? ==>
               |replies[i][k].drafts| > 0
      requires var scope := ReplanScope(Backfilled(env, Snapshot()), from);
               scope.Ok? ==> |replies| >= |scope.value.pieces|
      ensures var scope := ReplanScope(Backfilled(env, Snapshot()), from);
              && (r.OutOfScope? <==> scope.Err?)
              && (r.NeedsConfirmation? <==> scope.Ok? && !confirmed && ConsumedNums(scope.value.affected) != [])
              && (r.NeedsConfirmation? ==> r.consumed == ConsumedNums(scope.value.affected))
      // Past the confirmation it fails exactly for an unreadable piece, or for a piece no answer closes.
      ensures !r.OutOfScope? && !r.NeedsConfirmation? ==>
                var pieces := ReplanScope(Backfilled(env, Snapshot()), from).value.pieces;
                && (r.Unusable? <==> !PiecesReadable(env, pieces))
                && (r.GaveUp? ==> SomePieceFails(env, pieces, replies, maxAttempts))
                && (r.Ready? ==>
                      exists cuts ::
                        && CutsAreGood(env, pieces, cuts, replies, maxAttempts)
                        && ReplanTicketOf(env, Backfilled(env, Snapshot()), from, confirmed, cuts) == Some(r.ticket))
    {
      var p := Backfill();
      var scope := ScopeFrom(p, from);
      if scope.Err? {
        return OutOfScope(scope.error);
      }
      var consumed := ConsumedNums(scope.value.affected);
      if consumed != [] && !confirmed {
        return NeedsConfirmation(consumed);
      }
      var texts := LoadPieces(scope.value.pieces);
      if texts.None? {
        return Unusable;
      }
      var layout, cuts := CutPieces(scope.value.pieces, maxAttempts, replies);
      if layout.None? {
        return GaveUp;
      }
      var ticket := ReplanTicket(from, scope.value.affected, consumed, layout.value, texts.value);
      assert ReplanTicketOf(env, p, from, confirmed, cuts) == Some(ticket);
      return Ready(ticket);
    }
  }

  lemma TextsOfSnoc(env: Env, pieces: seq<Piece>, p: Piece)
    requires Load(env, p.rel).Some?
    ensures TextsOf(env, pieces + [p]) == TextsOf(env, pieces)[p.rel := Load(env, p.rel).value]
  {
    var all := pieces + [p];
    assert all[|pieces|] == p;
    forall rel ensures rel in TextsOf(env, all) <==> rel in TextsOf(env, pieces)[p.rel := Load(env, p.rel).value] {
      if rel in TextsOf(env, pieces) {
        var i :| 0 <= i < |pieces| && Load(env, pieces[i].rel).Some? && pieces[i].rel == rel;
        assert all[i] == pieces[i];
      }
    }
  }
}
