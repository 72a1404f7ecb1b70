/** Planning and replanning episodes over the ledger (lib/episode_planner.py): what a call reads outside the
    project lock, and what its commit does under the lock. */
module Planner {
  import opened Options
  import opened SourceText
  import opened EpisodeLedger
  import B = Boundaries

  /** One drafted episode: title, hook and the anchor text it ends with. */
  datatype Draft = Draft(title: string, hook: string, anchor: string)

  function Anchors(drafts: seq<Draft>): (a: seq<string>)
    ensures |a| == |drafts| && forall i :: 0 <= i < |drafts| ==> a[i] == drafts[i].anchor
  {
    if |drafts| == 0 then [] else [drafts[0].anchor] + Anchors(drafts[1..])
  }

  /** The project directory apart from what commits write. `extra` holds readable files that are not
      candidate sources. */
  datatype Env = Env(docs: seq<Doc>, extra: map<string, string>, scripts: set<ScriptFile>, drafted: set<int>)

  /** What commits write: the ledger, the derived files and the rolling remainder file. */
  datatype Store = Store(project: Project, files: map<int, string>, remaining: Option<string>)

  function DiskOf(env: Env, s: Store): Disk {
    Disk(env.docs, s.files, s.remaining, env.scripts, env.drafted)
  }

  function Backfilled(env: Env, s: Store): Project {
    Backfill(s.project, DiskOf(env, s))
  }

  /** Names in a directory listing are distinct. */
  ghost predicate DistinctDocs(docs: seq<Doc>) {
    forall i, j :: 0 <= i < j < |docs| ==> docs[i].rel != docs[j].rel
  }

  function Load(env: Env, rel: string): Option<string> {
    var d := DocIndex(env.docs, rel);
    if d < |env.docs| then Some(env.docs[d].text)
    else if rel in env.extra then Some(env.extra[rel]) else None
  }

  // ---------- where the next plan starts ----------

  /** The range end of the row with the highest number, first of equals. */
  function LastAnchored(eps: seq<Entry>, best: Option<int>, last: Option<Cursor>): Option<Cursor> {
    if |eps| == 0 then last
    else
      var e := eps[0];
      if e.num.Some? && e.range.Some? && (best.None? || e.num.value > best.value)
      then LastAnchored(eps[1..], e.num, Some(Cursor(e.range.value.rel, e.range.value.end)))
      else LastAnchored(eps[1..], best, last)
  }

  /** The later of ledger end and planning cursor; the first source when there is neither. */
  function EffectiveStart(p: Project, docs: seq<Doc>): Option<Cursor> {
    var last := LastAnchored(p.episodes, None, None);
    var cur := if p.cursor.Some? && p.cursor.value.offset >= 0 then p.cursor else None;
    if last.Some? && cur.Some? then Some(Later(docs, last.value, cur.value))
    else if last.Some? then last
    else if cur.Some? then cur
    else if |docs| > 0 then Some(Cursor(docs[0].rel, 0)) else None
  }

  function Later(docs: seq<Doc>, last: Cursor, cur: Cursor): Cursor {
    if cur.rel == last.rel then Cursor(last.rel, if last.offset >= cur.offset then last.offset else cur.offset)
    else
      var i, j := DocIndex(docs, last.rel), DocIndex(docs, cur.rel);
      if i == |docs| then (if j < |docs| then cur else last)
      else if j == |docs| || j < i then last
      else cur
  }

  function NextRel(docs: seq<Doc>, rel: string): Option<string> {
    var i := DocIndex(docs, rel);
    if i + 1 < |docs| then Some(docs[i + 1].rel) else None
  }

  // ---------- plan: the unlocked read ----------

  datatype Aim =
    | NoSource
    | Unreadable(missing: string)
    | BeyondEnd
    | Exhausted
    | Window(startRef: Cursor, rel: string, start: int, text: string)

  lemma DocIndexOfDoc(docs: seq<Doc>, i: nat)
    requires DistinctDocs(docs) && i < |docs|
    ensures DocIndex(docs, docs[i].rel) == i
  {
  }

  /** Skips files with nothing but blank text left. */
  function SkipBlank(docs: seq<Doc>, startRef: Cursor, rel: string, start: int, text: string): Aim
    requires DistinctDocs(docs)
    decreases |docs| - DocIndex(docs, rel)
  {
    if !Blank(Slice(text, start, |text|)) then Window(startRef, rel, start, text)
    else
      var next := NextRel(docs, rel);
      if next.None? then Exhausted
      else
        var i := DocIndex(docs, rel) + 1;
        DocIndexOfDoc(docs, i);
        SkipBlank(docs, startRef, docs[i].rel, 0, docs[i].text)
  }

  function AimOf(env: Env, s: Store): Aim
    requires DistinctDocs(env.docs)
  {
    var startRef := EffectiveStart(Backfilled(env, s), env.docs);
    if startRef.None? then NoSource
    else
      var rel, start := startRef.value.rel, startRef.value.offset;
      var text := Load(env, rel);
      if text.None? then Unreadable(rel)
      else if start > |text.value| then BeyondEnd
      else SkipBlank(env.docs, startRef.value, rel, start, text.value)
  }

  /** What a plan call carries from its read to its commit. */
  datatype PlanTicket = PlanTicket(
    startRef: Cursor,
    rel: string,
    start: int,
    text: string,
    drafts: seq<Draft>,
    ends: seq<nat>,
    windowIsFinal: bool)

  // ---------- derived files ----------

  function TextFor(env: Env, cache: map<string, string>, rel: string): Option<string> {
    if rel in cache then Some(cache[rel]) else Load(env, rel)
  }

  /** The text of a row that has to have one; an error stops the whole commit. */
  function EntryText(env: Env, cache: map<string, string>, e: Entry): Option<string> {
    match e.range
    case None => None
    case Some(r) =>
      var text := TextFor(env, cache, r.rel);
      if text.None? || !(0 <= r.start <= r.end <= |text.value|) then None
      else Some(text.value[r.start..r.end])
  }

  /** Rows whose file is rewritten: numbered and not locked as unanchored. */
  predicate Rewritten(e: Entry) {
    e.num.Some? && e.status != Some(Unanchored)
  }

  /** The validation pass: all writes in row order, or the number of the first row that cannot be written. */
  function CollectWrites(env: Env, cache: map<string, string>, eps: seq<Entry>): (r: Result<seq<(int, string)>, int>)
  {
    if |eps| == 0 then Ok([])
    else if !Rewritten(eps[0]) then CollectWrites(env, cache, eps[1..])
    else
      var text := EntryText(env, cache, eps[0]);
      if text.None? then Err(eps[0].num.value)
      else
        var rest := CollectWrites(env, cache, eps[1..]);
        if rest.Err? then rest else Ok([(eps[0].num.value, text.value)] + rest.value)
  }

  function ApplyWrites(files: map<int, string>, writes: seq<(int, string)>): map<int, string>
    decreases |writes|
  {
    if |writes| == 0 then files else ApplyWrites(files[writes[0].0 := writes[0].1], writes[1..])
  }

  /** Residual files are the discovered ones without a row. */
  function WithoutResidue(files: map<int, string>, keep: set<int>): map<int, string> {
    map n | n in files && (n in keep || n < 0) :: files[n]
  }

  // ---------- plan: the locked commit ----------

  datatype Refusal = Conflict | NewlyConsumed | BadRow(num: int) | NoSources

  datatype Commit = Done(store: Store, exhausted: bool) | Refused(why: Refusal)

  /** One more than the highest positive number. */
  function NextNum(eps: seq<Entry>): (n: int)
    ensures n >= 1 && forall i :: 0 <= i < |eps| && eps[i].num.Some? ==> eps[i].num.value < n
    ensures n == 1 || exists i :: 0 <= i < |eps| && eps[i].num == Some(n - 1)
  {
    if |eps| == 0 then 1
    else
      var rest := NextNum(eps[1..]);
      if eps[0].num.Some? && eps[0].num.value >= rest then eps[0].num.value + 1 else rest
  }

  /** The new rows: consecutive numbers, each range starting where the one before ends. */
  function PlanRows(drafts: seq<Draft>, ends: seq<nat>, num: int, rel: string, start: int, prev: int): (r: seq<Entry>)
    requires |drafts| == |ends|
    ensures |r| == |drafts|
  {
    if |drafts| == 0 then []
    else
      [Entry(Some(num), drafts[0].title, drafts[0].hook, EpisodeScript(num),
             Some(SourceRange(rel, prev, start + ends[0])), Some(Planned))]
      + PlanRows(drafts[1..], ends[1..], num + 1, rel, start, start + ends[0])
  }

  /** Writes the ledger and reconciles the derived files with it, or refuses without any effect. */
  function Install(env: Env, cache: map<string, string>, s: Store, p: Project, exhausted: bool): Commit {
    var writes := CollectWrites(env, cache, p.episodes);
    if writes.Err? then Refused(BadRow(writes.error))
    else Done(Store(p, WithoutResidue(ApplyWrites(s.files, writes.value), NumsOf(p.episodes)), None), exhausted)
  }

  predicate TicketShape(t: PlanTicket) {
    |t.drafts| == |t.ends| > 0
  }

  function PlannedLedger(p: Project, t: PlanTicket): Project
    requires TicketShape(t)
  {
    Project(Arrange(p.episodes + PlanRows(t.drafts, t.ends, NextNum(p.episodes), t.rel, t.start, t.start)),
            Some(Cursor(t.rel, t.start + t.ends[|t.ends| - 1])))
  }

  predicate PlanExhausts(env: Env, t: PlanTicket)
    requires TicketShape(t)
  {
    && t.windowIsFinal
    && Blank(Slice(t.text, t.start + t.ends[|t.ends| - 1], |t.text|))
    && NextRel(env.docs, t.rel).None?
  }

  function CommitPlan(env: Env, s: Store, t: PlanTicket): Commit
    requires TicketShape(t)
  {
    var p := Backfilled(env, s);
    var now := EffectiveStart(p, env.docs);
    if now.None? then Refused(NoSources)
    else if now.value != t.startRef then Refused(Conflict)
    else Install(env, map[t.rel := t.text], s, PlannedLedger(p, t), PlanExhausts(env, t))
  }

  // ---------- replan: the scope ----------

  /** A closed stretch of one source file that is re-cut on its own. */
  type Piece = SourceRange

  datatype ScopeError =
    | NotInLedger
    | HitsUnanchored
    | NoRange(num: int)
    | EmptyRange(num: int)
    | Gap(num: int)
    | Interleaved(num: int)

  datatype Scope = Scope(pieces: seq<Piece>, affected: seq<Entry>)

  function FromNum(eps: seq<Entry>, from: int): (r: seq<Entry>)
    ensures AllNumbered(r)
    ensures forall i :: 0 <= i < |r| ==> r[i].num.value >= from && r[i] in eps
  {
    if |eps| == 0 then []
    else if eps[0].num.Some? && eps[0].num.value >= from then [eps[0]] + FromNum(eps[1..], from)
    else FromNum(eps[1..], from)
  }

  function Affected(eps: seq<Entry>, from: int): (r: seq<Entry>)
    ensures AllNumbered(r)
  {
    Sort(FromNum(eps, from))
  }

  /** Adds one row to the pieces so far: extends the last piece or opens one for a file not seen before. */
  function AddRow(pieces: seq<Piece>, e: Entry): Result<seq<Piece>, ScopeError>
    requires e.num.Some?
  {
    match e.range
    case None => Err(NoRange(e.num.value))
    case Some(r) =>
      if r.start >= r.end then Err(EmptyRange(e.num.value))
      else if |pieces| > 0 && pieces[|pieces| - 1].rel == r.rel then
        var last := pieces[|pieces| - 1];
        if r.start != last.end then Err(Gap(e.num.value))
        else Ok(pieces[|pieces| - 1 := last.(end := r.end)])
      else if exists i :: 0 <= i < |pieces| && pieces[i].rel == r.rel then Err(Interleaved(e.num.value))
      else Ok(pieces + [r])
  }

  function MergeRows(pieces: seq<Piece>, rows: seq<Entry>): Result<seq<Piece>, ScopeError>
    requires AllNumbered(rows)
    decreases |rows|
  {
    if |rows| == 0 then Ok(pieces)
    else
      var r := AddRow(pieces, rows[0]);
      if r.Err? then r else MergeRows(r.value, rows[1..])
  }

  function ReplanScope(p: Project, from: int): (r: Result<Scope, ScopeError>)
    ensures r.Ok? ==> AllNumbered(r.value.affected)
  {
    var affected := Affected(p.episodes, from);
    if |affected| == 0 || affected[0].num.value != from then Err(NotInLedger)
    else if exists i :: 0 <= i < |affected| && affected[i].status == Some(Unanchored) then Err(HitsUnanchored)
    else
      var pieces := MergeRows([], affected);
      if pieces.Err? then Err(pieces.error) else Ok(Scope(pieces.value, affected))
  }

  function ConsumedNums(rows: seq<Entry>): (r: seq<int>)
    requires AllNumbered(rows)
    ensures forall n :: n in r <==>
              exists i :: 0 <= i < |rows| && rows[i].num == Some(n) && rows[i].status == Some(Consumed)
  {
    if |rows| == 0 then []
    else
      var rest := ConsumedNums(rows[1..]);
      if rows[0].status == Some(Consumed) then [rows[0].num.value] + rest else rest
  }

  // ---------- replan: the new layout and its commit ----------

  /** One episode of the new layout. */
  datatype PlannedEpisode = PlannedEpisode(draft: Draft, range: SourceRange)

  /** A validated cut of one window: the drafts and where each ends, relative to the window. */
  datatype Cut = Cut(drafts: seq<Draft>, ends: seq<nat>)

  ghost predicate CutOk(c: Cut, size: nat) {
    |c.drafts| == |c.ends| && B.CutsPrefix(c.ends, size)
  }

  function LayOut(c: Cut, rel: string, start: int, prev: int): (r: seq<PlannedEpisode>)
    requires |c.drafts| == |c.ends|
    ensures |r| == |c.drafts|
    decreases |c.drafts|
  {
    if |c.drafts| == 0 then []
    else [PlannedEpisode(c.drafts[0], SourceRange(rel, prev, start + c.ends[0]))]
         + LayOut(Cut(c.drafts[1..], c.ends[1..]), rel, start, start + c.ends[0])
  }

  function LayOutAll(pieces: seq<Piece>, cuts: seq<Cut>): seq<PlannedEpisode>
    requires |pieces| == |cuts| && forall i :: 0 <= i < |cuts| ==> |cuts[i].drafts| == |cuts[i].ends|
  {
    if |pieces| == 0 then []
    else LayOut(cuts[0], pieces[0].rel, pieces[0].start, pieces[0].start) + LayOutAll(pieces[1..], cuts[1..])
  }

  /** What a replan call carries from its read to its commit. */
  datatype ReplanTicket = ReplanTicket(
    from: int,
    affected: seq<Entry>,
    consumed: seq<int>,
    planned: seq<PlannedEpisode>,
    texts: map<string, string>)

  /** What a finished replan read guarantees: the rows merged into pieces inside their texts, and the layout
      cuts every piece to its end. */
  ghost predicate ReplanPrepared(env: Env, t: ReplanTicket, pieces: seq<Piece>, cuts: seq<Cut>) {
    && AllNumbered(t.affected)
    && MergeRows([], t.affected) == Ok(pieces)
    && |cuts| == |pieces|
    && (forall i :: 0 <= i < |pieces| ==>
          && Load(env, pieces[i].rel).Some?
          && 0 <= pieces[i].start < pieces[i].end <= |Load(env, pieces[i].rel).value|
          && CutOk(cuts[i], pieces[i].end - pieces[i].start)
          && cuts[i].ends[|cuts[i].ends| - 1] == pieces[i].end - pieces[i].start)
    && t.planned == LayOutAll(pieces, cuts)
    && (forall rel :: rel in t.texts ==> Load(env, rel) == Some(t.texts[rel]))
  }

  function RangesOf(rows: seq<Entry>): (r: seq<(Option<int>, Option<SourceRange>)>)
    ensures |r| == |rows| && forall i :: 0 <= i < |rows| ==> r[i] == (rows[i].num, rows[i].range)
  {
    seq(|rows|, i requires 0 <= i < |rows| => (rows[i].num, rows[i].range))
  }

  /** The last of the affected rows with number `n`. */
  function OldRow(affected: seq<Entry>, n: int): (e: Option<Entry>)
    ensures e.Some? ==> e.value in affected && e.value.num == Some(n)
  {
    if |affected| == 0 then None
    else
      var k := |affected| - 1;
      if affected[k].num == Some(n) then Some(affected[k]) else OldRow(affected[..k], n)
  }

  function ReplanRow(affected: seq<Entry>, ep: PlannedEpisode, n: int): Entry {
    var was := OldRow(affected, n);
    var redo := was.Some? && (was.value.status == Some(Consumed) || was.value.status == Some(Stale));
    var script := if was.Some? && was.value.script != NoScript then was.value.script else EpisodeScript(n);
    Entry(Some(n), ep.draft.title, ep.draft.hook, script, Some(ep.range),
          Some(if redo then Stale else Planned))
  }

  function ReplanRows(affected: seq<Entry>, planned: seq<PlannedEpisode>, n: int): (r: seq<Entry>)
    ensures |r| == |planned|
  {
    if |planned| == 0 then [] else [ReplanRow(affected, planned[0], n)] + ReplanRows(affected, planned[1..], n + 1)
  }

  /** The rows a replan does not touch. */
  function Unaffected(eps: seq<Entry>, nums: set<int>): (r: seq<Entry>)
    ensures forall i :: 0 <= i < |r| ==> r[i] in eps && !(r[i].num.Some? && r[i].num.value in nums)
  {
    if |eps| == 0 then []
    else if eps[0].num.Some? && eps[0].num.value in nums then Unaffected(eps[1..], nums)
    else [eps[0]] + Unaffected(eps[1..], nums)
  }

  function ReplannedLedger(p: Project, affected: seq<Entry>, t: ReplanTicket): Project {
    Project(Arrange(Unaffected(p.episodes, NumsOf(affected)) + ReplanRows(affected, t.planned, t.from)), p.cursor)
  }

  function CommitReplan(env: Env, s: Store, t: ReplanTicket): Commit {
    var p := Backfilled(env, s);
    var scope := ReplanScope(p, t.from);
    if scope.Err? then Refused(Conflict)
    else
      var affected := scope.value.affected;
      if RangesOf(affected) != RangesOf(t.affected) then Refused(Conflict)
      else if exists n :: n in ConsumedNums(affected) && n !in t.consumed
      then Refused(NewlyConsumed)
      else Install(env, t.texts, s, ReplannedLedger(p, affected, t), false)
  }
}
