/** The episode ledger and its mechanical backfill (lib/episode_ledger.py). */
module EpisodeLedger {
  import opened Options
  import opened SourceText
  import opened SortedSets

  datatype Status = Planned | Consumed | Stale | Unanchored

  /** Offsets count characters of the normalized source text. Ledgers edited by hand may hold any integers. */
  datatype SourceRange = SourceRange(rel: string, start: int, end: int)

  /** A script path: the canonical one of a number, any other path, or none recorded. */
  datatype ScriptFile = NoScript | EpisodeScript(num: int) | OtherScript(path: string)

  /** One row of `episodes[]`. A row whose number cannot be read has no `num` and is carried along untouched. */
  datatype Entry = Entry(
    num: Option<int>,
    title: string,
    hook: string,
    script: ScriptFile,
    range: Option<SourceRange>,
    status: Option<Status>)

  datatype Cursor = Cursor(rel: string, offset: int)

  datatype Project = Project(episodes: seq<Entry>, cursor: Option<Cursor>)

  /** A candidate source file, already normalized. */
  datatype Doc = Doc(rel: string, text: string)

  /** What backfill reads from the project directory. `files` holds the derived episode files by number;
      `scripts` and `drafted` say which downstream products exist. */
  datatype Disk = Disk(
    docs: seq<Doc>,
    files: map<int, string>,
    remaining: Option<string>,
    scripts: set<ScriptFile>,
    drafted: set<int>)

  // ---------- numbers and order ----------

  /** Position of the first entry numbered `n`; `|eps|` when there is none. */
  function IndexOf(eps: seq<Entry>, n: int): (i: nat)
    ensures i <= |eps|
    ensures i < |eps| ==> eps[i].num == Some(n)
    ensures forall j :: 0 <= j < i ==> eps[j].num != Some(n)
  {
    if |eps| == 0 || eps[0].num == Some(n) then 0 else 1 + IndexOf(eps[1..], n)
  }

  function NumsOf(eps: seq<Entry>): set<int> {
    set e | e in eps && e.num.Some? :: e.num.value
  }

  predicate AllNumbered(eps: seq<Entry>) {
    forall i :: 0 <= i < |eps| ==> eps[i].num.Some?
  }

  predicate InOrder(eps: seq<Entry>) {
    && AllNumbered(eps)
    && forall i, j :: 0 <= i < j < |eps| ==> eps[i].num.value <= eps[j].num.value
  }

  function Insert(e: Entry, eps: seq<Entry>): (r: seq<Entry>)
    requires e.num.Some? && AllNumbered(eps)
    ensures AllNumbered(r) && |r| == |eps| + 1
  {
    if |eps| == 0 || e.num.value <= eps[0].num.value then [e] + eps
    else [eps[0]] + Insert(e, eps[1..])
  }

  /** The stable sort by number. */
  function Sort(eps: seq<Entry>): (r: seq<Entry>)
    requires AllNumbered(eps)
    ensures AllNumbered(r) && |r| == |eps|
  {
    if |eps| == 0 then [] else Insert(eps[0], Sort(eps[1..]))
  }

  /** Sorting happens only when every row has a readable number. */
  function Arrange(eps: seq<Entry>): seq<Entry> {
    if AllNumbered(eps) then Sort(eps) else eps
  }

  lemma {:induction false} InsertKeepsRows(e: Entry, eps: seq<Entry>)
    requires e.num.Some? && AllNumbered(eps)
    ensures multiset(Insert(e, eps)) == multiset(eps) + multiset{e}
  {
    if |eps| > 0 && eps[0].num.value < e.num.value {
      InsertKeepsRows(e, eps[1..]);
      assert eps == [eps[0]] + eps[1..];
    }
  }

  lemma {:induction false} InsertKeepsOrder(e: Entry, eps: seq<Entry>)
    requires e.num.Some? && InOrder(eps)
    ensures InOrder(Insert(e, eps))
    ensures multiset(Insert(e, eps)) == multiset(eps) + multiset{e}
    ensures |eps| > 0 && eps[0].num.value < e.num.value ==> Insert(e, eps)[0] == eps[0]
  {
    InsertKeepsRows(e, eps);
    if |eps| > 0 && eps[0].num.value < e.num.value {
      var first, rest := eps[0], eps[1..];
      InsertKeepsOrder(e, rest);
      forall x | x in Insert(e, rest) ensures first.num.value <= x.num.value {
        assert x in multiset(Insert(e, rest));
        assert x == e || x in rest;
      }
      OrderCons(first, Insert(e, rest));
    }
  }

  lemma OrderCons(first: Entry, r: seq<Entry>)
    requires first.num.Some? && InOrder(r) && forall x :: x in r ==> first.num.value <= x.num.value
    ensures InOrder([first] + r)
  {
  }

  lemma {:induction false} SortSorts(eps: seq<Entry>)
    requires AllNumbered(eps)
    ensures InOrder(Sort(eps)) && multiset(Sort(eps)) == multiset(eps)
  {
    hide Insert;
    if |eps| > 0 {
      SortSorts(eps[1..]);
      InsertKeepsOrder(eps[0], Sort(eps[1..]));
      assert eps == [eps[0]] + eps[1..];
    }
  }

  lemma {:induction false} SortFixesSorted(eps: seq<Entry>)
    requires InOrder(eps)
    ensures Sort(eps) == eps
  {
    if |eps| > 0 {
      SortFixesSorted(eps[1..]);
      assert eps == [eps[0]] + eps[1..];
    }
  }

  /** The first entry with a given number, if any. */
  function FirstOf(eps: seq<Entry>, n: int): Option<Entry> {
    if |eps| == 0 then None
    else if eps[0].num == Some(n) then Some(eps[0])
    else FirstOf(eps[1..], n)
  }

  lemma {:induction false} FirstIsAtIndex(eps: seq<Entry>, n: int)
    ensures FirstOf(eps, n) == if IndexOf(eps, n) < |eps| then Some(eps[IndexOf(eps, n)]) else None
  {
    if |eps| > 0 && eps[0].num != Some(n) {
      FirstIsAtIndex(eps[1..], n);
    }
  }

  lemma {:induction false} InsertKeepsFirst(e: Entry, eps: seq<Entry>, n: int)
    requires e.num.Some? && AllNumbered(eps)
    ensures FirstOf(Insert(e, eps), n) == if e.num.value == n then Some(e) else FirstOf(eps, n)
  {
    if |eps| == 0 || e.num.value <= eps[0].num.value {
      assert ([e] + eps)[1..] == eps;
    } else {
      InsertKeepsFirst(e, eps[1..], n);
      var r := Insert(e, eps);
      assert r[1..] == Insert(e, eps[1..]);
    }
  }

  /** The sort is stable: it never changes which entry is the first with its number. */
  lemma {:induction false} SortKeepsFirst(eps: seq<Entry>, n: int)
    requires AllNumbered(eps)
    ensures FirstOf(Sort(eps), n) == FirstOf(eps, n)
  {
    if |eps| > 0 {
      SortKeepsFirst(eps[1..], n);
      InsertKeepsFirst(eps[0], Sort(eps[1..]), n);
    }
  }

  // ---------- searching the sources ----------

  datatype Hit = Hit(doc: nat, start: nat)

  /** Search order: the file of the previous hit first, then the rest by name. */
  function SearchOrder(n: nat, preferred: Option<nat>): (order: seq<nat>)
    ensures forall i :: 0 <= i < |order| ==> order[i] < n || preferred == Some(order[i])
  {
    if preferred.None? then seq(n, i => i)
    else [preferred.value] + Others(n, preferred.value)
  }

  function Others(n: nat, except: nat): (r: seq<nat>)
    ensures forall i :: 0 <= i < |r| ==> r[i] < n
  {
    if n == 0 then []
    else if n - 1 == except then Others(n - 1, except)
    else Others(n - 1, except) + [n - 1]
  }

  /** The first file in `order` that holds `needle` at or after its own starting offset. */
  function FirstHit(docs: seq<Doc>, froms: seq<nat>, order: seq<nat>, needle: string): (h: Option<Hit>)
    requires |froms| == |docs| && forall i :: 0 <= i < |order| ==> order[i] < |docs|
    ensures h.Some? ==> h.value.doc < |docs| && OccursAt(docs[h.value.doc].text, needle, h.value.start)
  {
    if |order| == 0 then None else
    var i := Find(docs[order[0]].text, needle, froms[order[0]]);
    if i >= 0 then Some(Hit(order[0], i)) else FirstHit(docs, froms, order[1..], needle)
  }

  /** A forward pass from the cursors, then a pass over the full texts. */
  function FindInSources(docs: seq<Doc>, cursors: seq<nat>, needle: string, preferred: Option<nat>): (h: Option<Hit>)
    requires |cursors| == |docs| && (preferred.Some? ==> preferred.value < |docs|)
    ensures h.Some? ==> h.value.doc < |docs| && OccursAt(docs[h.value.doc].text, needle, h.value.start)
  {
    var order := SearchOrder(|docs|, preferred);
    var forward := FirstHit(docs, cursors, order, needle);
    if forward.Some? then forward else FirstHit(docs, Zeros(|docs|), order, needle)
  }

  function Zeros(n: nat): (r: seq<nat>)
    ensures |r| == n && forall i :: 0 <= i < n ==> r[i] == 0
  {
    seq(n, i => 0)
  }

  /** Position of the source file named `rel`; `|docs|` when there is none. */
  function DocIndex(docs: seq<Doc>, rel: string): (i: nat)
    ensures i <= |docs|
    ensures i < |docs| ==> docs[i].rel == rel
    ensures forall j :: 0 <= j < i ==> docs[j].rel != rel
  {
    if |docs| == 0 || docs[0].rel == rel then 0 else 1 + DocIndex(docs[1..], rel)
  }

  // ---------- backfill as a function ----------

  /** Derived files the directory scan recognizes: a negative number never matches their name pattern. */
  function Discovered(files: map<int, string>): set<int> {
    set n | n in files && n >= 0
  }

  function OrphanEntries(nums: seq<int>): seq<Entry> {
    seq(|nums|, i requires 0 <= i < |nums| => Entry(Some(nums[i]), "", "", EpisodeScript(nums[i]), None, None))
  }

  /** The rows before anchoring: one more for every derived file without a row, then sorted if possible. */
  function WithOrphans(eps: seq<Entry>, files: map<int, string>): seq<Entry> {
    Arrange(eps + OrphanEntries(Ascending(Discovered(files) - NumsOf(eps))))
  }

  predicate HasDownstream(disk: Disk, n: int, e: Entry) {
    (e.script != NoScript && e.script in disk.scripts) || EpisodeScript(n) in disk.scripts || n in disk.drafted
  }

  /** What the anchoring walk carries along: the rows, a cursor per source file, and the last anchored place. */
  datatype Walk = Walk(
    episodes: seq<Entry>,
    cursors: seq<nat>,
    lastDoc: Option<nat>,
    lastEnd: Option<Cursor>)

  predicate WalkOk(disk: Disk, w: Walk) {
    |w.cursors| == |disk.docs| && (w.lastDoc.Some? ==> w.lastDoc.value < |disk.docs|)
  }

  /** The derived file's text; empty also stands for a file that is missing or unreadable. */
  function FileText(disk: Disk, n: int): string {
    if n in Discovered(disk.files) then disk.files[n] else ""
  }

  function Lost(e: Entry): Entry {
    e.(range := None, status := Some(Unanchored))
  }

  function AnchoredAt(disk: Disk, n: int, e: Entry, rel: string, start: nat, end: nat): Entry {
    e.(range := Some(SourceRange(rel, start, end)),
       status := Some(if HasDownstream(disk, n, e) then Consumed else Planned))
  }

  /** One number's turn. */
  function Visit(disk: Disk, n: int, w: Walk): (w': Walk)
    requires WalkOk(disk, w)
    ensures WalkOk(disk, w') && |w'.episodes| == |w.episodes|
  {
    var i := IndexOf(w.episodes, n);
    if i == |w.episodes| then w
    else if w.episodes[i].status.Some? then PassBy(disk, w.episodes[i].range, w)
    else
      var text := FileText(disk, n);
      var hit := if text == "" then None else FindInSources(disk.docs, w.cursors, text, w.lastDoc);
      match hit
      case None => w.(episodes := w.episodes[i := Lost(w.episodes[i])])
      case Some(h) =>
        var end := h.start + |text|;
        var rel := disk.docs[h.doc].rel;
        Walk(w.episodes[i := AnchoredAt(disk, n, w.episodes[i], rel, h.start, end)],
             w.cursors[h.doc := end], Some(h.doc), Some(Cursor(rel, end)))
  }

  /** A row that already has a status only pushes its file's cursor forward. */
  function PassBy(disk: Disk, range: Option<SourceRange>, w: Walk): (w': Walk)
    requires WalkOk(disk, w)
    ensures WalkOk(disk, w') && w'.episodes == w.episodes
  {
    match range
    case None => w
    case Some(r) =>
      var d := DocIndex(disk.docs, r.rel);
      var last := Some(Cursor(r.rel, r.end));
      if d == |disk.docs| then w.(lastEnd := last)
      else w.(cursors := w.cursors[d := if r.end > w.cursors[d] then r.end else w.cursors[d]],
              lastDoc := Some(d), lastEnd := last)
  }

  function VisitAll(disk: Disk, keys: seq<int>, w: Walk): (w': Walk)
    requires WalkOk(disk, w)
    ensures WalkOk(disk, w') && |w'.episodes| == |w.episodes|
  {
    if |keys| == 0 then w else VisitAll(disk, keys[1..], Visit(disk, keys[0], w))
  }

  /** The rolling remainder file read as a cursor, unless it falls back into anchored text. */
  function DeriveCursor(disk: Disk, w: Walk): Option<Cursor>
    requires WalkOk(disk, w)
  {
    var rem := disk.remaining.GetOr("");
    var hit := if rem == "" then None else FindInSources(disk.docs, w.cursors, rem, w.lastDoc);
    if hit.Some? && !Rewinds(disk, hit.value, w.lastEnd)
    then Some(Cursor(disk.docs[hit.value.doc].rel, hit.value.start))
    else w.lastEnd
  }

  predicate Rewinds(disk: Disk, h: Hit, lastEnd: Option<Cursor>)
    requires h.doc < |disk.docs|
  {
    lastEnd.Some? && disk.docs[h.doc].rel == lastEnd.value.rel && h.start < lastEnd.value.offset
  }

  predicate NothingPending(eps: seq<Entry>) {
    forall n :: n in NumsOf(eps) ==> IndexOf(eps, n) < |eps| && eps[IndexOf(eps, n)].status.Some?
  }

  function Backfill(p: Project, disk: Disk): Project {
    var rows := WithOrphans(p.episodes, disk.files);
    if NothingPending(rows) && p.cursor.Some? then Project(rows, p.cursor)
    else
      var w := VisitAll(disk, Ascending(NumsOf(rows)), FreshWalk(disk, rows));
      Project(w.episodes, if p.cursor.Some? then p.cursor else DeriveCursor(disk, w))
  }

  function FreshWalk(disk: Disk, rows: seq<Entry>): (w: Walk)
    ensures WalkOk(disk, w)
  {
    Walk(rows, Zeros(|disk.docs|), None, None)
  }

  // ---------- backfill as the program runs it ----------

  /** A candidate file with the ordering prior: where the last match in it ended. */
  class SourceDoc {
    const relPath: string
    const text: string
    var cursor: nat

    constructor (relPath: string, text: string)
      ensures this.relPath == relPath && this.text == text && cursor == 0
    {
      this.relPath := relPath;
      this.text := text;
      cursor := 0;
    }
  }

  /** The objects stand for the candidate files, each a different object, with these cursors. */
  ghost predicate Mirrors(sources: seq<SourceDoc>, docs: seq<Doc>, cursors: seq<nat>)
    reads sources
  {
    && |sources| == |docs| == |cursors|
    && (forall i, j :: 0 <= i < j < |sources| ==> sources[i] != sources[j])
    && (forall i :: 0 <= i < |sources| ==>
          sources[i].relPath == docs[i].rel && sources[i].text == docs[i].text && sources[i].cursor == cursors[i])
  }

  method DiscoverSources(docs: seq<Doc>) returns (sources: seq<SourceDoc>)
    ensures fresh(sources) && Mirrors(sources, docs, Zeros(|docs|))
  {
    sources := [];
    for i := 0 to |docs|
      invariant fresh(sources) && Mirrors(sources, docs[..i], Zeros(i))
    {
      var d := new SourceDoc(docs[i].rel, docs[i].text);
      sources := sources + [d];
    }
  }

  method FindInSourceDocs(sources: seq<SourceDoc>, ghost docs: seq<Doc>, ghost cursors: seq<nat>,
                          needle: string, preferred: Option<nat>) returns (hit: Option<Hit>)
    requires Mirrors(sources, docs, cursors)
    requires preferred.Some? ==> preferred.value < |docs|
    ensures hit == FindInSources(docs, cursors, needle, preferred)
  {
    hide Find, OccursAt;
    var order := SearchOrder(|sources|, preferred);
    var k := 0;
    while k < |order|
      invariant 0 <= k <= |order|
      invariant FirstHit(docs, cursors, order, needle) == FirstHit(docs, cursors, order[k..], needle)
    {
      var idx := Find(sources[order[k]].text, needle, sources[order[k]].cursor);
      if idx >= 0 {
        return Some(Hit(order[k], idx));
      }
      k := k + 1;
    }
    hit := FindInFullTexts(sources, docs, cursors, order, needle);
  }

  method FindInFullTexts(sources: seq<SourceDoc>, ghost docs: seq<Doc>, ghost cursors: seq<nat>, order: seq<nat>,
                         needle: string) returns (hit: Option<Hit>)
    requires Mirrors(sources, docs, cursors) && forall i :: 0 <= i < |order| ==> order[i] < |docs|
    ensures hit == FirstHit(docs, Zeros(|docs|), order, needle)
  {
    hide Find, OccursAt;
    var k := 0;
    while k < |order|
      invariant 0 <= k <= |order|
      invariant FirstHit(docs, Zeros(|docs|), order, needle) == FirstHit(docs, Zeros(|docs|), order[k..], needle)
    {
      var idx := Find(sources[order[k]].text, needle, 0);
      if idx >= 0 {
        return Some(Hit(order[k], idx));
      }
      k := k + 1;
    }
    return None;
  }

  method IndexOfDoc(sources: seq<SourceDoc>, ghost docs: seq<Doc>, ghost cursors: seq<nat>, rel: string)
    returns (d: nat)
    requires Mirrors(sources, docs, cursors)
    ensures d == DocIndex(docs, rel)
  {
    d := 0;
    while d < |sources| && sources[d].relPath != rel
      invariant 0 <= d <= |sources|
      invariant forall j :: 0 <= j < d ==> docs[j].rel != rel
    {
      d := d + 1;
    }
  }

  method SetCursor(sources: seq<SourceDoc>, ghost docs: seq<Doc>, ghost cursors: seq<nat>, d: nat, c: nat)
    requires Mirrors(sources, docs, cursors) && d < |sources|
    modifies sources
    ensures Mirrors(sources, docs, cursors[d := c])
  {
    sources[d].cursor := c;
  }

  /** Moves past a row that already has a status. */
  method PassByRow(disk: Disk, sources: seq<SourceDoc>, range: Option<SourceRange>, w: Walk) returns (w': Walk)
    requires WalkOk(disk, w) && Mirrors(sources, disk.docs, w.cursors)
    modifies sources
    ensures w' == PassBy(disk, range, w) && Mirrors(sources, disk.docs, w'.cursors)
  {
    w' := w;
    if range.Some? {
      w' := w'.(lastEnd := Some(Cursor(range.value.rel, range.value.end)));
      var d := IndexOfDoc(sources, disk.docs, w.cursors, range.value.rel);
      if d < |sources| {
        var c := if range.value.end > sources[d].cursor then range.value.end else sources[d].cursor;
        SetCursor(sources, disk.docs, w.cursors, d, c);
        w' := w'.(cursors := w.cursors[d := c], lastDoc := Some(d));
      }
    }
  }

  /** Anchors a pending row by its derived file's text, or gives it up as unanchored. */
  method AnchorRow(disk: Disk, sources: seq<SourceDoc>, num: int, i: nat, w: Walk) returns (w': Walk)
    requires WalkOk(disk, w) && Mirrors(sources, disk.docs, w.cursors)
    requires i < |w.episodes| && i == IndexOf(w.episodes, num) && w.episodes[i].status.None?
    modifies sources
    ensures w' == Visit(disk, num, w) && Mirrors(sources, disk.docs, w'.cursors)
  {
    var entry := w.episodes[i];
    var text := FileText(disk, num);
    var hit := None;
    if text != "" {
      hit := FindInSourceDocs(sources, disk.docs, w.cursors, text, w.lastDoc);
    }
    if hit.None? {
      w' := w.(episodes := w.episodes[i := Lost(entry)]);
    } else {
      var h := hit.value;
      var end := h.start + |text|;
      var rel := sources[h.doc].relPath;
      SetCursor(sources, disk.docs, w.cursors, h.doc, end);
      w' := Walk(w.episodes[i := AnchoredAt(disk, num, entry, rel, h.start, end)],
                 w.cursors[h.doc := end], Some(h.doc), Some(Cursor(rel, end)));
    }
  }

  method CursorFromRemaining(disk: Disk, sources: seq<SourceDoc>, w: Walk) returns (cursor: Option<Cursor>)
    requires WalkOk(disk, w) && Mirrors(sources, disk.docs, w.cursors)
    ensures cursor == DeriveCursor(disk, w)
  {
    var rem := disk.remaining.GetOr("");
    if rem != "" {
      var hit := FindInSourceDocs(sources, disk.docs, w.cursors, rem, w.lastDoc);
      if hit.Some? && !Rewinds(disk, hit.value, w.lastEnd) {
        return Some(Cursor(sources[hit.value.doc].relPath, hit.value.start));
      }
    }
    return w.lastEnd;
  }

  /** One round of the loop over the numbers. */
  method VisitRow(disk: Disk, sources: seq<SourceDoc>, num: int, w: Walk) returns (w': Walk)
    requires WalkOk(disk, w) && Mirrors(sources, disk.docs, w.cursors)
    modifies sources
    ensures WalkOk(disk, w') && Mirrors(sources, disk.docs, w'.cursors)
    ensures w' == Visit(disk, num, w)
  {
    w' := w;
    var i := IndexOf(w.episodes, num);
    if i < |w.episodes| {
      if w.episodes[i].status.Some? {
        w' := PassByRow(disk, sources, w.episodes[i].range, w);
      } else {
        w' := AnchorRow(disk, sources, num, i, w);
      }
    }
  }

  /** The walk over all numbers in ascending order. It writes nothing outside its own row list. */
  method BackfillLedger(p: Project, disk: Disk) returns (r: Project)
    ensures r == Backfill(p, disk)
  {
    hide Visit, DeriveCursor, WithOrphans;
    var rows := WithOrphans(p.episodes, disk.files);
    if NothingPending(rows) && p.cursor.Some? {
      return Project(rows, p.cursor);
    }
    var sources := DiscoverSources(disk.docs);
    var keys := Ascending(NumsOf(rows));
    var w := FreshWalk(disk, rows);
    var k := 0;
    while k < |keys|
      invariant 0 <= k <= |keys|
      invariant WalkOk(disk, w) && fresh(sources) && Mirrors(sources, disk.docs, w.cursors)
      invariant VisitAll(disk, keys, FreshWalk(disk, rows)) == VisitAll(disk, keys[k..], w)
    {
      assert keys[k..][0] == keys[k] && keys[k..][1..] == keys[k + 1..];
      w := VisitRow(disk, sources, keys[k], w);
      k := k + 1;
    }
    assert keys[k..] == [];
    var cursor := p.cursor;
    if p.cursor.None? {
      cursor := CursorFromRemaining(disk, sources, w);
    }
    return Project(w.episodes, cursor);
  }
}
