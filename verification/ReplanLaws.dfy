/** A replan moves cuts, never text: the new layout covers the same characters of the same files, in the same
    order, each character once; numbers run on from the first affected one; the next plan starts where it did. */
module ReplanLaws {
  import opened Options
  import opened SourceText
  import opened EpisodeLedger
  import opened Planner
  import opened CommitLaws

  // ---------- the text of a list of ranges ----------

  ghost function TextOf(env: Env, r: SourceRange): string {
    var t := Load(env, r.rel);
    if t.None? then "" else Slice(t.value, r.start, r.end)
  }

  ghost function Concat(env: Env, rs: seq<SourceRange>): string {
    if |rs| == 0 then "" else TextOf(env, rs[0]) + Concat(env, rs[1..])
  }

  lemma {:induction false} ConcatAppend(env: Env, a: seq<SourceRange>, b: seq<SourceRange>)
    ensures Concat(env, a + b) == Concat(env, a) + Concat(env, b)
  {
    if |a| == 0 {
      assert a + b == b;
    } else {
      assert (a + b)[1..] == a[1..] + b;
      ConcatAppend(env, a[1..], b);
    }
  }

  lemma ConcatCons(env: Env, r: SourceRange, rs: seq<SourceRange>)
    ensures Concat(env, [r] + rs) == TextOf(env, r) + Concat(env, rs)
  {
    assert ([r] + rs)[1..] == rs;
  }

  lemma JoinIsAssociative(a: string, b: string, c: string)
    ensures (a + b) + c == a + (b + c)
  {
  }

  ghost predicate Inside(env: Env, r: SourceRange) {
    Load(env, r.rel).Some? && 0 <= r.start < r.end <= |Load(env, r.rel).value|
  }

  /** The ranges of rows that all have one. */
  ghost function RowRanges(rows: seq<Entry>): (rs: seq<SourceRange>)
    requires forall i :: 0 <= i < |rows| ==> rows[i].range.Some?
    ensures |rs| == |rows| && forall i :: 0 <= i < |rows| ==> rs[i] == rows[i].range.value
  {
    seq(|rows|, i requires 0 <= i < |rows| => rows[i].range.value)
  }

  ghost function PlannedRanges(planned: seq<PlannedEpisode>): (rs: seq<SourceRange>)
    ensures |rs| == |planned| && forall i :: 0 <= i < |planned| ==> rs[i] == planned[i].range
  {
    seq(|planned|, i requires 0 <= i < |planned| => planned[i].range)
  }

  // ---------- where characters lie ----------

  /** Character `x` of file `rel` lies in a range of the list. */
  ghost predicate Covers(rs: seq<SourceRange>, rel: string, x: int) {
    exists i :: 0 <= i < |rs| && rs[i].rel == rel && rs[i].start <= x < rs[i].end
  }

  ghost predicate Disjoint(rs: seq<SourceRange>) {
    forall i, j :: 0 <= i < j < |rs| && rs[i].rel == rs[j].rel ==> rs[i].end <= rs[j].start
  }

  lemma CoversAppend(a: seq<SourceRange>, b: seq<SourceRange>, rel: string, x: int)
    ensures Covers(a + b, rel, x) <==> Covers(a, rel, x) || Covers(b, rel, x)
  {
    var c := a + b;
    if Covers(a, rel, x) {
      var i :| 0 <= i < |a| && a[i].rel == rel && a[i].start <= x < a[i].end;
      assert c[i] == a[i];
    }
    if Covers(b, rel, x) {
      var i :| 0 <= i < |b| && b[i].rel == rel && b[i].start <= x < b[i].end;
      assert c[|a| + i] == b[i];
    }
  }

  // ---------- merging rows into pieces ----------

  /** Merging only extends the last piece and appends new ones. */
  lemma {:induction false} MergeExtends(pieces: seq<Piece>, rows: seq<Entry>)
    requires AllNumbered(rows) && MergeRows(pieces, rows).Ok?
    ensures var out := MergeRows(pieces, rows).value;
            && |out| >= |pieces|
            && (forall i :: 0 <= i < |pieces| - 1 ==> out[i] == pieces[i])
            && (|pieces| > 0 ==> var k := |pieces| - 1;
                out[k].rel == pieces[k].rel && out[k].start == pieces[k].start && out[k].end >= pieces[k].end)
    decreases |rows|
  {
    if |rows| > 0 {
      MergeExtends(AddRow(pieces, rows[0]).value, rows[1..]);
    }
  }

  ghost predicate AllInside(env: Env, rs: seq<SourceRange>) {
    forall i :: 0 <= i < |rs| ==> Inside(env, rs[i])
  }

  ghost predicate OneFilePerPiece(pieces: seq<Piece>) {
    forall i, j :: 0 <= i < j < |pieces| ==> pieces[i].rel != pieces[j].rel
  }

  lemma SlicesJoin(t: string, a: int, b: int, c: int)
    requires 0 <= a <= b <= c <= |t|
    ensures Slice(t, a, b) + Slice(t, b, c) == Slice(t, a, c)
  {
  }

  ghost predicate PiecesOk(pieces: seq<Piece>) {
    OneFilePerPiece(pieces) && forall i :: 0 <= i < |pieces| ==> pieces[i].start < pieces[i].end
  }

  lemma AddRowKeepsShape(env: Env, pieces: seq<Piece>, e: Entry)
    requires e.num.Some? && AddRow(pieces, e).Ok? && PiecesOk(pieces) && AllInside(env, AddRow(pieces, e).value)
    ensures PiecesOk(AddRow(pieces, e).value) && AllInside(env, pieces)
    ensures e.range.Some? && Inside(env, e.range.value)
  {
    var out, k := AddRow(pieces, e).value, |pieces| - 1;
    forall i | 0 <= i < |pieces| ensures Inside(env, pieces[i]) {
      assert Inside(env, out[i]);
    }
    assert Inside(env, out[|out| - 1]);
  }

  /** One row added to the pieces adds exactly its own text. */
  lemma AddRowAddsItsText(env: Env, pieces: seq<Piece>, e: Entry)
    requires e.num.Some? && AddRow(pieces, e).Ok? && PiecesOk(pieces) && AllInside(env, AddRow(pieces, e).value)
    ensures e.range.Some?
    ensures Concat(env, AddRow(pieces, e).value) == Concat(env, pieces) + TextOf(env, e.range.value)
  {
    hide Load, Slice, PiecesOk;
    AddRowKeepsShape(env, pieces, e);
    var r, out, k := e.range.value, AddRow(pieces, e).value, |pieces| - 1;
    assert Concat(env, [r]) == TextOf(env, r);
    if |pieces| > 0 && pieces[k].rel == r.rel {
      var p, q := pieces[k], out[k];
      assert out == pieces[..k] + [q] && pieces == pieces[..k] + [p];
      ConcatAppend(env, pieces[..k], [q]);
      ConcatAppend(env, pieces[..k], [p]);
      assert Inside(env, q) && Concat(env, [q]) == TextOf(env, q) && Concat(env, [p]) == TextOf(env, p);
      SlicesJoin(Load(env, r.rel).value, p.start, r.start, r.end);
    } else {
      ConcatAppend(env, pieces, [r]);
    }
  }

  /** One row added to the pieces adds exactly its own characters. */
  lemma AddRowAddsItsCharacters(pieces: seq<Piece>, e: Entry, rel: string, x: int)
    requires e.num.Some? && AddRow(pieces, e).Ok? && PiecesOk(pieces)
    ensures e.range.Some?
    ensures Covers(AddRow(pieces, e).value, rel, x) <==> Covers(pieces, rel, x) || Covers([e.range.value], rel, x)
  {
    var r, out, k := e.range.value, AddRow(pieces, e).value, |pieces| - 1;
    if |pieces| > 0 && pieces[k].rel == r.rel {
      var p, q := pieces[k], out[k];
      assert out == pieces[..k] + [q] && pieces == pieces[..k] + [p];
      CoversAppend(pieces[..k], [q], rel, x);
      CoversAppend(pieces[..k], [p], rel, x);
      CoversOne(q, rel, x);
      CoversOne(p, rel, x);
      CoversOne(r, rel, x);
    } else {
      CoversAppend(pieces, [r], rel, x);
    }
  }

  lemma CoversOne(r: SourceRange, rel: string, x: int)
    ensures Covers([r], rel, x) <==> r.rel == rel && r.start <= x < r.end
  {
    assert [r][0] == r;
  }

  lemma AddRowKeepsPieces(pieces: seq<Piece>, e: Entry)
    requires e.num.Some? && AddRow(pieces, e).Ok? && PiecesOk(pieces)
    ensures PiecesOk(AddRow(pieces, e).value) && e.range.Some?
  {
  }

  lemma {:induction false} MergeKeepsShape(env: Env, pieces: seq<Piece>, rows: seq<Entry>)
    requires AllNumbered(rows) && MergeRows(pieces, rows).Ok? && PiecesOk(pieces)
    requires AllInside(env, MergeRows(pieces, rows).value)
    ensures PiecesOk(MergeRows(pieces, rows).value) && AllInside(env, pieces)
    ensures forall i :: 0 <= i < |rows| ==> rows[i].range.Some? && Inside(env, rows[i].range.value)
    decreases |rows|
  {
    if |rows| > 0 {
      var mid := AddRow(pieces, rows[0]).value;
      AddRowKeepsPieces(pieces, rows[0]);
      MergeKeepsShape(env, mid, rows[1..]);
      AddRowKeepsShape(env, pieces, rows[0]);
    }
  }

  lemma RowRangesCons(rows: seq<Entry>)
    requires |rows| > 0 && forall i :: 0 <= i < |rows| ==> rows[i].range.Some?
    ensures RowRanges(rows) == [rows[0].range.value] + RowRanges(rows[1..])
  {
  }

  /** Merging the affected rows into pieces loses no text and adds none. */
  lemma {:induction false} MergeConservesText(env: Env, pieces: seq<Piece>, rows: seq<Entry>)
    requires AllNumbered(rows) && MergeRows(pieces, rows).Ok? && PiecesOk(pieces)
    requires AllInside(env, MergeRows(pieces, rows).value)
    requires forall i :: 0 <= i < |rows| ==> rows[i].range.Some?
    ensures Concat(env, MergeRows(pieces, rows).value) == Concat(env, pieces) + Concat(env, RowRanges(rows))
    decreases |rows|
  {
    if |rows| > 0 {
      var mid := AddRow(pieces, rows[0]).value;
      AddRowKeepsPieces(pieces, rows[0]);
      MergeKeepsShape(env, mid, rows[1..]);
      MergeConservesText(env, mid, rows[1..]);
      AddRowAddsItsText(env, pieces, rows[0]);
      RowRangesCons(rows);
      ConcatCons(env, rows[0].range.value, RowRanges(rows[1..]));
      JoinIsAssociative(Concat(env, pieces), TextOf(env, rows[0].range.value), Concat(env, RowRanges(rows[1..])));
    }
  }

  /** Merging the affected rows into pieces loses no character and adds none. */
  lemma {:induction false} MergeConservesCharacters(pieces: seq<Piece>, rows: seq<Entry>, rel: string, x: int)
    requires AllNumbered(rows) && MergeRows(pieces, rows).Ok? && PiecesOk(pieces)
    requires forall i :: 0 <= i < |rows| ==> rows[i].range.Some?
    ensures Covers(MergeRows(pieces, rows).value, rel, x) <==>
              Covers(pieces, rel, x) || Covers(RowRanges(rows), rel, x)
    decreases |rows|
  {
    if |rows| > 0 {
      var mid := AddRow(pieces, rows[0]).value;
      AddRowKeepsPieces(pieces, rows[0]);
      MergeConservesCharacters(mid, rows[1..], rel, x);
      AddRowAddsItsCharacters(pieces, rows[0], rel, x);
      RowRangesCons(rows);
      CoversAppend([rows[0].range.value], RowRanges(rows[1..]), rel, x);
    }
  }

  // ---------- cutting pieces into the new layout ----------

  lemma PlannedAppend(a: seq<PlannedEpisode>, b: seq<PlannedEpisode>)
    ensures PlannedRanges(a + b) == PlannedRanges(a) + PlannedRanges(b)
  {
  }

  ghost predicate CutsRest(ends: seq<nat>, from: nat, size: nat) {
    && |ends| > 0 && from < ends[0] && ends[|ends| - 1] == size
    && (forall j, k :: 0 <= j < k < |ends| ==> ends[j] < ends[k])
  }

  /** Non-empty ranges of one file, each starting where the one before ends, from `lo` to `hi`. */
  ghost predicate Tiling(rs: seq<SourceRange>, rel: string, lo: int, hi: int) {
    && |rs| > 0 && rs[0].start == lo && rs[|rs| - 1].end == hi
    && (forall i :: 0 <= i < |rs| ==> rs[i].rel == rel && rs[i].start < rs[i].end)
    && (forall i :: 0 < i < |rs| ==> rs[i].start == rs[i - 1].end)
  }

  lemma TilingSplits(rs: seq<SourceRange>, rel: string, lo: int, hi: int)
    requires Tiling(rs, rel, lo, hi) && |rs| > 1
    ensures Tiling(rs[1..], rel, rs[0].end, hi)
  {
  }

  /** Laying out a cut tiles the stretch from `from` to the end of the piece. */
  lemma {:induction false} LayOutTiles(c: Cut, rel: string, start: int, from: nat, size: nat)
    requires |c.drafts| == |c.ends| && CutsRest(c.ends, from, size)
    ensures Tiling(PlannedRanges(LayOut(c, rel, start, start + from)), rel, start + from, start + size)
    decreases |c.ends|
  {
    var rs := PlannedRanges(LayOut(c, rel, start, start + from));
    var rest := Cut(c.drafts[1..], c.ends[1..]);
    var tail := PlannedRanges(LayOut(rest, rel, start, start + c.ends[0]));
    assert rs == [SourceRange(rel, start + from, start + c.ends[0])] + tail;
    if |c.ends| > 1 {
      assert CutsRest(rest.ends, c.ends[0], size);
      LayOutTiles(rest, rel, start, c.ends[0], size);
    }
  }

  lemma {:induction false} TilingInOrder(rs: seq<SourceRange>, rel: string, lo: int, hi: int)
    requires Tiling(rs, rel, lo, hi)
    ensures forall i :: 0 <= i < |rs| ==> lo <= rs[i].start && rs[i].end <= hi
    ensures Disjoint(rs)
  {
    if |rs| > 1 {
      TilingSplits(rs, rel, lo, hi);
      TilingInOrder(rs[1..], rel, rs[0].end, hi);
      forall i | 0 < i < |rs| ensures rs[0].end <= rs[i].start && rs[i].end <= hi {
        assert rs[1..][i - 1] == rs[i];
      }
      forall i, j | 0 <= i < j < |rs| ensures rs[i].end <= rs[j].start {
        if i > 0 {
          assert rs[1..][i - 1] == rs[i] && rs[1..][j - 1] == rs[j];
        }
      }
    }
  }

  lemma {:induction false} TilingText(env: Env, rs: seq<SourceRange>, rel: string, lo: int, hi: int)
    requires Tiling(rs, rel, lo, hi)
    requires Load(env, rel).Some? && 0 <= lo && hi <= |Load(env, rel).value|
    ensures Concat(env, rs) == TextOf(env, SourceRange(rel, lo, hi))
  {
    assert rs[0] == SourceRange(rel, lo, rs[0].end);
    if |rs| > 1 {
      TilingInOrder(rs, rel, lo, hi);
      TilingSplits(rs, rel, lo, hi);
      TilingText(env, rs[1..], rel, rs[0].end, hi);
      SlicesJoin(Load(env, rel).value, lo, rs[0].end, hi);
    } else {
      assert rs[1..] == [];
    }
  }

  lemma {:induction false} TilingCovers(rs: seq<SourceRange>, rel: string, lo: int, hi: int, q: string, x: int)
    requires Tiling(rs, rel, lo, hi)
    ensures Covers(rs, q, x) <==> q == rel && lo <= x < hi
  {
    CoversOne(rs[0], q, x);
    if |rs| > 1 {
      TilingSplits(rs, rel, lo, hi);
      TilingInOrder(rs, rel, lo, hi);
      TilingCovers(rs[1..], rel, rs[0].end, hi, q, x);
      CoversAppend([rs[0]], rs[1..], q, x);
      assert [rs[0]] + rs[1..] == rs;
    } else {
      assert rs == [rs[0]];
    }
  }

  /** Each piece has a cut that ends where the piece ends. */
  ghost predicate CutsFit(pieces: seq<Piece>, cuts: seq<Cut>) {
    && |cuts| == |pieces|
    && forall i :: 0 <= i < |pieces| ==>
         && 0 <= pieces[i].start < pieces[i].end
         && |cuts[i].drafts| == |cuts[i].ends|
         && CutsRest(cuts[i].ends, 0, pieces[i].end - pieces[i].start)
  }

  /** The layout of all pieces, piece by piece. */
  lemma {:induction false} LayOutAllSplits(pieces: seq<Piece>, cuts: seq<Cut>)
    requires |pieces| > 0 && CutsFit(pieces, cuts)
    ensures CutsFit(pieces[1..], cuts[1..])
    ensures var here := PlannedRanges(LayOut(cuts[0], pieces[0].rel, pieces[0].start, pieces[0].start));
            && PlannedRanges(LayOutAll(pieces, cuts)) == here + PlannedRanges(LayOutAll(pieces[1..], cuts[1..]))
            && Tiling(here, pieces[0].rel, pieces[0].start, pieces[0].end)
  {
    var p := pieces[0];
    LayOutTiles(cuts[0], p.rel, p.start, 0, p.end - p.start);
    PlannedAppend(LayOut(cuts[0], p.rel, p.start, p.start), LayOutAll(pieces[1..], cuts[1..]));
  }

  /** The whole layout carries the pieces' text. */
  lemma {:induction false} LayoutConservesText(env: Env, pieces: seq<Piece>, cuts: seq<Cut>)
    requires AllInside(env, pieces) && CutsFit(pieces, cuts)
    ensures Concat(env, PlannedRanges(LayOutAll(pieces, cuts))) == Concat(env, pieces)
  {
    if |pieces| > 0 {
      var p := pieces[0];
      var here := PlannedRanges(LayOut(cuts[0], p.rel, p.start, p.start));
      LayOutAllSplits(pieces, cuts);
      assert Inside(env, p);
      TilingText(env, here, p.rel, p.start, p.end);
      LayoutConservesText(env, pieces[1..], cuts[1..]);
      ConcatAppend(env, here, PlannedRanges(LayOutAll(pieces[1..], cuts[1..])));
    }
  }

  /** It covers the pieces' characters. */
  lemma {:induction false} LayoutCovers(pieces: seq<Piece>, cuts: seq<Cut>, rel: string, x: int)
    requires CutsFit(pieces, cuts)
    ensures Covers(PlannedRanges(LayOutAll(pieces, cuts)), rel, x) <==> Covers(pieces, rel, x)
  {
    if |pieces| > 0 {
      var p := pieces[0];
      var here := PlannedRanges(LayOut(cuts[0], p.rel, p.start, p.start));
      LayOutAllSplits(pieces, cuts);
      TilingCovers(here, p.rel, p.start, p.end, rel, x);
      LayoutCovers(pieces[1..], cuts[1..], rel, x);
      CoversAppend(here, PlannedRanges(LayOutAll(pieces[1..], cuts[1..])), rel, x);
      CoversAppend([p], pieces[1..], rel, x);
      CoversOne(p, rel, x);
      assert [p] + pieces[1..] == pieces;
    }
  }

  ghost predicate NamedIn(rs: seq<SourceRange>, rel: string) {
    exists k :: 0 <= k < |rs| && rs[k].rel == rel
  }

  /** It stays inside the pieces' files, and ends where the last piece ends. */
  lemma {:induction false} LayoutStaysInside(env: Env, pieces: seq<Piece>, cuts: seq<Cut>)
    requires AllInside(env, pieces) && CutsFit(pieces, cuts)
    ensures var rs := PlannedRanges(LayOutAll(pieces, cuts));
            && (forall i :: 0 <= i < |rs| ==> Inside(env, rs[i]) && NamedIn(pieces, rs[i].rel))
            && (|pieces| > 0 ==> |rs| > 0 && rs[|rs| - 1].rel == pieces[|pieces| - 1].rel
                                 && rs[|rs| - 1].end == pieces[|pieces| - 1].end)
  {
    hide CutsRest, LayOut;
    if |pieces| > 0 {
      var p := pieces[0];
      var here := PlannedRanges(LayOut(cuts[0], p.rel, p.start, p.start));
      var there := PlannedRanges(LayOutAll(pieces[1..], cuts[1..]));
      LayOutAllSplits(pieces, cuts);
      TilingInOrder(here, p.rel, p.start, p.end);
      LayoutStaysInside(env, pieces[1..], cuts[1..]);
      assert Inside(env, p);
      forall i | 0 <= i < |here + there|
        ensures Inside(env, (here + there)[i]) && NamedIn(pieces, (here + there)[i].rel)
      {
        if i < |here| {
          assert pieces[0].rel == (here + there)[i].rel;
        } else {
          var r := there[i - |here|];
          var k :| 0 <= k < |pieces[1..]| && pieces[1..][k].rel == r.rel;
          assert pieces[k + 1].rel == r.rel;
        }
      }
      if |pieces| == 1 {
        assert there == [];
      }
    }
  }

  /** It covers no character twice. */
  lemma {:induction false} LayoutIsDisjoint(env: Env, pieces: seq<Piece>, cuts: seq<Cut>)
    requires PiecesOk(pieces) && AllInside(env, pieces) && CutsFit(pieces, cuts)
    ensures Disjoint(PlannedRanges(LayOutAll(pieces, cuts)))
  {
    if |pieces| > 0 {
      var p := pieces[0];
      var here := PlannedRanges(LayOut(cuts[0], p.rel, p.start, p.start));
      var there := PlannedRanges(LayOutAll(pieces[1..], cuts[1..]));
      LayOutAllSplits(pieces, cuts);
      TilingInOrder(here, p.rel, p.start, p.end);
      LayoutStaysInside(env, pieces[1..], cuts[1..]);
      LayoutIsDisjoint(env, pieces[1..], cuts[1..]);
      forall j | 0 <= j < |there| ensures there[j].rel != p.rel {
        var k :| 0 <= k < |pieces[1..]| && pieces[1..][k].rel == there[j].rel;
        assert pieces[k + 1].rel == there[j].rel;
      }
      DisjointAppend(here, there);
    }
  }

  lemma DisjointAppend(a: seq<SourceRange>, b: seq<SourceRange>)
    requires Disjoint(a) && Disjoint(b)
    requires forall i, j :: 0 <= i < |a| && 0 <= j < |b| && a[i].rel == b[j].rel ==> a[i].end <= b[j].start
    ensures Disjoint(a + b)
  {
  }

  // ---------- the rows of the committed ledger ----------

  lemma {:induction false} FromNumConcat(a: seq<Entry>, b: seq<Entry>, from: int)
    ensures FromNum(a + b, from) == FromNum(a, from) + FromNum(b, from)
  {
    if |a| == 0 {
      assert a + b == b;
    } else {
      assert (a + b)[1..] == a[1..] + b;
      FromNumConcat(a[1..], b, from);
    }
  }

  lemma {:induction false} FromNumOfInsert(e: Entry, eps: seq<Entry>, from: int)
    requires e.num.Some? && InOrder(eps)
    ensures FromNum(Insert(e, eps), from) ==
              if e.num.value >= from then Insert(e, FromNum(eps, from)) else FromNum(eps, from)
  {
    if |eps| == 0 || e.num.value <= eps[0].num.value {
      assert ([e] + eps)[1..] == eps;
      if |eps| > 0 && eps[0].num.value < from {
        FromNumAfterSmaller(eps, e.num.value, from);
      }
    } else {
      assert Insert(e, eps)[1..] == Insert(e, eps[1..]);
      FromNumOfInsert(e, eps[1..], from);
    }
  }

  /** A sorted list that starts at or above `lo` keeps everything when filtered at `lo` or below. */
  lemma {:induction false} FromNumAfterSmaller(eps: seq<Entry>, lo: int, from: int)
    requires InOrder(eps) && |eps| > 0 && lo <= eps[0].num.value
    ensures |FromNum(eps, from)| > 0 ==> lo <= FromNum(eps, from)[0].num.value
  {
    var r := FromNum(eps, from);
    if |r| > 0 {
      assert r[0] in eps;
    }
  }

  /** Filtering from a number on commutes with the stable sort. */
  lemma {:induction false} FromNumOfSort(eps: seq<Entry>, from: int)
    requires AllNumbered(eps)
    ensures FromNum(Sort(eps), from) == Sort(FromNum(eps, from))
  {
    if |eps| > 0 {
      FromNumOfSort(eps[1..], from);
      SortSorts(eps[1..]);
      FromNumOfInsert(eps[0], Sort(eps[1..]), from);
      if eps[0].num.value >= from {
        assert FromNum(eps, from)[1..] == FromNum(eps[1..], from);
      }
    }
  }

  lemma {:induction false} NothingFrom(eps: seq<Entry>, from: int)
    requires forall i :: 0 <= i < |eps| ==> eps[i].num.None? || eps[i].num.value < from
    ensures FromNum(eps, from) == []
  {
    if |eps| > 0 {
      NothingFrom(eps[1..], from);
    }
  }

  lemma {:induction false} EverythingFrom(eps: seq<Entry>, from: int)
    requires forall i :: 0 <= i < |eps| ==> eps[i].num.Some? && eps[i].num.value >= from
    ensures FromNum(eps, from) == eps
  {
    if |eps| > 0 {
      EverythingFrom(eps[1..], from);
    }
  }

  /** The new rows: consecutive numbers and the layout's ranges, in order. */
  lemma {:induction false} ReplanRowAt(affected: seq<Entry>, planned: seq<PlannedEpisode>, n: int, i: nat)
    requires i < |planned|
    ensures ReplanRows(affected, planned, n)[i] == ReplanRow(affected, planned[i], n + i)
  {
    if i > 0 {
      ReplanRowAt(affected, planned[1..], n + 1, i - 1);
    }
  }

  lemma ReplanRowsRun(affected: seq<Entry>, planned: seq<PlannedEpisode>, n: int)
    ensures var rows := ReplanRows(affected, planned, n);
            forall i :: 0 <= i < |rows| ==> rows[i].num == Some(n + i) && rows[i].range == Some(planned[i].range)
  {
    forall i | 0 <= i < |planned|
      ensures var row := ReplanRows(affected, planned, n)[i];
              row.num == Some(n + i) && row.range == Some(planned[i].range)
    {
      ReplanRowAt(affected, planned, n, i);
    }
  }

  lemma MemberHasNum(eps: seq<Entry>, e: Entry)
    ensures e in eps && e.num.Some? ==> e.num.value in NumsOf(eps)
  {
  }

  /** After a replan the rows from `from` on are the new rows and nothing else. */
  lemma AffectedAfterReplan(p: Project, affected: seq<Entry>, t: ReplanTicket)
    requires affected == Affected(p.episodes, t.from)
    ensures Affected(ReplannedLedger(p, affected, t).episodes, t.from) == ReplanRows(affected, t.planned, t.from)
  {
    hide ReplanRows;
    var kept := Unaffected(p.episodes, NumsOf(affected));
    var rows := ReplanRows(affected, t.planned, t.from);
    ReplanRowsRun(affected, t.planned, t.from);
    forall i | 0 <= i < |kept| ensures kept[i].num.None? || kept[i].num.value < t.from {
      AffectedIsTheTail(p.episodes, t.from, kept[i]);
      MemberHasNum(affected, kept[i]);
    }
    NothingFrom(kept, t.from);
    EverythingFrom(rows, t.from);
    FromNumConcat(kept, rows, t.from);
    assert FromNum(kept + rows, t.from) == rows;
    SortFixesSorted(rows);
    if AllNumbered(kept + rows) {
      FromNumOfSort(kept + rows, t.from);
    }
  }

  lemma {:induction false} MergeDependsOnRanges(pieces: seq<Piece>, a: seq<Entry>, b: seq<Entry>)
    requires AllNumbered(a) && AllNumbered(b) && RangesOf(a) == RangesOf(b)
    ensures MergeRows(pieces, a) == MergeRows(pieces, b)
    decreases |a|
  {
    assert |a| == |b|;
    if |a| > 0 {
      assert RangesOf(a)[0] == RangesOf(b)[0];
      assert RangesOf(a[1..]) == RangesOf(b[1..]) by {
        forall i | 0 <= i < |a| - 1 ensures RangesOf(a[1..])[i] == RangesOf(b[1..])[i] {
          assert RangesOf(a)[i + 1] == RangesOf(b)[i + 1];
        }
      }
      var r := AddRow(pieces, a[0]);
      if r.Ok? {
        MergeDependsOnRanges(r.value, a[1..], b[1..]);
      }
    }
  }

  lemma PreparedPiecesAreGood(env: Env, t: ReplanTicket, pieces: seq<Piece>, cuts: seq<Cut>)
    requires ReplanPrepared(env, t, pieces, cuts)
    ensures PiecesOk([]) && AllInside(env, pieces) && CutsFit(pieces, cuts)
  {
    forall i | 0 <= i < |pieces|
      ensures Inside(env, pieces[i])
      ensures |cuts[i].drafts| == |cuts[i].ends| && CutsRest(cuts[i].ends, 0, pieces[i].end - pieces[i].start)
    {
    }
  }

  /** What a successful replan commit has checked, and the ledger it installs. */
  lemma {:induction false} ReplanCommitChecks(env: Env, s: Store, t: ReplanTicket)
    requires CommitReplan(env, s, t).Done?
    ensures var p := Backfilled(env, s);
            var before := Affected(p.episodes, t.from);
            && RangesOf(before) == RangesOf(t.affected)
            && MergeRows([], before).Ok?
            && (forall n :: n in ConsumedNums(before) ==> n in t.consumed)
            && CommitReplan(env, s, t).store.project == ReplannedLedger(p, before, t)
  {
  }

  lemma {:induction false} RowsMergeIntoPieces(env: Env, before: seq<Entry>, t: ReplanTicket, pieces: seq<Piece>,
                                               cuts: seq<Cut>)
    requires ReplanPrepared(env, t, pieces, cuts) && AllNumbered(before) && RangesOf(before) == RangesOf(t.affected)
    ensures MergeRows([], before) == Ok(pieces)
    ensures forall i :: 0 <= i < |before| ==> before[i].range.Some? && Inside(env, before[i].range.value)
  {
    PreparedPiecesAreGood(env, t, pieces, cuts);
    MergeDependsOnRanges([], before, t.affected);
    MergeKeepsShape(env, [], before);
  }

  lemma {:induction false} LayoutReplacesRows(p: Project, t: ReplanTicket)
    ensures var before := Affected(p.episodes, t.from);
            var after := Affected(ReplannedLedger(p, before, t).episodes, t.from);
            && after == ReplanRows(before, t.planned, t.from)
            && (forall i :: 0 <= i < |after| ==> after[i].range.Some? && after[i].num == Some(t.from + i))
            && RowRanges(after) == PlannedRanges(t.planned)
  {
    hide *;
    var before := Affected(p.episodes, t.from);
    AffectedAfterReplan(p, before, t);
    ReplanRowsRun(before, t.planned, t.from);
  }

  /** The rows of the commit merge into the ticket's pieces, and the rows it installs carry the ticket's layout. */
  lemma {:induction false} ReplanBeforeAndAfter(env: Env, s: Store, t: ReplanTicket, pieces: seq<Piece>, cuts: seq<Cut>)
    requires CommitReplan(env, s, t).Done? && ReplanPrepared(env, t, pieces, cuts)
    ensures var before := Affected(Backfilled(env, s).episodes, t.from);
            var after := Affected(CommitReplan(env, s, t).store.project.episodes, t.from);
            && MergeRows([], before) == Ok(pieces)
            && (forall i :: 0 <= i < |before| ==> before[i].range.Some? && Inside(env, before[i].range.value))
            && (forall i :: 0 <= i < |after| ==> after[i].range.Some? && after[i].num == Some(t.from + i))
            && RowRanges(after) == PlannedRanges(LayOutAll(pieces, cuts))
            && after == ReplanRows(before, t.planned, t.from)
  {
    ReplanCommitChecks(env, s, t);
    RowsMergeIntoPieces(env, Affected(Backfilled(env, s).episodes, t.from), t, pieces, cuts);
    LayoutReplacesRows(Backfilled(env, s), t);
  }

  /** A committed replan conserves text. `before` and `after` are the rows from the requested number on, in
      number order: every one has a range, the joined text is the same, and the new rows are numbered
      consecutively from the requested one. */
  lemma {:induction false} ReplanConservesText(env: Env, s: Store, t: ReplanTicket, pieces: seq<Piece>, cuts: seq<Cut>)
    requires CommitReplan(env, s, t).Done? && ReplanPrepared(env, t, pieces, cuts)
    ensures var before := Affected(Backfilled(env, s).episodes, t.from);
            var after := Affected(CommitReplan(env, s, t).store.project.episodes, t.from);
            && (forall i :: 0 <= i < |before| ==> before[i].range.Some?)
            && (forall i :: 0 <= i < |after| ==> after[i].range.Some? && after[i].num == Some(t.from + i))
            && Concat(env, RowRanges(after)) == Concat(env, RowRanges(before))
  {
    var before := Affected(Backfilled(env, s).episodes, t.from);
    ReplanBeforeAndAfter(env, s, t, pieces, cuts);
    PreparedPiecesAreGood(env, t, pieces, cuts);
    MergeConservesText(env, [], before);
    LayoutConservesText(env, pieces, cuts);
    assert Concat(env, []) + Concat(env, RowRanges(before)) == Concat(env, RowRanges(before));
  }

  /** A committed replan covers exactly the characters that were covered, and none of them twice. */
  lemma {:induction false} ReplanCoversSameCharacters(env: Env, s: Store, t: ReplanTicket, pieces: seq<Piece>,
                                                      cuts: seq<Cut>, rel: string, x: int)
    requires CommitReplan(env, s, t).Done? && ReplanPrepared(env, t, pieces, cuts)
    ensures var before := Affected(Backfilled(env, s).episodes, t.from);
            var after := Affected(CommitReplan(env, s, t).store.project.episodes, t.from);
            && (forall i :: 0 <= i < |before| ==> before[i].range.Some?)
            && (forall i :: 0 <= i < |after| ==> after[i].range.Some?)
            && (Covers(RowRanges(after), rel, x) <==> Covers(RowRanges(before), rel, x))
            && Disjoint(RowRanges(after))
  {
    var before := Affected(Backfilled(env, s).episodes, t.from);
    ReplanBeforeAndAfter(env, s, t, pieces, cuts);
    PreparedPiecesAreGood(env, t, pieces, cuts);
    MergeKeepsShape(env, [], before);
    MergeConservesCharacters([], before, rel, x);
    LayoutCovers(pieces, cuts, rel, x);
    LayoutIsDisjoint(env, pieces, cuts);
  }
}
