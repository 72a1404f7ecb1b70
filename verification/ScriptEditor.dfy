/** Inserting, splitting and removing items of a script, and the ids new items get (lib/script_editor.py). */
module ScriptEditor {
  import opened Options
  import opened Decimal

  datatype Assets = Absent | Assets(entries: map<string, string>) | Malformed

  /** An element of the item list. `id` is the text of the id field's value, if the field is there. Anything that is
      not an object is left alone. */
  datatype Item =
    | Item(id: Option<string>, assets: Assets, content: string)
    | NotAnObject(raw: string)

  datatype EditError = BadItem | BadParts | NotFound

  /** An object's id as text; a missing one reads as "None". */
  function IdText(item: Item): string
    requires item.Item?
  {
    item.id.GetOr("None")
  }

  function ExistingIds(items: seq<Item>): set<string> {
    set i | 0 <= i < |items| && items[i].Item? :: IdText(items[i])
  }

  /** No two objects of the list have the same id. */
  ghost predicate Unique(items: seq<Item>) {
    forall i, j :: 0 <= i < j < |items| && items[i].Item? && items[j].Item? ==> IdText(items[i]) != IdText(items[j])
  }

  // ---------- new ids ----------

  /** The part before the first underscore. */
  function Stem(id: string): (r: string)
    ensures |r| <= |id| && r == id[..|r|] && '_' !in r && (|r| < |id| ==> id[|r|] == '_')
  {
    if |id| == 0 || id[0] == '_' then "" else [id[0]] + Stem(id[1..])
  }

  function Suffixed(stem: string, k: nat): string {
    stem + "_" + OfNat(k)
  }

  lemma SuffixedInjective(stem: string, j: nat, k: nat)
    requires Suffixed(stem, j) == Suffixed(stem, k)
    ensures j == k
  {
    assert Suffixed(stem, j)[|stem| + 1..] == OfNat(j);
    assert Suffixed(stem, k)[|stem| + 1..] == OfNat(k);
    OfNatInjective(j, k);
  }

  /** The taken ids the search may still run into. */
  ghost function Ahead(stem: string, taken: set<string>, k: nat): set<string> {
    set s | s in taken && exists j: nat :: j >= k && s == Suffixed(stem, j)
  }

  /** Every step of the search leaves one taken id behind. */
  lemma SearchAdvances(stem: string, taken: set<string>, k: nat)
    requires Suffixed(stem, k) in taken
    ensures Ahead(stem, taken, k + 1) < Ahead(stem, taken, k)
  {
    var here := Suffixed(stem, k);
    assert here in Ahead(stem, taken, k);
    if here in Ahead(stem, taken, k + 1) {
      var j: nat :| j >= k + 1 && here == Suffixed(stem, j);
      SuffixedInjective(stem, j, k);
    }
    forall s | s in Ahead(stem, taken, k + 1) ensures s in Ahead(stem, taken, k) {
    }
  }

  /** The first free number from `k` on. */
  function FirstFree(stem: string, taken: set<string>, k: nat): (j: nat)
    ensures j >= k && Suffixed(stem, j) !in taken
    ensures forall i :: k <= i < j ==> Suffixed(stem, i) in taken
    decreases Ahead(stem, taken, k)
  {
    if Suffixed(stem, k) !in taken then k
    else
      SearchAdvances(stem, taken, k);
      FirstFree(stem, taken, k + 1)
  }

  function NewId(base: string, taken: set<string>): (id: string)
    ensures id !in taken
  {
    Suffixed(Stem(base), FirstFree(Stem(base), taken, 1))
  }

  /** Counts up until a free id is found; it ends because only finitely many are taken. */
  method NextSuffixedId(base: string, taken: set<string>) returns (id: string)
    ensures id == NewId(base, taken)
    ensures exists k: nat ::
              && k >= 1 && id == Suffixed(Stem(base), k) && id !in taken
              && forall i :: 1 <= i < k ==> Suffixed(Stem(base), i) in taken
  {
    var stem := Stem(base);
    var k := 1;
    while Suffixed(stem, k) in taken
      invariant k >= 1 && FirstFree(stem, taken, 1) == FirstFree(stem, taken, k)
      invariant forall i :: 1 <= i < k ==> Suffixed(stem, i) in taken
      decreases Ahead(stem, taken, k)
    {
      SearchAdvances(stem, taken, k);
      k := k + 1;
    }
    id := Suffixed(stem, k);
  }

  ghost predicate AllDigits(s: string) {
    |s| > 0 && forall i :: 0 <= i < |s| ==> IsDigit(s[i])
  }

  /** `E<n>S<n>` */
  ghost predicate PlainForm(id: string) {
    exists a, b :: AllDigits(a) && AllDigits(b) && id == "E" + a + "S" + b
  }

  /** `E<n>S<n>_<k>` */
  ghost predicate SuffixedForm(id: string) {
    exists plain, k :: PlainForm(plain) && AllDigits(k) && id == plain + "_" + k
  }

  lemma {:induction false} StemOf(plain: string, rest: string)
    requires '_' !in plain && (|rest| > 0 ==> rest[0] == '_')
    ensures Stem(plain + rest) == plain
  {
    if |plain| == 0 {
      assert plain + rest == rest;
    } else {
      assert (plain + rest)[1..] == plain[1..] + rest;
      StemOf(plain[1..], rest);
    }
  }

  lemma PlainHasNoUnderscore(id: string)
    requires PlainForm(id)
    ensures '_' !in id
  {
    var a, b :| AllDigits(a) && AllDigits(b) && id == "E" + a + "S" + b;
    assert '_' !in a && '_' !in b;
  }

  lemma StemIsPlain(base: string)
    requires PlainForm(base) || SuffixedForm(base)
    ensures PlainForm(Stem(base))
  {
    hide PlainForm;
    if PlainForm(base) {
      PlainHasNoUnderscore(base);
      StemOf(base, "");
      assert base + "" == base;
    } else {
      var plain, k :| PlainForm(plain) && AllDigits(k) && base == plain + "_" + k;
      PlainHasNoUnderscore(plain);
      StemOf(plain, "_" + k);
      assert plain + ("_" + k) == base;
    }
  }

  /** A new id keeps the stem and carries one suffix, whatever suffixes the anchor had; from an id of either legal
      form comes one of the suffixed form. */
  lemma NewIdHasOneSuffix(base: string, taken: set<string>)
    ensures Stem(NewId(base, taken)) == Stem(base)
    ensures PlainForm(base) || SuffixedForm(base) ==> SuffixedForm(NewId(base, taken))
  {
    hide PlainForm, FirstFree;
    var stem, number := Stem(base), OfNat(FirstFree(Stem(base), taken, 1));
    StemOf(stem, "_" + number);
    assert NewId(base, taken) == stem + "_" + number == stem + ("_" + number);
    if PlainForm(base) || SuffixedForm(base) {
      StemIsPlain(base);
      assert AllDigits(number);
    }
  }

  // ---------- edits on lists ----------

  function Insert(items: seq<Item>, i: nat, item: Item): seq<Item>
    requires i <= |items|
  {
    items[..i] + [item] + items[i..]
  }

  function Splice(items: seq<Item>, i: nat, parts: seq<Item>): seq<Item>
    requires i < |items|
  {
    items[..i] + parts + items[i + 1..]
  }

  ghost predicate FirstWith(items: seq<Item>, id: string, i: int) {
    && 0 <= i < |items| && items[i].Item? && IdText(items[i]) == id
    && forall j :: 0 <= j < i && items[j].Item? ==> IdText(items[j]) != id
  }

  /** Everything taken from a list of parts but the first: fresh ids, one after the other, and no assets. */
  function FreshParts(base: string, taken: set<string>, parts: seq<Item>): (r: seq<Item>)
    requires forall i :: 0 <= i < |parts| ==> parts[i].Item?
    ensures |r| == |parts| && forall i :: 0 <= i < |r| ==> r[i].Item?
    decreases |parts|
  {
    if |parts| == 0 then []
    else
      var id := NewId(base, taken);
      [Item(Some(id), Assets(map[]), parts[0].content)] + FreshParts(base, taken + {id}, parts[1..])
  }

  lemma {:induction false} FreshPartsAreFresh(base: string, taken: set<string>, parts: seq<Item>)
    requires forall i :: 0 <= i < |parts| ==> parts[i].Item?
    ensures var r := FreshParts(base, taken, parts);
            && Unique(r)
            && forall i :: 0 <= i < |r| ==>
                 IdText(r[i]) !in taken && r[i].content == parts[i].content && r[i].assets == Assets(map[])
    decreases |parts|
  {
    if |parts| > 0 {
      var id := NewId(base, taken);
      FreshPartsAreFresh(base, taken + {id}, parts[1..]);
      var r, rest := FreshParts(base, taken, parts), FreshParts(base, taken + {id}, parts[1..]);
      assert r == [r[0]] + rest;
      forall i | 0 <= i < |rest|
        ensures IdText(rest[i]) != id && IdText(rest[i]) !in taken && rest[i].content == parts[i + 1].content
      {
        assert parts[1..][i] == parts[i + 1];
      }
    }
  }

  /** The assets that go on with an item: none if what is recorded there is no record of assets. */
  function KeptAssets(anchor: Item): Assets
    requires anchor.Item?
  {
    if anchor.assets.Assets? then anchor.assets else Assets(map[])
  }

  /** What a split puts in the place of the anchor: the first part keeps its id and assets. */
  function SplitParts(anchor: Item, id: string, taken: set<string>, parts: seq<Item>): (r: seq<Item>)
    requires anchor.Item? && |parts| > 0 && forall i :: 0 <= i < |parts| ==> parts[i].Item?
  {
    [Item(Some(id), if anchor.assets.Assets? then anchor.assets else Assets(map[]), parts[0].content)]
    + FreshParts(id, taken, parts[1..])
  }

  lemma TakenIds(items: seq<Item>, i: nat)
    requires i < |items| && items[i].Item?
    ensures IdText(items[i]) in ExistingIds(items)
  {
  }

  /** Insertion keeps ids unique. */
  lemma InsertKeepsUnique(items: seq<Item>, i: nat, item: Item)
    requires Unique(items) && i <= |items| && item.Item? && IdText(item) !in ExistingIds(items)
    ensures Unique(Insert(items, i, item))
  {
    var r := Insert(items, i, item);
    forall j | 0 <= j < |items| && items[j].Item? ensures IdText(items[j]) != IdText(item) {
      TakenIds(items, j);
    }
    forall j | 0 <= j < |r| ensures r[j] == if j < i then items[j] else if j == i then item else items[j - 1] {
    }
  }

  /** So does replacing an item by parts of which the first has its id and the others have new ones. */
  lemma SpliceKeepsUnique(items: seq<Item>, i: nat, parts: seq<Item>)
    requires Unique(items) && i < |items| && items[i].Item? && |parts| > 0 && Unique(parts)
    requires forall k :: 0 <= k < |parts| ==> parts[k].Item?
    requires IdText(parts[0]) == IdText(items[i])
    requires forall k :: 0 < k < |parts| ==> IdText(parts[k]) !in ExistingIds(items)
    ensures Unique(Splice(items, i, parts))
  {
    var r, n := Splice(items, i, parts), |parts|;
    forall j, k | 0 <= j < |items| && j != i && items[j].Item? && 0 <= k < n
      ensures IdText(items[j]) != IdText(parts[k])
    {
      TakenIds(items, j);
    }
    forall j | 0 <= j < |r|
      ensures r[j] == if j < i then items[j] else if j < i + n then parts[j - i] else items[j - n + 1]
    {
    }
  }

  lemma RemoveKeepsUnique(items: seq<Item>, i: nat)
    requires Unique(items) && i < |items|
    ensures Unique(items[..i] + items[i + 1..])
  {
    var r := items[..i] + items[i + 1..];
    forall j | 0 <= j < |r| ensures r[j] == items[if j < i then j else j + 1] {
    }
  }

  // ---------- the editor ----------

  class Script {
    var items: seq<Item>

    constructor (items: seq<Item>)
      ensures this.items == items
    {
      this.items := items;
    }

    method FindIndex(id: string) returns (r: Result<nat, EditError>)
      ensures r.Ok? ==> FirstWith(items, id, r.value)
      ensures r.Err? ==> r.error == NotFound && id !in ExistingIds(items)
    {
      for i := 0 to |items|
        invariant forall j :: 0 <= j < i && items[j].Item? ==> IdText(items[j]) != id
      {
        if items[i].Item? && IdText(items[i]) == id {
          return Ok(i);
        }
      }
      return Err(NotFound);
    }

    /** Inserts an item behind the anchor: a new id in the anchor's family, no assets, everything else untouched. */
    method InsertSegment(afterId: string, newItem: Item) returns (error: Option<EditError>)
      modifies this
      ensures error.Some? ==> items == old(items)
      ensures error.Some? <==> newItem.NotAnObject? || afterId !in ExistingIds(old(items))
      ensures error.Some? ==> error.value == if newItem.NotAnObject? then BadItem else NotFound
      ensures error.None? ==>
                exists i :: FirstWith(old(items), afterId, i) &&
                  items == Insert(old(items), i + 1,
                                  Item(Some(NewId(afterId, ExistingIds(old(items)))), Assets(map[]), newItem.content))
      ensures error.None? && Unique(old(items)) ==> Unique(items)
    {
      if newItem.NotAnObject? {
        return Some(BadItem);
      }
      var found := FindIndex(afterId);
      if found.Err? {
        return Some(found.error);
      }
      var id := NextSuffixedId(afterId, ExistingIds(items));
      var item := Item(Some(id), Assets(map[]), newItem.content);
      TakenIds(items, found.value);
      if Unique(items) {
        InsertKeepsUnique(items, found.value + 1, item);
      }
      items := items[..found.value + 1] + [item] + items[found.value + 1..];
      return None;
    }

    method RemoveSegment(id: string) returns (error: Option<EditError>)
      modifies this
      ensures error.Some? ==> items == old(items) && error.value == NotFound
      ensures error.Some? <==> id !in ExistingIds(old(items))
      ensures error.None? ==>
                exists i :: FirstWith(old(items), id, i) && items == old(items)[..i] + old(items)[i + 1..]
      ensures Unique(old(items)) ==> Unique(items)
    {
      var found := FindIndex(id);
      if found.Err? {
        return Some(found.error);
      }
      TakenIds(items, found.value);
      if Unique(items) {
        RemoveKeepsUnique(items, found.value);
      }
      items := items[..found.value] + items[found.value + 1..];
      return None;
    }

    /** Replaces an item by its parts. The first keeps id and assets, the others get new ids and none. */
    method SplitSegment(id: string, parts: seq<Item>) returns (error: Option<EditError>)
      modifies this
      ensures error.Some? ==> items == old(items)
      ensures error.Some? <==>
                |parts| < 2 || (exists i :: 0 <= i < |parts| && parts[i].NotAnObject?) || id !in ExistingIds(old(items))
      ensures error.None? ==>
                exists i :: FirstWith(old(items), id, i) &&
                  items == Splice(old(items), i, SplitParts(old(items)[i], id, ExistingIds(old(items)), parts))
      ensures error.None? ==>
                exists i :: FirstWith(old(items), id, i) && SplitInto(old(items), i, items, id, parts)
      ensures error.None? && Unique(old(items)) ==> Unique(items)
    {
      if |parts| < 2 {
        return Some(BadParts);
      }
      if exists i :: 0 <= i < |parts| && parts[i].NotAnObject? {
        return Some(BadParts);
      }
      var found := FindIndex(id);
      if found.Err? {
        return Some(found.error);
      }
      var anchor := items[found.value];
      TakenIds(items, found.value);
      var newParts := BuildParts(anchor, id, ExistingIds(items), parts);
      SplitPartsAreFresh(anchor, id, ExistingIds(items), parts);
      SplitMeans(items, found.value, id, parts);
      if Unique(items) {
        SpliceKeepsUnique(items, found.value, newParts);
      }
      items := items[..found.value] + newParts + items[found.value + 1..];
      return None;
    }
  }

  lemma SplitPartsAreFresh(anchor: Item, id: string, taken: set<string>, parts: seq<Item>)
    requires anchor.Item? && |parts| > 0 && id in taken && forall i :: 0 <= i < |parts| ==> parts[i].Item?
    ensures var r := SplitParts(anchor, id, taken, parts);
            && |r| == |parts| && Unique(r) && r[0].Item? && r[0].id == Some(id)
            && r[0].assets == KeptAssets(anchor)
            && (forall k :: 0 <= k < |r| ==> r[k].Item? && r[k].content == parts[k].content)
            && (forall k :: 0 < k < |r| ==> IdText(r[k]) !in taken && r[k].assets == Assets(map[]))
  {
    FreshPartsAreFresh(id, taken, parts[1..]);
    var r, rest := SplitParts(anchor, id, taken, parts), FreshParts(id, taken, parts[1..]);
    assert r == [r[0]] + rest;
    forall k | 0 < k < |r| ensures r[k] == rest[k - 1] && parts[k] == parts[1..][k - 1] {
    }
  }

  /** What a split does to the list: the parts stand where the item stood, the first with its id and its assets, the
      others with new ids of their own and without assets; all other items stay where they were. */
  ghost predicate SplitInto(was: seq<Item>, i: int, now: seq<Item>, id: string, parts: seq<Item>) {
    && 0 <= i < |was| && was[i].Item? && |now| == |was| - 1 + |parts| && |parts| > 0
    && (forall k :: 0 <= k < |parts| ==> parts[k].Item?)
    && now[..i] == was[..i] && now[i + |parts|..] == was[i + 1..]
    && now[i] == Item(Some(id), KeptAssets(was[i]), parts[0].content)
    && (forall k :: 0 < k < |parts| ==>
          now[i + k].Item? && now[i + k].content == parts[k].content && now[i + k].assets == Assets(map[])
          && IdText(now[i + k]) !in ExistingIds(was))
    && Unique(now[i..i + |parts|])
  }

  lemma SplitMeans(was: seq<Item>, i: nat, id: string, parts: seq<Item>)
    requires i < |was| && was[i].Item? && |parts| > 0 && id in ExistingIds(was)
    requires forall k :: 0 <= k < |parts| ==> parts[k].Item?
    ensures SplitInto(was, i, Splice(was, i, SplitParts(was[i], id, ExistingIds(was), parts)), id, parts)
  {
    hide SplitParts, ExistingIds, Unique, FirstWith;
    var r := SplitParts(was[i], id, ExistingIds(was), parts);
    SplitPartsAreFresh(was[i], id, ExistingIds(was), parts);
    var now := Splice(was, i, r);
    assert now[i..i + |parts|] == r;
    assert now[..i] == was[..i] && now[i + |parts|..] == was[i + 1..];
    assert now[i] == r[0] == Item(Some(id), KeptAssets(was[i]), parts[0].content);
    forall k | 0 < k < |parts| ensures now[i + k] == r[k] {
    }
  }

  method BuildParts(anchor: Item, id: string, existing: set<string>, parts: seq<Item>) returns (newParts: seq<Item>)
    requires anchor.Item? && |parts| > 0 && forall i :: 0 <= i < |parts| ==> parts[i].Item?
    ensures newParts == SplitParts(anchor, id, existing, parts)
  {
    var taken := existing;
    newParts := [];
    for offset := 0 to |parts|
      invariant offset == 0 ==> newParts == [] && taken == existing
      invariant offset > 0 ==>
        SplitParts(anchor, id, existing, parts) == newParts + FreshParts(id, taken, parts[offset..])
    {
      var part := parts[offset];
      if offset == 0 {
        newParts := [Item(Some(id), if anchor.assets.Assets? then anchor.assets else Assets(map[]), part.content)];
      } else {
        var newId := NextSuffixedId(id, taken);
        assert parts[offset..][1..] == parts[offset + 1..];
        taken := taken + {newId};
        newParts := newParts + [Item(Some(newId), Assets(map[]), part.content)];
      }
    }
  }
}
