/** Choosing the profile's files for a content mode (lib/profile_manifest.py, `_parse_variant_suffix`,
    `resolve_profile_files_for_mode`): `x.narration.md`, `x.drama.md` and `x.ad.md` all stand for `x.md`. */
module ProfileResolve {
  import opened Options
  import opened ProfileSync

  /** A file of the profile: its directory and its name. */
  datatype SourceFile = SourceFile(dir: seq<string>, name: string)

  /** What a file stands for, and in which mode; `None` for files common to all. */
  datatype Parsed = Parsed(logical: SourceFile, mode: Option<Mode>)

  /** Index of the last dot, -1 if there is none. */
  function LastDot(s: string): (i: int)
    ensures -1 <= i < |s| && (i >= 0 ==> s[i] == '.')
    ensures forall j :: i < j < |s| ==> s[j] != '.'
  {
    if |s| == 0 then -1 else if s[|s| - 1] == '.' then |s| - 1 else LastDot(s[..|s| - 1])
  }

  function ModeName(m: Mode): string {
    match m
    case Narration => "narration"
    case Drama => "drama"
    case Ad => "ad"
  }

  function ModeOf(s: string): (m: Option<Mode>)
    ensures m.Some? ==> ModeName(m.value) == s
  {
    if s == "narration" then Some(Narration) else if s == "drama" then Some(Drama) else if s == "ad" then Some(Ad)
    else None
  }

  /** Where the extension starts, as `PurePosixPath.suffix` sees it. */
  function ExtensionStart(name: string): (i: nat)
    ensures i <= |name|
  {
    var i := LastDot(name);
    if 0 < i < |name| - 1 then i else |name|
  }

  /** A file with an empty stem before its mode, such as `.ad`, stands for the directory it is in. */
  function Place(dir: seq<string>, name: string): SourceFile {
    if name == "" && |dir| > 0 then SourceFile(dir[..|dir| - 1], dir[|dir| - 1]) else SourceFile(dir, name)
  }

  function Parse(f: SourceFile): Parsed {
    var e := ExtensionStart(f.name);
    var stem, suffix := f.name[..e], f.name[e..];
    var j := LastDot(stem);
    if j >= 0 && ModeOf(stem[j + 1..]).Some? then
      Parsed(Place(f.dir, stem[..j] + suffix), ModeOf(stem[j + 1..]))
    else Parsed(f, None)
  }

  /** A name that is nothing but a mode: `.narration`, `.drama`, `.ad`. */
  predicate Bare(name: string) {
    |name| > 0 && name[0] == '.' && ModeOf(name[1..]).Some?
  }

  lemma NoLaterDot(s: string, e: string)
    requires '.' !in e
    ensures var n := s + "." + e;
            n[|s|] == '.' && (forall i :: |s| < i < |n| ==> n[i] != '.') && n[..|s|] == s && n[|s| + 1..] == e
  {
    var n := s + "." + e;
    forall i | |s| < i < |n| ensures n[i] != '.' {
      assert n[i] == e[i - |s| - 1];
    }
  }

  lemma SameEnd(s: string, e: string, t: string, f: string)
    requires '.' !in e && '.' !in f && s + "." + e == t + "." + f
    ensures s == t && e == f
  {
    NoLaterDot(s, e);
    NoLaterDot(t, f);
  }

  lemma VariantHasExtension(f: SourceFile)
    requires Parse(f).mode.Some?
    ensures ExtensionStart(f.name) < |f.name| || Bare(f.name)
  {
    if ExtensionStart(f.name) == |f.name| {
      assert f.name[..|f.name|] == f.name;
    }
  }

  /** A variant's name, taken apart. */
  lemma VariantShape(f: SourceFile) returns (stem: string, extension: string)
    requires Parse(f).mode.Some? && !Bare(f.name)
    ensures '.' !in extension
    ensures f.name == stem + "." + ModeName(Parse(f).mode.value) + ("." + extension)
    ensures Parse(f).logical == SourceFile(f.dir, stem + "." + extension)
  {
    VariantHasExtension(f);
    var e := ExtensionStart(f.name);
    var j := LastDot(f.name[..e]);
    stem, extension := f.name[..e][..j], f.name[e + 1..];
    assert forall i :: 0 <= i < |extension| ==> extension[i] == f.name[e + 1 + i];
    assert f.name[e..] == "." + extension;
    assert f.name[..e] == stem + "." + f.name[..e][j + 1..];
    assert f.name == f.name[..e] + f.name[e..];
    assert stem + f.name[e..] == stem + "." + extension;
  }

  /** Apart from bare mode names, what a file stands for says which file it is. */
  lemma ParseIsInjective(f: SourceFile, g: SourceFile)
    requires Parse(f) == Parse(g) && !Bare(f.name) && !Bare(g.name)
    ensures f == g
  {
    if Parse(f).mode.Some? {
      var s, e := VariantShape(f);
      var t, x := VariantShape(g);
      SameEnd(s, e, t, x);
    }
  }

  lemma LastDotIs(s: string, e: string)
    requires '.' !in e
    ensures LastDot(s + "." + e) == |s|
  {
    NoLaterDot(s, e);
  }

  lemma ModeNamesAreDotless(m: Mode)
    ensures '.' !in ModeName(m) && |ModeName(m)| > 0 && ModeOf(ModeName(m)) == Some(m)
  {
  }

  /** Putting a mode in front of the extension makes a variant of that name in that mode. */
  lemma VariantOf(dir: seq<string>, stem: string, m: Mode, extension: string)
    requires '.' !in extension && |extension| > 0
    ensures Parse(SourceFile(dir, stem + "." + ModeName(m) + "." + extension))
            == Parsed(SourceFile(dir, stem + "." + extension), Some(m))
  {
    hide ModeOf, ModeName;
    ModeNamesAreDotless(m);
    var front := stem + "." + ModeName(m);
    var name := front + "." + extension;
    LastDotIs(front, extension);
    LastDotIs(stem, ModeName(m));
    assert name[..|front|] == front && name[|front|..] == "." + extension;
    assert front[..|stem|] == stem && front[|stem| + 1..] == ModeName(m);
    assert stem + ("." + extension) == stem + "." + extension;
  }

  /** A file with a bare name is taken for the directory it is in, so it can collide with a real variant of it. */
  lemma BareNamesCollide(dir: seq<string>, stem: string, m: Mode, extension: string)
    requires '.' !in extension && |extension| > 0
    ensures Parse(SourceFile(dir + [stem + "." + extension], "." + ModeName(m)))
            == Parse(SourceFile(dir, stem + "." + ModeName(m) + "." + extension))
  {
    hide ModeOf, ModeName;
    ModeNamesAreDotless(m);
    VariantOf(dir, stem, m, extension);
    var inner := dir + [stem + "." + extension];
    var name := "." + ModeName(m);
    assert "" + "." + ModeName(m) == name;
    LastDotIs("", ModeName(m));
    assert name[..|name|] == name && name[|name|..] == "" && name[1..] == ModeName(m) && name[..0] + "" == "";
    assert inner[..|inner| - 1] == dir;
  }

  // ---------- resolution ----------

  ghost predicate IsCommon(tree: set<SourceFile>, k: SourceFile) {
    exists f :: f in tree && Parse(f) == Parsed(k, None)
  }

  ghost predicate HasVariant(tree: set<SourceFile>, k: SourceFile, m: Mode) {
    exists f :: f in tree && Parse(f) == Parsed(k, Some(m))
  }

  /** Nothing is both common and a variant, and every variant comes in all modes. */
  ghost predicate WellConfigured(tree: set<SourceFile>) {
    && (forall k, m :: !(IsCommon(tree, k) && HasVariant(tree, k, m)))
    && (forall k, m, n :: HasVariant(tree, k, m) ==> HasVariant(tree, k, n))
  }

  /** Files that are common to all modes, found among the files seen so far. */
  ghost predicate CommonsOf(seen: set<SourceFile>, commons: map<SourceFile, SourceFile>) {
    forall k ::
      && (k in commons <==> IsCommon(seen, k))
      && (k in commons ==> commons[k] in seen && Parse(commons[k]) == Parsed(k, None))
  }

  /** Variants by logical file and mode. */
  ghost predicate VariantsOf(seen: set<SourceFile>, variants: map<(SourceFile, Mode), SourceFile>) {
    forall k, m ::
      && ((k, m) in variants <==> HasVariant(seen, k, m))
      && ((k, m) in variants ==> variants[(k, m)] in seen && Parse(variants[(k, m)]) == Parsed(k, Some(m)))
  }

  lemma OneMoreFile(seen: set<SourceFile>, f: SourceFile, k: SourceFile, m: Mode)
    ensures IsCommon(seen + {f}, k) <==> IsCommon(seen, k) || Parse(f) == Parsed(k, None)
    ensures HasVariant(seen + {f}, k, m) <==> HasVariant(seen, k, m) || Parse(f) == Parsed(k, Some(m))
  {
    hide Parse;
    assert f in seen + {f};
    if g :| g in seen && Parse(g) == Parsed(k, None) {
      assert g in seen + {f};
    }
    if g :| g in seen && Parse(g) == Parsed(k, Some(m)) {
      assert g in seen + {f};
    }
  }

  /** One file goes to the commons or to its logical file's variants. */
  method SortOne(ghost seen: set<SourceFile>, commons: map<SourceFile, SourceFile>,
                 variants: map<(SourceFile, Mode), SourceFile>, f: SourceFile)
    returns (commons': map<SourceFile, SourceFile>, variants': map<(SourceFile, Mode), SourceFile>)
    requires CommonsOf(seen, commons) && VariantsOf(seen, variants)
    ensures CommonsOf(seen + {f}, commons') && VariantsOf(seen + {f}, variants')
  {
    hide Parse, IsCommon, HasVariant;
    commons', variants' := commons, variants;
    var p := Parse(f);
    if p.mode.None? {
      commons' := commons[p.logical := f];
    } else {
      variants' := variants[(p.logical, p.mode.value) := f];
    }
    forall k, m
      ensures IsCommon(seen + {f}, k) <==> IsCommon(seen, k) || p == Parsed(k, None)
      ensures HasVariant(seen + {f}, k, m) <==> HasVariant(seen, k, m) || p == Parsed(k, Some(m))
    {
      OneMoreFile(seen, f, k, m);
    }
    forall k
      ensures (k in commons' <==> IsCommon(seen + {f}, k))
              && (k in commons' ==> commons'[k] in seen + {f} && Parse(commons'[k]) == Parsed(k, None))
    {
      OneMoreFile(seen, f, k, Ad);
    }
  }

  method SortFiles(tree: set<SourceFile>)
    returns (commons: map<SourceFile, SourceFile>, variants: map<(SourceFile, Mode), SourceFile>)
    ensures CommonsOf(tree, commons) && VariantsOf(tree, variants)
  {
    hide Parse;
    commons, variants := map[], map[];
    var rest := tree;
    ghost var seen: set<SourceFile> := {};
    while rest != {}
      invariant seen + rest == tree && CommonsOf(seen, commons) && VariantsOf(seen, variants)
      decreases rest
    {
      var f :| f in rest;
      commons, variants := SortOne(seen, commons, variants, f);
      assert (seen + {f}) + (rest - {f}) == tree;
      rest, seen := rest - {f}, seen + {f};
    }
    assert seen == tree;
  }

  /** Which files a mode gets: the commons and its own variants, under the names they stand for. */
  ghost predicate Chosen(tree: set<SourceFile>, mode: Mode, mapping: map<SourceFile, SourceFile>) {
    forall k ::
      && (k in mapping <==> IsCommon(tree, k) || HasVariant(tree, k, mode))
      && (k in mapping ==>
            mapping[k] in tree && (Parse(mapping[k]) == Parsed(k, None) || Parse(mapping[k]) == Parsed(k, Some(mode))))
  }

  /** Refuses a profile that is not well configured, and only that; otherwise picks the mode's files. */
  method Resolve(tree: set<SourceFile>, mode: Mode) returns (r: Result<map<SourceFile, SourceFile>, ProfileError>)
    ensures r.Ok? <==> WellConfigured(tree)
    ensures r.Ok? ==> Chosen(tree, mode, r.value)
    ensures r.Err? ==> r.error == ProfileMisconfigured
  {
    hide Parse, IsCommon, HasVariant, Chosen;
    var commons, variants := SortFiles(tree);
    if exists v :: v in variants && v.0 in commons {
      ghost var v :| v in variants && v.0 in commons;
      assert IsCommon(tree, v.0) && HasVariant(tree, v.0, v.1);
      return Err(ProfileMisconfigured);
    }
    if exists v :: v in variants && !((v.0, Narration) in variants && (v.0, Drama) in variants
                                      && (v.0, Ad) in variants) {
      ghost var v :| v in variants && !((v.0, Narration) in variants && (v.0, Drama) in variants
                                        && (v.0, Ad) in variants);
      assert HasVariant(tree, v.0, v.1);
      return Err(ProfileMisconfigured);
    }
    forall k, m ensures !(IsCommon(tree, k) && HasVariant(tree, k, m)) {
      assert HasVariant(tree, k, m) ==> (k, m) in variants && (k, m).0 == k;
    }
    forall k, m, n | HasVariant(tree, k, m) ensures HasVariant(tree, k, n) {
      assert (k, m) in variants && (k, m).0 == k;
      assert n == Narration || n == Drama || n == Ad;
    }
    var mapping := Choose(tree, mode, commons, variants);
    return Ok(mapping);
  }

  method Choose(ghost tree: set<SourceFile>, mode: Mode, commons: map<SourceFile, SourceFile>,
                variants: map<(SourceFile, Mode), SourceFile>) returns (mapping: map<SourceFile, SourceFile>)
    requires CommonsOf(tree, commons) && VariantsOf(tree, variants)
    ensures Chosen(tree, mode, mapping)
  {
    hide Parse, IsCommon, HasVariant;
    var own := map v | v in variants && v.1 == mode :: v.0 := variants[v];
    mapping := commons + own;
    forall k
      ensures k in own <==> (k, mode) in variants
      ensures k in own ==> own[k] == variants[(k, mode)]
    {
      if (k, mode) in variants {
        assert (k, mode).0 == k && (k, mode).1 == mode;
      }
    }
  }

  /** Every mode gets the same file names: a switch of modes changes contents, never the set of files. */
  lemma SameNamesInEveryMode(tree: set<SourceFile>, m: Mode, n: Mode, a: map<SourceFile, SourceFile>,
                             b: map<SourceFile, SourceFile>)
    requires WellConfigured(tree) && Chosen(tree, m, a) && Chosen(tree, n, b)
    ensures a.Keys == b.Keys
  {
    hide Parse, IsCommon, HasVariant, WellConfigured;
    forall k ensures k in a <==> k in b {
      AllModes(tree, k, m, n);
    }
  }

  /** Nothing is left out: whatever some file stands for is delivered. */
  lemma EveryNameIsServed(tree: set<SourceFile>, m: Mode, a: map<SourceFile, SourceFile>, f: SourceFile)
    requires WellConfigured(tree) && Chosen(tree, m, a) && f in tree
    ensures Parse(f).logical in a
  {
    hide Parse, IsCommon, HasVariant, WellConfigured;
    StandsFor(tree, f);
    if Parse(f).mode.Some? {
      AllModes(tree, Parse(f).logical, Parse(f).mode.value, m);
    }
  }

  lemma AllModes(tree: set<SourceFile>, k: SourceFile, m: Mode, n: Mode)
    requires WellConfigured(tree)
    ensures HasVariant(tree, k, m) <==> HasVariant(tree, k, n)
  {
    hide HasVariant, IsCommon;
  }

  lemma StandsFor(tree: set<SourceFile>, f: SourceFile)
    requires f in tree
    ensures var p := Parse(f);
            if p.mode.None? then IsCommon(tree, p.logical) else HasVariant(tree, p.logical, p.mode.value)
  {
    hide Parse;
  }

  // ---------- when the choice is unique ----------

  /** Different files stand for different things. */
  ghost predicate NoCollision(tree: set<SourceFile>) {
    forall f, g :: f in tree && g in tree && Parse(f) == Parse(g) ==> f == g
  }

  ghost function Pick(tree: set<SourceFile>, mode: Mode, k: SourceFile): (f: SourceFile)
    requires IsCommon(tree, k) || HasVariant(tree, k, mode)
    ensures f in tree && (Parse(f) == Parsed(k, None) || Parse(f) == Parsed(k, Some(mode)))
  {
    var f :| f in tree && (Parse(f) == Parsed(k, None) || Parse(f) == Parsed(k, Some(mode)));
    f
  }

  lemma ChoiceExists(tree: set<SourceFile>, mode: Mode) returns (a: map<SourceFile, SourceFile>)
    ensures Chosen(tree, mode, a)
  {
    hide Parse;
    var names := set f | f in tree :: Parse(f).logical;
    forall k | IsCommon(tree, k) || HasVariant(tree, k, mode) ensures k in names {
      var f := Pick(tree, mode, k);
      assert Parse(f).logical == k;
    }
    a := map k | k in names && (IsCommon(tree, k) || HasVariant(tree, k, mode)) :: Pick(tree, mode, k);
  }

  lemma ChoiceMayTake(tree: set<SourceFile>, mode: Mode, a: map<SourceFile, SourceFile>, f: SourceFile)
    requires Chosen(tree, mode, a) && f in tree && (Parse(f).mode.None? || Parse(f).mode == Some(mode))
    ensures Chosen(tree, mode, a[Parse(f).logical := f])
  {
    hide Parse, IsCommon, HasVariant;
    StandsFor(tree, f);
  }

  lemma NoCollisionNoChoice(tree: set<SourceFile>, mode: Mode, a: map<SourceFile, SourceFile>,
                            b: map<SourceFile, SourceFile>)
    requires WellConfigured(tree) && Chosen(tree, mode, a) && Chosen(tree, mode, b) && NoCollision(tree)
    ensures a == b
  {
    hide Parse, IsCommon, HasVariant;
    forall k ensures k in a <==> k in b {
    }
    forall k | k in a ensures a[k] == b[k] {
      StandsFor(tree, a[k]);
      StandsFor(tree, b[k]);
      assert !(IsCommon(tree, k) && HasVariant(tree, k, mode));
    }
  }

  lemma CollisionLeavesAChoice(tree: set<SourceFile>, f: SourceFile, g: SourceFile)
    requires f in tree && g in tree && Parse(f) == Parse(g) && f != g
    ensures exists m, a, b :: Chosen(tree, m, a) && Chosen(tree, m, b) && a != b
  {
    hide Parse, Chosen;
    var m := if Parse(f).mode.Some? then Parse(f).mode.value else Ad;
    var a := ChoiceExists(tree, m);
    ChoiceMayTake(tree, m, a, f);
    ChoiceMayTake(tree, m, a, g);
    var k := Parse(f).logical;
    assert a[k := f][k] != a[k := g][k];
  }

  /** The choice of a well configured profile does not depend on the order in which its files are met, in any mode, if
      and only if no two of them stand for the same thing. */
  lemma ChoiceIsUnique(tree: set<SourceFile>)
    requires WellConfigured(tree)
    ensures (forall m, a, b :: Chosen(tree, m, a) && Chosen(tree, m, b) ==> a == b) <==> NoCollision(tree)
  {
    hide Parse, Chosen, WellConfigured;
    if NoCollision(tree) {
      forall m, a, b | Chosen(tree, m, a) && Chosen(tree, m, b) ensures a == b {
        NoCollisionNoChoice(tree, m, a, b);
      }
    } else {
      var f, g :| f in tree && g in tree && Parse(f) == Parse(g) && f != g;
      CollisionLeavesAChoice(tree, f, g);
    }
  }

  /** Files that are not named by a mode alone never collide. */
  lemma OnlyBareNamesCollide(tree: set<SourceFile>)
    requires forall f :: f in tree ==> !Bare(f.name)
    ensures NoCollision(tree)
  {
    hide Parse;
    forall f, g | f in tree && g in tree && Parse(f) == Parse(g) ensures f == g {
      ParseIsInjective(f, g);
    }
  }

  /** A file in all three modes, next to a directory of the same name that holds a file with a bare name. */
  function ShadowedTree(dir: seq<string>, stem: string, extension: string): set<SourceFile> {
    {SourceFile(dir, stem + "." + ModeName(Narration) + "." + extension),
     SourceFile(dir, stem + "." + ModeName(Drama) + "." + extension),
     SourceFile(dir, stem + "." + ModeName(Ad) + "." + extension),
     SourceFile(dir + [stem + "." + extension], "." + ModeName(Ad))}
  }

  /** Such a profile passes the check, yet what its ad mode gets depends on the order of the files. */
  lemma OrderCanMatter(dir: seq<string>, stem: string, extension: string)
    requires '.' !in extension && |extension| > 0
    ensures var tree := ShadowedTree(dir, stem, extension);
            WellConfigured(tree) && exists m, a, b :: Chosen(tree, m, a) && Chosen(tree, m, b) && a != b
  {
    hide Parse, ModeName, Chosen, WellConfigured;
    var tree := ShadowedTree(dir, stem, extension);
    var f := SourceFile(dir, stem + "." + ModeName(Ad) + "." + extension);
    var g := SourceFile(dir + [stem + "." + extension], "." + ModeName(Ad));
    BareNamesCollide(dir, stem, Ad, extension);
    CollisionLeavesAChoice(tree, f, g);
    ShadowedTreeIsFine(dir, stem, extension);
  }

  lemma ShadowedTreeIsFine(dir: seq<string>, stem: string, extension: string)
    requires '.' !in extension && |extension| > 0
    ensures WellConfigured(ShadowedTree(dir, stem, extension))
  {
    hide Parse, ModeName;
    var tree := ShadowedTree(dir, stem, extension);
    var k := SourceFile(dir, stem + "." + extension);
    VariantOf(dir, stem, Narration, extension);
    VariantOf(dir, stem, Drama, extension);
    VariantOf(dir, stem, Ad, extension);
    BareNamesCollide(dir, stem, Ad, extension);
    forall f | f in tree ensures Parse(f).logical == k && Parse(f).mode.Some? {
    }
    forall m ensures HasVariant(tree, k, m) {
      var f := SourceFile(dir, stem + "." + ModeName(m) + "." + extension);
      assert f in tree && Parse(f) == Parsed(k, Some(m)) by {
        VariantOf(dir, stem, m, extension);
        assert m == Narration || m == Drama || m == Ad;
      }
    }
  }
}
