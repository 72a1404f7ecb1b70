/** Fitting reference images into a request (lib/reference_compression.py), and retrying one step further down after
    a "payload too large" answer (lib/media_generator.py, `_run_with_reference_compression`). The JPEG encoder itself
    is an arbitrary function. */
module Compression {
  import opened Options

  /** An encoded image as far as sizes go; `content` stands for its bytes. */
  datatype Picture = Picture(content: string, size: nat, jpeg: bool, longEdge: nat)

  datatype Role = InArray | Frame

  datatype Limits = Limits(totalMax: int, singleMax: int)

  /** Long edge and quality to encode with. */
  datatype Params = Params(edge: nat, quality: nat)

  /** Re-encodes an image as JPEG. */
  datatype Encoder = Encoder(run: (Picture, Params) -> Picture)

  const FLOOR := Params(1024, 80)
  const FRAME_PARAMS := Params(1000000, 92)
  const PASSTHROUGH_MAX := 1048576
  const STEPS: nat := 4

  /** The ladder: resolution goes down first, quality last. */
  function LadderParams(step: nat): Params {
    match step
    case 0 => Params(2048, 92)
    case 1 => Params(1536, 90)
    case 2 => Params(1280, 90)
    case 3 => Params(1024, 88)
    case _ => FLOOR
  }

  /** One image at one step; `same` means that the very bytes that came in go out. */
  datatype Packed = Packed(picture: Picture, same: bool)

  datatype Source = Source(raw: Picture, role: Role)

  function CompressOne(encode: Encoder, s: Source, step: nat, singleMax: int): Packed {
    if s.role.Frame? then
      if s.raw.size <= singleMax then Packed(s.raw, true) else Packed(encode.run(s.raw, FRAME_PARAMS), false)
    else
      var p := LadderParams(step);
      if step == 0 && s.raw.size <= PASSTHROUGH_MAX && s.raw.jpeg && s.raw.longEdge <= p.edge then Packed(s.raw, true)
      else Packed(encode.run(s.raw, p), false)
  }

  function CompressAll(encode: Encoder, sources: seq<Source>, step: nat, singleMax: int): (r: seq<Packed>)
    ensures |r| == |sources|
    ensures forall i :: 0 <= i < |r| ==> r[i] == CompressOne(encode, sources[i], step, singleMax)
  {
    if |sources| == 0 then []
    else CompressAll(encode, sources[..|sources| - 1], step, singleMax)
         + [CompressOne(encode, sources[|sources| - 1], step, singleMax)]
  }

  function Total(packed: seq<Packed>): nat {
    if |packed| == 0 then 0 else Total(packed[..|packed| - 1]) + packed[|packed| - 1].picture.size
  }

  function EffectiveSingle(l: Limits): int {
    if l.singleMax <= l.totalMax then l.singleMax else l.totalMax
  }

  /** The joint limit holds, and every array image is within its own; frames are not held to it. */
  ghost predicate Fits(encode: Encoder, sources: seq<Source>, l: Limits, step: nat) {
    var packed := CompressAll(encode, sources, step, EffectiveSingle(l));
    Total(packed) <= l.totalMax && EachSmall(sources, packed, |sources|, EffectiveSingle(l))
  }

  ghost predicate EachSmall(sources: seq<Source>, packed: seq<Packed>, n: nat, singleMax: int)
    requires n <= |packed| <= |sources|
  {
    forall i :: 0 <= i < n && sources[i].role.InArray? ==> packed[i].picture.size <= singleMax
  }

  /** The joint size: of one image it is its own, and two lists together weigh what they weigh apart. */
  lemma {:induction false} TotalAdds(a: seq<Packed>, b: seq<Packed>)
    ensures Total(a + b) == Total(a) + Total(b)
    ensures |b| == 1 ==> Total(b) == b[0].picture.size
    decreases |b|
  {
    if |b| == 0 {
      assert a + b == a;
    } else {
      var n := |b| - 1;
      TotalAdds(a, b[..n]);
      assert (a + b)[..|a| + n] == a + b[..n];
    }
  }

  /** A step fits if and only if all images together are within the joint limit, and every array image is within the
      single one: lowering that to the joint limit, as the code does, makes no difference here. */
  lemma FitsMeans(encode: Encoder, sources: seq<Source>, l: Limits, step: nat)
    ensures var packed := CompressAll(encode, sources, step, EffectiveSingle(l));
            Fits(encode, sources, l, step) <==>
              && Total(packed) <= l.totalMax
              && forall i :: 0 <= i < |sources| && sources[i].role.InArray? ==>
                   packed[i].picture.size <= l.singleMax
  {
    hide CompressOne;
    var packed := CompressAll(encode, sources, step, EffectiveSingle(l));
    if Total(packed) <= l.totalMax {
      forall i | 0 <= i < |packed| ensures packed[i].picture.size <= l.totalMax {
        TotalAdds(packed[..i], packed[i..]);
        assert packed[..i] + packed[i..] == packed;
        TotalAdds([packed[i]], packed[i + 1..]);
        assert [packed[i]] + packed[i + 1..] == packed[i..];
        TotalAdds([], [packed[i]]);
      }
    }
  }

  /** From the floor on all steps are the same. */
  lemma FloorIsFlat(encode: Encoder, sources: seq<Source>, l: Limits, a: nat, b: nat)
    requires a >= STEPS && b >= STEPS
    ensures Fits(encode, sources, l, a) <==> Fits(encode, sources, l, b)
  {
    assert CompressAll(encode, sources, a, EffectiveSingle(l)) == CompressAll(encode, sources, b, EffectiveSingle(l));
  }

  /** `step` is the first one at or after `from` that fits. */
  ghost predicate Least(encode: Encoder, sources: seq<Source>, l: Limits, from: nat, step: nat) {
    && from <= step && Fits(encode, sources, l, step)
    && forall s: nat :: from <= s < step ==> !Fits(encode, sources, l, s)
  }

  ghost predicate NoneFits(encode: Encoder, sources: seq<Source>, l: Limits, from: nat) {
    forall s: nat :: from <= s ==> !Fits(encode, sources, l, s)
  }

  datatype Landing = Landed(step: nat, packed: seq<Packed>) | FloorExceeded

  method CompressList(encode: Encoder, sources: seq<Source>, step: nat, l: Limits)
    returns (packed: seq<Packed>, total: nat, singleOk: bool)
    ensures packed == CompressAll(encode, sources, step, EffectiveSingle(l)) && total == Total(packed)
    ensures total <= l.totalMax && singleOk <==> Fits(encode, sources, l, step)
  {
    hide CompressAll, CompressOne, EachSmall, Total;
    packed, total, singleOk := [], 0, true;
    var max := EffectiveSingle(l);
    Nothing(encode, sources, step, max);
    for i := 0 to |sources|
      invariant packed == CompressAll(encode, sources[..i], step, max) && total == Total(packed)
      invariant singleOk <==> EachSmall(sources, packed, i, max)
    {
      var p := CompressOne(encode, sources[i], step, max);
      OneMore(encode, sources, packed, i, step, max);
      packed := packed + [p];
      total := total + p.picture.size;
      if sources[i].role.InArray? && p.picture.size > max {
        singleOk := false;
      }
    }
    assert sources[..|sources|] == sources;
  }

  lemma Nothing(encode: Encoder, sources: seq<Source>, step: nat, max: int)
    ensures CompressAll(encode, sources[..0], step, max) == [] && Total([]) == 0 && EachSmall(sources, [], 0, max)
  {
  }

  lemma OneMore(encode: Encoder, sources: seq<Source>, packed: seq<Packed>, i: nat, step: nat, max: int)
    requires i < |sources| && packed == CompressAll(encode, sources[..i], step, max)
    ensures var p := CompressOne(encode, sources[i], step, max);
            && packed + [p] == CompressAll(encode, sources[..i + 1], step, max)
            && Total(packed + [p]) == Total(packed) + p.picture.size
            && (EachSmall(sources, packed + [p], i + 1, max) <==>
                  EachSmall(sources, packed, i, max) && (sources[i].role.InArray? ==> p.picture.size <= max))
  {
    hide CompressOne;
    var p := CompressOne(encode, sources[i], step, max);
    assert sources[..i + 1][..i] == sources[..i];
    assert (packed + [p])[..i] == packed;
    if EachSmall(sources, packed + [p], i + 1, max) {
      forall j | 0 <= j < i && sources[j].role.InArray? ensures packed[j].picture.size <= max {
        assert (packed + [p])[j] == packed[j];
      }
      assert (packed + [p])[i] == p;
    }
  }

  /** The first step at or after the requested one that meets the limits, with every image packed at that step, in
      order. It gives up exactly when no step does, however deep. */
  method SelectLadderStep(encode: Encoder, sources: seq<Source>, l: Limits, startStep: int) returns (r: Landing)
    ensures var from := if startStep < 0 then 0 else startStep;
            if r.Landed? then
              Least(encode, sources, l, from, r.step)
              && r.packed == CompressAll(encode, sources, r.step, EffectiveSingle(l))
            else NoneFits(encode, sources, l, from)
  {
    hide Fits, CompressAll, EffectiveSingle;
    var step: nat := if startStep < 0 then 0 else startStep;
    ghost var from := step;
    while true
      invariant from <= step && (step > from ==> step <= STEPS)
      invariant forall s: nat :: from <= s < step ==> !Fits(encode, sources, l, s)
      decreases STEPS + from - step
    {
      var packed, total, singleOk := CompressList(encode, sources, step, l);
      if total <= l.totalMax && singleOk {
        return Landed(step, packed);
      }
      if step >= STEPS {
        forall s: nat | from <= s ensures !Fits(encode, sources, l, s) {
          if s > step {
            FloorIsFlat(encode, sources, l, s, step);
          }
        }
        return FloorExceeded;
      }
      step := step + 1;
    }
  }

  // ---------- the payload of one call ----------

  /** What a caller wants to send; `readable` is the decodable image behind the path, if any. */
  datatype Spec = Spec(path: string, name: string, role: Role, readable: Option<Picture>)

  datatype File = Original(path: string) | Temp(slot: nat, picture: Picture)

  datatype Ref = Ref(file: File, name: string, role: Role)

  function SourcesOf(specs: seq<Spec>): (r: seq<Source>) {
    if |specs| == 0 then []
    else
      var rest, last := SourcesOf(specs[..|specs| - 1]), specs[|specs| - 1];
      if last.readable.Some? then rest + [Source(last.readable.value, last.role)] else rest
  }

  /** What is sent for one spec at one step: the original file when it cannot be read or goes out unchanged, a
      temporary one in a directory of its own otherwise. */
  function RefAt(encode: Encoder, spec: Spec, i: nat, step: nat, singleMax: int): Ref {
    if spec.readable.None? then Ref(Original(spec.path), spec.name, spec.role)
    else
      var p := CompressOne(encode, Source(spec.readable.value, spec.role), step, singleMax);
      Ref(if p.same then Original(spec.path) else Temp(i, p.picture), spec.name, spec.role)
  }

  /** Long edge and quality of a step, as a table; every deeper step is the last one. */
  ghost predicate LadderIs(step: nat, p: Params) {
    p == if step == 0 then Params(2048, 92) else if step == 1 then Params(1536, 90)
         else if step == 2 then Params(1280, 90) else if step == 3 then Params(1024, 88) else Params(1024, 80)
  }

  /** An image that goes out as it came in: a frame within the limit of one image, or, at the first step only, a JPEG of
      at most a mebibyte whose long edge is within that step's. */
  ghost predicate PassesThrough(s: Source, step: nat, singleMax: int) {
    if s.role.Frame? then s.raw.size <= singleMax
    else step == 0 && s.raw.size <= 1048576 && s.raw.jpeg && s.raw.longEdge <= 2048
  }

  /** What is sent for one spec: the original file exactly if it cannot be read or passes through; otherwise its own
      temporary file, encoded anew, a frame without shrinking it, an array image with its step's parameters. */
  lemma WhatIsSent(encode: Encoder, spec: Spec, i: nat, step: nat, singleMax: int)
    ensures var r := RefAt(encode, spec, i, step, singleMax);
            && r.name == spec.name && r.role == spec.role
            && (r.file == Original(spec.path) <==>
                  spec.readable.None? || PassesThrough(Source(spec.readable.value, spec.role), step, singleMax))
            && (r.file != Original(spec.path) ==>
                  exists p :: r.file == Temp(i, encode.run(spec.readable.value, p))
                              && if spec.role.Frame? then p == Params(1000000, 92) else LadderIs(step, p))
  {
    var r := RefAt(encode, spec, i, step, singleMax);
    if spec.readable.Some? && r.file != Original(spec.path) {
      var p := if spec.role.Frame? then FRAME_PARAMS else LadderParams(step);
      assert r.file == Temp(i, encode.run(spec.readable.value, p));
    }
  }

  /** Deeper steps never ask for more: neither for a longer edge nor for a higher quality. */
  lemma LadderDescends(a: nat, b: nat)
    requires a <= b
    ensures LadderParams(b).edge <= LadderParams(a).edge && LadderParams(b).quality <= LadderParams(a).quality
    ensures LadderIs(a, LadderParams(a))
  {
  }

  datatype Payload = Ready(landed: nat, refs: seq<Ref>) | TooBig

  /** Packs what can be packed and merges it back between what cannot: every spec is sent, in its place. */
  method CompressedPayload(encode: Encoder, specs: seq<Spec>, l: Limits, startStep: nat) returns (r: Payload)
    ensures r.Ready? ==> Least(encode, SourcesOf(specs), l, startStep, r.landed)
    ensures r.Ready? ==>
              |r.refs| == |specs| &&
              forall i :: 0 <= i < |specs| ==> r.refs[i] == RefAt(encode, specs[i], i, r.landed, EffectiveSingle(l))
    ensures r.TooBig? ==> NoneFits(encode, SourcesOf(specs), l, startStep)
  {
    var indices: seq<nat> := [];
    var sources: seq<Source> := [];
    for i := 0 to |specs|
      invariant sources == SourcesOf(specs[..i]) && Indexed(specs, i, indices, sources)
    {
      assert specs[..i + 1][..i] == specs[..i];
      if specs[i].readable.Some? {
        indices := indices + [i];
        sources := sources + [Source(specs[i].readable.value, specs[i].role)];
      }
    }
    assert specs[..|specs|] == specs;
    var landing := SelectLadderStep(encode, sources, l, startStep);
    if landing.FloorExceeded? {
      return TooBig;
    }
    var refs := Merge(encode, specs, indices, sources, landing, l);
    return Ready(landing.step, refs);
  }

  /** `indices` lists the readable specs among the first `n`, in order. */
  ghost predicate Indexed(specs: seq<Spec>, n: nat, indices: seq<nat>, sources: seq<Source>)
    requires n <= |specs|
  {
    && |indices| == |sources|
    && (forall k :: 0 <= k < |indices| ==>
          && indices[k] < n && specs[indices[k]].readable.Some?
          && sources[k] == Source(specs[indices[k]].readable.value, specs[indices[k]].role))
    && (forall i :: 0 <= i < n && specs[i].readable.Some? ==> i in indices)
  }

  method Merge(encode: Encoder, specs: seq<Spec>, indices: seq<nat>, sources: seq<Source>, landing: Landing, l: Limits)
    returns (refs: seq<Ref>)
    requires Indexed(specs, |specs|, indices, sources)
    requires landing.Landed? && landing.packed == CompressAll(encode, sources, landing.step, EffectiveSingle(l))
    ensures |refs| == |specs|
    ensures forall i :: 0 <= i < |specs| ==> refs[i] == RefAt(encode, specs[i], i, landing.step, EffectiveSingle(l))
  {
    hide CompressAll, CompressOne;
    var byIndex: map<nat, Ref> := map[];
    for k := 0 to |indices|
      invariant forall i :: i in byIndex ==>
        i < |specs| && byIndex[i] == RefAt(encode, specs[i], i, landing.step, EffectiveSingle(l))
      invariant forall j :: 0 <= j < k ==> indices[j] in byIndex
    {
      var idx, p := indices[k], landing.packed[k];
      var spec := specs[idx];
      byIndex := byIndex[idx := Ref(if p.same then Original(spec.path) else Temp(idx, p.picture),
                                    spec.name, spec.role)];
    }
    refs := [];
    for i := 0 to |specs|
      invariant |refs| == i
      invariant forall j :: 0 <= j < i ==> refs[j] == RefAt(encode, specs[j], j, landing.step, EffectiveSingle(l))
    {
      if i in byIndex {
        refs := refs + [byIndex[i]];
      } else {
        assert specs[i].readable.None?;
        refs := refs + [Ref(Original(specs[i].path), specs[i].name, specs[i].role)];
      }
    }
  }

  // ---------- the retry loop ----------

  datatype Reply = Done(result: string) | PayloadTooLarge | Failure(error: string)

  datatype Outcome = Returned(value: string) | FloorError | Refused | Raised(failure: string)

  /** Where attempt `k` starts: one step below where the one before landed. */
  function StartOf(landed: seq<nat>, k: nat): nat
    requires k <= |landed|
  {
    if k == 0 then 0 else landed[k - 1] + 1
  }

  ghost predicate LandsAt(encode: Encoder, sources: seq<Source>, l: Limits, landed: seq<nat>, k: nat)
    requires k < |landed|
  {
    Least(encode, sources, l, StartOf(landed, k), landed[k])
  }

  /** The landed steps of consecutive attempts: each the first that fits below the one before. */
  ghost predicate Descending(encode: Encoder, sources: seq<Source>, l: Limits, landed: seq<nat>) {
    forall k :: 0 <= k < |landed| ==> LandsAt(encode, sources, l, landed, k)
  }

  lemma DescendingExtends(encode: Encoder, sources: seq<Source>, l: Limits, landed: seq<nat>, step: nat)
    requires Descending(encode, sources, l, landed) && Least(encode, sources, l, StartOf(landed, |landed|), step)
    ensures Descending(encode, sources, l, landed + [step]) && StartOf(landed, |landed|) <= step
    ensures StartOf(landed + [step], |landed| + 1) == step + 1
  {
    var next := landed + [step];
    forall k | 0 <= k < |next| ensures LandsAt(encode, sources, l, next, k) {
      if k < |landed| {
        assert LandsAt(encode, sources, l, landed, k);
        assert StartOf(next, k) == StartOf(landed, k);
      }
    }
  }

  /** What a single answer comes to when it is passed on as it is. */
  function Passed(reply: Reply): Outcome {
    match reply
    case Done(result) => Returned(result)
    case PayloadTooLarge => Refused
    case Failure(error) => Raised(error)
  }

  /** Sends the payload and goes one step further down after each 413. `replies` holds what the provider would answer
      to each call in turn; `landed` lists the steps of the calls that were made. */
  method RunWithCompression(encode: Encoder, specs: seq<Spec>, l: Limits, replies: seq<Reply>)
    returns (outcome: Outcome, landed: seq<nat>)
    requires |replies| >= STEPS + 1
    // Without reference images there is nothing to pack and nothing to retry.
    ensures |specs| == 0 ==> landed == [] && outcome == Passed(replies[0])
    ensures Descending(encode, SourcesOf(specs), l, landed) && |landed| <= STEPS + 1
    // Only a 413 leads to another call, and any other answer is final.
    ensures |landed| > 0 ==> AllTooLarge(replies, |landed| - 1)
    ensures |landed| > 0 && !replies[|landed| - 1].PayloadTooLarge? ==> outcome == Passed(replies[|landed| - 1])
    // Otherwise the steps are used up: none is left that fits, or the floor itself was refused.
    ensures |specs| > 0 && (|landed| == 0 || replies[|landed| - 1].PayloadTooLarge?) ==>
              && outcome == FloorError
              && (NoneFits(encode, SourcesOf(specs), l, StartOf(landed, |landed|))
                  || (|landed| > 0 && landed[|landed| - 1] >= STEPS))
  {
    landed := [];
    if |specs| == 0 {
      return Passed(replies[0]), landed;
    }
    var step: nat := 0;
    var calls := 0;
    assert Descending(encode, SourcesOf(specs), l, landed) && AllTooLarge(replies, calls);
    assert step == StartOf(landed, calls);
    hide Least, NoneFits, Descending, StartOf, SourcesOf, RefAt, EffectiveSingle, Passed, AllTooLarge;
    while true
      invariant calls == |landed| <= step <= STEPS && step == StartOf(landed, calls)
      invariant Descending(encode, SourcesOf(specs), l, landed) && AllTooLarge(replies, calls)
      decreases STEPS - step
    {
      var payload := CompressedPayload(encode, specs, l, step);
      if payload.TooBig? {
        outcome := FloorError;
        break;
      }
      DescendingExtends(encode, SourcesOf(specs), l, landed, payload.landed);
      landed := landed + [payload.landed];
      var reply := replies[calls];
      calls := calls + 1;
      if !reply.PayloadTooLarge? {
        return Passed(reply), landed;
      }
      OneMoreTooLarge(replies, calls - 1);
      if payload.landed >= STEPS {
        outcome := FloorError;
        break;
      }
      step := payload.landed + 1;
    }
  }

  ghost predicate AllTooLarge(replies: seq<Reply>, n: nat)
    requires n <= |replies|
  {
    forall k :: 0 <= k < n ==> replies[k].PayloadTooLarge?
  }

  lemma OneMoreTooLarge(replies: seq<Reply>, n: nat)
    requires n < |replies| && AllTooLarge(replies, n) && replies[n].PayloadTooLarge?
    ensures AllTooLarge(replies, n + 1)
  {
  }

  /** The steps of the calls strictly increase. */
  lemma {:induction false} StepsIncrease(encode: Encoder, sources: seq<Source>, l: Limits, landed: seq<nat>, j: nat,
                                         k: nat)
    requires Descending(encode, sources, l, landed) && j < k < |landed|
    ensures landed[j] < landed[k]
  {
    hide Fits;
    assert LandsAt(encode, sources, l, landed, k);
    if j < k - 1 {
      StepsIncrease(encode, sources, l, landed, j, k - 1);
    }
  }
}
