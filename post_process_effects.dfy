/** The post-process effect factory (VROPostProcessEffectFactory.cpp): the
    ordered list of enabled screen effects, each paired with its image
    program, the per-thread cache of those programs, and the ping-pong
    rendering that chains the effects through two render targets. */
module PostProcessEffects {

  /** The effects a scene can ask for; Unsupported stands for any other
      value of the effect enumeration. */
  datatype Effect =
    | GrayScale | Sepia | SinCity | BarallelDistortion | PincushionDistortion
    | Toonify | Inverted | ThermalVision | Pixelated | CrossHatch
    | Unsupported

  predicate Supported(e: Effect)
  {
    !e.Unsupported?
  }

  /** The image programs the factory can build: one per supported effect,
      and the plain blit that copies a texture through unchanged. */
  datatype ProgramKind = EffectProgram(effect: Effect) | EmptyEffect

  /** A built image program, identified by the order it was built in. */
  type Program = int

  // ---------------------------------------------------------------------
  // The per-thread program cache
  // ---------------------------------------------------------------------

  /** The thread-local programs: each kind is built the first time it is
      asked for and handed out from then on. */
  class ProgramCache {
    var built: map<ProgramKind, Program>
    /** Programs built so far; the next one gets this number. */
    var buildCount: int

    constructor()
      ensures built == map[] && buildCount == 0
    {
      built := map[];
      buildCount := 0;
    }

    /** Every cached program was built before the next one. */
    predicate Valid()
      reads this
    {
      0 <= buildCount && forall k :: k in built ==> 0 <= built[k] < buildCount
    }

    /** The create* helpers: the cached program if there is one, otherwise
      a newly built program that is cached from then on. */
    method Get(kind: ProgramKind) returns (p: Program)
      requires Valid()
      modifies this
      ensures Valid()
      ensures kind in old(built) ==> p == old(built)[kind] && built == old(built) && buildCount == old(buildCount)
      ensures kind !in old(built) ==>
        p == old(buildCount) && built == old(built)[kind := p] && buildCount == old(buildCount) + 1
    {
      if kind in built {
        p := built[kind];
      } else {
        p := buildCount;
        built := built[kind := p];
        buildCount := buildCount + 1;
      }
    }

    /** The factory's destructor: every cached program is dropped, so the
      next request builds afresh. */
    method Reset()
      requires Valid()
      modifies this
      ensures Valid() && built == map[] && buildCount == old(buildCount)
    {
      built := map[];
    }
  }

  // ---------------------------------------------------------------------
  // The list of applied effects
  // ---------------------------------------------------------------------

  type Applied = seq<(Effect, Program)>

  predicate HasEffect(applied: Applied, e: Effect)
  {
    exists i :: 0 <= i < |applied| && applied[i].0 == e
  }

  /** No effect appears twice in the list. */
  predicate DistinctEffects(applied: Applied)
  {
    forall i, j :: 0 <= i < j < |applied| ==> applied[i].0 != applied[j].0
  }

  /** The list with every entry for e taken out, the rest in order. */
  function Without(applied: Applied, e: Effect): (r: Applied)
    ensures |r| <= |applied|
    ensures !HasEffect(r, e)
    ensures forall x :: x in r ==> x in applied
  {
    if |applied| == 0 then []
    else if applied[|applied| - 1].0 == e then Without(applied[..|applied| - 1], e)
    else Without(applied[..|applied| - 1], e) + [applied[|applied| - 1]]
  }

  /** Removing an effect keeps every other entry. */
  lemma {:induction false} WithoutKeepsOthers(applied: Applied, e: Effect, x: (Effect, Program))
    requires x in applied && x.0 != e
    ensures x in Without(applied, e)
  {
    var n := |applied|;
    if applied[n - 1] == x {
    } else {
      assert x in applied[..n - 1] by {
        var i :| 0 <= i < n && applied[i] == x;
        assert i < n - 1;
        assert applied[..n - 1][i] == x;
      }
      WithoutKeepsOthers(applied[..n - 1], e, x);
    }
  }

  /** Removing an effect that is not there changes nothing. */
  lemma {:induction false} WithoutAbsent(applied: Applied, e: Effect)
    requires !HasEffect(applied, e)
    ensures Without(applied, e) == applied
  {
    var n := |applied|;
    if n > 0 {
      assert applied[n - 1].0 != e;
      assert !HasEffect(applied[..n - 1], e) by {
        assert forall i :: 0 <= i < n - 1 ==> applied[..n - 1][i] == applied[i];
      }
      WithoutAbsent(applied[..n - 1], e);
      assert applied[..n - 1] + [applied[n - 1]] == applied;
    }
  }

  /** Enabling a new effect and then disabling it restores the list. */
  lemma EnableThenDisable(applied: Applied, e: Effect, p: Program)
    requires !HasEffect(applied, e)
    ensures Without(applied + [(e, p)], e) == applied
  {
    var ext := applied + [(e, p)];
    assert ext[..|ext| - 1] == applied;
    WithoutAbsent(applied, e);
  }

  /** Taking entries out never introduces a duplicate. */
  lemma {:induction false} WithoutDistinct(applied: Applied, e: Effect)
    requires DistinctEffects(applied)
    ensures DistinctEffects(Without(applied, e))
  {
    var n := |applied|;
    if n > 0 {
      var init := applied[..n - 1];
      assert DistinctEffects(init) by {
        forall i, j | 0 <= i < j < |init|
          ensures init[i].0 != init[j].0
        {
          assert init[i] == applied[i] && init[j] == applied[j];
        }
      }
      WithoutDistinct(init, e);
      if applied[n - 1].0 != e {
        var w := Without(init, e);
        var last := applied[n - 1];
        forall x | x in w
          ensures x.0 != last.0
        {
          assert x in init;
          var i :| 0 <= i < |init| && init[i] == x;
          assert applied[i] == x;
        }
        var r := w + [last];
        forall i, j | 0 <= i < j < |r|
          ensures r[i].0 != r[j].0
        {
          if j == |r| - 1 {
            assert r[i] == w[i] && w[i] in w;
          } else {
            assert r[i] == w[i] && r[j] == w[j];
          }
        }
      }
    }
  }

  /** The effect factory: the effects in the order they were enabled. */
  class Factory {
    var applied: Applied

    constructor()
      ensures applied == []
    {
      applied := [];
    }

    /** enableEffect: an effect already in the list leaves everything as is;
      otherwise the blit program is made sure of, and a supported effect is
      appended with its (cached or newly built) program while an
      unsupported one leaves the list alone. */
    method EnableEffect(e: Effect, cache: ProgramCache)
      requires cache.Valid()
      modifies this, cache
      ensures cache.Valid()
      ensures HasEffect(old(applied), e) ==> applied == old(applied) && cache.built == old(cache.built)
      ensures !HasEffect(old(applied), e) ==> EmptyEffect in cache.built
      ensures !HasEffect(old(applied), e) && Supported(e) ==>
        EffectProgram(e) in cache.built && applied == old(applied) + [(e, cache.built[EffectProgram(e)])]
      ensures !Supported(e) ==> applied == old(applied)
      ensures forall k :: k in old(cache.built) ==> k in cache.built && cache.built[k] == old(cache.built)[k]
    {
      var i := 0;
      while i < |applied|
        invariant 0 <= i <= |applied|
        invariant forall j :: 0 <= j < i ==> applied[j].0 != e
      {
        if applied[i].0 == e {
          return;
        }
        i := i + 1;
      }
      var blit := cache.Get(EmptyEffect);
      if !Supported(e) {
        return;
      }
      var program := cache.Get(EffectProgram(e));
      applied := applied + [(e, program)];
    }

    /** disableEffect: every entry for the effect is erased, the others keep
      their order. */
    method DisableEffect(e: Effect)
      modifies this
      ensures applied == Without(old(applied), e)
    {
      var kept: Applied := [];
      var i := 0;
      while i < |applied|
        invariant 0 <= i <= |applied|
        invariant kept == Without(applied[..i], e)
      {
        assert applied[..i + 1][..i] == applied[..i];
        if applied[i].0 != e {
          kept := kept + [applied[i]];
        }
        i := i + 1;
      }
      assert applied[..i] == applied;
      applied := kept;
    }

    /** clearAllEffects: no effect is applied any more. */
    method ClearAllEffects()
      modifies this
      ensures applied == []
    {
      applied := [];
    }

    /** handlePostProcessing: the source itself when no effect is applied,
      otherwise the ping-pong chain through the two targets. */
    method HandlePostProcessing(source: Target, targetA: Target, targetB: Target)
      returns (output: Target, passes: seq<Pass>)
      ensures |applied| == 0 ==> output == source && passes == []
      ensures |applied| > 0 ==> passes == PingPong(Programs(applied), source, targetA, targetB)
      ensures output == FinalTarget(|applied|, source, targetA, targetB)
    {
      if |applied| > 0 {
        output, passes := RenderEffects(source, targetA, targetB);
      } else {
        output, passes := source, [];
      }
    }

    /** renderEffects: one blit per applied effect, in list order, each
      reading the texture the previous one wrote. */
    method RenderEffects(input: Target, targetA: Target, targetB: Target)
      returns (output: Target, passes: seq<Pass>)
      ensures passes == PingPong(Programs(applied), input, targetA, targetB)
      ensures output == FinalTarget(|applied|, input, targetA, targetB)
    {
      output := input;
      passes := [];
      var i := 0;
      while i < |applied|
        invariant 0 <= i <= |applied|
        invariant passes == PingPong(Programs(applied[..i]), input, targetA, targetB)
        invariant output == FinalTarget(i, input, targetA, targetB)
      {
        var program := applied[i].1;
        var pass;
        if i == 0 {
          pass := Pass(input, targetA, program);
          output := targetA;
        } else if i % 2 == 1 {
          pass := Pass(targetA, targetB, program);
          output := targetB;
        } else {
          pass := Pass(targetB, targetA, program);
          output := targetA;
        }
        FinalTargetStep(i, input, targetA, targetB);
        PingPongStep(applied, i, input, targetA, targetB);
        passes := passes + [pass];
        i := i + 1;
      }
      assert applied[..i] == applied;
    }
  }

  /** Rendering one more effect appends the pass from the chain's current
      end to the next target. */
  lemma PingPongStep(applied: Applied, i: int, input: Target, targetA: Target, targetB: Target)
    requires 0 <= i < |applied|
    ensures PingPong(Programs(applied[..i + 1]), input, targetA, targetB)
      == PingPong(Programs(applied[..i]), input, targetA, targetB)
         + [Pass(FinalTarget(i, input, targetA, targetB), FinalTarget(i + 1, input, targetA, targetB), applied[i].1)]
  {
    var ps := Programs(applied[..i + 1]);
    assert applied[..i + 1][..i] == applied[..i];
    assert ps[..i] == Programs(applied[..i]);
  }

  /** After pass i the chain is in A when i is even and in B when odd. */
  lemma FinalTargetStep(i: nat, input: Target, targetA: Target, targetB: Target)
    ensures FinalTarget(i + 1, input, targetA, targetB) == (if i % 2 == 0 then targetA else targetB)
  {
    assert (i + 1) % 2 == 1 - i % 2;
  }

  /** Enabling keeps the list free of duplicates. */
  lemma EnableKeepsDistinct(applied: Applied, e: Effect, p: Program)
    requires DistinctEffects(applied) && !HasEffect(applied, e)
    ensures DistinctEffects(applied + [(e, p)])
  {
    var r := applied + [(e, p)];
    forall i, j | 0 <= i < j < |r|
      ensures r[i].0 != r[j].0
    {
      if j == |r| - 1 {
        assert r[i] == applied[i];
      } else {
        assert r[i] == applied[i] && r[j] == applied[j];
      }
    }
  }

  // ---------------------------------------------------------------------
  // Ping-pong rendering
  // ---------------------------------------------------------------------

  /** A render target, identified by name. */
  type Target = int

  /** One blit: the program reads one target's texture and writes another. */
  datatype Pass = Pass(from: Target, to: Target, program: Program)

  function Programs(applied: Applied): (r: seq<Program>)
    ensures |r| == |applied| && forall i :: 0 <= i < |r| ==> r[i] == applied[i].1
  {
    if |applied| == 0 then [] else Programs(applied[..|applied| - 1]) + [applied[|applied| - 1].1]
  }

  /** The target the chain ends in after n passes. */
  function FinalTarget(n: nat, input: Target, targetA: Target, targetB: Target): Target
  {
    if n == 0 then input else if n % 2 == 1 then targetA else targetB
  }

  /** The passes for a list of programs: the first reads the input into A,
      later ones alternate A into B and B into A. */
  function PingPong(programs: seq<Program>, input: Target, targetA: Target, targetB: Target): (r: seq<Pass>)
    ensures |r| == |programs|
  {
    if |programs| == 0 then []
    else
      var n := |programs| - 1;
      PingPong(programs[..n], input, targetA, targetB)
        + [Pass(FinalTarget(n, input, targetA, targetB), FinalTarget(n + 1, input, targetA, targetB), programs[n])]
  }

  /** Pass i runs the i-th program, reads what pass i - 1 wrote (the input
      for pass 0), and writes A on even passes and B on odd ones; the chain
      ends in A after an odd number of passes and in B after an even one. */
  lemma {:induction false} PingPongChains(programs: seq<Program>, input: Target, targetA: Target, targetB: Target, i: int)
    requires 0 <= i < |programs|
    ensures var r := PingPong(programs, input, targetA, targetB);
      && r[i].program == programs[i]
      && (i == 0 ==> r[i].from == input)
      && (i > 0 ==> r[i].from == r[i - 1].to)
      && r[i].to == (if i % 2 == 0 then targetA else targetB)
      && r[|r| - 1].to == FinalTarget(|programs|, input, targetA, targetB)
  {
    var n := |programs| - 1;
    var r := PingPong(programs, input, targetA, targetB);
    var front := PingPong(programs[..n], input, targetA, targetB);
    assert r == front + [r[n]];
    if i < n {
      PingPongChains(programs[..n], input, targetA, targetB, i);
      assert r[i] == front[i];
      if i > 0 {
        assert r[i - 1] == front[i - 1];
      }
    } else if i > 0 {
      PingPongChains(programs[..n], input, targetA, targetB, i - 1);
      assert r[i - 1] == front[i - 1];
    }
  }
}
