/**
 * The output layout (`PlywoodOutputLayout`): the effective resolution of
 * every output by name, and the combined resolution the stage lays views
 * out against.
 */
module Outputs {
  import opened Geometry

  /** An output as the layout sees it: its name and its effective resolution. */
  datatype Output = Output(name: string, effectiveResolution: Area)

  /** `combined` is the component-wise minimum over the stored resolutions, each component attained by some entry. */
  ghost predicate IsCombined(resolutions: map<string, Area>, combined: Area)
  {
    && (forall a :: a in resolutions.Values ==> combined.width <= a.width && combined.height <= a.height)
    && (exists a :: a in resolutions.Values && a.width == combined.width)
    && (exists a :: a in resolutions.Values && a.height == combined.height)
  }

  /** At most one combined resolution fits a set of resolutions. */
  lemma CombinedIsUnique(resolutions: map<string, Area>, c1: Area, c2: Area)
    requires IsCombined(resolutions, c1) && IsCombined(resolutions, c2)
    ensures c1 == c2
  {
    var w1 :| w1 in resolutions.Values && w1.width == c1.width;
    var w2 :| w2 in resolutions.Values && w2.width == c2.width;
    var h1 :| h1 in resolutions.Values && h1.height == c1.height;
    var h2 :| h2 in resolutions.Values && h2.height == c2.height;
  }

  /** With a single output, the combined resolution is that output's resolution. */
  lemma SingleOutputCombined(name: string, area: Area, combined: Area)
    ensures IsCombined(map[name := area], combined) <==> combined == area
  {
    var single := map[name := area];
    forall a | a in single.Values ensures a == area {
      var k :| k in single && single[k] == a;
    }
    assert single[name] == area;
  }

  /**
   * Adding a new output lowers the combined resolution to the component-wise
   * minimum of the old one and the new output's, so recomputing over every
   * entry equals an incremental update when the name is new.
   */
  lemma {:induction false} CombinedOfNewOutput(resolutions: map<string, Area>, combined: Area, name: string, area: Area)
    requires name !in resolutions && IsCombined(resolutions, combined)
    ensures IsCombined(resolutions[name := area], Area(Min(combined.width, area.width), Min(combined.height, area.height)))
  {
    var updated := resolutions[name := area];
    assert updated.Values == resolutions.Values + {area} by {
      forall a | a in updated.Values ensures a in resolutions.Values + {area} {
        var k :| k in updated && updated[k] == a;
        if k != name {
          assert resolutions[k] == a;
        }
      }
      forall a | a in resolutions.Values ensures a in updated.Values {
        var k :| k in resolutions && resolutions[k] == a;
        assert updated[k] == a;
      }
      assert updated[name] == area;
    }
  }

  function Min(a: int, b: int): int
  {
    if a <= b then a else b
  }

  class OutputLayout {
    /** The effective resolution of every output ever inserted, by name. */
    var resolutions: map<string, Area>
    var combinedResolution: Area
    /** The outputs whose mode changes are listened to, in the order they were inserted. */
    var listenedOutputs: seq<string>
    /** How many times the stage was told that the output mode changed (`stage.updateOutputMode`). */
    var stageUpdates: nat

    /** Every stored entry went through `computeResolution`, or there is none yet. */
    ghost predicate Valid()
      reads this
    {
      if resolutions == map[] then combinedResolution == Area(0, 0) else IsCombined(resolutions, combinedResolution)
    }

    constructor ()
      ensures resolutions == map[] && combinedResolution == Area(0, 0)
      ensures listenedOutputs == [] && stageUpdates == 0
      ensures Valid()
    {
      resolutions := map[];
      combinedResolution := Area(0, 0);
      listenedOutputs := [];
      stageUpdates := 0;
    }

    /**
     * `computeResolution`: stores the output's resolution under its name, then
     * lowers the combined width and height, independently, over every stored
     * entry in whatever order the dictionary yields them.
     */
    method ComputeResolution(output: Output)
      modifies this`resolutions, this`combinedResolution
      ensures resolutions == old(resolutions)[output.name := output.effectiveResolution]
      ensures IsCombined(resolutions, combinedResolution)
      ensures Valid()
      ensures old(Valid()) && output.name in old(resolutions) && old(resolutions)[output.name] == output.effectiveResolution ==>
        combinedResolution == old(combinedResolution)
    {
      ghost var before, combinedBefore := resolutions, combinedResolution;
      var resolution := output.effectiveResolution;
      resolutions := resolutions[output.name := resolution];
      assert resolutions[output.name] == resolution;

      combinedResolution := combinedResolution.(width := resolution.width);
      combinedResolution := combinedResolution.(height := resolution.height);
      var remaining := resolutions.Values;
      ghost var visited: set<Area> := {};
      ghost var widest, tallest := resolution, resolution;
      while remaining != {}
        invariant resolutions == before[output.name := resolution]
        invariant remaining + visited == resolutions.Values
        invariant forall a :: a in visited ==> combinedResolution.width <= a.width && combinedResolution.height <= a.height
        invariant widest in resolutions.Values && widest.width == combinedResolution.width
        invariant tallest in resolutions.Values && tallest.height == combinedResolution.height
        decreases remaining
      {
        var area :| area in remaining;
        if area.width < combinedResolution.width {
          combinedResolution := combinedResolution.(width := area.width);
          widest := area;
        }
        if area.height < combinedResolution.height {
          combinedResolution := combinedResolution.(height := area.height);
          tallest := area;
        }
        remaining := remaining - {area};
        visited := visited + {area};
      }

      if output.name in before && before[output.name] == resolution && before != map[] && IsCombined(before, combinedBefore) {
        assert resolutions.Keys == before.Keys;
        assert resolutions == before;
        CombinedIsUnique(resolutions, combinedResolution, combinedBefore);
      }
    }

    /** `insert`: listens to the output's mode changes and computes the resolution with it. */
    method Insert(output: Output)
      modifies this`resolutions, this`combinedResolution, this`listenedOutputs
      ensures listenedOutputs == old(listenedOutputs) + [output.name]
      ensures resolutions == old(resolutions)[output.name := output.effectiveResolution]
      ensures resolutions.Keys == old(resolutions).Keys + {output.name}
      ensures IsCombined(resolutions, combinedResolution) && Valid()
    {
      listenedOutputs := listenedOutputs + [output.name];
      ComputeResolution(output);
    }

    /** `onMode`: recomputes the resolution with the changed output, then tells the stage. */
    method OnMode(output: Output)
      modifies this`resolutions, this`combinedResolution, this`stageUpdates
      ensures resolutions == old(resolutions)[output.name := output.effectiveResolution]
      ensures resolutions.Keys == old(resolutions).Keys + {output.name}
      ensures IsCombined(resolutions, combinedResolution) && Valid()
      ensures old(Valid()) && output.name in old(resolutions) && old(resolutions)[output.name] == output.effectiveResolution ==>
        combinedResolution == old(combinedResolution)
      ensures stageUpdates == old(stageUpdates) + 1
    {
      ComputeResolution(output);
      stageUpdates := stageUpdates + 1;
    }
  }
}
