/**
 * The 3D part of the cast-convert tool's dispatch: ten candidate
 * instantiations, probed in a fixed order, each only while the in/out
 * reference is still null. Whether a candidate's `New` accepts a request is
 * decided in code that is not part of this model, so it is the parameter
 * `accepts`: `accepts(t, d, outputComponentType, dim)` holds when
 * `ITKToolsCastConvert<t, d>::New(outputComponentType, dim)` returns an object.
 */
module CastConvert {
  import opened Results
  import opened TypeDispatch

  type Acceptance = (ComponentType, nat, ComponentType, nat) -> bool

  /** The candidate component types of the 3D probe, in probing order. */
  const CastConvert3DTypes: seq<ComponentType> :=
    [Short, UShort, Char, UChar, Int, UInt, Long, ULong, Float, Double]

  /** The acceptance test of the `d`-dimensional candidates for one request. */
  function AcceptedWith(accepts: Acceptance, d: nat, outputComponentType: ComponentType, dim: nat): ComponentType -> bool {
    t => accepts(t, d, outputComponentType, dim)
  }

  /** `ITKToolsCastConvert<TComponentType, VDimension>`, with its template arguments kept as constants. */
  class CastConvertTool {
    const componentType: ComponentType
    const dimension: nat

    constructor (t: ComponentType, d: nat)
      ensures componentType == t && dimension == d
    {
      componentType := t;
      dimension := d;
    }

    /** A new instantiation for `(t, d)` when it accepts the request, null otherwise. */
    static method New(t: ComponentType, d: nat, outputComponentType: ComponentType, dim: nat, accepts: Acceptance)
      returns (tool: CastConvertTool?)
      ensures tool != null <==> accepts(t, d, outputComponentType, dim)
      ensures tool != null ==> fresh(tool) && tool.componentType == t && tool.dimension == d
    {
      if accepts(t, d, outputComponentType, dim) {
        tool := new CastConvertTool(t, d);
      } else {
        tool := null;
      }
    }
  }

  /**
   * What the probe stands at after the first `k` candidates: still null and
   * the outcome decided by the remaining candidates, or holding a 3D
   * instantiation for the first accepting candidate.
   */
  ghost predicate ProbedSoFar(k: nat, castConvert: CastConvertTool?, accepts: ComponentType -> bool)
    requires k <= |CastConvert3DTypes|
  {
    if castConvert == null then FirstMatch(CastConvert3DTypes, accepts) == FirstMatch(CastConvert3DTypes[k..], accepts)
    else FirstMatch(CastConvert3DTypes, accepts) == Some(castConvert.componentType) && castConvert.dimension == 3
  }

  /** Where the probe stands after `k` guarded steps that started from `original`. */
  ghost predicate ProbeState(k: nat, original: CastConvertTool?, castConvert: CastConvertTool?,
                             probed: seq<(ComponentType, nat)>, accepts: ComponentType -> bool)
    requires k <= |CastConvert3DTypes|
  {
    && |probed| <= k
    && (forall i :: 0 <= i < |probed| ==> probed[i] == (CastConvert3DTypes[i], 3))
    && (original != null ==> castConvert == original && probed == [])
    && (original == null ==> ProbedSoFar(k, castConvert, accepts) && (castConvert == null ==> |probed| == k))
  }

  /**
   * The effect of one line of the probe, `if (!castConvert) castConvert =
   * New(...)`, for the `k`-th candidate: a non-null reference is kept;
   * otherwise the candidate's `New` is called (and recorded in `probed`) and
   * its answer taken.
   */
  predicate StepTaken(k: nat, before: CastConvertTool?, after: CastConvertTool?,
                      probed: seq<(ComponentType, nat)>, probed': seq<(ComponentType, nat)>,
                      accepts: Acceptance, outputComponentType: ComponentType, dim: nat)
    requires k < |CastConvert3DTypes|
  {
    && (before != null ==> after == before && probed' == probed)
    && (before == null ==> probed' == probed + [(CastConvert3DTypes[k], 3)])
    && (before == null ==> (after != null <==> accepts(CastConvert3DTypes[k], 3, outputComponentType, dim)))
    && (before == null && after != null ==> after.componentType == CastConvert3DTypes[k] && after.dimension == 3)
  }

  /** One line of the probe, for the `k`-th candidate. */
  method ProbeCandidate(k: nat, outputComponentType: ComponentType, dim: nat, castConvert: CastConvertTool?,
                        accepts: Acceptance, ghost probed: seq<(ComponentType, nat)>)
    returns (result: CastConvertTool?, ghost probed': seq<(ComponentType, nat)>)
    requires k < |CastConvert3DTypes|
    ensures StepTaken(k, castConvert, result, probed, probed', accepts, outputComponentType, dim)
  {
    result, probed' := castConvert, probed;
    if result == null {
      probed' := probed + [(CastConvert3DTypes[k], 3)];
      result := CastConvertTool.New(CastConvert3DTypes[k], 3, outputComponentType, dim, accepts);
    }
  }

  /** A guarded step keeps the probe's state. */
  lemma ProbeStateStep(k: nat, original: CastConvertTool?, before: CastConvertTool?, after: CastConvertTool?,
                       probed: seq<(ComponentType, nat)>, probed': seq<(ComponentType, nat)>,
                       accepts: Acceptance, outputComponentType: ComponentType, dim: nat)
    requires k < |CastConvert3DTypes|
    requires ProbeState(k, original, before, probed, AcceptedWith(accepts, 3, outputComponentType, dim))
    requires StepTaken(k, before, after, probed, probed', accepts, outputComponentType, dim)
    ensures ProbeState(k + 1, original, after, probed', AcceptedWith(accepts, 3, outputComponentType, dim))
  {
    if before == null {
      ProbedExtends(k, probed, probed');
      FirstMatchStep(CastConvert3DTypes, k, AcceptedWith(accepts, 3, outputComponentType, dim));
    }
  }

  /** Recording the `k`-th candidate after the first `k` keeps `probed` a prefix of the order. */
  lemma ProbedExtends(k: nat, probed: seq<(ComponentType, nat)>, probed': seq<(ComponentType, nat)>)
    requires k < |CastConvert3DTypes|
    requires |probed| == k && forall i :: 0 <= i < |probed| ==> probed[i] == (CastConvert3DTypes[i], 3)
    requires probed' == probed + [(CastConvert3DTypes[k], 3)]
    ensures |probed'| == k + 1 && forall i :: 0 <= i < |probed'| ==> probed'[i] == (CastConvert3DTypes[i], 3)
  {
  }

  /** After all ten candidates, the probe's state is its outcome. */
  lemma ProbeStateFinal(original: CastConvertTool?, result: CastConvertTool?, probed: seq<(ComponentType, nat)>,
                        accepts: Acceptance, outputComponentType: ComponentType, dim: nat)
    requires ProbeState(|CastConvert3DTypes|, original, result, probed, AcceptedWith(accepts, 3, outputComponentType, dim))
    ensures original != null ==> result == original && probed == []
    ensures original == null ==>
              (result == null <==> FirstMatch(CastConvert3DTypes, AcceptedWith(accepts, 3, outputComponentType, dim)).None?)
    ensures original == null && result != null ==>
              && Some(result.componentType) == FirstMatch(CastConvert3DTypes, AcceptedWith(accepts, 3, outputComponentType, dim))
              && result.dimension == 3
    ensures |probed| <= |CastConvert3DTypes|
    ensures forall i :: 0 <= i < |probed| ==> probed[i] == (CastConvert3DTypes[i], 3)
  {
    assert CastConvert3DTypes[|CastConvert3DTypes|..] == [];
  }

  /** Five consecutive lines of the probe, from the `k`-th candidate on. */
  method ProbeFive(k: nat, outputComponentType: ComponentType, dim: nat, ghost original: CastConvertTool?,
                   c0: CastConvertTool?, accepts: Acceptance, ghost p0: seq<(ComponentType, nat)>)
    returns (c5: CastConvertTool?, ghost p5: seq<(ComponentType, nat)>)
    requires k + 5 <= |CastConvert3DTypes|
    requires ProbeState(k, original, c0, p0, AcceptedWith(accepts, 3, outputComponentType, dim))
    ensures ProbeState(k + 5, original, c5, p5, AcceptedWith(accepts, 3, outputComponentType, dim))
  {
    var c1, p1 := ProbeCandidate(k, outputComponentType, dim, c0, accepts, p0);
    ProbeStateStep(k, original, c0, c1, p0, p1, accepts, outputComponentType, dim);
    var c2, p2 := ProbeCandidate(k + 1, outputComponentType, dim, c1, accepts, p1);
    ProbeStateStep(k + 1, original, c1, c2, p1, p2, accepts, outputComponentType, dim);
    var c3, p3 := ProbeCandidate(k + 2, outputComponentType, dim, c2, accepts, p2);
    ProbeStateStep(k + 2, original, c2, c3, p2, p3, accepts, outputComponentType, dim);
    var c4, p4 := ProbeCandidate(k + 3, outputComponentType, dim, c3, accepts, p3);
    ProbeStateStep(k + 3, original, c3, c4, p3, p4, accepts, outputComponentType, dim);
    c5, p5 := ProbeCandidate(k + 4, outputComponentType, dim, c4, accepts, p4);
    ProbeStateStep(k + 4, original, c4, c5, p4, p5, accepts, outputComponentType, dim);
  }

  /**
   * `ITKToolsCastConvert3D`: a non-null `castConvert` comes back unchanged;
   * otherwise the result is the instantiation of the first candidate, in
   * the fixed order, that accepts `(outputComponentType, dim)`, or null
   * when none does. `probed` lists the candidates whose `New` was called:
   * all 3-dimensional, and a prefix of the fixed order.
   */
  method CastConvert3D(outputComponentType: ComponentType, dim: nat, castConvert: CastConvertTool?, accepts: Acceptance)
    returns (result: CastConvertTool?, ghost probed: seq<(ComponentType, nat)>)
    ensures castConvert != null ==> result == castConvert && probed == []
    ensures castConvert == null ==>
              (result == null <==> FirstMatch(CastConvert3DTypes, AcceptedWith(accepts, 3, outputComponentType, dim)).None?)
    ensures castConvert == null && result != null ==>
              && Some(result.componentType) == FirstMatch(CastConvert3DTypes, AcceptedWith(accepts, 3, outputComponentType, dim))
              && result.dimension == 3
    ensures |probed| <= |CastConvert3DTypes|
    ensures forall i :: 0 <= i < |probed| ==> probed[i] == (CastConvert3DTypes[i], 3)
  {
    ghost var p0: seq<(ComponentType, nat)> := [];
    assert CastConvert3DTypes[0..] == CastConvert3DTypes;
    var c5, p5 := ProbeFive(0, outputComponentType, dim, castConvert, castConvert, accepts, p0);
    var c10, p10 := ProbeFive(5, outputComponentType, dim, castConvert, c5, accepts, p5);
    ProbeStateFinal(castConvert, c10, p10, accepts, outputComponentType, dim);
    result, probed := c10, p10;
  }
}
