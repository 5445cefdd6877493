/**
 * Run-time selection among compile-time specialisations: the component type
 * tags an image header can report, the `IsType` test each specialisation
 * applies to a tag, and the first-match probe that the tools run over an
 * ordered list of candidate specialisations.
 */
module TypeDispatch {
  import opened Results

  /** The pixel component types an image header can report. */
  datatype ComponentType =
    | UnknownComponentType
    | UChar | Char | UShort | Short | UInt | Int | ULong | Long
    | Float | Double

  /**
   * `IsType<T>(requested)`: the specialisation for component type `t`
   * matches the requested tag exactly when the two tags are the same.
   */
  predicate IsType(t: ComponentType, requested: ComponentType) {
    t == requested
  }

  /** The acceptance test of every specialisation, for one requested tag. */
  function IsTypeOf(requested: ComponentType): ComponentType -> bool {
    t => IsType(t, requested)
  }

  /**
   * The first candidate, in list order, that `accepts` admits; `None` when
   * no candidate is admitted.
   */
  function FirstMatch(candidates: seq<ComponentType>, accepts: ComponentType -> bool): (r: Option<ComponentType>)
    ensures r.Some? ==> r.value in candidates && accepts(r.value)
    ensures r.None? <==> forall c :: c in candidates ==> !accepts(c)
  {
    if |candidates| == 0 then None
    else if accepts(candidates[0]) then Some(candidates[0])
    else
      assert forall c :: c in candidates ==> c == candidates[0] || c in candidates[1..];
      FirstMatch(candidates[1..], accepts)
  }

  /** Unfolding `FirstMatch` at position `i` of the candidate list. */
  lemma FirstMatchStep(candidates: seq<ComponentType>, i: nat, accepts: ComponentType -> bool)
    requires i < |candidates|
    ensures FirstMatch(candidates[i..], accepts)
         == if accepts(candidates[i]) then Some(candidates[i]) else FirstMatch(candidates[i + 1..], accepts)
  {
    assert candidates[i..][0] == candidates[i];
    assert candidates[i..][1..] == candidates[i + 1..];
  }

  /**
   * The candidate `FirstMatch` picks sits at some position `i`, and every
   * candidate before position `i` was rejected.
   */
  lemma {:induction false} FirstMatchIsEarliest(candidates: seq<ComponentType>, accepts: ComponentType -> bool)
    requires FirstMatch(candidates, accepts).Some?
    ensures exists i :: 0 <= i < |candidates| && candidates[i] == FirstMatch(candidates, accepts).value
                        && forall j :: 0 <= j < i ==> !accepts(candidates[j])
  {
    if accepts(candidates[0]) {
      assert candidates[0] == FirstMatch(candidates, accepts).value;
    } else {
      FirstMatchIsEarliest(candidates[1..], accepts);
      var i :| 0 <= i < |candidates[1..]| && candidates[1..][i] == FirstMatch(candidates[1..], accepts).value
               && forall j :: 0 <= j < i ==> !accepts(candidates[1..][j]);
      assert candidates[i + 1] == FirstMatch(candidates, accepts).value;
      forall j | 0 <= j < i + 1
        ensures !accepts(candidates[j])
      {
        if j > 0 { assert candidates[j] == candidates[1..][j - 1]; }
      }
    }
  }

  /**
   * Once some candidate of `probed` has been accepted, the candidates probed
   * after them cannot change the outcome.
   */
  lemma {:induction false} FirstMatchIgnoresLaterCandidates(probed: seq<ComponentType>, later: seq<ComponentType>, accepts: ComponentType -> bool)
    requires FirstMatch(probed, accepts).Some?
    ensures FirstMatch(probed + later, accepts) == FirstMatch(probed, accepts)
  {
    assert (probed + later)[0] == probed[0];
    if !accepts(probed[0]) {
      assert (probed + later)[1..] == probed[1..] + later;
      FirstMatchIgnoresLaterCandidates(probed[1..], later, accepts);
    }
  }

  /**
   * With the `IsType` test, the probe selects the requested tag itself when
   * it is among the candidates, and nothing otherwise.
   */
  lemma {:induction false} FirstMatchSelectsRequestedType(candidates: seq<ComponentType>, requested: ComponentType)
    ensures FirstMatch(candidates, IsTypeOf(requested))
         == if requested in candidates then Some(requested) else None
  {
    if |candidates| > 0 && candidates[0] != requested {
      FirstMatchSelectsRequestedType(candidates[1..], requested);
      assert requested in candidates <==> requested in candidates[1..];
    }
  }
}
