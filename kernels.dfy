/** The closed set of kernel transforms the deformation field generator can fit, and their names. */
module Kernels {
  import opened Results

  datatype KernelKind =
    | ThinPlateSpline
    | ThinPlateR2LogRSpline
    | VolumeSpline
    | ElasticBodySpline
    | ElasticBodyReciprocalSpline

  /** The kernel name used when none is given on the command line. */
  const DefaultKernelName: string := "TPS"

  /** The command-line name of each kernel. */
  function KernelName(k: KernelKind): string {
    match k
    case ThinPlateSpline => "TPS"
    case ThinPlateR2LogRSpline => "TPSR2LOGR"
    case VolumeSpline => "VS"
    case ElasticBodySpline => "EBS"
    case ElasticBodyReciprocalSpline => "EBSR"
  }

  /**
   * The kernel chosen for a name: the five names are compared in turn and
   * any other name is unknown.
   */
  function SelectKernel(name: string): (k: Option<KernelKind>)
    ensures k.Some? ==> KernelName(k.value) == name
  {
    if name == "TPS" then Some(ThinPlateSpline)
    else if name == "TPSR2LOGR" then Some(ThinPlateR2LogRSpline)
    else if name == "VS" then Some(VolumeSpline)
    else if name == "EBS" then Some(ElasticBodySpline)
    else if name == "EBSR" then Some(ElasticBodyReciprocalSpline)
    else None
  }

  /** Every kernel is selected by its own name, and the default name selects the thin plate spline. */
  lemma SelectKernelByName(k: KernelKind)
    ensures SelectKernel(KernelName(k)) == Some(k)
    ensures SelectKernel(DefaultKernelName) == Some(ThinPlateSpline)
  {
  }

  /** Exactly the five names are accepted, and distinct names select distinct kernels. */
  lemma SelectKernelAcceptsExactlyFiveNames(name: string, other: string)
    ensures SelectKernel(name).Some? <==> name in {"TPS", "TPSR2LOGR", "VS", "EBS", "EBSR"}
    ensures SelectKernel(name).Some? && SelectKernel(other).Some? && name != other
            ==> SelectKernel(name) != SelectKernel(other)
  {
  }
}
