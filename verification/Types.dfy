/** The API types shared by both controllers (api/v1alpha1). Timestamps and durations are
    integers in seconds; Go's nil pointers are `None`. */
module Types {

  datatype Option<+T> = None | Some(value: T)

  datatype GroupResource = GroupResource(group: string, resource: string)

  /** One Kubernetes object: REST identity plus UID. */
  datatype TargetRef = TargetRef(
    group: string, version: string, resource: string, kind: string,
    ns: string, name: string, uid: string)
  {
    function GR(): GroupResource { GroupResource(group, resource) }
  }

  datatype ControllerRef = ControllerRef(apiVersion: string, kind: string, ns: string, name: string)

  /** `UnsupportedAction` stands for every type string outside the three known ones. */
  datatype ActionType =
    | RemoveResourceFinalizer
    | RemoveCRDFinalizer
    | ForceFinalizeNamespace
    | UnsupportedAction

  /** `RiskUnknown` stands for every risk string outside the five known ones. */
  datatype Risk = RiskNone | RiskLow | RiskMedium | RiskHigh | RiskCritical | RiskUnknown

  datatype Action = Action(
    id: string, typ: ActionType, risk: Risk, target: TargetRef, finalizer: string,
    eligible: bool, ineligibleReason: string, preRv: string, reason: string)

  datatype PolicyRef = PolicyRef(name: string, uid: string, generation: nat)

  datatype FindingType =
    | BlockingFinalizer
    | RemainingResource
    | UnavailableAPIService
    | DiscoveryFailure
    | BlockingWebhook
    | MissingFinalizerController
    | DeletionGracePeriodExceeded
    | ResourceTypeRemoved
    | PolicyDisallowsRemediation
    | UnknownFinding

  datatype Finding = Finding(
    id: string, typ: FindingType, message: string, resourceRef: Option<TargetRef>,
    finalizer: string, apiService: string, webhook: string,
    controllerRef: Option<ControllerRef>, count: Option<int>, truncated: bool)

  function Max(a: int, b: int): int { if a >= b then a else b }

  function Min(a: int, b: int): int { if a <= b then a else b }
}
