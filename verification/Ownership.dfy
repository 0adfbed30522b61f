/** Reconciling the installed receipt with the K3s service observed on the host. */
module Ownership {
  import opened Text

  datatype Signal = Signal(detected: bool, active: bool, healthy: bool, runningVersion: string, foreign: seq<string>)

  datatype Owner = Owner(owned: bool, version: string)

  datatype Decision =
    FreshInstall | ReuseOwned | UpgradeOwned | RequiresRepair | RejectUnrecorded | AdoptExisting | RequiresForceAdopt

  function DecideOwnership(version: string, installed: Option<Owner>, signal: Signal, priorAttempt: bool, forceAdopt: bool)
    : Decision
  {
    if installed.Some? then
      if !installed.value.owned then RequiresForceAdopt
      else if !signal.detected then RequiresRepair
      else if installed.value.version != version then UpgradeOwned
      else ReuseOwned
    else if !signal.detected then FreshInstall
    else if priorAttempt then RejectUnrecorded
    else if signal.healthy && signal.foreign == [] then AdoptExisting
    else if forceAdopt then AdoptExisting
    else RequiresForceAdopt
  }

  /** A K3s that this appliance never recorded is taken over only if it is safe to or if the operator insists, and never after
      an interrupted install. */
  lemma AdoptsIff(version: string, installed: Option<Owner>, signal: Signal, priorAttempt: bool, forceAdopt: bool)
    ensures DecideOwnership(version, installed, signal, priorAttempt, forceAdopt) == AdoptExisting
       <==> && installed.None? && signal.detected && !priorAttempt
            && (forceAdopt || (signal.healthy && signal.foreign == []))
    ensures DecideOwnership(version, installed, signal, priorAttempt, forceAdopt) == RejectUnrecorded
       <==> installed.None? && signal.detected && priorAttempt
    ensures DecideOwnership(version, installed, signal, priorAttempt, forceAdopt) == FreshInstall
       <==> installed.None? && !signal.detected
  {
  }

  /** A recorded installation is reused, upgraded or repaired as the record and the service say, whatever else holds. */
  lemma RecordedIff(version: string, owner: Owner, signal: Signal, priorAttempt: bool, forceAdopt: bool)
    ensures var decision := DecideOwnership(version, Some(owner), signal, priorAttempt, forceAdopt);
            && (decision == ReuseOwned <==> owner.owned && signal.detected && owner.version == version)
            && (decision == UpgradeOwned <==> owner.owned && signal.detected && owner.version != version)
            && (decision == RequiresRepair <==> owner.owned && !signal.detected)
            && (decision == RequiresForceAdopt <==> !owner.owned)
  {
  }
}
