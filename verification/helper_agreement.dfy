/**
 How the tested static helpers relate to the checks the monitor performs
 inline. The debounce and self-trigger checks coincide; the ignore set does
 not: the monitor drops only the Dock up front and gives Finder a deferred
 check, while the helper set lists Finder and six more system bundles that
 the monitor does not filter at all.
 */
module HelperAgreement {
  import opened Wrappers
  import opened Monitor
  import opened BundleHelpers

  /** The monitor's inline debounce is `shouldDebounceReopen` at 100 ms. */
  lemma DebounceAgrees(s: MonitorState, b: string, now: int)
    ensures Debounced(s, b, now) == ShouldDebounceReopen(Lookup(s.lastReopen, b), now, BundleDebounceMs)
  {
  }

  /** Consuming a self-trigger entry answers what `shouldIgnoreSelfTriggered`
      answers for that entry. */
  lemma SelfTriggerAgrees(m: map<string, int>, b: string, now: int)
    ensures ConsumeSelfTrigger(m, b, now).1 == ShouldIgnoreSelfTriggered(Lookup(m, b), now)
  {
  }

  /** Both bundles the monitor singles out belong to the helper ignore set. */
  lemma SpecialBundlesAreIgnored()
    ensures IsIgnoredBundleID(DockBundleID)
    ensures IsIgnoredBundleID(FinderBundleID)
  {
  }

  /** The monitor drops no bundle id up front except the Dock's (and its own);
      so membership in the helper ignore set is no reason to drop. */
  lemma MonitorDropsOnlyTheDock(ownId: Option<string>, id: string)
    requires id != DockBundleID && ownId != Some(id)
    ensures !DroppedUpFront(ownId, App(Some(id)), false)
  {
  }

  /** Finder is in the ignore set, yet a Finder activation outside its
      self-trigger window schedules a deferred check. */
  lemma IgnoredFinderIsDeferred(s: MonitorState, ownId: Option<string>, resolvable: bool, now: int)
    requires ownId != Some(FinderBundleID) && !SelfTriggered(s, FinderBundleID, now)
    ensures IsIgnoredBundleID(FinderBundleID)
    ensures HandleActivation(s, ownId, App(Some(FinderBundleID)), false, resolvable, now).action
         == ScheduleFinderCheck(FinderBundleID, now + FinderEvaluationDelayMs)
  {
  }
}
