/** Properties of the monitor that relate several steps or several operations. */
module MonitorProperties {
  import opened Wrappers
  import opened Monitor

  /** The self-trigger entry is single-use: once read, a second read finds
      nothing, whatever the times. */
  lemma SelfTriggerSingleUse(m: map<string, int>, b: string, first: int, second: int)
    ensures var (m1, _) := ConsumeSelfTrigger(m, b, first);
      && b !in m1
      && ConsumeSelfTrigger(m1, b, second) == (m1, false)
  {
  }

  /** Under the arming invariant, an activation is swallowed as self-triggered
      only when its bundle was reopened at most 300 ms before. */
  lemma SelfTriggerOnlyAfterReopen(s: MonitorState, ownId: Option<string>, app: App,
                                   resolvable: bool, now: int)
    requires SelfTriggerArmedByReopen(s)
    requires !DroppedUpFront(ownId, app, false)
    requires SelfTriggered(s, app.bundleId.value, now)
    ensures app.bundleId.value in s.lastReopen
    ensures now <= s.lastReopen[app.bundleId.value] + SelfTriggerSuppressMs
    ensures HandleActivation(s, ownId, app, false, resolvable, now).action == NoAction
  {
  }

  /** A Finder activation inside its self-trigger window is swallowed before
      the Finder branch: no deferred check, and the entry is gone. */
  lemma FinderSelfTriggerSwallowed(s: MonitorState, ownId: Option<string>, resolvable: bool, now: int)
    requires ownId != Some(FinderBundleID)
    requires SelfTriggered(s, FinderBundleID, now)
    ensures var r := HandleActivation(s, ownId, App(Some(FinderBundleID)), false, resolvable, now);
      && r.action == NoAction
      && FinderBundleID !in r.state.suppressUntil
      && r.state.lastReopen == s.lastReopen
  {
  }

  /** An activation reads and writes only the entries of its own bundle. */
  lemma ActivationTouchesOnlyItsBundle(s: MonitorState, ownId: Option<string>, app: App,
                                       mousePressed: bool, resolvable: bool, now: int, c: string)
    requires app.bundleId != Some(c)
    ensures var r := HandleActivation(s, ownId, app, mousePressed, resolvable, now);
      && Lookup(r.state.lastReopen, c) == Lookup(s.lastReopen, c)
      && Lookup(r.state.suppressUntil, c) == Lookup(s.suppressUntil, c)
  {
  }

  /** Two reopen attempts of one bundle `d` ms apart: the second goes through
      iff `d` is at least 100 ms, so exactly 100 ms is not debounced. */
  lemma DebounceBoundary(s: MonitorState, b: string, t: int, d: int)
    requires !Debounced(s, b, t)
    ensures var r1 := ReopenApplication(s, b, t, true);
      && r1.action == Reopen(b, t)
      && (ReopenApplication(r1.state, b, t + d, true).action.Reopen? <==> d >= BundleDebounceMs)
      && (d < BundleDebounceMs ==> ReopenApplication(r1.state, b, t + d, true) == Step(r1.state, NoAction))
  {
  }

  /** With the feature on and a frontmost application, a manual relaunch is
      indistinguishable from an observed activation of that application. */
  lemma ManualRelaunchIsActivation(s: MonitorState, ownId: Option<string>, app: App,
                                   mousePressed: bool, resolvable: bool, now: int)
    requires s.enabled
    ensures ManualRelaunch(s, ownId, Some(app), mousePressed, resolvable, now)
         == OnActivation(s, ownId, app, mousePressed, resolvable, now)
  {
  }

  /** While the feature is off no event changes anything except the flag. */
  lemma DisabledMonitorIsInert(s: MonitorState, ownId: Option<string>, e: Event)
    requires !s.enabled
    requires !e.FeatureToggled?
    ensures Apply(s, ownId, e) == Step(s, NoAction)
  {
  }

  /** A deferred Finder check that finds no visible normal window records the
      desktop as clear and, because that clear is 0 ms old, never reopens. */
  lemma EmptyDesktopSuppressesFinder(s: MonitorState, b: string, now: int, frontmost: Option<App>,
                                     ws: seq<WindowInfo>, resolvable: bool)
    requires s.enabled && !FrontmostChanged(frontmost, b)
    requires forall i | 0 <= i < |ws| :: !IsVisibleNormalWindow(ws[i])
    ensures var r := FinderCheck(s, b, now, frontmost, Some(ws), resolvable);
      r.action == NoAction && r.state.lastDesktopClear == Some(now)
  {
  }

  /** With no frontmost application the deferred check still runs: a visible
      window, no recent clear or Space change, a resolvable URL and no
      debounce reopen Finder. */
  lemma MissingFrontmostDoesNotAbort(s: MonitorState, b: string, now: int, ws: seq<WindowInfo>)
    requires s.enabled
    requires exists i | 0 <= i < |ws| :: IsVisibleNormalWindow(ws[i])
    requires !ShouldSuppressFinder(s, now) && !Debounced(s, b, now)
    ensures FinderCheck(s, b, now, None, Some(ws), true).action == Reopen(b, now)
  {
  }

  /** `shouldSuppressFinderActivation` as a whole: either window suffices,
      both bounds are inclusive, a missing timestamp never suppresses, and a
      timestamp in the future always does. */
  lemma FinderSuppressionRule(s: MonitorState, now: int)
    ensures ShouldSuppressFinder(s, now) <==>
      || (s.lastDesktopClear.Some? && now - s.lastDesktopClear.value <= 2000)
      || (s.lastSpaceChange.Some? && now - s.lastSpaceChange.value <= 1500)
    ensures s.lastDesktopClear.None? && s.lastSpaceChange.None? ==> !ShouldSuppressFinder(s, now)
    ensures s.lastDesktopClear.Some? && s.lastDesktopClear.value >= now ==> ShouldSuppressFinder(s, now)
    ensures s.lastSpaceChange.Some? && s.lastSpaceChange.value >= now ==> ShouldSuppressFinder(s, now)
  {
  }

  /** The desktop-clear window is inclusive at 2000 ms and closed at 2001 ms. */
  lemma DesktopClearBoundary(s: MonitorState, t: int)
    requires s.lastDesktopClear == Some(t) && s.lastSpaceChange.None?
    ensures ShouldSuppressFinder(s, t + DesktopClearSuppressionMs)
    ensures !ShouldSuppressFinder(s, t + DesktopClearSuppressionMs + 1)
  {
  }

  /** A Space change suppresses Finder for 1500 ms inclusive, and no longer. */
  lemma SpaceChangeBoundary(s: MonitorState, t: int)
    requires s.enabled && s.lastDesktopClear.None?
    ensures ShouldSuppressFinder(OnSpaceChange(s, t), t + FinderSuppressionMs)
    ensures !ShouldSuppressFinder(OnSpaceChange(s, t), t + FinderSuppressionMs + 1)
  {
  }

  /** A Dock activation is dropped with nothing recorded. */
  lemma DockActivationDropped(s: MonitorState, ownId: Option<string>, mousePressed: bool,
                              resolvable: bool, now: int)
    ensures OnActivation(s, ownId, App(Some(DockBundleID)), mousePressed, resolvable, now)
         == Step(s, NoAction)
  {
  }

  /** The echo of a reopen is swallowed, and a later activation of the same
      app is handled afresh: reopen at `t`, echo at `t + 100`, reopen again at
      `t + 500`. */
  lemma EchoThenFreshActivation(ownId: Option<string>, b: string, t: int)
    requires b != DockBundleID && b != FinderBundleID && ownId != Some(b)
    ensures var app := App(Some(b));
      var r1 := OnActivation(Init(true), ownId, app, false, true, t);
      var r2 := OnActivation(r1.state, ownId, app, false, true, t + 100);
      var r3 := OnActivation(r2.state, ownId, app, false, true, t + 500);
      && r1.action == Reopen(b, t)
      && r2.action == NoAction && b !in r2.state.suppressUntil
      && r3.action == Reopen(b, t + 500)
  {
    var app := App(Some(b));
    var r1 := OnActivation(Init(true), ownId, app, false, true, t);
    assert r1.state.suppressUntil == map[b := t + SelfTriggerSuppressMs];
    var r2 := OnActivation(r1.state, ownId, app, false, true, t + 100);
    assert r2.state.suppressUntil == map[];
  }
}
