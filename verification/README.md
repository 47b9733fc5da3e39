# Command Reopen activation monitor, in Dafny

Command Reopen is a macOS menu-bar app. It watches for "an application became
frontmost" notifications and re-opens that application with
`NSWorkspace.openApplication`, so that switching to an app with Command-Tab also
brings back its windows. `ActivationMonitor` makes the decision. For each
activation it either drops the event, defers a Finder activation to a later
check, or asks for a reopen. It keeps a per-bundle debounce, a single-use
"self-triggered" suppression window that swallows the echo of its own reopen,
and two time windows that keep Finder from being reopened after the desktop was
cleared or the Space changed.

This project models that engine as a pure state machine and proves properties
of it:

- `wrappers.dfy` holds the `Option` type and map lookup (module `Wrappers`).
- `monitor.dfy` holds module `Monitor`. The state is `MonitorState`: the feature
  flag, the last Space-change and desktop-clear times, and the
  `lastReopen`/`suppressUntil` maps. Each main-queue callback is one step
  function that returns the new state and an `Action` (`NoAction`,
  `Reopen(b, at)` or `ScheduleFinderCheck(b, fireAt)`). `ProcessEvents` runs a
  whole event sequence.
- `monitor_properties.dfy` holds module `MonitorProperties`: lemmas that relate
  several steps.
- `bundle_helpers.dfy` holds module `BundleHelpers`: the static helpers that the
  unit tests call (ignore set, bundle-id normalisation, and four time-window
  predicates). They are kept apart from the monitor.
- `helper_agreement.dfy` holds module `HelperAgreement`: where the helpers and
  the monitor's inline checks agree, and where they differ.

Times are integer milliseconds. The constants are 1500 ms (Finder suppression
after a Space change), 200 ms (Finder evaluation delay), 2000 ms (desktop-clear
suppression), 100 ms (debounce) and 300 ms (self-trigger window). Values
`ActivationMonitor` reads from the operating system are parameters of the step functions:

- `ownId` is `Bundle.main.bundleIdentifier`.
- `mousePressed` is `NSEvent.pressedMouseButtons != 0`.
- `resolvable` says whether `urlForApplication` returns a URL.
- `frontmost` is `workspace.frontmostApplication`.
- The window list is an `Option<seq<WindowInfo>>`, where `None` means the
  `CGWindowListCopyWindowInfo` query failed.

A deferred Finder check is its own step, `FinderCheck`. The `Event` type lists
every kind of callback the main queue delivers.

## Model

| member | source | states |
|---|---|---|
| `Monitor.Init` | ComTab/ActivationMonitor.swift:40-56 | A new monitor has the persisted feature flag, no Space-change or desktop-clear time, and empty reopen and self-trigger maps, so it meets the self-trigger arming invariant that `ProcessEvents` requires. |
| `Monitor.ConsumeSelfTrigger` | ComTab/ActivationMonitor.swift:280-293 | The bundle's self-trigger entry is removed whether or not it is still in window, and no other entry changes. The answer is true iff an entry existed and `now <= until`. |
| `Monitor.ReopenApplication` | ComTab/ActivationMonitor.swift:249-264 | A reopen is requested iff the URL resolves and the last reopen of the bundle is not less than 100 ms old. Otherwise the state is unchanged. On a reopen only bundle `b` changes: `lastReopen[b] = now` and `suppressUntil[b] = now + 300`. |
| `Monitor.HandleActivation` | ComTab/ActivationMonitor.swift:124-154 | The own bundle, a pressed mouse button, a missing id and the Dock all drop the event with no state change. Next, the self-trigger entry is consumed. The event is then swallowed (inside the window), deferred by 200 ms (Finder) or reopened. A reopen happens iff no filter matched, there was no live self-trigger window, the bundle is not Finder, the URL resolves and there is no debounce. The flag and the Finder timestamps are never touched. |
| `Monitor.OnActivation` | ComTab/ActivationMonitor.swift:79-94 | The activation observer exists only while the feature is on, and its callback checks the flag. With the flag off nothing happens; with it on the step is `HandleActivation`. |
| `Monitor.ManualRelaunch` | ComTab/ActivationMonitor.swift:59-69 | It does nothing when the feature is off or there is no frontmost app. Otherwise it takes exactly the `HandleActivation` path for the frontmost app. |
| `Monitor.OnSpaceChange` | ComTab/ActivationMonitor.swift:97-106 | With the feature on (observer registered) it records the Space-change time and nothing else. With the feature off it changes nothing. |
| `Monitor.SetFeatureEnabled` | ComTab/ActivationMonitor.swift:26-33 | Toggling sets the flag and keeps every recorded timestamp and map. |
| `Monitor.HasVisibleNormalWindow` | ComTab/ActivationMonitor.swift:227-241 | True iff some window in the list has layer 0, alpha above 0.01 and an owner name other than "Dock" or "Window Server". A missing or ill-typed key rules a window out. |
| `Monitor.CaptureDesktopClear` | ComTab/ActivationMonitor.swift:218-247 | The desktop-clear time becomes `now` iff the window list was obtained and has no visible normal window. A failed query, or a list with such a window, leaves the state unchanged. No other field ever changes. |
| `Monitor.FinderCheck` | ComTab/ActivationMonitor.swift:160-187 | It aborts with no change when the feature is now off, or when a frontmost app exists whose bundle id is not `b`. A missing frontmost app does not abort. Otherwise it captures the desktop state, then either suppresses or reopens `b` at `now`. It never schedules another check. |
| `Monitor.Apply` | ComTab/ActivationMonitor.swift:249-264 | For every kind of event: the reopen map changes only when a reopen is requested. That reopen records exactly `b := at` and is at least 100 ms after the previous reopen of `b`. Every self-trigger window stays equal to its bundle's last reopen plus 300 ms. |
| `Monitor.ProcessEvents` | ComTab/ActivationMonitor.swift:256-264 | Over any sequence of events processed in order, the reopen requests of one bundle are at least 100 ms apart, for every pair and not only neighbours. The self-trigger invariant holds at the end, and the result equals the step-by-step replay. |
| `MonitorProperties.SelfTriggerSingleUse` | ComTab/ActivationMonitor.swift:280-293 | After one read the entry is gone, and a second read answers false and changes nothing. |
| `MonitorProperties.SelfTriggerOnlyAfterReopen` | ComTab/ActivationMonitor.swift:261-264 | Given the arming invariant, an activation is swallowed as self-triggered only if its bundle was reopened at most 300 ms earlier. |
| `MonitorProperties.FinderSelfTriggerSwallowed` | ComTab/ActivationMonitor.swift:144-153 | A Finder activation inside its self-trigger window is dropped before the Finder branch. No deferred check is scheduled and its entry is consumed. |
| `MonitorProperties.ActivationTouchesOnlyItsBundle` | ComTab/ActivationMonitor.swift:124-154 | An activation leaves the reopen and self-trigger entries of every other bundle unchanged. |
| `MonitorProperties.DebounceBoundary` | ComTab/ActivationMonitor.swift:256-261 | After a reopen at `t`, a second attempt at `t + d` goes through iff `d >= 100`. Below 100 ms the state is unchanged, and exactly 100 ms is not debounced. |
| `MonitorProperties.ManualRelaunchIsActivation` | ComTab/ActivationMonitor.swift:59-69 | With the feature on, a manual relaunch of the frontmost app equals an observed activation of it. |
| `MonitorProperties.DisabledMonitorIsInert` | ComTab/ActivationMonitor.swift:60-63 | While the feature is off, every event except a toggle leaves the state unchanged and emits nothing. The other guards are at lines 88, 111-121 and 169-172. |
| `MonitorProperties.EmptyDesktopSuppressesFinder` | ComTab/ActivationMonitor.swift:180-185 | A Finder check that sees no visible normal window records the clear at `now` and so never reopens. |
| `MonitorProperties.MissingFrontmostDoesNotAbort` | ComTab/ActivationMonitor.swift:174-178 | With no frontmost app the check still reopens when nothing suppresses it. |
| `MonitorProperties.FinderSuppressionRule` | ComTab/ActivationMonitor.swift:189-216 | Finder is suppressed iff the desktop-clear time is at most 2000 ms old or the last Space change is at most 1500 ms old; with neither timestamp it is not suppressed. A timestamp in the future suppresses too, because a negative elapsed time passes the `<=` test at lines 193 and 205. |
| `MonitorProperties.DesktopClearBoundary` | ComTab/ActivationMonitor.swift:191-198 | The desktop-clear window includes 2000 ms and has closed at 2001 ms. |
| `MonitorProperties.SpaceChangeBoundary` | ComTab/ActivationMonitor.swift:203-210 | After a Space change, Finder is suppressed up to and including 1500 ms and not at 1501 ms. |
| `MonitorProperties.DockActivationDropped` | ComTab/ActivationMonitor.swift:138-142 | A Dock activation is dropped with nothing recorded, whatever the other inputs. |
| `MonitorProperties.EchoThenFreshActivation` | ComTab/ActivationMonitor.swift:144-147 | Take a fresh monitor and an app that has no special role. An activation at `t` reopens the app. Its echo at `t + 100` is swallowed and consumes the entry. A new activation at `t + 500` reopens it again. |
| `BundleHelpers.IgnoredBundleIDsCases` | ComTabTests/ComTabTests.swift:14-34 | The eight system bundles the test lists are ignored, and TextEdit and Chrome are not. That the set holds nothing else (size 8) is a modelling choice. |
| `BundleHelpers.NormalizeBundleID` | ComTabTests/ComTabTests.swift:36-41 | The result is `None` iff the input is entirely whitespace or newlines. Otherwise it is the one slice of the input with only whitespace outside it and a non-whitespace first and last character. |
| `BundleHelpers.NormalizeIdempotent` | ComTabTests/ComTabTests.swift:36-41 | Normalising a normalised identifier returns it unchanged. |
| `BundleHelpers.NormalizePadded` | ComTabTests/ComTabTests.swift:38 | An identifier that starts and ends with a non-whitespace character, padded by one whitespace character on each side, normalises back to itself. |
| `BundleHelpers.NormalizeTrimCase` | ComTabTests/ComTabTests.swift:38 | `" com.apple.TextEdit "` normalises to `"com.apple.TextEdit"`. |
| `BundleHelpers.NormalizeBlankCases` | ComTabTests/ComTabTests.swift:39-40 | `"\n\t"` and `""` normalise to `None`. |
| `BundleHelpers.RecentLaunchCases` | ComTabTests/ComTabTests.swift:43-70 | With a 900 ms interval, a launch 300 ms ago suppresses. A launch 2000 ms ago, one 100 ms in the future and an unknown one do not. |
| `BundleHelpers.DebounceCases` | ComTabTests/ComTabTests.swift:72-93 | With a 100 ms interval, a reopen 50 ms ago debounces. A reopen 200 ms ago and a missing one do not. |
| `BundleHelpers.SelfTriggeredCases` | ComTabTests/ComTabTests.swift:95-113 | A window ending 200 ms from now ignores the activation. A window that ended 200 ms ago and a missing one do not. |
| `BundleHelpers.RapidReturnCases` | ComTabTests/ComTabTests.swift:115-154 | Safari to TextEdit with activations 1000 ms and 400 ms ago suppresses. The same bundle, a target last seen 3000 ms ago and a missing previous bundle do not. |
| `BundleHelpers.RapidReturnNeedsSwitch` | ComTabTests/ComTabTests.swift:128-135 | When the previous bundle equals the target, the activation is never a rapid return, whatever the timestamps. |
| `BundleHelpers.FutureTimestampsNeverSuppress` | ComTabTests/ComTabTests.swift:59-63 | A timestamp in the future never counts as a recent launch or as a recent activation for the rapid-return check. |
| `HelperAgreement.DebounceAgrees` | ComTab/ActivationMonitor.swift:256-257 | The monitor's inline debounce test is `shouldDebounceReopen` with the bundle's last reopen and 100 ms. |
| `HelperAgreement.SelfTriggerAgrees` | ComTab/ActivationMonitor.swift:280-293 | What consuming a self-trigger entry answers is `shouldIgnoreSelfTriggered` of that entry. |
| `HelperAgreement.SpecialBundlesAreIgnored` | ComTabTests/ComTabTests.swift:16-18 | The Dock and Finder, the two bundles the monitor singles out, are both in the helper ignore set. |
| `HelperAgreement.MonitorDropsOnlyTheDock` | ComTab/ActivationMonitor.swift:138-142 | No bundle id other than the Dock's is dropped up front, when it is not the monitor's own id and no mouse button is pressed. In particular, being in the helper ignore set does not drop an activation. |
| `HelperAgreement.IgnoredFinderIsDeferred` | ComTab/ActivationMonitor.swift:149-152 | Finder is in the ignore set. Even so, a Finder activation outside its self-trigger window gets a 200 ms deferred check. |

## Notes on the code

- The helpers that the tests call (`ignoredBundleIDs`, `isIgnoredBundleID`,
  `normalizeBundleID`, `shouldSuppressRecentLaunch`, `shouldDebounceReopen`,
  `shouldIgnoreSelfTriggered`, `shouldSuppressRapidReturn`) are not defined in
  `ActivationMonitor.swift`. Their definitions here follow the test assertions.
  The tests do not fix some details, so the model chooses them:
  - The recent-launch window includes its upper bound.
  - A reopen time in the future counts as debounced, as in the monitor's inline
    check.
  - The rapid-return window is `[0, interval)` on both timestamps.
  - The ignore set is exactly the eight bundles the test lists; the test only
    checks that those eight are members and that TextEdit and Chrome are not.
  - The characters trimmed are those of Foundation's `whitespacesAndNewlines`
    (25 of them, among them U+00A0, U+2028 and U+3000), compared one Unicode
    scalar at a time; the tests fix only space, tab and newline.
- `relaunchFrontmostApplication` (`ActivationMonitor.swift:59-69`) takes the
  full `handleActivation` path. That includes the mouse, Dock and self-trigger
  filters and the Finder deferral.
- `ActivationMonitor.swift` has no rapid-return, recent-launch or
  user-exclusion check. Those rules exist here only as the tested helper
  predicates.
- Swift compares optionals with `!=`, so an app without a bundle id matches a
  missing `Bundle.main.bundleIdentifier` and is dropped by the first filter. The
  model keeps that order.

## Left out

- Observer registration and removal and `deinit` (lines 71-122, 156-158). This
  is operating-system subscription plumbing. The model keeps only its effect:
  activation and Space-change events do nothing while the feature is off.
- `NSEvent.pressedMouseButtons`, `frontmostApplication`, `urlForApplication`,
  `Bundle.main.bundleIdentifier` and `CGWindowListCopyWindowInfo` are foreign
  queries. They become step parameters.
- The `openApplication` call, its configuration and its completion handler
  (lines 266-277) are asynchronous external effects that only log. The model
  emits them as a `Reopen(b, at)` action.
- `DispatchQueue.main.asyncAfter` scheduling (line 167). The model emits a
  `ScheduleFinderCheck(b, now + 200)` action, and the check is a separate
  `FinderCheck` step that takes its own time. The model does not require that
  time to be the scheduled one. Nor does it require a `FinderCheckFired` event
  to follow a `ScheduleFinderCheck`, or to carry Finder's bundle id, so
  `ProcessEvents` covers more event sequences than the Swift code can produce.
- The `scheduledAt` time of the Finder check is only logged and is not modelled.
  The `guard let bundleID` at the start of `handleFinderActivation` cannot fail,
  because that function is reached only with a known bundle id, so it is not
  modelled either.
- The Swift code reads `Date()` several times within one main-queue turn. An
  activation turn reads it at line 282 (the self-trigger test) and then at
  line 255 (`reopenApplication`) or line 165 (the Finder scheduling). A
  deferred Finder turn reads it at lines 173, 244 (the desktop-clear capture),
  190 (the suppression test) and 255 (the debounce and its arming). The model
  uses one `now` for all the reads of a step.
- `UserDefaults` persistence and the `@Published` side effects (lines 26-33,
  51-53). Only the boolean flag is kept.
- Floating-point `TimeInterval`/`Date` arithmetic becomes integer milliseconds.
  The `alpha > 0.01` test becomes the boolean `WindowInfo.alphaVisible`.
- All logging (`AppLogger.swift`).
- The UI and app lifecycle (`StatusBarController.swift`, `ContentView.swift`,
  `ComTabApp.swift`, `AppDelegate.swift`, `ActivationMonitor+Binding.swift`) and
  `LaunchAtLoginManager.swift`, a thin wrapper over `SMAppService`.
- The model trims Dafny `char`s, which are Unicode scalars, so a whitespace
  scalar inside a grapheme cluster is trimmed on its own. Grapheme clusters are
  not modelled.
