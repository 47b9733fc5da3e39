/**
 The decision engine of `ActivationMonitor` as a sequential state machine.

 Every notification and every deferred callback of the monitor runs on the
 main queue, so each is one pure step here: it takes the monitor's state and
 the values `ActivationMonitor` reads from the operating system (the pressed mouse
 buttons, the frontmost application, whether a bundle id resolves to an
 application URL, the on-screen window list) and returns the new state and
 the action to perform. Times are integer milliseconds.
 */
module Monitor {
  import opened Wrappers

  // The monitor's time constants, in milliseconds.
  const FinderSuppressionMs := 1500
  const FinderEvaluationDelayMs := 200
  const DesktopClearSuppressionMs := 2000
  const BundleDebounceMs := 100
  const SelfTriggerSuppressMs := 300

  const DockBundleID := "com.apple.dock"
  const FinderBundleID := "com.apple.finder"

  /** Window owners that never count as a visible normal window. */
  const IgnoredWindowOwners: set<string> := {"Dock", "Window Server"}

  /** A running application as the monitor sees it: only its bundle id. */
  datatype App = App(bundleId: Option<string>)

  /** One entry of the on-screen window list. Each key may be missing or of
      the wrong type, which reads as `None`; `alphaVisible` is whether the window's
      alpha exceeds 0.01. */
  datatype WindowInfo = WindowInfo(layer: Option<int>, alphaVisible: Option<bool>, ownerName: Option<string>)

  datatype MonitorState = MonitorState(
    enabled: bool,
    lastSpaceChange: Option<int>,
    lastDesktopClear: Option<int>,
    lastReopen: map<string, int>,
    suppressUntil: map<string, int>)

  /** What a step asks the outside world to do: nothing, reopen an
      application (an `openApplication` call at time `at`), or run the
      deferred Finder check at time `fireAt`. */
  datatype Action =
    | NoAction
    | Reopen(bundleId: string, at: int)
    | ScheduleFinderCheck(bundleId: string, fireAt: int)

  datatype Step = Step(state: MonitorState, action: Action)

  /** A freshly constructed monitor; `enabled` is the persisted flag. */
  function Init(enabled: bool): (s: MonitorState)
    ensures s.enabled == enabled
    ensures s.lastSpaceChange.None? && s.lastDesktopClear.None?
    ensures s.lastReopen == map[] && s.suppressUntil == map[]
    ensures SelfTriggerArmedByReopen(s)
  {
    MonitorState(enabled, None, None, map[], map[])
  }

  // ---------------------------------------------------------------------------
  // Predicates over a state

  /** `b` was reopened less than the debounce interval ago. */
  predicate Debounced(s: MonitorState, b: string, now: int) {
    b in s.lastReopen && now - s.lastReopen[b] < BundleDebounceMs
  }

  /** `b` has a self-trigger window that has not yet passed. */
  predicate SelfTriggered(s: MonitorState, b: string, now: int) {
    b in s.suppressUntil && now <= s.suppressUntil[b]
  }

  /** Every self-trigger window was armed by the latest reopen of its bundle. */
  ghost predicate SelfTriggerArmedByReopen(s: MonitorState) {
    forall b | b in s.suppressUntil ::
      b in s.lastReopen && s.suppressUntil[b] == s.lastReopen[b] + SelfTriggerSuppressMs
  }

  /** How a step `r` taken from `s` treats the reopen memory: without a reopen
      it is untouched; a reopen of `b` at `at` records exactly `b := at`, and
      is at least the debounce interval after the previous reopen of `b`. */
  ghost predicate ReopenBookkeeping(s: MonitorState, r: Step) {
    match r.action
    case Reopen(b, at) =>
      && r.state.lastReopen == s.lastReopen[b := at]
      && (b in s.lastReopen ==> at - s.lastReopen[b] >= BundleDebounceMs)
    case _ => r.state.lastReopen == s.lastReopen
  }

  // ---------------------------------------------------------------------------
  // Self-trigger suppression

  /** Reads and consumes the self-trigger entry of `b`: the entry is removed
      whether or not its window is still open, and the activation is ignored
      iff an entry existed and `now` is not past it. */
  function ConsumeSelfTrigger(suppressUntil: map<string, int>, b: string, now: int)
    : (r: (map<string, int>, bool))
    ensures r.0.Keys == suppressUntil.Keys - {b}
    ensures forall c | c in r.0 :: r.0[c] == suppressUntil[c]
    ensures r.1 <==> b in suppressUntil && now <= suppressUntil[b]
  {
    if b in suppressUntil then
      (suppressUntil - {b}, now <= suppressUntil[b])
    else
      (suppressUntil, false)
  }

  // ---------------------------------------------------------------------------
  // Reopen

  /** `reopenApplication`: gives up when the bundle does not resolve to an
      application or was reopened less than 100 ms ago; otherwise records the
      reopen, arms a 300 ms self-trigger window for the bundle and asks for the
      reopen. */
  function ReopenApplication(s: MonitorState, b: string, now: int, resolvable: bool): (r: Step)
    ensures r.action.Reopen? <==> resolvable && !Debounced(s, b, now)
    ensures !r.action.Reopen? ==> r == Step(s, NoAction)
    ensures r.action.Reopen? ==>
      && r.action == Reopen(b, now)
      && r.state == s.(lastReopen := s.lastReopen[b := now],
                       suppressUntil := s.suppressUntil[b := now + SelfTriggerSuppressMs])
    ensures ReopenBookkeeping(s, r)
    ensures SelfTriggerArmedByReopen(s) ==> SelfTriggerArmedByReopen(r.state)
  {
    if !resolvable then
      Step(s, NoAction)
    else if b in s.lastReopen && now - s.lastReopen[b] < BundleDebounceMs then
      Step(s, NoAction)
    else
      Step(s.(lastReopen := s.lastReopen[b := now],
              suppressUntil := s.suppressUntil[b := now + SelfTriggerSuppressMs]),
           Reopen(b, now))
  }

  // ---------------------------------------------------------------------------
  // Activation

  /** The filters that drop an activation before anything is read or
      written: the monitor's own bundle (Swift's optional comparison, so two
      missing ids are equal), a pressed mouse button, a missing bundle id, and
      the Dock. */
  predicate DroppedUpFront(ownId: Option<string>, app: App, mousePressed: bool) {
    || app.bundleId == ownId
    || mousePressed
    || app.bundleId.None?
    || app.bundleId.value == DockBundleID
  }

  /** `handleActivation`: the up-front filters, then the self-trigger check
      (which consumes the entry), then Finder's deferral or a reopen. */
  function HandleActivation(s: MonitorState, ownId: Option<string>, app: App,
                            mousePressed: bool, resolvable: bool, now: int): (r: Step)
    ensures DroppedUpFront(ownId, app, mousePressed) ==> r == Step(s, NoAction)
    ensures !DroppedUpFront(ownId, app, mousePressed) ==>
      var b := app.bundleId.value;
      var consumed := s.(suppressUntil := s.suppressUntil - {b});
      && (SelfTriggered(s, b, now) ==> r == Step(consumed, NoAction))
      && (!SelfTriggered(s, b, now) && b == FinderBundleID ==>
            r == Step(consumed, ScheduleFinderCheck(b, now + FinderEvaluationDelayMs)))
      && (!SelfTriggered(s, b, now) && b != FinderBundleID ==>
            r == ReopenApplication(consumed, b, now, resolvable))
    ensures r.action.Reopen? <==>
      && !DroppedUpFront(ownId, app, mousePressed)
      && !SelfTriggered(s, app.bundleId.value, now)
      && app.bundleId.value != FinderBundleID
      && resolvable
      && !Debounced(s, app.bundleId.value, now)
    ensures r.state.enabled == s.enabled
    ensures r.state.lastSpaceChange == s.lastSpaceChange
    ensures r.state.lastDesktopClear == s.lastDesktopClear
    ensures ReopenBookkeeping(s, r)
    ensures SelfTriggerArmedByReopen(s) ==> SelfTriggerArmedByReopen(r.state)
  {
    if app.bundleId == ownId then
      Step(s, NoAction)
    else if mousePressed then
      Step(s, NoAction)
    else if app.bundleId.None? then
      Step(s, NoAction)
    else
      var b := app.bundleId.value;
      if b == DockBundleID then
        Step(s, NoAction)
      else
        var (remaining, ignore) := ConsumeSelfTrigger(s.suppressUntil, b, now);
        var consumed := s.(suppressUntil := remaining);
        assert remaining == s.suppressUntil - {b};
        if ignore then
          Step(consumed, NoAction)
        else if b == FinderBundleID then
          Step(consumed, ScheduleFinderCheck(b, now + FinderEvaluationDelayMs))
        else
          ReopenApplication(consumed, b, now, resolvable)
  }

  /** The activation observer: registered only while the feature is on, and
      its callback checks the flag again before handling the event. */
  function OnActivation(s: MonitorState, ownId: Option<string>, app: App,
                        mousePressed: bool, resolvable: bool, now: int): (r: Step)
    ensures !s.enabled ==> r == Step(s, NoAction)
    ensures s.enabled ==> r == HandleActivation(s, ownId, app, mousePressed, resolvable, now)
  {
    if s.enabled then HandleActivation(s, ownId, app, mousePressed, resolvable, now)
    else Step(s, NoAction)
  }

  /** `relaunchFrontmostApplication`: with the feature on and a frontmost
      application, the same path as an observed activation of that app. */
  function ManualRelaunch(s: MonitorState, ownId: Option<string>, frontmost: Option<App>,
                          mousePressed: bool, resolvable: bool, now: int): (r: Step)
    ensures !s.enabled || frontmost.None? ==> r == Step(s, NoAction)
    ensures s.enabled && frontmost.Some? ==>
      r == HandleActivation(s, ownId, frontmost.value, mousePressed, resolvable, now)
  {
    if !s.enabled then Step(s, NoAction)
    else if frontmost.None? then Step(s, NoAction)
    else HandleActivation(s, ownId, frontmost.value, mousePressed, resolvable, now)
  }

  // ---------------------------------------------------------------------------
  // Space changes and the feature flag

  /** The Space-change observer, registered only while the feature is on. */
  function OnSpaceChange(s: MonitorState, now: int): (r: MonitorState)
    ensures s.enabled ==> r == s.(lastSpaceChange := Some(now))
    ensures !s.enabled ==> r == s
  {
    if s.enabled then s.(lastSpaceChange := Some(now)) else s
  }

  /** Toggling the feature only flips the flag (and with it the observers);
      the recorded timestamps survive. */
  function SetFeatureEnabled(s: MonitorState, enabled: bool): (r: MonitorState)
    ensures r.enabled == enabled
    ensures r.(enabled := s.enabled) == s
  {
    s.(enabled := enabled)
  }

  // ---------------------------------------------------------------------------
  // Deferred Finder check

  /** A window on layer 0 with alpha above 0.01, owned by something other
      than the Dock or the window server. A missing or ill-typed key rules the
      window out. */
  predicate IsVisibleNormalWindow(w: WindowInfo) {
    && w.layer == Some(0)
    && w.alphaVisible == Some(true)
    && w.ownerName.Some?
    && w.ownerName.value !in IgnoredWindowOwners
  }

  function HasVisibleNormalWindow(windows: seq<WindowInfo>): (r: bool)
    ensures r <==> exists i | 0 <= i < |windows| :: IsVisibleNormalWindow(windows[i])
  {
    if |windows| == 0 then false
    else
      var rest := HasVisibleNormalWindow(windows[1..]);
      assert forall i | 1 <= i < |windows| :: windows[1..][i - 1] == windows[i];
      IsVisibleNormalWindow(windows[0]) || rest
  }

  /** `captureDesktopClearStateIfNeeded`: records `now` as the desktop-clear
      time iff the window list was obtained and shows no visible normal
      window; nothing else changes. */
  function CaptureDesktopClear(s: MonitorState, windows: Option<seq<WindowInfo>>, now: int)
    : (r: MonitorState)
    ensures r.lastDesktopClear == Some(now) || r.lastDesktopClear == s.lastDesktopClear
    ensures r.lastDesktopClear != s.lastDesktopClear ==> r.lastDesktopClear == Some(now)
    ensures (windows.Some? && forall i | 0 <= i < |windows.value| ::
               !IsVisibleNormalWindow(windows.value[i])) ==> r.lastDesktopClear == Some(now)
    ensures windows.None? ==> r == s
    ensures (windows.Some? && exists i | 0 <= i < |windows.value| ::
               IsVisibleNormalWindow(windows.value[i])) ==> r == s
    ensures r.(lastDesktopClear := s.lastDesktopClear) == s
  {
    match windows
    case None => s
    case Some(ws) =>
      if HasVisibleNormalWindow(ws) then s else s.(lastDesktopClear := Some(now))
  }

  /** `shouldSuppressFinderActivation`: the desktop was found clear at most
      2000 ms ago, or the Space changed at most 1500 ms ago. */
  predicate ShouldSuppressFinder(s: MonitorState, now: int) {
    || (s.lastDesktopClear.Some? && now - s.lastDesktopClear.value <= DesktopClearSuppressionMs)
    || (s.lastSpaceChange.Some? && now - s.lastSpaceChange.value <= FinderSuppressionMs)
  }

  /** The frontmost application has moved on from `b`. A missing frontmost
      application does not count as a change; one without a bundle id does. */
  predicate FrontmostChanged(frontmost: Option<App>, b: string) {
    frontmost.Some? && frontmost.value.bundleId != Some(b)
  }

  /** The deferred Finder evaluation, run `FinderEvaluationDelayMs` after the
      activation of bundle `b`. */
  function FinderCheck(s: MonitorState, b: string, now: int, frontmost: Option<App>,
                       windows: Option<seq<WindowInfo>>, resolvable: bool): (r: Step)
    ensures !s.enabled || FrontmostChanged(frontmost, b) ==> r == Step(s, NoAction)
    ensures s.enabled && !FrontmostChanged(frontmost, b) ==>
      var captured := CaptureDesktopClear(s, windows, now);
      && (ShouldSuppressFinder(captured, now) ==> r == Step(captured, NoAction))
      && (!ShouldSuppressFinder(captured, now) ==>
            r == ReopenApplication(captured, b, now, resolvable))
    ensures r.action.Reopen? ==> r.action == Reopen(b, now)
    ensures !r.action.ScheduleFinderCheck?
    ensures r.state.enabled == s.enabled
    ensures r.state.lastSpaceChange == s.lastSpaceChange
    ensures ReopenBookkeeping(s, r)
    ensures SelfTriggerArmedByReopen(s) ==> SelfTriggerArmedByReopen(r.state)
  {
    if !s.enabled then
      Step(s, NoAction)
    else if frontmost.Some? && frontmost.value.bundleId != Some(b) then
      Step(s, NoAction)
    else
      var captured := CaptureDesktopClear(s, windows, now);
      if ShouldSuppressFinder(captured, now) then
        Step(captured, NoAction)
      else
        ReopenApplication(captured, b, now, resolvable)
  }

  // ---------------------------------------------------------------------------
  // The main queue

  /** Everything the main queue delivers to the monitor. */
  datatype Event =
    | Activated(app: App, mousePressed: bool, resolvable: bool, at: int)
    | SpaceChanged(at: int)
    | FinderCheckFired(bundleId: string, at: int, frontmost: Option<App>,
                       windows: Option<seq<WindowInfo>>, resolvable: bool)
    | ManualRelaunchRequested(frontmost: Option<App>, mousePressed: bool, resolvable: bool, at: int)
    | FeatureToggled(enabled: bool)

  function Apply(s: MonitorState, ownId: Option<string>, e: Event): (r: Step)
    ensures ReopenBookkeeping(s, r)
    ensures SelfTriggerArmedByReopen(s) ==> SelfTriggerArmedByReopen(r.state)
  {
    match e
    case Activated(app, mouse, res, at) => OnActivation(s, ownId, app, mouse, res, at)
    case SpaceChanged(at) => Step(OnSpaceChange(s, at), NoAction)
    case FinderCheckFired(b, at, front, ws, res) => FinderCheck(s, b, at, front, ws, res)
    case ManualRelaunchRequested(front, mouse, res, at) => ManualRelaunch(s, ownId, front, mouse, res, at)
    case FeatureToggled(v) => Step(SetFeatureEnabled(s, v), NoAction)
  }

  /** The state after `events` and the reopen requests they produced, in order. */
  function Replay(s: MonitorState, ownId: Option<string>, events: seq<Event>)
    : (MonitorState, seq<Action>)
    decreases |events|
  {
    if |events| == 0 then (s, [])
    else
      var r := Apply(s, ownId, events[0]);
      var (t, rest) := Replay(r.state, ownId, events[1..]);
      (t, (if r.action.Reopen? then [r.action] else []) + rest)
  }

  /** Reopen requests of one bundle, in emission order, are at least the
      debounce interval apart. */
  ghost predicate DebounceSpaced(reopens: seq<Action>) {
    forall i, j | 0 <= i < j < |reopens| && reopens[i].Reopen? && reopens[j].Reopen?
                  && reopens[i].bundleId == reopens[j].bundleId ::
      reopens[j].at - reopens[i].at >= BundleDebounceMs
  }

  /** Every earlier reopen request is at or before the recorded last reopen
      of its bundle. */
  ghost predicate RecordedUpTo(reopens: seq<Action>, s: MonitorState) {
    forall k | 0 <= k < |reopens| ::
      && reopens[k].Reopen?
      && reopens[k].bundleId in s.lastReopen
      && reopens[k].at <= s.lastReopen[reopens[k].bundleId]
  }

  /** One step keeps the reopen history spaced and recorded. */
  lemma StepKeepsSpacing(reopens: seq<Action>, s: MonitorState, r: Step)
    requires RecordedUpTo(reopens, s) && DebounceSpaced(reopens)
    requires ReopenBookkeeping(s, r)
    ensures var next := if r.action.Reopen? then reopens + [r.action] else reopens;
      RecordedUpTo(next, r.state) && DebounceSpaced(next)
  {
    if r.action.Reopen? {
      var next := reopens + [r.action];
      forall i, j | 0 <= i < j < |next| && next[i].Reopen? && next[j].Reopen?
                    && next[i].bundleId == next[j].bundleId
        ensures next[j].at - next[i].at >= BundleDebounceMs
      {
        if j == |reopens| {
          assert next[i] == reopens[i];
        } else {
          assert next[i] == reopens[i] && next[j] == reopens[j];
        }
      }
    }
  }

  lemma ReplayStep(s: MonitorState, ownId: Option<string>, events: seq<Event>)
    requires |events| > 0
    ensures var r := Apply(s, ownId, events[0]);
      && Replay(s, ownId, events).0 == Replay(r.state, ownId, events[1..]).0
      && Replay(s, ownId, events).1
         == (if r.action.Reopen? then [r.action] else []) + Replay(r.state, ownId, events[1..]).1
  {
  }

  lemma AppendAssociative<T>(a: seq<T>, b: seq<T>, c: seq<T>)
    ensures a + (b + c) == (a + b) + c
  {
  }

  /** Processes `events` one at a time, as the main queue delivers them. */
  method ProcessEvents(s0: MonitorState, ownId: Option<string>, events: seq<Event>)
    returns (s: MonitorState, reopens: seq<Action>)
    requires SelfTriggerArmedByReopen(s0)
    ensures (s, reopens) == Replay(s0, ownId, events)
    ensures forall k | 0 <= k < |reopens| :: reopens[k].Reopen?
    ensures DebounceSpaced(reopens)
    ensures SelfTriggerArmedByReopen(s)
  {
    s, reopens := s0, [];
    var i := 0;
    assert events[i..] == events;
    assert reopens + Replay(s0, ownId, events).1 == Replay(s0, ownId, events).1;
    while i < |events|
      invariant 0 <= i <= |events|
      invariant SelfTriggerArmedByReopen(s)
      invariant RecordedUpTo(reopens, s)
      invariant DebounceSpaced(reopens)
      invariant Replay(s, ownId, events[i..]).0 == Replay(s0, ownId, events).0
      invariant reopens + Replay(s, ownId, events[i..]).1 == Replay(s0, ownId, events).1
    {
      var r := Apply(s, ownId, events[i]);
      ReplayStep(s, ownId, events[i..]);
      assert events[i..][1..] == events[i + 1..];
      StepKeepsSpacing(reopens, s, r);
      var emitted := if r.action.Reopen? then [r.action] else [];
      AppendAssociative(reopens, emitted, Replay(r.state, ownId, events[i + 1..]).1);
      reopens := reopens + emitted;
      s := r.state;
      i := i + 1;
    }
    assert events[i..] == [];
    assert reopens + [] == reopens;
  }
}
