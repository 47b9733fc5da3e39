/**
 The pure static helpers of `ActivationMonitor` that the unit tests exercise:
 the system-surface ignore set, bundle-id normalisation for the user exclude
 list, and the four time-window predicates. Times are integer milliseconds;
 `interval` arguments are windows in milliseconds.

 These helpers are a separate layer from the event-driven monitor in module
 `Monitor`: in particular the ignore set here contains Finder, which the
 monitor does not drop.
 */
module BundleHelpers {
  import opened Wrappers

  /** The system bundles that the tested `ignoredBundleIDs` lists. */
  const IgnoredBundleIDs: set<string> := {
    "com.apple.dock",
    "com.apple.finder",
    "com.apple.Spotlight",
    "com.apple.notificationcenterui",
    "com.apple.controlcenter",
    "com.apple.loginwindow",
    "com.apple.SecurityAgent",
    "com.apple.screencaptureui"
  }

  predicate IsIgnoredBundleID(bundleId: string) {
    bundleId in IgnoredBundleIDs
  }

  lemma IgnoredBundleIDsCases()
    ensures |IgnoredBundleIDs| == 8
    ensures IsIgnoredBundleID("com.apple.dock")
    ensures IsIgnoredBundleID("com.apple.finder")
    ensures IsIgnoredBundleID("com.apple.Spotlight")
    ensures IsIgnoredBundleID("com.apple.notificationcenterui")
    ensures IsIgnoredBundleID("com.apple.controlcenter")
    ensures IsIgnoredBundleID("com.apple.loginwindow")
    ensures IsIgnoredBundleID("com.apple.SecurityAgent")
    ensures IsIgnoredBundleID("com.apple.screencaptureui")
    ensures !IsIgnoredBundleID("com.apple.TextEdit")
    ensures !IsIgnoredBundleID("com.google.Chrome")
  {
  }

  // ---------------------------------------------------------------------------
  // Normalisation

  /** Foundation's `CharacterSet.whitespacesAndNewlines`: general category Zs,
      tab, line feed through carriage return, next line, and the line and
      paragraph separators. */
  predicate IsWhitespace(c: char) {
    || c == ' '
    || c == '\t'
    || ('\n' <= c <= '\r')
    || c == '\U{0085}'
    || c == '\U{00A0}'
    || c == '\U{1680}'
    || ('\U{2000}' <= c <= '\U{200A}')
    || c == '\U{2028}'
    || c == '\U{2029}'
    || c == '\U{202F}'
    || c == '\U{205F}'
    || c == '\U{3000}'
  }

  ghost predicate AllWhitespace(s: string) {
    forall i | 0 <= i < |s| :: IsWhitespace(s[i])
  }

  /** `t` is `s` with its leading and trailing whitespace removed, and `t` is
      not empty: `t` is the slice `s[i..j]`, everything outside it is
      whitespace, and it starts and ends with a non-whitespace character. */
  ghost predicate IsTrimOf(t: string, s: string) {
    exists i, j | 0 <= i < j <= |s| ::
      && t == s[i..j]
      && !IsWhitespace(s[i])
      && !IsWhitespace(s[j - 1])
      && (forall k | 0 <= k < i :: IsWhitespace(s[k]))
      && (forall k | j <= k < |s| :: IsWhitespace(s[k]))
  }

  /** The first index at or after `i` that does not hold whitespace, or `|s|`. */
  function SkipLeading(s: string, i: nat): (k: nat)
    requires i <= |s|
    ensures i <= k <= |s|
    ensures forall m | i <= m < k :: IsWhitespace(s[m])
    ensures k < |s| ==> !IsWhitespace(s[k])
    decreases |s| - i
  {
    if i < |s| && IsWhitespace(s[i]) then SkipLeading(s, i + 1) else i
  }

  /** The end of `s[..j]` once its trailing whitespace is dropped. */
  function SkipTrailing(s: string, j: nat): (k: nat)
    requires j <= |s|
    ensures k <= j
    ensures forall m | k <= m < j :: IsWhitespace(s[m])
    ensures k > 0 ==> !IsWhitespace(s[k - 1])
  {
    if j > 0 && IsWhitespace(s[j - 1]) then SkipTrailing(s, j - 1) else j
  }

  /** `normalizeBundleID`: trims surrounding whitespace and newlines and
      rejects an identifier that is empty after trimming. */
  function NormalizeBundleID(raw: string): (r: Option<string>)
    ensures r.None? <==> AllWhitespace(raw)
    ensures r.Some? ==> IsTrimOf(r.value, raw)
  {
    var i := SkipLeading(raw, 0);
    if i == |raw| then
      None
    else
      var j := SkipTrailing(raw, |raw|);
      assert i < j;
      assert !AllWhitespace(raw) by { assert !IsWhitespace(raw[i]); }
      Some(raw[i..j])
  }

  /** Normalising an already normalised identifier changes nothing. */
  lemma NormalizeIdempotent(raw: string)
    requires NormalizeBundleID(raw).Some?
    ensures NormalizeBundleID(NormalizeBundleID(raw).value) == NormalizeBundleID(raw)
  {
    var t := NormalizeBundleID(raw).value;
    var i := SkipLeading(raw, 0);
    var j := SkipTrailing(raw, |raw|);
    assert t == raw[i..j];
    assert t[0] == raw[i] && t[|t| - 1] == raw[j - 1];
    assert SkipLeading(t, 0) == 0;
    assert SkipTrailing(t, |t|) == |t|;
    assert t[0..|t|] == t;
  }

  /** Normalisation of an identifier padded by one whitespace character on
      each side. */
  lemma NormalizePadded(core: string, left: char, right: char)
    requires |core| > 0 && !IsWhitespace(core[0]) && !IsWhitespace(core[|core| - 1])
    requires IsWhitespace(left) && IsWhitespace(right)
    ensures NormalizeBundleID([left] + core + [right]) == Some(core)
  {
    var s := [left] + core + [right];
    assert s[0] == left && s[1] == core[0];
    assert SkipLeading(s, 1) == 1;
    assert s[|s| - 1] == right && s[|s| - 2] == core[|core| - 1];
    assert SkipTrailing(s, |s| - 1) == |s| - 1;
    assert s[1..|s| - 1] == core;
  }

  /** The trimming assertion of the normalisation test. */
  lemma NormalizeTrimCase()
    ensures NormalizeBundleID(" com.apple.TextEdit ") == Some("com.apple.TextEdit")
  {
    var core := "com.apple.TextEdit";
    assert [' '] + core + [' '] == " com.apple.TextEdit ";
    NormalizePadded(core, ' ', ' ');
  }

  /** The rejection assertions of the normalisation test. */
  lemma NormalizeBlankCases()
    ensures NormalizeBundleID("\n\t") == None
    ensures NormalizeBundleID("") == None
  {
    var w := "\n\t";
    assert IsWhitespace(w[0]) && IsWhitespace(w[1]);
  }

  // ---------------------------------------------------------------------------
  // Time-window predicates

  /** The app was launched by the user at most `interval` ms ago; a launch
      date in the future or an unknown one never suppresses. */
  predicate ShouldSuppressRecentLaunch(launch: Option<int>, now: int, interval: int) {
    launch.Some? && 0 <= now - launch.value <= interval
  }

  /** A reopen of the same bundle happened less than `interval` ms ago. */
  predicate ShouldDebounceReopen(lastReopen: Option<int>, now: int, interval: int) {
    lastReopen.Some? && now - lastReopen.value < interval
  }

  /** The self-trigger window `until` has not yet passed. */
  predicate ShouldIgnoreSelfTriggered(until: Option<int>, now: int) {
    until.Some? && now <= until.value
  }

  /** Elapsed time since `t` lies in `[0, interval)`. */
  predicate WithinWindow(t: Option<int>, now: int, interval: int) {
    t.Some? && 0 <= now - t.value < interval
  }

  /** Tab-away-and-back flicker: the previous frontmost app is known and is a
      different bundle, and both it and the target were active within the
      window. */
  predicate ShouldSuppressRapidReturn(
    previous: Option<string>, target: string,
    targetLast: Option<int>, previousLast: Option<int>,
    now: int, interval: int)
  {
    && previous.Some?
    && previous.value != target
    && WithinWindow(targetLast, now, interval)
    && WithinWindow(previousLast, now, interval)
  }

  /** The assertions of the recent-launch test (900 ms window). */
  lemma RecentLaunchCases(now: int)
    ensures ShouldSuppressRecentLaunch(Some(now - 300), now, 900)
    ensures !ShouldSuppressRecentLaunch(Some(now - 2000), now, 900)
    ensures !ShouldSuppressRecentLaunch(Some(now + 100), now, 900)
    ensures !ShouldSuppressRecentLaunch(None, now, 900)
  {
  }

  /** The assertions of the debounce test (100 ms window). */
  lemma DebounceCases(now: int)
    ensures ShouldDebounceReopen(Some(now - 50), now, 100)
    ensures !ShouldDebounceReopen(Some(now - 200), now, 100)
    ensures !ShouldDebounceReopen(None, now, 100)
  {
  }

  /** The assertions of the self-trigger test. */
  lemma SelfTriggeredCases(now: int)
    ensures ShouldIgnoreSelfTriggered(Some(now + 200), now)
    ensures !ShouldIgnoreSelfTriggered(Some(now - 200), now)
    ensures !ShouldIgnoreSelfTriggered(None, now)
  {
  }

  /** The assertions of the rapid-return test (2000 ms window). */
  lemma RapidReturnCases(now: int)
    ensures ShouldSuppressRapidReturn(Some("com.apple.Safari"), "com.apple.TextEdit",
                                      Some(now - 1000), Some(now - 400), now, 2000)
    ensures !ShouldSuppressRapidReturn(Some("com.apple.TextEdit"), "com.apple.TextEdit",
                                       Some(now - 1000), Some(now - 400), now, 2000)
    ensures !ShouldSuppressRapidReturn(Some("com.apple.Safari"), "com.apple.TextEdit",
                                       Some(now - 3000), Some(now - 400), now, 2000)
    ensures !ShouldSuppressRapidReturn(None, "com.apple.TextEdit",
                                       Some(now - 1000), Some(now - 400), now, 2000)
  {
  }

  /** A repeat activation of the same bundle is never a rapid return, however
      recent both timestamps are. */
  lemma RapidReturnNeedsSwitch(b: string, targetLast: Option<int>, previousLast: Option<int>,
                               now: int, interval: int)
    ensures !ShouldSuppressRapidReturn(Some(b), b, targetLast, previousLast, now, interval)
  {
  }

  /** A timestamp in the future (negative elapsed time) never counts as recent. */
  lemma FutureTimestampsNeverSuppress(t: int, now: int, interval: int,
                                      previous: Option<string>, target: string, other: Option<int>)
    requires t > now
    ensures !ShouldSuppressRecentLaunch(Some(t), now, interval)
    ensures !ShouldSuppressRapidReturn(previous, target, Some(t), other, now, interval)
    ensures !ShouldSuppressRapidReturn(previous, target, other, Some(t), now, interval)
  {
  }
}
