/** The result page of one animation (components/ResultContent.tsx): the view flags derived
    from the status, the prompt, time and error texts it shows, the polling loop that
    follows a render in progress, and the download button's progress machine. Rendering,
    confetti and display-only timers are not modelled. */
module ResultContent {
  import opened Common
  import opened Text
  import opened Store

  /** The client's copy of a record (`AnimationData`). */
  datatype AnimationData = AnimationData(
    id: string,
    status: Status,
    videoUrl: Option<string>,
    thumbnailUrl: Option<string>,
    duration: Option<real>,
    errorMessage: Option<string>)

  // ---------------------------------------------------------------- view flags

  /** The spinner view: the job is still being generated or rendered. */
  function IsRendering(s: Status): (b: bool)
    ensures b <==> !IsTerminal(s)
  {
    s == RENDERING || s == GENERATING
  }

  function IsCompleted(s: Status): bool
  {
    s == COMPLETED
  }

  function IsFailed(s: Status): bool
  {
    s == FAILED
  }

  /** Every status selects exactly one of the three views. */
  lemma ExactlyOneView(s: Status)
    ensures IsRendering(s) || IsCompleted(s) || IsFailed(s)
    ensures !(IsRendering(s) && IsCompleted(s)) && !(IsRendering(s) && IsFailed(s)) && !(IsCompleted(s) && IsFailed(s))
  {
  }

  // ---------------------------------------------------------------- texts

  const Ellipsis := "....."

  /** `truncatePrompt`: a text longer than `maxLength` is cut to that many characters and
      followed by five dots. */
  function TruncatePrompt(text: string, maxLength: int := 50): (r: string)
    ensures |text| <= maxLength ==> r == text
    ensures |text| > maxLength ==>
              r == text[..Clamp(maxLength, |text|)] + Ellipsis && StartsWith(text, r[..|r| - |Ellipsis|])
    ensures |r| <= Clamp(maxLength, |text|) + |Ellipsis|
  {
    if |text| <= maxLength then text else JsSubstring(text, 0, maxLength) + Ellipsis
  }

  /** `formatTime`: seconds below a minute as "{s}s", otherwise "{m}m {s}s". */
  function FormatTime(seconds: int): (r: string)
    ensures |r| >= 2 && r[|r| - 1] == 's'
    // below a minute: only digits before the "s"
    ensures 0 <= seconds < 60 ==> AllDigits(r[..|r| - 1])
    // from a minute on: digits, the minute marker, digits, "s"
    ensures seconds >= 60 ==>
              var m := IndexOf(r, "m ");
              m.Some? && 0 < m.value && m.value + 2 < |r| &&
              AllDigits(r[..m.value]) && AllDigits(r[m.value + 2..|r| - 1])
  {
    if seconds < 60 then
      var t := IntToString(seconds) + "s";
      assert 0 <= seconds ==> t[..|t| - 1] == NatToString(seconds);
      t
    else
      var d1 := NatToString(seconds / 60);
      var d2 := NatToString(seconds % 60);
      var t := d1 + "m " + d2 + "s";
      MarkerAfterDigits(d1, d2 + "s");
      assert d1 + "m " + (d2 + "s") == t;
      assert t[..|d1|] == d1;
      assert t[|d1| + 2..|t| - 1] == d2;
      t
  }

  /** Reads a time as `FormatTime` writes it. */
  function ParseTime(t: string): Option<int>
  {
    if t == [] || t[|t| - 1] != 's' then None
    else
      var body := t[..|t| - 1];
      match IndexOf(body, "m ")
      case None => if body != [] && AllDigits(body) then Some(ParseNat(body)) else None
      case Some(i) =>
        var mins := body[..i];
        var secs := body[i + 2..];
        if mins != [] && AllDigits(mins) && secs != [] && AllDigits(secs)
        then Some(60 * ParseNat(mins) + ParseNat(secs))
        else None
  }

  /** A run of digits contains no minute marker. */
  lemma NoMarkerInDigits(d: string)
    requires AllDigits(d)
    ensures IndexOf(d, "m ").None?
  {
    forall j | 0 <= j <= |d|
      ensures !StartsWith(d[j..], "m ")
    {
      if j < |d| {
        assert d[j..][0] == d[j];
      }
    }
  }

  /** In `digits + "m " + rest` the first minute marker follows the digits. */
  lemma MarkerAfterDigits(d: string, rest: string)
    requires AllDigits(d)
    ensures IndexOf(d + "m " + rest, "m ") == Some(|d|)
  {
    var s := d + "m " + rest;
    assert s[|d|..][..2] == "m ";
    forall j | 0 <= j < |d|
      ensures !StartsWith(s[j..], "m ")
    {
      assert s[j..][0] == d[j];
    }
  }

  /** The numbers in the text: below a minute the seconds; from a minute on the whole
      minutes, then the remaining seconds, which are below 60. */
  lemma FormatTimeParts(seconds: nat)
    ensures var t := FormatTime(seconds);
            seconds < 60 ==> ParseNat(t[..|t| - 1]) == seconds
    ensures var t := FormatTime(seconds);
            seconds >= 60 ==>
              var m := IndexOf(t, "m ").value;
              && ParseNat(t[..m]) == seconds / 60
              && ParseNat(t[m + 2..|t| - 1]) == seconds % 60 < 60
  {
    var t := FormatTime(seconds);
    if seconds < 60 {
      assert t[..|t| - 1] == NatToString(seconds);
      ParseNatToString(seconds);
    } else {
      var d1 := NatToString(seconds / 60);
      var d2 := NatToString(seconds % 60);
      MarkerAfterDigits(d1, d2 + "s");
      assert d1 + "m " + (d2 + "s") == t;
      assert t[..|d1|] == d1;
      assert t[|d1| + 2..|t| - 1] == d2;
      ParseNatToString(seconds / 60);
      ParseNatToString(seconds % 60);
    }
  }

  /** Every non-negative time can be read back from its text: `FormatTime` loses nothing. */
  lemma FormatTimeRoundTrip(seconds: nat)
    ensures ParseTime(FormatTime(seconds)) == Some(seconds)
  {
    var t := FormatTime(seconds);
    if seconds < 60 {
      var d := NatToString(seconds);
      assert t[..|t| - 1] == d;
      NoMarkerInDigits(d);
      ParseNatToString(seconds);
    } else {
      var d1 := NatToString(seconds / 60);
      var d2 := NatToString(seconds % 60);
      var body := d1 + "m " + d2;
      assert t[..|t| - 1] == body;
      MarkerAfterDigits(d1, d2);
      assert body[..|d1|] == d1;
      assert body[|d1| + 2..] == d2;
      ParseNatToString(seconds / 60);
      ParseNatToString(seconds % 60);
    }
  }

  /** What the failed view shows for an error message. */
  datatype ErrorInfo = ErrorInfo(title: string, message: string, technical: string)

  const UnknownTitle := "Unknown Error"
  const UnknownMessage := "An unexpected error occurred."
  const ParenthesesTitle := "Missing Parentheses Error"
  const ParenthesesMessage := "The code is missing parentheses () after a method call like .get_center(). This is a common syntax error."
  const LatexTitle := "LaTeX Not Installed"
  const LatexMessage := "MathTex requires LaTeX to be installed. Try using Text() for simple labels instead, or install MiKTeX on Windows."
  const DependencyTitle := "Missing Dependency"
  const DependencyMessage := "A required module is not installed. The code may be trying to import something that's not available."
  const SyntaxTitle := "Python Syntax Error"
  const SyntaxMessage := "The generated code has a syntax error. Try regenerating the animation with a clearer prompt."
  const TypeTitle := "Type Error"
  const TypeMessage := "The code is trying to use incompatible data types. This often happens with incorrect method calls."
  const FallbackTitle := "Rendering Error"
  const FallbackMessage := "The animation failed to render. Try regenerating with a simpler or clearer prompt."

  /** `getSimplifiedError`, as the chain of tests the page runs. */
  function GetSimplifiedError(error: Option<string>): (info: ErrorInfo)
    ensures !Truthy(error) ==> info == ErrorInfo(UnknownTitle, UnknownMessage, "")
    ensures Truthy(error) ==> info.technical == error.value
  {
    if !Truthy(error) then ErrorInfo(UnknownTitle, UnknownMessage, "")
    else
      var e := error.value;
      if Contains(e, "unsupported operand type(s) for -: 'method' and 'float'") ||
         Contains(e, ".get_center") || Contains(e, ".get_top") ||
         Contains(e, ".get_bottom") || Contains(e, ".get_left") || Contains(e, ".get_right")
      then ErrorInfo(ParenthesesTitle, ParenthesesMessage, e)
      else if Contains(e, "FileNotFoundError") &&
              (Contains(e, "latex") || Contains(e, "MathTex") || Contains(e, "Tex"))
      then ErrorInfo(LatexTitle, LatexMessage, e)
      else if Contains(e, "ModuleNotFoundError") || Contains(e, "ImportError")
      then ErrorInfo(DependencyTitle, DependencyMessage, e)
      else if Contains(e, "SyntaxError")
      then ErrorInfo(SyntaxTitle, SyntaxMessage, e)
      else if Contains(e, "TypeError")
      then ErrorInfo(TypeTitle, TypeMessage, e)
      else ErrorInfo(FallbackTitle, FallbackMessage, e)
  }

  /** A classification rule: every phrase of `allOf` and at least one of `anyOf` occur. */
  datatype Rule = Rule(allOf: seq<string>, anyOf: seq<string>, title: string, message: string)

  predicate ContainsAny(e: string, phrases: seq<string>)
    decreases |phrases|
  {
    phrases != [] && (Contains(e, phrases[0]) || ContainsAny(e, phrases[1..]))
  }

  predicate ContainsAll(e: string, phrases: seq<string>)
    decreases |phrases|
  {
    phrases == [] || (Contains(e, phrases[0]) && ContainsAll(e, phrases[1..]))
  }

  predicate Matches(r: Rule, e: string)
  {
    ContainsAll(e, r.allOf) && ContainsAny(e, r.anyOf)
  }

  /** The rules in priority order. */
  const Rules: seq<Rule> := [
    Rule([], ["unsupported operand type(s) for -: 'method' and 'float'",
              ".get_center", ".get_top", ".get_bottom", ".get_left", ".get_right"],
         ParenthesesTitle, ParenthesesMessage),
    Rule(["FileNotFoundError"], ["latex", "MathTex", "Tex"], LatexTitle, LatexMessage),
    Rule([], ["ModuleNotFoundError", "ImportError"], DependencyTitle, DependencyMessage),
    Rule([], ["SyntaxError"], SyntaxTitle, SyntaxMessage),
    Rule([], ["TypeError"], TypeTitle, TypeMessage)
  ]

  /** The first rule that matches decides; without one the generic rendering error is shown. */
  function FirstMatch(rules: seq<Rule>, e: string): (info: ErrorInfo)
    ensures info.technical == e
    decreases |rules|
  {
    if rules == [] then ErrorInfo(FallbackTitle, FallbackMessage, e)
    else if Matches(rules[0], e) then ErrorInfo(rules[0].title, rules[0].message, e)
    else FirstMatch(rules[1..], e)
  }

  lemma ParenthesesRule(e: string)
    ensures Matches(Rules[0], e) <==>
      Contains(e, "unsupported operand type(s) for -: 'method' and 'float'") ||
      Contains(e, ".get_center") || Contains(e, ".get_top") ||
      Contains(e, ".get_bottom") || Contains(e, ".get_left") || Contains(e, ".get_right")
  {
    var ps := Rules[0].anyOf;
    assert ps[1..][1..][1..][1..][1..][1..] == [];
  }

  lemma LatexRule(e: string)
    ensures Matches(Rules[1], e) <==>
      Contains(e, "FileNotFoundError") && (Contains(e, "latex") || Contains(e, "MathTex") || Contains(e, "Tex"))
  {
    assert Rules[1].allOf[1..] == [];
    assert Rules[1].anyOf[1..][1..][1..] == [];
  }

  lemma SingleRules(e: string)
    ensures Matches(Rules[2], e) <==> Contains(e, "ModuleNotFoundError") || Contains(e, "ImportError")
    ensures Matches(Rules[3], e) <==> Contains(e, "SyntaxError")
    ensures Matches(Rules[4], e) <==> Contains(e, "TypeError")
  {
    assert Rules[2].anyOf[1..][1..] == [];
    assert Rules[3].anyOf[1..] == [];
    assert Rules[4].anyOf[1..] == [];
  }

  /** The page's chain of tests is the rule table read first match first. */
  lemma ChainIsRuleTable(e: string)
    requires e != ""
    ensures GetSimplifiedError(Some(e)) == FirstMatch(Rules, e)
  {
    ParenthesesRule(e);
    LatexRule(e);
    SingleRules(e);
    var r := Rules;
    assert FirstMatch(r[5..], e) == ErrorInfo(FallbackTitle, FallbackMessage, e);
    assert FirstMatch(r[4..], e) == if Matches(r[4], e) then ErrorInfo(TypeTitle, TypeMessage, e) else FirstMatch(r[5..], e);
    assert FirstMatch(r[3..], e) == if Matches(r[3], e) then ErrorInfo(SyntaxTitle, SyntaxMessage, e) else FirstMatch(r[4..], e);
    assert FirstMatch(r[2..], e) == if Matches(r[2], e) then ErrorInfo(DependencyTitle, DependencyMessage, e) else FirstMatch(r[3..], e);
    assert FirstMatch(r[1..], e) == if Matches(r[1], e) then ErrorInfo(LatexTitle, LatexMessage, e) else FirstMatch(r[2..], e);
  }

  /** The parentheses rule comes first: a message that also names a syntax error is still
      reported as missing parentheses. */
  lemma ParenthesesBeforeSyntax(e: string)
    requires Contains(e, ".get_center") && Contains(e, "SyntaxError")
    ensures GetSimplifiedError(Some(e)).title == ParenthesesTitle
  {
  }

  /** A LaTeX word alone is not enough for the LaTeX rule: it needs a missing file. */
  lemma LatexNeedsMissingFile(e: string)
    requires e != "" && !Contains(e, "FileNotFoundError")
    ensures GetSimplifiedError(Some(e)).title != LatexTitle
  {
  }

  // ---------------------------------------------------------------- polling

  /** The fields of a status reply the page reads. */
  datatype PollData = PollData(
    animation: AnimationData,
    elapsedSeconds: Field<int>,
    estimatedRemainingSeconds: Field<int>)

  /** How one status request ends: it threw, or it answered. */
  datatype PollReply = FetchFailed | Replied(success: bool, data: Option<PollData>)

  /** The status `pollStatus` hands back: the new status for a successful reply with data,
      otherwise null. */
  function PolledStatus(reply: PollReply): Option<Status>
  {
    if reply.Replied? && reply.success && reply.data.Some? then Some(reply.data.value.animation.status) else None
  }

  /** `elapsedSeconds` overwrites the elapsed time only when truthy (present and not 0). */
  function NextElapsed(elapsed: int, f: Field<int>): int
  {
    if f.Present? && f.value != 0 then f.value else elapsed
  }

  datatype DownloadStatus = Idle | Downloading | Downloaded | Complete

  /** The page's state. `polling`, `progressTimer`, `fetchPending`, `completeTimer` and
      `resetTimer` say which interval, request and timeouts are scheduled. */
  class ResultView {
    var current: AnimationData
    var elapsedTime: int
    var estimatedRemaining: Option<int>
    var pollingCount: nat
    var polling: bool
    var downloadStatus: DownloadStatus
    var progress: int
    var progressTimer: bool
    var fetchPending: bool
    var completeTimer: bool
    var resetTimer: bool

    /** Polling runs only while the view renders; the download progress stays within 0..100,
        is 0 when idle, at most 90 while the file is fetched and 100 once it arrived; each
        scheduled callback belongs to its phase. */
    ghost predicate Valid()
      reads this
    {
      && (polling ==> IsRendering(current.status))
      && 0 <= progress <= 100
      && (progressTimer ==> downloadStatus == Downloading)
      && (downloadStatus == Idle ==> progress == 0 && !fetchPending && !completeTimer && !resetTimer)
      && (downloadStatus == Downloading ==> progress <= 90 && progress % 10 == 0 && fetchPending && !completeTimer && !resetTimer)
      && (downloadStatus == Downloaded ==> progress == 100 && completeTimer && resetTimer && !fetchPending)
      && (downloadStatus == Complete ==> progress == 100 && !completeTimer && resetTimer && !fetchPending)
    }

    /** Mounting the page: the state hooks' initial values, and the polling interval started
        when the record is still rendering. */
    constructor (animation: AnimationData)
      ensures Valid()
      ensures current == animation && elapsedTime == 0 && estimatedRemaining == Some(60) && pollingCount == 0
      ensures polling == IsRendering(animation.status)
      ensures downloadStatus == Idle && progress == 0 && !progressTimer
    {
      current := animation;
      elapsedTime := 0;
      estimatedRemaining := Some(60);
      pollingCount := 0;
      polling := IsRendering(animation.status);
      downloadStatus := Idle;
      progress := 0;
      progressTimer := false;
      fetchPending := false;
      completeTimer := false;
      resetTimer := false;
    }

    /** `pollStatus`: a successful reply with data replaces the record, updates the time
        estimates when given and returns the new status; anything else changes nothing. */
    method PollStatus(reply: PollReply) returns (s: Option<Status>)
      modifies this`current, this`elapsedTime, this`estimatedRemaining
      ensures s == PolledStatus(reply)
      ensures s.None? ==>
                current == old(current) && elapsedTime == old(elapsedTime) &&
                estimatedRemaining == old(estimatedRemaining)
      ensures s.Some? ==>
                var d := reply.data.value;
                && current == d.animation
                && elapsedTime == NextElapsed(old(elapsedTime), d.elapsedSeconds)
                && estimatedRemaining == Merge(old(estimatedRemaining), d.estimatedRemainingSeconds)
    {
      s := None;
      if reply.Replied? && reply.success && reply.data.Some? {
        var d := reply.data.value;
        current := d.animation;
        elapsedTime := NextElapsed(elapsedTime, d.elapsedSeconds);
        estimatedRemaining := Merge(estimatedRemaining, d.estimatedRemainingSeconds);
        s := Some(d.animation.status);
      }
    }

    /** After a poll the interval goes once the view stops rendering: the tick clears it on a
        terminal status, and the effect's cleanup does when the flag changes. The effect
        depends on the flag only, so a move between the two rendering statuses neither
        restarts nor stops it. */
    method SettlePolling()
      modifies this`polling
      // a running interval only ever belongs to a rendering view
      ensures polling ==> IsRendering(current.status)
      // a cleared interval is never restarted by a poll
      ensures !old(polling) ==> !polling
      // an interval keeps running while the view still renders
      ensures old(polling) && IsRendering(current.status) ==> polling
    {
      polling := polling && IsRendering(current.status);
    }

    /** The poll made right away when the effect starts. */
    method PollOnMount(reply: PollReply)
      requires Valid()
      modifies this`current, this`elapsedTime, this`estimatedRemaining, this`polling
      ensures Valid()
      ensures !old(polling) ==> !polling
      // without a running interval, or after a failed or empty poll, the record and the
      // estimates stay as they were
      ensures !old(polling) || PolledStatus(reply).None? ==>
                current == old(current) && elapsedTime == old(elapsedTime) &&
                estimatedRemaining == old(estimatedRemaining)
      // a successful poll replaces the record and updates the estimates
      ensures old(polling) && PolledStatus(reply).Some? ==>
                var d := reply.data.value;
                && current == d.animation
                && elapsedTime == NextElapsed(old(elapsedTime), d.elapsedSeconds)
                && estimatedRemaining == Merge(old(estimatedRemaining), d.estimatedRemainingSeconds)
      ensures old(polling) ==> polling == IsRendering(current.status)
    {
      if polling {
        var s := PollStatus(reply);
        SettlePolling();
      }
    }

    /** One tick of the five-second polling interval. */
    method Tick(reply: PollReply)
      requires Valid()
      modifies this`current, this`elapsedTime, this`estimatedRemaining, this`pollingCount, this`polling
      ensures Valid()
      // a cleared interval does not tick
      ensures !old(polling) ==>
                current == old(current) && pollingCount == old(pollingCount) && !polling
      ensures old(polling) ==> pollingCount == old(pollingCount) + 1
      // a terminal status stops the polling
      ensures old(polling) && PolledStatus(reply).Some? && IsTerminal(PolledStatus(reply).value) ==> !polling
      // a failed or empty poll changes nothing and the loop goes on
      ensures old(polling) && PolledStatus(reply).None? ==> polling
      ensures !old(polling) || PolledStatus(reply).None? ==>
                current == old(current) && elapsedTime == old(elapsedTime) &&
                estimatedRemaining == old(estimatedRemaining)
      // a successful poll replaces the record and updates the estimates
      ensures old(polling) && PolledStatus(reply).Some? ==>
                var d := reply.data.value;
                && current == d.animation
                && elapsedTime == NextElapsed(old(elapsedTime), d.elapsedSeconds)
                && estimatedRemaining == Merge(old(estimatedRemaining), d.estimatedRemainingSeconds)
      ensures old(polling) ==> polling == IsRendering(current.status)
    {
      if polling {
        pollingCount := pollingCount + 1;
        var s := PollStatus(reply);
        SettlePolling();
      }
    }

    // ------------------------------------------------------------ download

    /** `handleDownload`: starts only from idle and with a video; sets progress to 0 and
        starts the progress interval and the fetch. */
    method HandleDownload() returns (started: bool)
      requires Valid()
      modifies this`downloadStatus, this`progress, this`progressTimer, this`fetchPending
      ensures Valid()
      ensures started <==> old(downloadStatus) == Idle && Truthy(current.videoUrl)
      ensures started ==> downloadStatus == Downloading && progress == 0 && progressTimer && fetchPending
      ensures !started ==>
                downloadStatus == old(downloadStatus) && progress == old(progress) &&
                progressTimer == old(progressTimer) && fetchPending == old(fetchPending)
    {
      started := downloadStatus == Idle && Truthy(current.videoUrl);
      if started {
        downloadStatus := Downloading;
        progress := 0;
        progressTimer := true;
        fetchPending := true;
      }
    }

    /** One tick of the 200 ms progress interval: up by 10, and at 90 the interval clears itself. */
    method ProgressTick()
      modifies this`progress, this`progressTimer
      ensures old(Valid()) ==> Valid()
      ensures !old(progressTimer) ==> progress == old(progress) && !progressTimer
      ensures old(progressTimer) && old(progress) >= 90 ==> progress == 90 && !progressTimer
      ensures old(progressTimer) && old(progress) < 90 ==> progress == old(progress) + 10 && progressTimer
    {
      if progressTimer {
        if progress >= 90 {
          progressTimer := false;
          progress := 90;
        } else {
          progress := progress + 10;
        }
      }
    }

    /** The file arrived: the interval is cleared, progress jumps to 100, the status becomes
        downloaded and the two reset timeouts are scheduled. */
    method FetchSucceeded()
      requires Valid()
      modifies this`progress, this`progressTimer, this`fetchPending, this`downloadStatus,
               this`completeTimer, this`resetTimer
      ensures Valid()
      ensures old(fetchPending) ==>
                downloadStatus == Downloaded && progress == 100 && !progressTimer && !fetchPending &&
                completeTimer && resetTimer
      ensures !old(fetchPending) ==>
                downloadStatus == old(downloadStatus) && progress == old(progress) &&
                progressTimer == old(progressTimer) && completeTimer == old(completeTimer) &&
                resetTimer == old(resetTimer) && fetchPending == old(fetchPending)
    {
      if fetchPending {
        fetchPending := false;
        progressTimer := false;
        progress := 100;
        downloadStatus := Downloaded;
        completeTimer := true;
        resetTimer := true;
      }
    }

    /** The fetch threw, with the progress interval cleared as well: back to idle at 0. */
    method FetchFailed()
      requires Valid()
      modifies this`progress, this`progressTimer, this`fetchPending, this`downloadStatus
      ensures Valid()
      ensures old(fetchPending) ==> downloadStatus == Idle && progress == 0 && !progressTimer && !fetchPending
      ensures !old(fetchPending) ==>
                downloadStatus == old(downloadStatus) && progress == old(progress) &&
                progressTimer == old(progressTimer) && fetchPending == old(fetchPending)
    {
      if fetchPending {
        fetchPending := false;
        progressTimer := false;
        downloadStatus := Idle;
        progress := 0;
      }
    }

    /** The fetch threw, as the page handles it: idle at 0, but the progress interval, a
        constant of the `try` block, is never cleared and keeps running. */
    method FetchFailedAsWritten()
      requires Valid()
      modifies this`progress, this`fetchPending, this`downloadStatus
      ensures old(fetchPending) ==> downloadStatus == Idle && progress == 0 && !fetchPending
      ensures progressTimer == old(progressTimer)
      ensures !old(fetchPending) ==>
                downloadStatus == old(downloadStatus) && progress == old(progress) && fetchPending == old(fetchPending)
    {
      if fetchPending {
        fetchPending := false;
        downloadStatus := Idle;
        progress := 0;
      }
    }

    /** The 1500 ms timeout after a download. */
    method CompleteTimeout()
      requires Valid()
      modifies this`downloadStatus, this`completeTimer
      ensures Valid()
      ensures old(completeTimer) ==> downloadStatus == Complete && !completeTimer
      ensures !old(completeTimer) ==> downloadStatus == old(downloadStatus) && !completeTimer
    {
      if completeTimer {
        completeTimer := false;
        downloadStatus := Complete;
      }
    }

    /** The 1600 ms timeout after a download, which fires after the 1500 ms one. */
    method ResetTimeout()
      requires Valid()
      modifies this`downloadStatus, this`progress, this`resetTimer
      ensures Valid()
      ensures old(resetTimer) && !completeTimer ==> downloadStatus == Idle && progress == 0 && !resetTimer
      ensures !(old(resetTimer) && !completeTimer) ==>
                downloadStatus == old(downloadStatus) && progress == old(progress) && resetTimer == old(resetTimer)
    {
      if resetTimer && !completeTimer {
        resetTimer := false;
        downloadStatus := Idle;
        progress := 0;
      }
    }
  }

  /** As written, a failed download leaves the interval running: one tick later the page is
      idle and yet shows progress. */
  method LeakedProgressAfterFailure() returns (status: DownloadStatus, progress: int)
    ensures status == Idle && progress == 10
  {
    var view := new ResultView(AnimationData("a1", COMPLETED, Some("v1"), None, None, None));
    var started := view.HandleDownload();
    view.FetchFailedAsWritten();
    view.ProgressTick();
    status, progress := view.downloadStatus, view.progress;
  }

  /** With the interval cleared on failure, the idle page stays at 0 whatever ticks follow. */
  method NoProgressAfterFailure(ticks: nat) returns (status: DownloadStatus, progress: int)
    ensures status == Idle && progress == 0
  {
    var view := new ResultView(AnimationData("a1", COMPLETED, Some("v1"), None, None, None));
    var started := view.HandleDownload();
    view.FetchFailed();
    var i := 0;
    while i < ticks
      invariant view.Valid() && view.downloadStatus == Idle && !view.progressTimer
    {
      view.ProgressTick();
      i := i + 1;
    }
    status, progress := view.downloadStatus, view.progress;
  }
}
