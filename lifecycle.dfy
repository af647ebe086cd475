/** The render-job lifecycle of one animation record under a sequence of completed handler
    runs: synchronous renders (render-video) and service callbacks (render-callback).
    Handlers run one after another; each run is taken whole. */
module Lifecycle {
  import opened Common
  import opened Store
  import RenderVideo
  import RenderCallback

  /** A handler run that reaches the record. */
  datatype Step =
    | Render(outcome: RenderVideo.ExecOutcome)
    | Callback(payload: RenderCallback.Payload)

  function Apply(a: Animation, s: Step): Animation
  {
    match s
    case Render(o) => RenderVideo.AfterRender(a, o)
    case Callback(p) => RenderCallback.ApplyCallback(a, p)
  }

  function Run(a: Animation, steps: seq<Step>): Animation
    decreases |steps|
  {
    if steps == [] then a else Run(Apply(a, steps[0]), steps[1..])
  }

  /** The terminal status a step writes, read off the step alone. */
  function Writes(s: Step): (st: Status)
    ensures IsTerminal(st)
  {
    match s
    case Render(o) => if o.Ok? then COMPLETED else FAILED
    case Callback(p) => if RenderCallback.Succeeded(p) then COMPLETED else FAILED
  }

  /** Running one more step applies it to the record the earlier steps left. */
  lemma {:induction false} RunSnoc(a: Animation, steps: seq<Step>, s: Step)
    ensures Run(a, steps + [s]) == Apply(Run(a, steps), s)
    decreases |steps|
  {
    if steps != [] {
      assert (steps + [s])[1..] == steps[1..] + [s];
      RunSnoc(Apply(a, steps[0]), steps[1..], s);
    }
  }

  /** The last step decides the status, whatever came before: the last terminal
      write wins. */
  lemma LastWriteWins(a: Animation, steps: seq<Step>, s: Step)
    ensures Run(a, steps + [s]).status == Writes(s)
  {
    RunSnoc(a, steps, s);
  }

  /** After at least one run the record is terminal; in particular it never goes back to
      GENERATING. */
  lemma {:induction false} RunEndsTerminal(a: Animation, steps: seq<Step>)
    requires steps != []
    ensures IsTerminal(Run(a, steps).status)
  {
    var n := |steps|;
    assert steps == steps[..n - 1] + [steps[n - 1]];
    LastWriteWins(a, steps[..n - 1], steps[n - 1]);
  }

  /** No run touches the identity of the job: id, owner, prompt, code and model. */
  lemma {:induction false} RunKeepsIdentity(a: Animation, steps: seq<Step>)
    ensures var b := Run(a, steps);
            b.id == a.id && b.userId == a.userId && b.prompt == a.prompt && b.code == a.code && b.model == a.model
    decreases |steps|
  {
    if steps != [] {
      RunKeepsIdentity(Apply(a, steps[0]), steps[1..]);
    }
  }

  /** A COMPLETED record can still carry an error message: a failed render followed by a
      successful re-render leaves the earlier message in place. */
  lemma CompletedKeepsEarlierError(a: Animation)
    ensures var b := Run(a, [Render(RenderVideo.Error("boom")),
                             Render(RenderVideo.Ok(RenderVideo.ExecResult(Present("v1"), Absent, Absent)))]);
            b.status == COMPLETED && b.videoUrl == Some("v1") && b.errorMessage == Some("boom")
  {
    var s1 := Render(RenderVideo.Error("boom"));
    var s2 := Render(RenderVideo.Ok(RenderVideo.ExecResult(Present("v1"), Absent, Absent)));
    RunSnoc(a, [s1], s2);
    assert [s1] + [s2] == [s1, s2];
  }

  /** A FAILED record can still carry a video: a successful render followed by a failure
      callback keeps the video reference. */
  lemma FailedKeepsEarlierVideo(a: Animation, p: RenderCallback.Payload)
    requires !RenderCallback.Succeeded(p)
    ensures var b := Run(a, [Render(RenderVideo.Ok(RenderVideo.ExecResult(Present("v1"), Absent, Absent))),
                             Callback(p)]);
            b.status == FAILED && b.videoUrl == Some("v1")
  {
    var s1 := Render(RenderVideo.Ok(RenderVideo.ExecResult(Present("v1"), Absent, Absent)));
    RunSnoc(a, [s1], Callback(p));
    assert [s1] + [Callback(p)] == [s1, Callback(p)];
  }
}
