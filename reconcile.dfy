/**
 * What the resources share: Terraform attribute values, diagnostics, and
 * running a sequence of commands that stops at the first failure.
 */
module Reconcile {
  import opened Wrappers
  import Commands
  import Ssh

  /** A Terraform attribute value: null, not yet known, or known. */
  datatype Value<T> = Null | Unknown | Known(value: T)

  /** ValueString: the string, or "" when null or unknown. */
  function StringOf(v: Value<string>): (r: string)
    ensures v.Known? ==> r == v.value
    ensures !v.Known? ==> r == ""
  {
    if v.Known? then v.value else ""
  }

  /** ValueBool: the flag, or false when null or unknown. */
  function BoolOf(v: Value<bool>): (r: bool)
    ensures r <==> v == Known(true)
  {
    v.Known? && v.value
  }

  /** An error diagnostic. */
  datatype Diag = Diag(summary: string, detail: string)

  /** A model as a read left it, and the diagnostic the read reported, if any. */
  datatype Loaded<M> = Loaded(model: M, failure: Option<Diag>)

  /** The commands an operation sent, and the state it saved or the error it reported. */
  datatype Done<M> = Done(sent: seq<Commands.Command>, result: Result<M, Diag>)

  /** A command to send and the summary reported if it fails. */
  datatype Step = Step(command: Commands.Command, summary: string)

  /**
   * How the server answers a command, given the commands the operation has
   * already sent.
   */
  type Ask = (seq<Commands.Command>, Commands.Command) -> Result<string, string>

  /** The command lines of the commands. */
  function Lines(cmds: seq<Commands.Command>): (r: seq<string>)
    ensures |r| == |cmds|
  {
    if cmds == [] then [] else Lines(cmds[..|cmds| - 1]) + [Commands.Render(cmds[|cmds| - 1])]
  }

  lemma LinesSnoc(cmds: seq<Commands.Command>, cmd: Commands.Command)
    ensures Lines(cmds + [cmd]) == Lines(cmds) + [Commands.Render(cmd)]
  {
    assert (cmds + [cmd])[..|cmds|] == cmds;
  }

  /**
   * The answers of the server `respond` to the client `c` when the commands
   * of an operation follow the command lines `before`.
   */
  function Asker(c: Ssh.Client, respond: Ssh.Respond, before: seq<string>): Ask {
    (sent, cmd) => Ssh.Answer(c, respond, before + Lines(sent), Commands.Render(cmd))
  }

  /** The commands sent, and the diagnostic of the one that failed, if any. */
  datatype Trace = Trace(sent: seq<Commands.Command>, failure: Option<Diag>)

  /** The commands of the steps. */
  function CommandsOf(steps: seq<Step>): (r: seq<Commands.Command>)
    ensures |r| == |steps|
  {
    if steps == [] then [] else CommandsOf(steps[..|steps| - 1]) + [steps[|steps| - 1].command]
  }

  /**
   * Sending the steps in order, stopping at the first one the server
   * rejects: the commands sent are a prefix of the steps' commands, all of
   * them when nothing failed, and a failure carries the summary of the step
   * that was sent last.
   */
  function Perform(ask: Ask, steps: seq<Step>): Trace
  {
    if steps == [] then Trace([], None)
    else
      var t := Perform(ask, steps[..|steps| - 1]);
      var s := steps[|steps| - 1];
      if t.failure.Some? then t
      else
        match ask(t.sent, s.command)
        case Failure(e) => Trace(t.sent + [s.command], Some(Diag(s.summary, e)))
        case Success(_) => Trace(t.sent + [s.command], None)
  }

  /**
   * The commands sent are the commands of the first steps, in order: all of
   * them when nothing failed, and a failure carries the summary of the step
   * that was sent last.
   */
  lemma {:induction false} PerformSent(ask: Ask, steps: seq<Step>)
    ensures var t := Perform(ask, steps);
      && |t.sent| <= |steps|
      && (forall i :: 0 <= i < |t.sent| ==> t.sent[i] == steps[i].command)
      && (t.failure.None? ==> |t.sent| == |steps|)
      && (t.failure.Some? ==> |t.sent| > 0 && t.failure.value.summary == steps[|t.sent| - 1].summary)
  {
    if steps != [] {
      var init := steps[..|steps| - 1];
      PerformSent(ask, init);
    }
  }

  /**
   * Every command sent before the last one succeeded; the last one failed
   * exactly when a failure is reported, and the failure carries its error.
   */
  lemma {:induction false} PerformStops(ask: Ask, steps: seq<Step>)
    ensures var t := Perform(ask, steps);
      forall i :: 0 <= i < |t.sent| && (t.failure.None? || i < |t.sent| - 1) ==> ask(t.sent[..i], t.sent[i]).Success?
    ensures var t := Perform(ask, steps);
      t.failure.Some? ==>
        && 0 < |t.sent|
        && ask(t.sent[..|t.sent| - 1], t.sent[|t.sent| - 1]).Failure?
        && t.failure.value.detail == ask(t.sent[..|t.sent| - 1], t.sent[|t.sent| - 1]).error
  {
    PerformSent(ask, steps);
    if steps != [] {
      var init := steps[..|steps| - 1];
      var u := Perform(ask, init);
      PerformStops(ask, init);
      if u.failure.None? {
        SentSnoc(ask, u.sent, steps[|steps| - 1].command);
      }
    }
  }

  /** The answers to the commands already sent stay as they were when one more is sent. */
  lemma SentSnoc(ask: Ask, sent: seq<Commands.Command>, cmd: Commands.Command)
    requires forall i :: 0 <= i < |sent| ==> ask(sent[..i], sent[i]).Success?
    ensures var longer := sent + [cmd];
      && (forall i :: 0 <= i < |sent| ==> ask(longer[..i], longer[i]).Success?)
      && longer[..|sent|] == sent && longer[|sent|] == cmd
  {
    var longer := sent + [cmd];
    forall i | 0 <= i < |sent|
      ensures ask(longer[..i], longer[i]).Success?
    {
      assert longer[..i] == sent[..i] && longer[i] == sent[i];
    }
  }

  /** Once a prefix of the steps has failed, the steps after it change nothing. */
  lemma {:induction false} PerformPrefixFails(ask: Ask, a: seq<Step>, b: seq<Step>)
    requires Perform(ask, a).failure.Some?
    ensures Perform(ask, a + b) == Perform(ask, a)
    decreases |b|
  {
    if b == [] {
      assert a + b == a;
    } else {
      var init := b[..|b| - 1];
      assert (a + b)[..|a + b| - 1] == a + init;
      PerformPrefixFails(ask, a, init);
    }
  }

  /** The first steps of a run that went through all of them. */
  lemma {:induction false} PerformSnoc(ask: Ask, a: seq<Step>, s: Step)
    ensures var t := Perform(ask, a);
      Perform(ask, a + [s]) ==
        if t.failure.Some? then t
        else match ask(t.sent, s.command)
          case Failure(e) => Trace(t.sent + [s.command], Some(Diag(s.summary, e)))
          case Success(_) => Trace(t.sent + [s.command], None)
  {
    assert (a + [s])[..|a + [s]| - 1] == a;
  }

  /** The answer Exec reports for one more step, and the trace it extends. */
  lemma IssueStep(c: Ssh.Client, respond: Ssh.Respond, before: seq<string>, done: seq<Step>, step: Step)
    requires Perform(Asker(c, respond, before), done).failure.None?
    ensures var t := Perform(Asker(c, respond, before), done);
      var u := Perform(Asker(c, respond, before), done + [step]);
      var err := Ssh.ExecAnswer(c, respond, before + Lines(t.sent), step.command);
      && before + Lines(u.sent) == before + Lines(t.sent) + [Commands.Render(step.command)]
      && u.failure == (if err.Some? then Some(Diag(step.summary, err.value)) else None)
  {
    var ask := Asker(c, respond, before);
    var t := Perform(ask, done);
    PerformSnoc(ask, done, step);
    LogSnoc(before, t.sent, step.command);
    AskerAnswer(c, respond, before, t.sent, step.command);
  }

  /** The log after one more command: the command line comes last. */
  lemma LogSnoc(before: seq<string>, cmds: seq<Commands.Command>, cmd: Commands.Command)
    ensures before + Lines(cmds + [cmd]) == before + Lines(cmds) + [Commands.Render(cmd)]
  {
    LinesSnoc(cmds, cmd);
  }

  lemma AskerAnswer(c: Ssh.Client, respond: Ssh.Respond, before: seq<string>, sent: seq<Commands.Command>, cmd: Commands.Command)
    ensures Asker(c, respond, before)(sent, cmd) == Ssh.Answer(c, respond, before + Lines(sent), Commands.Render(cmd))
  {
  }

  /**
   * Sends one step after the steps `done`, which have all succeeded, and
   * reports the step's summary with the command's error if the command fails.
   */
  method Issue(c: Ssh.Client, srv: Ssh.Server, step: Step, ghost before: seq<string>, ghost done: seq<Step>)
    returns (failure: Option<Diag>)
    requires Perform(Asker(c, srv.respond, before), done).failure.None?
    requires srv.log == before + Lines(Perform(Asker(c, srv.respond, before), done).sent)
    modifies srv
    ensures srv.log == before + Lines(Perform(Asker(c, srv.respond, before), done + [step]).sent)
    ensures failure == Perform(Asker(c, srv.respond, before), done + [step]).failure
  {
    IssueStep(c, srv.respond, before, done, step);
    var err := Ssh.Exec(c, srv, step.command);
    if err.Some? {
      return Some(Diag(step.summary, err.value));
    }
    return None;
  }

  lemma NothingDone(steps: seq<Step>)
    ensures [] + steps == steps
  {
  }

  /** A failure among the first steps is the failure of all the steps. */
  lemma PerformTake(ask: Ask, done: seq<Step>, steps: seq<Step>, n: int)
    requires 0 <= n <= |steps|
    requires Perform(ask, done + steps[..n]).failure.Some?
    ensures Perform(ask, done + steps) == Perform(ask, done + steps[..n])
  {
    PerformPrefixFails(ask, done + steps[..n], steps[n..]);
    assert done + steps[..n] + steps[n..] == done + steps;
  }

  lemma TakeOneMore(done: seq<Step>, steps: seq<Step>, i: int)
    requires 0 <= i < |steps|
    ensures done + steps[..i] + [steps[i]] == done + steps[..i + 1]
  {
    assert steps[..i] + [steps[i]] == steps[..i + 1];
  }

  /**
   * Sends the steps one after the other, after the steps `done`, which have
   * all succeeded, and stops at the first command that fails, reporting that
   * step's summary and error.
   */
  method IssueAll(c: Ssh.Client, srv: Ssh.Server, steps: seq<Step>, ghost before: seq<string>, ghost done: seq<Step>)
    returns (failure: Option<Diag>)
    requires Perform(Asker(c, srv.respond, before), done).failure.None?
    requires srv.log == before + Lines(Perform(Asker(c, srv.respond, before), done).sent)
    modifies srv
    ensures srv.log == before + Lines(Perform(Asker(c, srv.respond, before), done + steps).sent)
    ensures failure == Perform(Asker(c, srv.respond, before), done + steps).failure
  {
    ghost var ask := Asker(c, srv.respond, before);
    assert done + steps[..0] == done;
    var i := 0;
    while i < |steps|
      invariant 0 <= i <= |steps|
      invariant Perform(ask, done + steps[..i]).failure.None?
      invariant srv.log == before + Lines(Perform(ask, done + steps[..i]).sent)
    {
      failure := Issue(c, srv, steps[i], before, done + steps[..i]);
      TakeOneMore(done, steps, i);
      if failure.Some? {
        PerformTake(ask, done, steps, i + 1);
        return;
      }
      i := i + 1;
    }
    assert steps[..i] == steps;
    return None;
  }
}
