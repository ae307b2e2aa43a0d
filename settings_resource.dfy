/**
 * The `softserve_server_settings` resource: a singleton that sets the
 * server's allow-keyless and anon-access settings and reads both back. It
 * has no server-side deletion.
 */
module SettingsResource {
  import opened Wrappers
  import Commands
  import Text
  import Ssh
  import opened Reconcile

  datatype SettingsModel = SettingsModel(
    id: Value<string>,
    allowKeyless: Value<bool>,
    anonAccess: Value<string>)

  /** The ID every read gives the singleton. */
  const SettingsId := "settings"

  // ---------------------------------------------------------------------
  // applySettings
  // ---------------------------------------------------------------------

  /** Set allow-keyless when the plan knows it, then anon-access when the plan knows it. */
  function ApplySteps(model: SettingsModel): seq<Step> {
    (if model.allowKeyless.Known?
     then [Step(Commands.SettingsSetAllowKeyless(model.allowKeyless.value), "Error setting allow-keyless")]
     else [])
    + (if model.anonAccess.Known?
       then [Step(Commands.SettingsSetAnonAccess(model.anonAccess.value), "Error setting anon-access")]
       else [])
  }

  /**
   * Only known settings are sent, each with the planned value, allow-keyless
   * before anon-access; a plan that knows neither sends nothing.
   */
  lemma ApplyCommands(model: SettingsModel)
    ensures var cmds := CommandsOf(ApplySteps(model));
      && |cmds| == (if model.allowKeyless.Known? then 1 else 0) + (if model.anonAccess.Known? then 1 else 0)
      && (model.allowKeyless.Known? ==> cmds[0] == Commands.SettingsSetAllowKeyless(model.allowKeyless.value))
      && (model.anonAccess.Known? ==> cmds[|cmds| - 1] == Commands.SettingsSetAnonAccess(model.anonAccess.value))
  {
    var steps := ApplySteps(model);
    var cmds := CommandsOf(steps);
    if |steps| == 2 {
      assert steps[..1] == [steps[0]];
      assert CommandsOf(steps[..1]) == [steps[0].command];
    }
  }

  // ---------------------------------------------------------------------
  // readSettingsState
  // ---------------------------------------------------------------------

  /** SettingsGetAllowKeyless given the answer: on when the trimmed reply is `true`. */
  function AllowKeylessFrom(answer: Result<string, string>): Result<bool, string> {
    match answer
    case Failure(e) => Failure(e)
    case Success(out) => Success(Text.TrimSpace(out) == "true")
  }

  /** SettingsGetAnonAccess given the answer: the trimmed reply. */
  function AnonAccessFrom(answer: Result<string, string>): Result<string, string> {
    match answer
    case Failure(e) => Failure(e)
    case Success(out) => Success(Text.TrimSpace(out))
  }

  /** The queries a read sent, and the model and diagnostic it left. */
  datatype Reading = Reading(sent: seq<Commands.Command>, loaded: Loaded<SettingsModel>)

  /**
   * readSettingsState after the commands `sent`: the ID is set first; then
   * allow-keyless is asked and stored, then anon-access; the first query that
   * fails ends the read with the fields stored so far.
   */
  function SettingsRead(ask: Ask, sent: seq<Commands.Command>, model: SettingsModel): Reading {
    var m := model.(id := Known(SettingsId));
    match AllowKeylessFrom(ask(sent, Commands.SettingsGetAllowKeyless))
    case Failure(e) =>
      Reading([Commands.SettingsGetAllowKeyless], Loaded(m, Some(Diag("Error reading allow-keyless", e))))
    case Success(allow) =>
      var m' := m.(allowKeyless := Known(allow));
      var queries := [Commands.SettingsGetAllowKeyless, Commands.SettingsGetAnonAccess];
      match AnonAccessFrom(ask(sent + [Commands.SettingsGetAllowKeyless], Commands.SettingsGetAnonAccess))
      case Failure(e) => Reading(queries, Loaded(m', Some(Diag("Error reading anon-access", e))))
      case Success(level) => Reading(queries, Loaded(m'.(anonAccess := Known(level)), None))
  }

  /**
   * Whatever the server answers the ID becomes `settings`; allow-keyless is
   * asked first and anon-access only after it succeeded; a complete read
   * stores both answers, the level trimmed; a failed query is reported with
   * its own summary and error, and leaves the settings it did not reach as
   * they were.
   */
  lemma SettingsReadSpec(ask: Ask, sent: seq<Commands.Command>, model: SettingsModel)
    ensures var r := SettingsRead(ask, sent, model);
      var first := ask(sent, Commands.SettingsGetAllowKeyless);
      var second := ask(sent + [Commands.SettingsGetAllowKeyless], Commands.SettingsGetAnonAccess);
      && r.loaded.model.id == Known(SettingsId)
      && (first.Failure? ==>
            && r.sent == [Commands.SettingsGetAllowKeyless]
            && r.loaded.model == model.(id := Known(SettingsId))
            && r.loaded.failure == Some(Diag("Error reading allow-keyless", first.error)))
      && (first.Success? ==>
            && r.sent == [Commands.SettingsGetAllowKeyless, Commands.SettingsGetAnonAccess]
            && (r.loaded.model.allowKeyless == Known(true) <==> Text.TrimSpace(first.value) == "true")
            && r.loaded.model.allowKeyless.Known?)
      && (first.Success? && second.Failure? ==>
            && r.loaded.model.anonAccess == model.anonAccess
            && r.loaded.failure == Some(Diag("Error reading anon-access", second.error)))
      && (r.loaded.failure.None? <==> first.Success? && second.Success?)
      && (first.Success? && second.Success? ==>
            && r.loaded.model.allowKeyless == Known(Text.TrimSpace(first.value) == "true")
            && r.loaded.model.anonAccess == Known(Text.TrimSpace(second.value))
            && Text.Trimmed(r.loaded.model.anonAccess.value))
  {
  }

  /**
   * A complete read does not depend on the model it starts from: the state
   * saved is what the server reports.
   */
  lemma SettingsReadIgnoresModel(ask: Ask, sent: seq<Commands.Command>, a: SettingsModel, b: SettingsModel)
    ensures SettingsRead(ask, sent, a).sent == SettingsRead(ask, sent, b).sent
    ensures SettingsRead(ask, sent, a).loaded.failure == SettingsRead(ask, sent, b).loaded.failure
    ensures SettingsRead(ask, sent, a).loaded.failure.None? ==>
      SettingsRead(ask, sent, a).loaded.model == SettingsRead(ask, sent, b).loaded.model
  {
  }

  /** SettingsGetAllowKeyless sent after the commands `sent`. */
  method GetAllowKeyless(c: Ssh.Client, srv: Ssh.Server, ghost before: seq<string>, ghost sent: seq<Commands.Command>)
    returns (r: Result<bool, string>)
    requires srv.log == before + Lines(sent)
    modifies srv
    ensures srv.log == before + Lines(sent + [Commands.SettingsGetAllowKeyless])
    ensures r == AllowKeylessFrom(Asker(c, srv.respond, before)(sent, Commands.SettingsGetAllowKeyless))
  {
    LinesSnoc(sent, Commands.SettingsGetAllowKeyless);
    ghost var answer := Ssh.Answer(c, srv.respond, srv.log, Commands.Render(Commands.SettingsGetAllowKeyless));
    assert Asker(c, srv.respond, before)(sent, Commands.SettingsGetAllowKeyless) == answer;
    r := Ssh.SettingsGetAllowKeyless(c, srv);
  }

  /** SettingsGetAnonAccess sent after the commands `sent`. */
  method GetAnonAccess(c: Ssh.Client, srv: Ssh.Server, ghost before: seq<string>, ghost sent: seq<Commands.Command>)
    returns (r: Result<string, string>)
    requires srv.log == before + Lines(sent)
    modifies srv
    ensures srv.log == before + Lines(sent + [Commands.SettingsGetAnonAccess])
    ensures r == AnonAccessFrom(Asker(c, srv.respond, before)(sent, Commands.SettingsGetAnonAccess))
  {
    LinesSnoc(sent, Commands.SettingsGetAnonAccess);
    ghost var answer := Ssh.Answer(c, srv.respond, srv.log, Commands.Render(Commands.SettingsGetAnonAccess));
    assert Asker(c, srv.respond, before)(sent, Commands.SettingsGetAnonAccess) == answer;
    r := Ssh.SettingsGetAnonAccess(c, srv);
  }

  lemma BothQueries(sent: seq<Commands.Command>)
    ensures sent + [Commands.SettingsGetAllowKeyless] + [Commands.SettingsGetAnonAccess]
         == sent + [Commands.SettingsGetAllowKeyless, Commands.SettingsGetAnonAccess]
  {
  }

  method ReadSettingsState(c: Ssh.Client, srv: Ssh.Server, model: SettingsModel,
                           ghost before: seq<string>, ghost sent: seq<Commands.Command>)
    returns (m: SettingsModel, err: Option<Diag>)
    requires srv.log == before + Lines(sent)
    modifies srv
    ensures var r := SettingsRead(Asker(c, srv.respond, before), sent, model);
      srv.log == before + Lines(sent + r.sent) && Loaded(m, err) == r.loaded
  {
    m := model.(id := Known(SettingsId));
    var allowKeyless := GetAllowKeyless(c, srv, before, sent);
    if allowKeyless.Failure? {
      return m, Some(Diag("Error reading allow-keyless", allowKeyless.error));
    }
    m := m.(allowKeyless := Known(allowKeyless.value));

    var anonAccess := GetAnonAccess(c, srv, before, sent + [Commands.SettingsGetAllowKeyless]);
    BothQueries(sent);
    if anonAccess.Failure? {
      return m, Some(Diag("Error reading anon-access", anonAccess.error));
    }
    m := m.(anonAccess := Known(anonAccess.value));
    return m, None;
  }

  // ---------------------------------------------------------------------
  // The operations
  // ---------------------------------------------------------------------

  /** The outcome of the steps followed, when they all succeeded, by the read. */
  function Outcome(ask: Ask, steps: seq<Step>, model: SettingsModel): Done<SettingsModel> {
    var t := Perform(ask, steps);
    if t.failure.Some? then Done(t.sent, Failure(t.failure.value))
    else
      var read := SettingsRead(ask, t.sent, model);
      Done(t.sent + read.sent,
           if read.loaded.failure.Some? then Failure(read.loaded.failure.value) else Success(read.loaded.model))
  }

  /**
   * A failed setter ends the operation before any read; otherwise both
   * setters that apply are sent and the read follows them, and a saved state
   * is the singleton with both settings known.
   */
  lemma OutcomeStops(ask: Ask, steps: seq<Step>, model: SettingsModel)
    ensures var t := Perform(ask, steps);
      var d := Outcome(ask, steps, model);
      && (t.failure.Some? ==>
            && d.result.Failure? && d.sent == t.sent && 0 < |d.sent| <= |steps|
            && d.result.error.summary == steps[|d.sent| - 1].summary)
      && (t.failure.None? ==>
            && |steps| < |d.sent| <= |steps| + 2
            && d.sent[|steps|] == Commands.SettingsGetAllowKeyless
            && forall i :: 0 <= i < |steps| ==> d.sent[i] == steps[i].command)
      && (d.result.Success? ==>
            && d.result.value.id == Known(SettingsId)
            && d.result.value.allowKeyless.Known? && d.result.value.anonAccess.Known?)
  {
    PerformSent(ask, steps);
    var t := Perform(ask, steps);
    if t.failure.None? {
      SettingsReadSpec(ask, t.sent, model);
    }
  }

  /**
   * Create and Update run the same code: the planned settings are applied,
   * then read back into the plan. The state saved does not depend on the
   * planned values beyond the commands they cause.
   */
  method Apply(c: Ssh.Client, srv: Ssh.Server, plan: SettingsModel) returns (r: Result<SettingsModel, Diag>)
    modifies srv
    ensures srv.log == old(srv.log) + Lines(Outcome(Asker(c, srv.respond, old(srv.log)), ApplySteps(plan), plan).sent)
    ensures r == Outcome(Asker(c, srv.respond, old(srv.log)), ApplySteps(plan), plan).result
  {
    ghost var before := srv.log;
    NothingDone(ApplySteps(plan));
    var failure := IssueAll(c, srv, ApplySteps(plan), before, []);
    if failure.Some? {
      return Failure(failure.value);
    }
    var m, err := ReadSettingsState(c, srv, plan, before, Perform(Asker(c, srv.respond, before), ApplySteps(plan)).sent);
    if err.Some? {
      return Failure(err.value);
    }
    return Success(m);
  }

  method Create(c: Ssh.Client, srv: Ssh.Server, plan: SettingsModel) returns (r: Result<SettingsModel, Diag>)
    modifies srv
    ensures srv.log == old(srv.log) + Lines(Outcome(Asker(c, srv.respond, old(srv.log)), ApplySteps(plan), plan).sent)
    ensures r == Outcome(Asker(c, srv.respond, old(srv.log)), ApplySteps(plan), plan).result
  {
    r := Apply(c, srv, plan);
  }

  method Update(c: Ssh.Client, srv: Ssh.Server, plan: SettingsModel) returns (r: Result<SettingsModel, Diag>)
    modifies srv
    ensures srv.log == old(srv.log) + Lines(Outcome(Asker(c, srv.respond, old(srv.log)), ApplySteps(plan), plan).sent)
    ensures r == Outcome(Asker(c, srv.respond, old(srv.log)), ApplySteps(plan), plan).result
  {
    r := Apply(c, srv, plan);
  }

  method Read(c: Ssh.Client, srv: Ssh.Server, state: SettingsModel) returns (r: Result<SettingsModel, Diag>)
    modifies srv
    ensures srv.log == old(srv.log) + Lines(Outcome(Asker(c, srv.respond, old(srv.log)), [], state).sent)
    ensures r == Outcome(Asker(c, srv.respond, old(srv.log)), [], state).result
  {
    assert srv.log == srv.log + Lines([]);
    var m, err := ReadSettingsState(c, srv, state, srv.log, []);
    if err.Some? {
      return Failure(err.value);
    }
    return Success(m);
  }

  /** Deleting the singleton only drops it from the Terraform state: nothing is sent, nothing fails. */
  method Delete(c: Ssh.Client, srv: Ssh.Server, state: SettingsModel) returns (err: Option<Diag>)
    ensures err == None
  {
    return None;
  }

  /** The model an import starts from: every field null. */
  const ImportModel := SettingsModel(Null, Null, Null)

  method ImportState(c: Ssh.Client, srv: Ssh.Server) returns (r: Result<SettingsModel, Diag>)
    modifies srv
    ensures srv.log == old(srv.log) + Lines(Outcome(Asker(c, srv.respond, old(srv.log)), [], ImportModel).sent)
    ensures r == Outcome(Asker(c, srv.respond, old(srv.log)), [], ImportModel).result
  {
    var model := SettingsModel(Null, Null, Null);
    assert srv.log == srv.log + Lines([]);
    var m, err := ReadSettingsState(c, srv, model, srv.log, []);
    if err.Some? {
      return Failure(err.value);
    }
    return Success(m);
  }

  /** Importing gives the same result as reading any state: the read ignores the model on success. */
  lemma ImportIsRead(ask: Ask, state: SettingsModel)
    ensures Outcome(ask, [], ImportModel).sent == Outcome(ask, [], state).sent
    ensures Outcome(ask, [], ImportModel).result == Outcome(ask, [], state).result
  {
    SettingsReadIgnoresModel(ask, [], ImportModel, state);
  }
}
