/**
 * The `softserve_repository` resource: creating a repository (and hiding it
 * afterwards when asked), updating it field by field, deleting it, importing
 * it by name, and reading its state back from `repo info`.
 */
module RepositoryResource {
  import opened Wrappers
  import Commands
  import Parser
  import Ssh
  import opened Reconcile

  datatype RepositoryModel = RepositoryModel(
    id: Value<string>,
    name: Value<string>,
    description: Value<string>,
    projectName: Value<string>,
    private: Value<bool>,
    hidden: Value<bool>)

  // ---------------------------------------------------------------------
  // Reading the state back
  // ---------------------------------------------------------------------

  /** RepoInfo given the answer to `repo info`: the parsed record, or the error. */
  function RepoInfoFrom(answer: Result<string, string>): Result<Parser.RepoInfoResult, string> {
    match answer
    case Failure(e) => Failure(e)
    case Success(out) => Parser.RepoInfoOf(out)
  }

  /**
   * readRepoState given what RepoInfo returned: on an error the model is left
   * as it was; otherwise every field is taken from the server, the ID being
   * the name asked for.
   */
  function RepoRead(info: Result<Parser.RepoInfoResult, string>, name: string, model: RepositoryModel)
    : Loaded<RepositoryModel>
  {
    match info
    case Failure(e) => Loaded(model, Some(Diag("Error reading repository", e)))
    case Success(i) =>
      Loaded(model.(id := Known(name), name := Known(i.repository), description := Known(i.description),
                    projectName := Known(i.projectName), private := Known(i.private), hidden := Known(i.hidden)),
             None)
  }

  /**
   * The state read back: on success the ID is the queried name and every
   * other field is known and holds the value of the last reply line with its
   * label (the flags: whether that value is `true`), Name being never empty;
   * on an error the model is untouched.
   */
  lemma RepoReadKnown(answer: Result<string, string>, name: string, model: RepositoryModel)
    ensures var r := RepoRead(RepoInfoFrom(answer), name, model);
      && (r.failure.None? <==> answer.Success? && Parser.RepoInfoOf(answer.value).Success?)
      && (r.failure.Some? ==> r.model == model && r.failure.value.summary == "Error reading repository")
      && (r.failure.None? ==>
            var kvs := Parser.ReplyPairs(answer.value);
            && r.model.id == Known(name)
            && r.model.name == Known(Parser.TextField(Parser.LastValue(kvs, "Repository"), ""))
            && r.model.name.value != ""
            && r.model.description == Known(Parser.TextField(Parser.LastValue(kvs, "Description"), ""))
            && r.model.projectName == Known(Parser.TextField(Parser.LastValue(kvs, "Project Name"), ""))
            && r.model.private == Known(Parser.FlagField(Parser.LastValue(kvs, "Private"), false))
            && r.model.hidden == Known(Parser.FlagField(Parser.LastValue(kvs, "Hidden"), false)))
  {
    if answer.Success? {
      Parser.RepoFieldsLast(Parser.EmptyRepoInfo, Parser.ReplyPairs(answer.value));
    }
  }

  method ReadRepoState(c: Ssh.Client, srv: Ssh.Server, name: string, model: RepositoryModel,
                       ghost before: seq<string>, ghost sent: seq<Commands.Command>)
    returns (m: RepositoryModel, err: Option<Diag>)
    requires srv.log == before + Lines(sent)
    modifies srv
    ensures srv.log == before + Lines(sent + [Commands.RepoInfo(name)])
    ensures Loaded(m, err) == RepoRead(RepoInfoFrom(Asker(c, srv.respond, before)(sent, Commands.RepoInfo(name))), name, model)
  {
    LinesSnoc(sent, Commands.RepoInfo(name));
    ghost var answer := Ssh.Answer(c, srv.respond, srv.log, Commands.Render(Commands.RepoInfo(name)));
    assert Asker(c, srv.respond, before)(sent, Commands.RepoInfo(name)) == answer;
    m := model;
    var info := Ssh.RepoInfo(c, srv, name);
    assert info == RepoInfoFrom(answer);
    if info.Failure? {
      return m, Some(Diag("Error reading repository", info.error));
    }
    m := m.(id := Known(name));
    m := m.(name := Known(info.value.repository));
    m := m.(description := Known(info.value.description));
    m := m.(projectName := Known(info.value.projectName));
    m := m.(private := Known(info.value.private));
    m := m.(hidden := Known(info.value.hidden));
    return m, None;
  }

  /** The outcome of the steps followed, when they all succeeded, by the read. */
  function Outcome(ask: Ask, steps: seq<Step>, name: string, model: RepositoryModel): Done<RepositoryModel> {
    var t := Perform(ask, steps);
    if t.failure.Some? then Done(t.sent, Failure(t.failure.value))
    else
      var read := RepoRead(RepoInfoFrom(ask(t.sent, Commands.RepoInfo(name))), name, model);
      Done(t.sent + [Commands.RepoInfo(name)],
           if read.failure.Some? then Failure(read.failure.value) else Success(read.model))
  }

  /**
   * A failing command ends the operation: nothing is sent after it, the state
   * is not read back, and its error is the one reported; otherwise every step
   * is sent and then `repo info`.
   */
  lemma OutcomeStops(ask: Ask, steps: seq<Step>, name: string, model: RepositoryModel)
    ensures var t := Perform(ask, steps);
      var d := Outcome(ask, steps, name, model);
      && (t.failure.Some? ==>
            && d.result.Failure? && d.sent == t.sent && 0 < |d.sent| <= |steps|
            && d.result.error.summary == steps[|d.sent| - 1].summary)
      && (t.failure.None? ==>
            && |d.sent| == |steps| + 1 && d.sent[|steps|] == Commands.RepoInfo(name)
            && forall i :: 0 <= i < |steps| ==> d.sent[i] == steps[i].command)
  {
    PerformSent(ask, steps);
  }

  // ---------------------------------------------------------------------
  // Create
  // ---------------------------------------------------------------------

  /** repo create with the planned options, then `repo hidden <name> true` if the plan hides it. */
  function CreateSteps(plan: RepositoryModel): seq<Step> {
    var name := StringOf(plan.name);
    [Step(Commands.RepoCreate(name, StringOf(plan.description), StringOf(plan.projectName), BoolOf(plan.private)),
          "Error creating repository")]
    + (if BoolOf(plan.hidden) then [Step(Commands.RepoSetHidden(name, true), "Error setting repository hidden")] else [])
  }

  /**
   * The lines Create sends: `repo create` with -d and -n only for known,
   * non-empty text and -p for a private plan, followed by `repo hidden` exactly
   * when the plan hides the repository.
   */
  lemma CreateLines(plan: RepositoryModel)
    ensures var name := StringOf(plan.name);
      var desc := if plan.description.Known? then plan.description.value else "";
      var project := if plan.projectName.Known? then plan.projectName.value else "";
      var lines := Lines(CommandsOf(CreateSteps(plan)));
      && |lines| == (if plan.hidden == Known(true) then 2 else 1)
      && lines[0] == "repo create " + name
           + (if desc != "" then " -d " + Commands.Quote(desc) else "")
           + (if project != "" then " -n " + Commands.Quote(project) else "")
           + (if plan.private == Known(true) then " -p" else "")
      && (plan.hidden == Known(true) ==> lines[1] == "repo hidden " + name + " " + Commands.BoolWord(true))
  {
    var name := StringOf(plan.name);
    var create := Commands.RepoCreate(name, StringOf(plan.description), StringOf(plan.projectName), BoolOf(plan.private));
    CreateCommands(plan);
    assert Lines(CommandsOf(CreateSteps(plan)))[0] == Commands.Render(create);
    Commands.RepoCreateLine(name, StringOf(plan.description), StringOf(plan.projectName), BoolOf(plan.private));
    Commands.RepoSetHiddenLine(name, true);
  }

  lemma CreateCommands(plan: RepositoryModel)
    ensures var name := StringOf(plan.name);
      CommandsOf(CreateSteps(plan)) ==
        [Commands.RepoCreate(name, StringOf(plan.description), StringOf(plan.projectName), BoolOf(plan.private))]
        + (if BoolOf(plan.hidden) then [Commands.RepoSetHidden(name, true)] else [])
  {
    var steps := CreateSteps(plan);
    if |steps| == 2 {
      assert steps[..1] == [steps[0]];
    }
  }

  /**
   * Create: `repo create`, then `repo hidden` when the plan hides the
   * repository, then the state read back; an error stops it where it occurs.
   */
  method Create(c: Ssh.Client, srv: Ssh.Server, plan: RepositoryModel) returns (r: Result<RepositoryModel, Diag>)
    modifies srv
    ensures srv.log == old(srv.log) + Lines(Outcome(Asker(c, srv.respond, old(srv.log)), CreateSteps(plan), StringOf(plan.name), plan).sent)
    ensures r == Outcome(Asker(c, srv.respond, old(srv.log)), CreateSteps(plan), StringOf(plan.name), plan).result
  {
    ghost var before := srv.log;
    var name := StringOf(plan.name);
    NothingDone(CreateSteps(plan));
    var failure := IssueAll(c, srv, CreateSteps(plan), before, []);
    if failure.Some? {
      return Failure(failure.value);
    }
    var m, err := ReadRepoState(c, srv, name, plan, before, Perform(Asker(c, srv.respond, before), CreateSteps(plan)).sent);
    if err.Some? {
      return Failure(err.value);
    }
    return Success(m);
  }

  // ---------------------------------------------------------------------
  // Update
  // ---------------------------------------------------------------------

  /** The setter Update sends for each field, carrying the plan's value ("" for a null text). */
  function SetDescription(plan: RepositoryModel): Step {
    Step(Commands.RepoSetDescription(StringOf(plan.name), StringOf(plan.description)), "Error updating description")
  }

  function SetProjectName(plan: RepositoryModel): Step {
    Step(Commands.RepoSetProjectName(StringOf(plan.name), StringOf(plan.projectName)), "Error updating project name")
  }

  function SetPrivate(plan: RepositoryModel): Step {
    Step(Commands.RepoSetPrivate(StringOf(plan.name), BoolOf(plan.private)), "Error updating private")
  }

  function SetHidden(plan: RepositoryModel): Step {
    Step(Commands.RepoSetHidden(StringOf(plan.name), BoolOf(plan.hidden)), "Error updating hidden")
  }

  function DescriptionStep(plan: RepositoryModel, state: RepositoryModel): seq<Step> {
    if plan.description != state.description then [SetDescription(plan)] else []
  }

  function ProjectNameStep(plan: RepositoryModel, state: RepositoryModel): seq<Step> {
    if plan.projectName != state.projectName then [SetProjectName(plan)] else []
  }

  function PrivateStep(plan: RepositoryModel, state: RepositoryModel): seq<Step> {
    if plan.private != state.private then [SetPrivate(plan)] else []
  }

  function HiddenStep(plan: RepositoryModel, state: RepositoryModel): seq<Step> {
    if plan.hidden != state.hidden then [SetHidden(plan)] else []
  }

  /** The field-by-field diff, in the order description, project name, private, hidden. */
  function UpdateSteps(plan: RepositoryModel, state: RepositoryModel): seq<Step> {
    DescriptionStep(plan, state) + ProjectNameStep(plan, state) + PrivateStep(plan, state) + HiddenStep(plan, state)
  }

  /**
   * Update sends the setter of a field exactly when the plan's value differs
   * from the state's, and nothing but those setters; a null text is sent as ""
   * so as to clear it.
   */
  lemma UpdateSetters(plan: RepositoryModel, state: RepositoryModel)
    ensures SetDescription(plan) in UpdateSteps(plan, state) <==> plan.description != state.description
    ensures SetProjectName(plan) in UpdateSteps(plan, state) <==> plan.projectName != state.projectName
    ensures SetPrivate(plan) in UpdateSteps(plan, state) <==> plan.private != state.private
    ensures SetHidden(plan) in UpdateSteps(plan, state) <==> plan.hidden != state.hidden
    ensures forall s :: s in UpdateSteps(plan, state) ==>
      s == SetDescription(plan) || s == SetProjectName(plan) || s == SetPrivate(plan) || s == SetHidden(plan)
    ensures plan.description.Null? ==> SetDescription(plan).command.description == ""
    ensures plan.projectName.Null? ==> SetProjectName(plan).command.projectName == ""
  {
    var steps := UpdateSteps(plan, state);
    var d, p, v, h := DescriptionStep(plan, state), ProjectNameStep(plan, state), PrivateStep(plan, state), HiddenStep(plan, state);
    assert steps == d + p + v + h;
    forall s ensures s in steps <==> s in d || s in p || s in v || s in h {
    }
  }

  /** The position of a repository setter in the update order. */
  function Rank(cmd: Commands.Command): int {
    match cmd
    case RepoSetDescription(_, _) => 0
    case RepoSetProjectName(_, _) => 1
    case RepoSetPrivate(_, _) => 2
    case RepoSetHidden(_, _) => 3
    case _ => 4
  }

  /** Each setter comes after the previous one in the update order. */
  predicate Ordered(steps: seq<Step>) {
    forall i :: 0 < i < |steps| ==> Rank(steps[i - 1].command) < Rank(steps[i].command)
  }

  /** Setters all before position `bound`, followed by setters all at or after it, stay in order. */
  lemma OrderedAppend(a: seq<Step>, b: seq<Step>, bound: int)
    requires Ordered(a) && Ordered(b)
    requires forall x :: x in a ==> Rank(x.command) < bound
    requires forall y :: y in b ==> bound <= Rank(y.command)
    ensures Ordered(a + b)
    ensures forall z :: z in a + b ==> z in a || z in b
  {
    var ab := a + b;
    forall i | 0 < i < |ab|
      ensures Rank(ab[i - 1].command) < Rank(ab[i].command)
    {
      if i < |a| {
        assert ab[i - 1] == a[i - 1] && ab[i] == a[i];
      } else if i == |a| {
        assert ab[i - 1] == a[i - 1] && ab[i] == b[0];
      } else {
        assert ab[i - 1] == b[i - 1 - |a|] && ab[i] == b[i - |a|];
      }
    }
  }

  /** The description and project-name setters come first, in that order. */
  lemma OrderedFirstTwo(plan: RepositoryModel, state: RepositoryModel)
    ensures var dp := DescriptionStep(plan, state) + ProjectNameStep(plan, state);
      Ordered(dp) && forall x :: x in dp ==> Rank(x.command) < 2
  {
    OrderedAppend(DescriptionStep(plan, state), ProjectNameStep(plan, state), 1);
  }

  /** The private setter follows them. */
  lemma OrderedFirstThree(plan: RepositoryModel, state: RepositoryModel)
    ensures var dpv := DescriptionStep(plan, state) + ProjectNameStep(plan, state) + PrivateStep(plan, state);
      Ordered(dpv) && forall x :: x in dpv ==> Rank(x.command) < 3
  {
    OrderedFirstTwo(plan, state);
    OrderedAppend(DescriptionStep(plan, state) + ProjectNameStep(plan, state), PrivateStep(plan, state), 2);
  }

  /** The setters go out in the fixed order description, project name, private, hidden. */
  lemma UpdateOrder(plan: RepositoryModel, state: RepositoryModel)
    ensures Ordered(UpdateSteps(plan, state))
  {
    OrderedFirstThree(plan, state);
    OrderedAppend(DescriptionStep(plan, state) + ProjectNameStep(plan, state) + PrivateStep(plan, state), HiddenStep(plan, state), 3);
  }

  /** With the plan equal to the state, Update sends no setter at all. */
  lemma UpdateUnchanged(plan: RepositoryModel, state: RepositoryModel)
    requires plan.description == state.description && plan.projectName == state.projectName
    requires plan.private == state.private && plan.hidden == state.hidden
    ensures UpdateSteps(plan, state) == []
  {
  }

  /**
   * Update: the setters of the fields that changed, in order, then the state
   * read back; an error stops it where it occurs.
   */
  method Update(c: Ssh.Client, srv: Ssh.Server, plan: RepositoryModel, state: RepositoryModel)
    returns (r: Result<RepositoryModel, Diag>)
    modifies srv
    ensures srv.log == old(srv.log) + Lines(Outcome(Asker(c, srv.respond, old(srv.log)), UpdateSteps(plan, state), StringOf(plan.name), plan).sent)
    ensures r == Outcome(Asker(c, srv.respond, old(srv.log)), UpdateSteps(plan, state), StringOf(plan.name), plan).result
  {
    ghost var before := srv.log;
    var name := StringOf(plan.name);
    NothingDone(UpdateSteps(plan, state));
    var failure := IssueAll(c, srv, UpdateSteps(plan, state), before, []);
    if failure.Some? {
      return Failure(failure.value);
    }
    var m, err := ReadRepoState(c, srv, name, plan, before, Perform(Asker(c, srv.respond, before), UpdateSteps(plan, state)).sent);
    if err.Some? {
      return Failure(err.value);
    }
    return Success(m);
  }

  // ---------------------------------------------------------------------
  // Read, Delete and ImportState
  // ---------------------------------------------------------------------

  method Read(c: Ssh.Client, srv: Ssh.Server, state: RepositoryModel) returns (r: Result<RepositoryModel, Diag>)
    modifies srv
    ensures srv.log == old(srv.log) + Lines(Outcome(Asker(c, srv.respond, old(srv.log)), [], StringOf(state.name), state).sent)
    ensures r == Outcome(Asker(c, srv.respond, old(srv.log)), [], StringOf(state.name), state).result
  {
    assert srv.log == srv.log + Lines([]);
    var m, err := ReadRepoState(c, srv, StringOf(state.name), state, srv.log, []);
    if err.Some? {
      return Failure(err.value);
    }
    return Success(m);
  }

  function DeleteSteps(state: RepositoryModel): seq<Step> {
    [Step(Commands.RepoDelete(StringOf(state.name)), "Error deleting repository")]
  }

  method Delete(c: Ssh.Client, srv: Ssh.Server, state: RepositoryModel) returns (err: Option<Diag>)
    modifies srv
    ensures var t := Perform(Asker(c, srv.respond, old(srv.log)), DeleteSteps(state));
      srv.log == old(srv.log) + Lines(t.sent) && err == t.failure
  {
    NothingDone(DeleteSteps(state));
    err := IssueAll(c, srv, DeleteSteps(state), srv.log, []);
  }

  /** The model an import starts from: only the name, taken from the import ID. */
  function ImportModel(id: string): RepositoryModel {
    RepositoryModel(Null, Known(id), Null, Null, Null, Null)
  }

  method ImportState(c: Ssh.Client, srv: Ssh.Server, id: string) returns (r: Result<RepositoryModel, Diag>)
    modifies srv
    ensures srv.log == old(srv.log) + Lines(Outcome(Asker(c, srv.respond, old(srv.log)), [], id, ImportModel(id)).sent)
    ensures r == Outcome(Asker(c, srv.respond, old(srv.log)), [], id, ImportModel(id)).result
  {
    var model := RepositoryModel(Null, Null, Null, Null, Null, Null);
    model := model.(name := Known(id));
    assert srv.log == srv.log + Lines([]);
    var m, err := ReadRepoState(c, srv, id, model, srv.log, []);
    if err.Some? {
      return Failure(err.value);
    }
    return Success(m);
  }
}
