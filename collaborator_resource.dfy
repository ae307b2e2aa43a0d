/**
 * The `softserve_repository_collaborator` resource: adding a collaborator
 * with an access level (also how the level is changed), removing it,
 * importing it from a `repository/username` ID, and reading it back from the
 * repository's collaborator listing.
 */
module CollaboratorResource {
  import opened Wrappers
  import Commands
  import Parser
  import Ssh
  import opened Reconcile

  datatype CollaboratorModel = CollaboratorModel(
    id: Value<string>,
    repository: Value<string>,
    username: Value<string>,
    accessLevel: Value<string>)

  // ---------------------------------------------------------------------
  // The import ID
  // ---------------------------------------------------------------------

  /** The two halves of a `repository/username` import ID. */
  datatype ImportId = ImportId(repository: string, username: string)

  /** The position of the first `/` of s. */
  function FirstSlash(s: string): (i: nat)
    requires '/' in s
    ensures i < |s| && s[i] == '/' && '/' !in s[..i]
  {
    if s[0] == '/' then 0
    else
      assert '/' in s[1..] by {
        var k :| 0 <= k < |s| && s[k] == '/';
        assert s[1..][k - 1] == '/';
      }
      var j := FirstSlash(s[1..]);
      assert s[..j + 1] == [s[0]] + s[1..][..j];
      j + 1
  }

  /**
   * `strings.SplitN(id, "/", 2)` and the length check: the text before the
   * first `/` and everything after it, or "Invalid import ID" when there is
   * no `/`.
   */
  function SplitImportId(id: string): Result<ImportId, Diag> {
    if '/' in id then
      var i := FirstSlash(id);
      Success(ImportId(id[..i], id[i + 1..]))
    else
      Failure(Diag("Invalid import ID", "Expected format: repository/username, got: " + id))
  }

  /**
   * The split fails exactly when the ID has no `/`; otherwise it splits at the
   * first one, so the repository half has none and the username half keeps
   * any later ones, and joining the halves with `/` gives the ID back.
   */
  lemma SplitImportIdFirst(id: string)
    ensures SplitImportId(id).Failure? <==> '/' !in id
    ensures SplitImportId(id).Failure? ==> SplitImportId(id).error.summary == "Invalid import ID"
    ensures SplitImportId(id).Success? ==>
      var p := SplitImportId(id).value;
      '/' !in p.repository && p.repository + "/" + p.username == id
  {
    if '/' in id {
      var i := FirstSlash(id);
      assert id[..i] + "/" + id[i + 1..] == id;
    }
  }

  /** Importing `repository/username` recovers both, as long as the repository has no `/`. */
  lemma {:induction false} ImportIdRoundTrip(repo: string, username: string)
    requires '/' !in repo
    ensures SplitImportId(repo + "/" + username) == Success(ImportId(repo, username))
  {
    var id := repo + "/" + username;
    assert id[|repo|] == '/';
    var i := FirstSlash(id);
    assert id[..i] == repo;
    assert id[i + 1..] == username;
  }

  // ---------------------------------------------------------------------
  // Reading the state back
  // ---------------------------------------------------------------------

  /** The first entry of the listing for the user. */
  function FirstEntry(entries: seq<Parser.CollabEntry>, username: string): (r: Option<Parser.CollabEntry>)
  {
    if entries == [] then None
    else if entries[0].username == username then Some(entries[0])
    else FirstEntry(entries[1..], username)
  }

  /** FirstEntry finds an entry for the user exactly when there is one, and then the first. */
  lemma {:induction false} FirstEntrySpec(entries: seq<Parser.CollabEntry>, username: string)
    ensures FirstEntry(entries, username).None? <==> forall e :: e in entries ==> e.username != username
    ensures FirstEntry(entries, username).Some? ==>
      exists i :: 0 <= i < |entries| && entries[i] == FirstEntry(entries, username).value
        && entries[i].username == username && forall j :: 0 <= j < i ==> entries[j].username != username
  {
    if entries != [] && entries[0].username != username {
      FirstEntrySpec(entries[1..], username);
      assert entries == [entries[0]] + entries[1..];
      if FirstEntry(entries, username).Some? {
        var i :| 0 <= i < |entries[1..]| && entries[1..][i] == FirstEntry(entries, username).value
          && entries[1..][i].username == username && forall j :: 0 <= j < i ==> entries[1..][j].username != username;
        assert entries[i + 1] == entries[1..][i];
        forall j | 0 <= j < i + 1
          ensures entries[j].username != username
        {
          if j > 0 {
            assert entries[j] == entries[1..][j - 1];
          }
        }
      }
    } else if entries != [] {
      assert entries[0] in entries;
    }
  }

  /** The access level stored for a listing entry: "read-write" when the listing shows none. */
  function LevelOf(e: Parser.CollabEntry): string {
    if e.accessLevel == "" then "read-write" else e.accessLevel
  }

  /** The error for a user missing from the listing, with %q quoting. */
  function NotFound(repo: string, username: string): Diag {
    Diag("Collaborator not found",
         "User " + Commands.Quote(username) + " is not a collaborator on repository " + Commands.Quote(repo))
  }

  /**
   * readCollabState given what CollabList returned: the first entry for the
   * user sets the ID `repo/username`, both names and the level; with no such
   * entry, or on an error, the model is left as it was.
   */
  function CollabRead(list: Result<seq<Parser.CollabEntry>, string>, repo: string, username: string,
                      model: CollaboratorModel): Loaded<CollaboratorModel>
  {
    match list
    case Failure(e) => Loaded(model, Some(Diag("Error listing collaborators", e)))
    case Success(entries) =>
      match FirstEntry(entries, username)
      case None => Loaded(model, Some(NotFound(repo, username)))
      case Some(e) =>
        Loaded(model.(id := Known(repo + "/" + username), repository := Known(repo), username := Known(username),
                      accessLevel := Known(LevelOf(e))), None)
  }

  /**
   * The state read back: the ID is `repo/username`, which an import splits
   * back into the two when the repository has no `/`; an empty level reads
   * as "read-write"; a missing user is "Collaborator not found", told apart
   * from a failed listing; on any error the model is untouched.
   */
  lemma CollabReadSpec(list: Result<seq<Parser.CollabEntry>, string>, repo: string, username: string,
                       model: CollaboratorModel)
    ensures var r := CollabRead(list, repo, username, model);
      && (r.failure.Some? ==> r.model == model)
      && (list.Failure? ==> r.failure == Some(Diag("Error listing collaborators", list.error)))
      && (list.Success? ==>
            && (r.failure.Some? <==> forall e :: e in list.value ==> e.username != username)
            && (r.failure.Some? ==> r.failure.value.summary == "Collaborator not found")
            && (r.failure.None? ==>
                  && r.model.id == Known(repo + "/" + username)
                  && r.model.repository == Known(repo) && r.model.username == Known(username)
                  && r.model.accessLevel.Known? && r.model.accessLevel.value != ""
                  && exists e :: e in list.value && e.username == username && r.model.accessLevel.value == LevelOf(e)))
    ensures var r := CollabRead(list, repo, username, model);
      r.failure.None? && '/' !in repo ==> SplitImportId(r.model.id.value) == Success(ImportId(repo, username))
  {
    if list.Success? {
      FirstEntrySpec(list.value, username);
    }
    var r := CollabRead(list, repo, username, model);
    if r.failure.None? && '/' !in repo {
      ImportIdRoundTrip(repo, username);
    }
  }

  method ReadCollabState(c: Ssh.Client, srv: Ssh.Server, repo: string, username: string, model: CollaboratorModel,
                         ghost before: seq<string>, ghost sent: seq<Commands.Command>)
    returns (m: CollaboratorModel, err: Option<Diag>)
    requires srv.log == before + Lines(sent)
    modifies srv
    ensures srv.log == before + Lines(sent + [Commands.CollabList(repo)])
    ensures Loaded(m, err) == CollabRead(CollabListFrom(Asker(c, srv.respond, before)(sent, Commands.CollabList(repo))), repo, username, model)
  {
    var collabs := ListCollaborators(c, srv, repo, before, sent);
    if collabs.Failure? {
      return model, Some(Diag("Error listing collaborators", collabs.error));
    }
    m, err := FindCollaborator(collabs.value, repo, username, model);
  }

  /** `r.client.CollabList(ctx, repo)`: one more command line, and the listing or the error. */
  method ListCollaborators(c: Ssh.Client, srv: Ssh.Server, repo: string,
                           ghost before: seq<string>, ghost sent: seq<Commands.Command>)
    returns (collabs: Result<seq<Parser.CollabEntry>, string>)
    requires srv.log == before + Lines(sent)
    modifies srv
    ensures srv.log == before + Lines(sent + [Commands.CollabList(repo)])
    ensures collabs == CollabListFrom(Asker(c, srv.respond, before)(sent, Commands.CollabList(repo)))
  {
    LinesSnoc(sent, Commands.CollabList(repo));
    ghost var answer := Ssh.Answer(c, srv.respond, srv.log, Commands.Render(Commands.CollabList(repo)));
    assert Asker(c, srv.respond, before)(sent, Commands.CollabList(repo)) == answer;
    collabs := Ssh.CollabList(c, srv, repo);
  }

  /** The loop over the listing: the first entry for the user fills in the model. */
  method FindCollaborator(entries: seq<Parser.CollabEntry>, repo: string, username: string, model: CollaboratorModel)
    returns (m: CollaboratorModel, err: Option<Diag>)
    ensures Loaded(m, err) == CollabRead(Success(entries), repo, username, model)
  {
    m := model;
    var i := 0;
    while i < |entries|
      invariant 0 <= i <= |entries|
      invariant FirstEntry(entries[i..], username) == FirstEntry(entries, username)
    {
      assert entries[i..] == [entries[i]] + entries[i + 1..];
      if entries[i].username == username {
        m := m.(id := Known(repo + "/" + username));
        m := m.(repository := Known(repo));
        m := m.(username := Known(username));
        var accessLevel := entries[i].accessLevel;
        if accessLevel == "" {
          accessLevel := "read-write";
        }
        m := m.(accessLevel := Known(accessLevel));
        return m, None;
      }
      i := i + 1;
    }
    return m, Some(NotFound(repo, username));
  }

  /** CollabList given the answer to `repo collab list`. */
  function CollabListFrom(answer: Result<string, string>): Result<seq<Parser.CollabEntry>, string> {
    match answer
    case Failure(e) => Failure(e)
    case Success(out) => Success(Parser.CollabListOf(out))
  }

  /** The outcome of the steps followed, when they all succeeded, by the read. */
  function Outcome(ask: Ask, steps: seq<Step>, repo: string, username: string, model: CollaboratorModel)
    : Done<CollaboratorModel>
  {
    var t := Perform(ask, steps);
    if t.failure.Some? then Done(t.sent, Failure(t.failure.value))
    else
      var read := CollabRead(CollabListFrom(ask(t.sent, Commands.CollabList(repo))), repo, username, model);
      Done(t.sent + [Commands.CollabList(repo)],
           if read.failure.Some? then Failure(read.failure.value) else Success(read.model))
  }

  // ---------------------------------------------------------------------
  // Create, Update and Delete
  // ---------------------------------------------------------------------

  /** `repo collab add` with the plan's names and level, reported under `summary` if it fails. */
  function AddSteps(plan: CollaboratorModel, summary: string): seq<Step> {
    [Step(Commands.CollabAdd(StringOf(plan.repository), StringOf(plan.username), StringOf(plan.accessLevel)), summary)]
  }

  /**
   * Create and Update both send the one `repo collab add` line, the level
   * last and only when the plan gives one, and never a removal; they differ
   * only in the summary of the error.
   */
  lemma AddLines(plan: CollaboratorModel, summary: string)
    ensures var repo, username, level := StringOf(plan.repository), StringOf(plan.username), StringOf(plan.accessLevel);
      && |AddSteps(plan, summary)| == 1
      && Lines(CommandsOf(AddSteps(plan, summary))) ==
           ["repo collab add " + repo + " " + username + (if level != "" then " " + level else "")]
      && !AddSteps(plan, summary)[0].command.CollabRemove?
  {
    Commands.CollabAddLine(StringOf(plan.repository), StringOf(plan.username), StringOf(plan.accessLevel));
  }

  /** `repo collab add`, then the read; Create and Update differ only in the summary of the error. */
  method Add(c: Ssh.Client, srv: Ssh.Server, plan: CollaboratorModel, summary: string)
    returns (r: Result<CollaboratorModel, Diag>)
    modifies srv
    ensures srv.log == old(srv.log) + Lines(Outcome(Asker(c, srv.respond, old(srv.log)), AddSteps(plan, summary),
                                                     StringOf(plan.repository), StringOf(plan.username), plan).sent)
    ensures r == Outcome(Asker(c, srv.respond, old(srv.log)), AddSteps(plan, summary),
                         StringOf(plan.repository), StringOf(plan.username), plan).result
  {
    ghost var before := srv.log;
    var repo := StringOf(plan.repository);
    var username := StringOf(plan.username);
    NothingDone(AddSteps(plan, summary));
    var failure := IssueAll(c, srv, AddSteps(plan, summary), before, []);
    if failure.Some? {
      return Failure(failure.value);
    }
    var m, err := ReadCollabState(c, srv, repo, username, plan, before, Perform(Asker(c, srv.respond, before), AddSteps(plan, summary)).sent);
    if err.Some? {
      return Failure(err.value);
    }
    return Success(m);
  }

  method Create(c: Ssh.Client, srv: Ssh.Server, plan: CollaboratorModel) returns (r: Result<CollaboratorModel, Diag>)
    modifies srv
    ensures srv.log == old(srv.log) + Lines(Outcome(Asker(c, srv.respond, old(srv.log)), AddSteps(plan, "Error adding collaborator"),
                                                     StringOf(plan.repository), StringOf(plan.username), plan).sent)
    ensures r == Outcome(Asker(c, srv.respond, old(srv.log)), AddSteps(plan, "Error adding collaborator"),
                         StringOf(plan.repository), StringOf(plan.username), plan).result
  {
    r := Add(c, srv, plan, "Error adding collaborator");
  }

  /** The level is changed by adding the collaborator again; nothing is diffed or removed. */
  method Update(c: Ssh.Client, srv: Ssh.Server, plan: CollaboratorModel) returns (r: Result<CollaboratorModel, Diag>)
    modifies srv
    ensures srv.log == old(srv.log) + Lines(Outcome(Asker(c, srv.respond, old(srv.log)), AddSteps(plan, "Error updating collaborator"),
                                                     StringOf(plan.repository), StringOf(plan.username), plan).sent)
    ensures r == Outcome(Asker(c, srv.respond, old(srv.log)), AddSteps(plan, "Error updating collaborator"),
                         StringOf(plan.repository), StringOf(plan.username), plan).result
  {
    r := Add(c, srv, plan, "Error updating collaborator");
  }

  method Read(c: Ssh.Client, srv: Ssh.Server, state: CollaboratorModel) returns (r: Result<CollaboratorModel, Diag>)
    modifies srv
    ensures srv.log == old(srv.log) + Lines(Outcome(Asker(c, srv.respond, old(srv.log)), [],
                                                     StringOf(state.repository), StringOf(state.username), state).sent)
    ensures r == Outcome(Asker(c, srv.respond, old(srv.log)), [], StringOf(state.repository), StringOf(state.username), state).result
  {
    assert srv.log == srv.log + Lines([]);
    var m, err := ReadCollabState(c, srv, StringOf(state.repository), StringOf(state.username), state, srv.log, []);
    if err.Some? {
      return Failure(err.value);
    }
    return Success(m);
  }

  function DeleteSteps(state: CollaboratorModel): seq<Step> {
    [Step(Commands.CollabRemove(StringOf(state.repository), StringOf(state.username)), "Error removing collaborator")]
  }

  method Delete(c: Ssh.Client, srv: Ssh.Server, state: CollaboratorModel) returns (err: Option<Diag>)
    modifies srv
    ensures var t := Perform(Asker(c, srv.respond, old(srv.log)), DeleteSteps(state));
      srv.log == old(srv.log) + Lines(t.sent) && err == t.failure
  {
    NothingDone(DeleteSteps(state));
    err := IssueAll(c, srv, DeleteSteps(state), srv.log, []);
  }

  // ---------------------------------------------------------------------
  // ImportState
  // ---------------------------------------------------------------------

  /** The model an import starts from: the two halves of the ID. */
  function ImportModel(p: ImportId): CollaboratorModel {
    CollaboratorModel(Null, Known(p.repository), Known(p.username), Null)
  }

  /** An ID without `/` is rejected before anything is sent; otherwise its halves are read back. */
  function ImportOutcome(ask: Ask, id: string): Done<CollaboratorModel> {
    match SplitImportId(id)
    case Failure(d) => Done([], Failure(d))
    case Success(p) => Outcome(ask, [], p.repository, p.username, ImportModel(p))
  }

  method ImportState(c: Ssh.Client, srv: Ssh.Server, id: string) returns (r: Result<CollaboratorModel, Diag>)
    modifies srv
    ensures srv.log == old(srv.log) + Lines(ImportOutcome(Asker(c, srv.respond, old(srv.log)), id).sent)
    ensures r == ImportOutcome(Asker(c, srv.respond, old(srv.log)), id).result
  {
    var parts := SplitImportId(id);
    if parts.Failure? {
      assert srv.log == srv.log + Lines([]);
      return Failure(parts.error);
    }
    var model := CollaboratorModel(Null, Null, Null, Null);
    model := model.(repository := Known(parts.value.repository));
    model := model.(username := Known(parts.value.username));
    assert srv.log == srv.log + Lines([]);
    var m, err := ReadCollabState(c, srv, parts.value.repository, parts.value.username, model, srv.log, []);
    if err.Some? {
      return Failure(err.value);
    }
    return Success(m);
  }
}
