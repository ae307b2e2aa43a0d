/**
 * The `softserve_user` resource: creating a user with its admin flag and
 * public keys, updating the admin flag and the key set (removals first, then
 * additions), deleting the user, importing it by username, and reading its
 * state back from `user info`.
 */
module UserResource {
  import opened Wrappers
  import Commands
  import Parser
  import Ssh
  import Order
  import opened Reconcile

  /** The public keys are a Terraform set of strings, held as the list of its elements. */
  datatype UserModel = UserModel(
    id: Value<string>,
    username: Value<string>,
    admin: Value<bool>,
    publicKeys: Value<seq<string>>)

  // ---------------------------------------------------------------------
  // Key sets
  // ---------------------------------------------------------------------

  /** The distinct keys of a list. */
  function Elements(keys: seq<string>): set<string> {
    set k | k in keys
  }

  /** toStringSet: the map from each key of the list to the empty struct, as the set of its keys. */
  method ToStringSet(s: seq<string>) returns (m: set<string>)
    ensures forall k :: k in m <==> k in s
    ensures |m| <= |s|
  {
    m := {};
    var i := 0;
    while i < |s|
      invariant 0 <= i <= |s|
      invariant forall k :: k in m <==> k in s[..i]
      invariant |m| <= i
    {
      assert s[..i + 1] == s[..i] + [s[i]];
      m := m + {s[i]};
      i := i + 1;
    }
    assert s[..i] == s;
  }

  /** A nil or empty list gives the empty set. */
  lemma ElementsOfEmpty()
    ensures Elements([]) == {}
  {
  }

  /** types.Set's Equal: the same state and, when both are known, the same elements. */
  predicate KeysEqual(a: Value<seq<string>>, b: Value<seq<string>>) {
    if a.Known? && b.Known? then Elements(a.value) == Elements(b.value) else a == b
  }

  /** The error ElementsAs reports for a set whose value is not known yet. */
  const ConversionError := Diag("Value Conversion Error", "Received unknown value, however the target type cannot handle unknown values.")

  /**
   * The keys a set attribute holds: a null set gives no keys, an unknown one
   * the conversion error, and a known one its elements.
   */
  function KeysOf(v: Value<seq<string>>): Result<seq<string>, Diag> {
    match v
    case Null => Success([])
    case Unknown => Failure(ConversionError)
    case Known(keys) => Success(keys)
  }

  /** The order of a range over the set `s`, keeping the keys missing from `other`. */
  ghost predicate Enumerates(xs: seq<string>, s: set<string>) {
    (forall x :: x in xs <==> x in s) && |xs| == |s|
  }

  /**
   * Walks the set `s` and keeps the keys that `other` lacks: each such key
   * once, in the order the walk visits them, which Go leaves unspecified.
   */
  method Missing(s: set<string>, other: set<string>) returns (xs: seq<string>)
    ensures Enumerates(xs, s - other)
  {
    xs := [];
    var rest := s;
    while rest != {}
      invariant rest <= s
      invariant Enumerates(xs, (s - rest) - other)
      decreases |rest|
    {
      var key :| key in rest;
      MissingStep(xs, s, other, rest, key);
      if key !in other {
        xs := xs + [key];
      }
      rest := rest - {key};
    }
    MissingDone(xs, s, other);
  }

  /** Visiting one more key of `s` keeps it when `other` lacks it. */
  lemma MissingStep(xs: seq<string>, s: set<string>, other: set<string>, rest: set<string>, key: string)
    requires Enumerates(xs, (s - rest) - other) && key in rest && rest <= s
    ensures Enumerates(if key in other then xs else xs + [key], (s - (rest - {key})) - other)
  {
    var seen := (s - rest) - other;
    assert key !in seen;
    if key in other {
      assert (s - (rest - {key})) - other == seen;
    } else {
      assert (s - (rest - {key})) - other == seen + {key};
    }
  }

  lemma MissingDone(xs: seq<string>, s: set<string>, other: set<string>)
    requires Enumerates(xs, (s - {}) - other)
    ensures Enumerates(xs, s - other)
  {
    assert s - {} == s;
  }

  // ---------------------------------------------------------------------
  // Reading the state back
  // ---------------------------------------------------------------------

  /** UserInfo given the answer to `user info`: the parsed record, or the error. */
  function UserInfoFrom(answer: Result<string, string>): Result<Parser.UserInfoResult, string> {
    match answer
    case Failure(e) => Failure(e)
    case Success(out) => Parser.UserInfoOf(out)
  }

  /**
   * readUserState given what UserInfo returned: on an error the model is left
   * as it was; otherwise the ID is the username asked for, the name and the
   * admin flag are the server's, and the keys are the server's sorted, or,
   * when the server lists none, an empty set unless the model's was null.
   */
  function UserRead(info: Result<Parser.UserInfoResult, string>, username: string, model: UserModel): Loaded<UserModel> {
    match info
    case Failure(e) => Loaded(model, Some(Diag("Error reading user", e)))
    case Success(i) =>
      var keys :=
        if |i.publicKeys| > 0 then Known(Order.Sort(i.publicKeys))
        else if !model.publicKeys.Null? then Known([])
        else model.publicKeys;
      Loaded(model.(id := Known(username), username := Known(i.username), admin := Known(i.admin), publicKeys := keys), None)
  }

  /**
   * The state read back: the ID is the username asked for; the keys are the
   * server's, ascending; with none on the server a null set stays null and
   * any other becomes empty; on an error the model is untouched.
   */
  lemma UserReadKeys(info: Result<Parser.UserInfoResult, string>, username: string, model: UserModel)
    ensures var r := UserRead(info, username, model);
      && (r.failure.Some? <==> info.Failure?)
      && (r.failure.Some? ==> r.model == model && r.failure.value.summary == "Error reading user")
      && (info.Success? ==>
            && r.model.id == Known(username) && r.model.username == Known(info.value.username)
            && r.model.admin == Known(info.value.admin)
            && (|info.value.publicKeys| > 0 ==>
                  && r.model.publicKeys.Known? && Order.Sorted(r.model.publicKeys.value)
                  && multiset(r.model.publicKeys.value) == multiset(info.value.publicKeys))
            && (|info.value.publicKeys| == 0 ==>
                  r.model.publicKeys == (if model.publicKeys.Null? then Null else Known([]))))
  {
  }

  method ReadUserState(c: Ssh.Client, srv: Ssh.Server, username: string, model: UserModel,
                       ghost before: seq<string>, ghost sent: seq<Commands.Command>)
    returns (m: UserModel, err: Option<Diag>)
    requires srv.log == before + Lines(sent)
    modifies srv
    ensures srv.log == before + Lines(sent + [Commands.UserInfo(username)])
    ensures Loaded(m, err) == UserRead(UserInfoFrom(Asker(c, srv.respond, before)(sent, Commands.UserInfo(username))), username, model)
  {
    LinesSnoc(sent, Commands.UserInfo(username));
    ghost var answer := Ssh.Answer(c, srv.respond, srv.log, Commands.Render(Commands.UserInfo(username)));
    assert Asker(c, srv.respond, before)(sent, Commands.UserInfo(username)) == answer;
    m := model;
    var info := Ssh.UserInfo(c, srv, username);
    assert info == UserInfoFrom(answer);
    if info.Failure? {
      return m, Some(Diag("Error reading user", info.error));
    }
    m := m.(id := Known(username));
    m := m.(username := Known(info.value.username));
    m := m.(admin := Known(info.value.admin));
    if |info.value.publicKeys| > 0 {
      var sorted := Order.Sort(info.value.publicKeys);
      m := m.(publicKeys := Known(sorted));
    } else if !m.publicKeys.Null? {
      m := m.(publicKeys := Known([]));
    }
    return m, None;
  }

  /** The outcome of the steps followed, when they all succeeded, by the read. */
  function Outcome(ask: Ask, steps: seq<Step>, username: string, model: UserModel): Done<UserModel> {
    var t := Perform(ask, steps);
    if t.failure.Some? then Done(t.sent, Failure(t.failure.value))
    else
      var read := UserRead(UserInfoFrom(ask(t.sent, Commands.UserInfo(username))), username, model);
      Done(t.sent + [Commands.UserInfo(username)],
           if read.failure.Some? then Failure(read.failure.value) else Success(read.model))
  }

  /**
   * A failing command ends the operation: nothing is sent after it, the state
   * is not read back, and its error is the one reported; otherwise every step
   * is sent and then `user info`.
   */
  lemma OutcomeStops(ask: Ask, steps: seq<Step>, username: string, model: UserModel)
    ensures var t := Perform(ask, steps);
      var d := Outcome(ask, steps, username, model);
      && (t.failure.Some? ==>
            && d.result.Failure? && d.sent == t.sent && 0 < |d.sent| <= |steps|
            && d.result.error.summary == steps[|d.sent| - 1].summary)
      && (t.failure.None? ==>
            && |d.sent| == |steps| + 1 && d.sent[|steps|] == Commands.UserInfo(username)
            && forall i :: 0 <= i < |steps| ==> d.sent[i] == steps[i].command)
  {
    PerformSent(ask, steps);
  }

  // ---------------------------------------------------------------------
  // Create
  // ---------------------------------------------------------------------

  /** `user create` with the plan's admin flag and its keys, none unless the set is known. */
  function CreateSteps(plan: UserModel): seq<Step> {
    var keys := if plan.publicKeys.Known? then plan.publicKeys.value else [];
    [Step(Commands.UserCreate(StringOf(plan.username), BoolOf(plan.admin), keys), "Error creating user")]
  }

  /** Create sends one line: `user create`, ` -a` for an admin, and one ` -k` per planned key, in order. */
  lemma CreateLines(plan: UserModel)
    ensures var keys := if plan.publicKeys.Known? then plan.publicKeys.value else [];
      Lines(CommandsOf(CreateSteps(plan))) ==
        ["user create " + StringOf(plan.username) + (if plan.admin == Known(true) then " -a" else "") + Commands.KeyArgs(keys)]
  {
    var keys := if plan.publicKeys.Known? then plan.publicKeys.value else [];
    Commands.UserCreateLine(StringOf(plan.username), BoolOf(plan.admin), keys);
  }

  method Create(c: Ssh.Client, srv: Ssh.Server, plan: UserModel) returns (r: Result<UserModel, Diag>)
    modifies srv
    ensures srv.log == old(srv.log) + Lines(Outcome(Asker(c, srv.respond, old(srv.log)), CreateSteps(plan), StringOf(plan.username), plan).sent)
    ensures r == Outcome(Asker(c, srv.respond, old(srv.log)), CreateSteps(plan), StringOf(plan.username), plan).result
  {
    ghost var before := srv.log;
    var username := StringOf(plan.username);
    NothingDone(CreateSteps(plan));
    var failure := IssueAll(c, srv, CreateSteps(plan), before, []);
    if failure.Some? {
      return Failure(failure.value);
    }
    var m, err := ReadUserState(c, srv, username, plan, before, Perform(Asker(c, srv.respond, before), CreateSteps(plan)).sent);
    if err.Some? {
      return Failure(err.value);
    }
    return Success(m);
  }

  // ---------------------------------------------------------------------
  // Update
  // ---------------------------------------------------------------------

  function SetAdmin(plan: UserModel): Step {
    Step(Commands.UserSetAdmin(StringOf(plan.username), BoolOf(plan.admin)), "Error updating admin status")
  }

  function RemoveKey(username: string, key: string): Step {
    Step(Commands.UserRemovePublicKey(username, key), "Error removing public key")
  }

  function AddKey(username: string, key: string): Step {
    Step(Commands.UserAddPublicKey(username, key), "Error adding public key")
  }

  /** `user set-admin` when the admin flag changed. */
  function AdminStep(plan: UserModel, state: UserModel): seq<Step> {
    if plan.admin != state.admin then [SetAdmin(plan)] else []
  }

  /** The removals, in the order given, then the additions, in the order given. */
  function KeySteps(username: string, removed: seq<string>, added: seq<string>): seq<Step> {
    seq(|removed|, i requires 0 <= i < |removed| => RemoveKey(username, removed[i]))
    + seq(|added|, i requires 0 <= i < |added| => AddKey(username, added[i]))
  }

  /** The key sets can be compared: neither is unknown. */
  predicate Comparable(plan: UserModel, state: UserModel) {
    KeysOf(plan.publicKeys).Success? && KeysOf(state.publicKeys).Success?
  }

  /**
   * The orders in which Update removes and adds keys: each key of the prior
   * set missing from the plan's, and each key of the plan's missing from the
   * prior set, once; none when the sets are equal or cannot be compared.
   */
  ghost predicate KeyOrders(plan: UserModel, state: UserModel, removed: seq<string>, added: seq<string>) {
    if KeysEqual(plan.publicKeys, state.publicKeys) || !Comparable(plan, state) then removed == [] && added == []
    else
      var planKeys, stateKeys := Elements(KeysOf(plan.publicKeys).value), Elements(KeysOf(state.publicKeys).value);
      Enumerates(removed, stateKeys - planKeys) && Enumerates(added, planKeys - stateKeys)
  }

  /** The commands Update sends before reading back, when the key sets can be compared. */
  function UpdateSteps(plan: UserModel, state: UserModel, removed: seq<string>, added: seq<string>): seq<Step> {
    AdminStep(plan, state)
    + if KeysEqual(plan.publicKeys, state.publicKeys) then [] else KeySteps(StringOf(plan.username), removed, added)
  }

  /**
   * Update: `user set-admin` if needed; then, when the key sets differ, an
   * unknown set is an error, and otherwise the removals, the additions and
   * the read.
   */
  function UpdateOutcome(ask: Ask, plan: UserModel, state: UserModel, removed: seq<string>, added: seq<string>): Done<UserModel> {
    if KeysEqual(plan.publicKeys, state.publicKeys) || Comparable(plan, state) then
      Outcome(ask, UpdateSteps(plan, state, removed, added), StringOf(plan.username), plan)
    else
      var t := Perform(ask, AdminStep(plan, state));
      var conversion := if KeysOf(plan.publicKeys).Failure? then KeysOf(plan.publicKeys).error else KeysOf(state.publicKeys).error;
      Done(t.sent, Failure(if t.failure.Some? then t.failure.value else conversion))
  }

  /**
   * `user set-admin` is sent exactly when the admin flag changed, and then
   * first; everything after it is a key command.
   */
  lemma UpdateAdminFirst(plan: UserModel, state: UserModel, removed: seq<string>, added: seq<string>)
    ensures var steps := UpdateSteps(plan, state, removed, added);
      && (plan.admin != state.admin <==> |steps| > 0 && steps[0] == SetAdmin(plan))
      && forall i :: (if plan.admin != state.admin then 1 else 0) <= i < |steps| ==>
           steps[i].command.UserRemovePublicKey? || steps[i].command.UserAddPublicKey?
  {
    var steps := UpdateSteps(plan, state, removed, added);
    var keys := if KeysEqual(plan.publicKeys, state.publicKeys) then [] else KeySteps(StringOf(plan.username), removed, added);
    var a := AdminStep(plan, state);
    assert steps == a + keys;
    forall i | |a| <= i < |steps|
      ensures steps[i].command.UserRemovePublicKey? || steps[i].command.UserAddPublicKey?
    {
      assert steps[i] == keys[i - |a|];
    }
  }

  /**
   * The key commands remove exactly the keys of the prior set missing from
   * the plan's and add exactly the plan's keys missing from the prior set;
   * every removal comes before every addition; no key is both removed and
   * added; and removing then adding turns the prior set into the plan's.
   */
  lemma KeyDiff(username: string, planKeys: set<string>, stateKeys: set<string>, removed: seq<string>, added: seq<string>)
    requires Enumerates(removed, stateKeys - planKeys) && Enumerates(added, planKeys - stateKeys)
    ensures var steps := KeySteps(username, removed, added);
      && (forall k :: RemoveKey(username, k) in steps <==> k in stateKeys && k !in planKeys)
      && (forall k :: AddKey(username, k) in steps <==> k in planKeys && k !in stateKeys)
      && (forall i :: 0 <= i < |removed| ==> steps[i].command.UserRemovePublicKey?)
      && (forall i :: |removed| <= i < |steps| ==> steps[i].command.UserAddPublicKey?)
      && (forall k :: !(RemoveKey(username, k) in steps && AddKey(username, k) in steps))
      && (stateKeys - Elements(removed)) + Elements(added) == planKeys
      && (steps == [] <==> planKeys == stateKeys)
  {
    KeyStepsMembers(username, removed, added);
    KeySetsMeet(planKeys, stateKeys, removed, added);
    if planKeys != stateKeys {
      if k :| k in planKeys && k !in stateKeys {
        assert k in added;
      } else {
        var k :| k in stateKeys && k !in planKeys;
        assert k in removed;
      }
    }
  }

  /** The removals come first, one per key of `removed`, then the additions, one per key of `added`. */
  lemma KeyStepsMembers(username: string, removed: seq<string>, added: seq<string>)
    ensures var steps := KeySteps(username, removed, added);
      && (forall k :: RemoveKey(username, k) in steps <==> k in removed)
      && (forall k :: AddKey(username, k) in steps <==> k in added)
      && (forall i :: 0 <= i < |removed| ==> steps[i].command.UserRemovePublicKey?)
      && (forall i :: |removed| <= i < |steps| ==> steps[i].command.UserAddPublicKey?)
  {
    var rs := seq(|removed|, i requires 0 <= i < |removed| => RemoveKey(username, removed[i]));
    var adds := seq(|added|, i requires 0 <= i < |added| => AddKey(username, added[i]));
    assert KeySteps(username, removed, added) == rs + adds;
    RemovalsMembers(username, removed);
    AdditionsMembers(username, added);
    forall k
      ensures RemoveKey(username, k) !in adds && AddKey(username, k) !in rs
    {
    }
  }

  lemma RemovalsMembers(username: string, removed: seq<string>)
    ensures var rs := seq(|removed|, i requires 0 <= i < |removed| => RemoveKey(username, removed[i]));
      forall k :: RemoveKey(username, k) in rs <==> k in removed
  {
    var rs := seq(|removed|, i requires 0 <= i < |removed| => RemoveKey(username, removed[i]));
    forall k
      ensures RemoveKey(username, k) in rs <==> k in removed
    {
      if RemoveKey(username, k) in rs {
        var i :| 0 <= i < |rs| && rs[i] == RemoveKey(username, k);
        assert removed[i] == k;
      }
      if k in removed {
        var i :| 0 <= i < |removed| && removed[i] == k;
        assert rs[i] == RemoveKey(username, k);
      }
    }
  }

  lemma AdditionsMembers(username: string, added: seq<string>)
    ensures var adds := seq(|added|, i requires 0 <= i < |added| => AddKey(username, added[i]));
      forall k :: AddKey(username, k) in adds <==> k in added
  {
    var adds := seq(|added|, i requires 0 <= i < |added| => AddKey(username, added[i]));
    forall k
      ensures AddKey(username, k) in adds <==> k in added
    {
      if AddKey(username, k) in adds {
        var i :| 0 <= i < |adds| && adds[i] == AddKey(username, k);
        assert added[i] == k;
      }
      if k in added {
        var i :| 0 <= i < |added| && added[i] == k;
        assert adds[i] == AddKey(username, k);
      }
    }
  }

  /** Removing the keys only the state has and adding those only the plan has gives the plan's keys. */
  lemma KeySetsMeet(planKeys: set<string>, stateKeys: set<string>, removed: seq<string>, added: seq<string>)
    requires Enumerates(removed, stateKeys - planKeys) && Enumerates(added, planKeys - stateKeys)
    ensures (stateKeys - Elements(removed)) + Elements(added) == planKeys
  {
  }


  /** With the plan equal to the prior state, Update sends nothing but the read. */
  lemma UpdateUnchanged(ask: Ask, plan: UserModel, state: UserModel, removed: seq<string>, added: seq<string>)
    requires plan.admin == state.admin && KeysEqual(plan.publicKeys, state.publicKeys)
    ensures UpdateSteps(plan, state, removed, added) == []
    ensures UpdateOutcome(ask, plan, state, removed, added).sent == [Commands.UserInfo(StringOf(plan.username))]
  {
  }

  /** A null key set on either side counts as an empty one. */
  lemma NullKeysEmpty(plan: UserModel, state: UserModel)
    requires plan.publicKeys.Null? && state.publicKeys.Known?
    ensures Comparable(plan, state)
    ensures Elements(KeysOf(plan.publicKeys).value) == {}
  {
  }

  /**
   * toStringSet on both lists, then the two range loops' choice of keys: the
   * prior keys the plan lacks, and the planned keys the prior state lacks.
   */
  method DiffKeys(planKeys: seq<string>, stateKeys: seq<string>) returns (removed: seq<string>, added: seq<string>)
    ensures Enumerates(removed, Elements(stateKeys) - Elements(planKeys))
    ensures Enumerates(added, Elements(planKeys) - Elements(stateKeys))
  {
    var planSet := ToStringSet(planKeys);
    var stateSet := ToStringSet(stateKeys);
    assert planSet == Elements(planKeys) && stateSet == Elements(stateKeys);
    removed := Missing(stateSet, planSet);
    added := Missing(planSet, stateSet);
  }

  /** When the key sets differ, the key commands follow `user set-admin`. */
  lemma UpdateStepsKeys(plan: UserModel, state: UserModel, removed: seq<string>, added: seq<string>)
    requires !KeysEqual(plan.publicKeys, state.publicKeys)
    ensures UpdateSteps(plan, state, removed, added) == AdminStep(plan, state) + KeySteps(StringOf(plan.username), removed, added)
  {
  }

  /**
   * The `if !plan.PublicKeys.Equal(state.PublicKeys)` block of Update, after
   * `user set-admin` went through: the conversion of both sets, then the
   * removals and the additions.
   */
  method UpdateKeys(c: Ssh.Client, srv: Ssh.Server, plan: UserModel, state: UserModel, ghost before: seq<string>)
    returns (failure: Option<Diag>, removed: seq<string>, added: seq<string>)
    requires !KeysEqual(plan.publicKeys, state.publicKeys)
    requires Perform(Asker(c, srv.respond, before), AdminStep(plan, state)).failure.None?
    requires srv.log == before + Lines(Perform(Asker(c, srv.respond, before), AdminStep(plan, state)).sent)
    modifies srv
    ensures KeyOrders(plan, state, removed, added)
    ensures !Comparable(plan, state) ==>
      && srv.log == old(srv.log)
      && failure == Some(if KeysOf(plan.publicKeys).Failure? then KeysOf(plan.publicKeys).error else KeysOf(state.publicKeys).error)
    ensures Comparable(plan, state) ==>
      && srv.log == before + Lines(Perform(Asker(c, srv.respond, before), UpdateSteps(plan, state, removed, added)).sent)
      && failure == Perform(Asker(c, srv.respond, before), UpdateSteps(plan, state, removed, added)).failure
  {
    removed, added := [], [];
    var planKeys := KeysOf(plan.publicKeys);
    var stateKeys := KeysOf(state.publicKeys);
    if planKeys.Failure? {
      return Some(planKeys.error), removed, added;
    }
    if stateKeys.Failure? {
      return Some(stateKeys.error), removed, added;
    }
    removed, added := DiffKeys(planKeys.value, stateKeys.value);
    UpdateStepsKeys(plan, state, removed, added);
    failure := IssueAll(c, srv, KeySteps(StringOf(plan.username), removed, added), before, AdminStep(plan, state));
  }

  lemma KeysUnchanged(plan: UserModel, state: UserModel, removed: seq<string>, added: seq<string>)
    requires KeysEqual(plan.publicKeys, state.publicKeys)
    ensures UpdateSteps(plan, state, removed, added) == AdminStep(plan, state)
  {
    assert AdminStep(plan, state) + [] == AdminStep(plan, state);
  }

  method Update(c: Ssh.Client, srv: Ssh.Server, plan: UserModel, state: UserModel)
    returns (r: Result<UserModel, Diag>, removed: seq<string>, added: seq<string>)
    modifies srv
    ensures Perform(Asker(c, srv.respond, old(srv.log)), AdminStep(plan, state)).failure.None? ==> KeyOrders(plan, state, removed, added)
    ensures srv.log == old(srv.log) + Lines(UpdateOutcome(Asker(c, srv.respond, old(srv.log)), plan, state, removed, added).sent)
    ensures r == UpdateOutcome(Asker(c, srv.respond, old(srv.log)), plan, state, removed, added).result
  {
    ghost var before := srv.log;
    ghost var ask := Asker(c, srv.respond, before);
    var username := StringOf(plan.username);
    removed, added := [], [];

    NothingDone(AdminStep(plan, state));
    var failure := IssueAll(c, srv, AdminStep(plan, state), before, []);
    if failure.Some? {
      UpdateAdminFails(ask, plan, state, removed, added);
      return Failure(failure.value), removed, added;
    }

    if !KeysEqual(plan.publicKeys, state.publicKeys) {
      failure, removed, added := UpdateKeys(c, srv, plan, state, before);
      if failure.Some? {
        return Failure(failure.value), removed, added;
      }
    } else {
      KeysUnchanged(plan, state, removed, added);
    }

    ghost var steps := UpdateSteps(plan, state, removed, added);
    var m, err := ReadUserState(c, srv, username, plan, before, Perform(ask, steps).sent);
    if err.Some? {
      return Failure(err.value), removed, added;
    }
    return Success(m), removed, added;
  }

  /** A failing `user set-admin` is the outcome of the whole update. */
  lemma UpdateAdminFails(ask: Ask, plan: UserModel, state: UserModel, removed: seq<string>, added: seq<string>)
    requires Perform(ask, AdminStep(plan, state)).failure.Some?
    ensures var t := Perform(ask, AdminStep(plan, state));
      UpdateOutcome(ask, plan, state, removed, added) == Done(t.sent, Failure(t.failure.value))
  {
    var a := AdminStep(plan, state);
    var rest := UpdateSteps(plan, state, removed, added)[|a|..];
    assert UpdateSteps(plan, state, removed, added) == a + rest;
    PerformPrefixFails(ask, a, rest);
  }

  // ---------------------------------------------------------------------
  // Read, Delete and ImportState
  // ---------------------------------------------------------------------

  method Read(c: Ssh.Client, srv: Ssh.Server, state: UserModel) returns (r: Result<UserModel, Diag>)
    modifies srv
    ensures srv.log == old(srv.log) + Lines(Outcome(Asker(c, srv.respond, old(srv.log)), [], StringOf(state.username), state).sent)
    ensures r == Outcome(Asker(c, srv.respond, old(srv.log)), [], StringOf(state.username), state).result
  {
    assert srv.log == srv.log + Lines([]);
    var m, err := ReadUserState(c, srv, StringOf(state.username), state, srv.log, []);
    if err.Some? {
      return Failure(err.value);
    }
    return Success(m);
  }

  function DeleteSteps(state: UserModel): seq<Step> {
    [Step(Commands.UserDelete(StringOf(state.username)), "Error deleting user")]
  }

  method Delete(c: Ssh.Client, srv: Ssh.Server, state: UserModel) returns (err: Option<Diag>)
    modifies srv
    ensures var t := Perform(Asker(c, srv.respond, old(srv.log)), DeleteSteps(state));
      srv.log == old(srv.log) + Lines(t.sent) && err == t.failure
  {
    NothingDone(DeleteSteps(state));
    err := IssueAll(c, srv, DeleteSteps(state), srv.log, []);
  }

  /** The model an import starts from: only the username, taken from the import ID. */
  function ImportModel(id: string): UserModel {
    UserModel(Null, Known(id), Null, Null)
  }

  method ImportState(c: Ssh.Client, srv: Ssh.Server, id: string) returns (r: Result<UserModel, Diag>)
    modifies srv
    ensures srv.log == old(srv.log) + Lines(Outcome(Asker(c, srv.respond, old(srv.log)), [], id, ImportModel(id)).sent)
    ensures r == Outcome(Asker(c, srv.respond, old(srv.log)), [], id, ImportModel(id)).result
  {
    var model := UserModel(Null, Null, Null, Null);
    model := model.(username := Known(id));
    assert srv.log == srv.log + Lines([]);
    var m, err := ReadUserState(c, srv, id, model, srv.log, []);
    if err.Some? {
      return Failure(err.value);
    }
    return Success(m);
  }
}
