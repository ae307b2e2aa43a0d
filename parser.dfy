/**
 * Reading the server's replies to `repo info`, `user info` and
 * `repo collab list`. Each reply is split into lines on "\n"; a labelled
 * line is `Label: value` (or a bare `Label:`).
 *
 * Every parser is a method with the loop the client runs, proved equal to a
 * specification function; the lemmas state what those functions mean.
 */
module Parser {
  import opened Wrappers
  import Text

  // ---------------------------------------------------------------------
  // Labelled lines
  // ---------------------------------------------------------------------

  datatype KeyValue = KeyValue(key: string, value: string)

  /**
   * One labelled line: split at the first ": " with both sides trimmed, or a
   * line that trims to `Label:` with an empty value; other lines carry none.
   */
  function ParseKeyValue(line: string): Option<KeyValue> {
    var idx := Text.Index(line, ": ");
    if idx < 0 then
      var t := Text.TrimSpace(line);
      if Text.HasSuffix(t, ":") then Some(KeyValue(t[..|t| - 1], "")) else None
    else
      Some(KeyValue(Text.TrimSpace(line[..idx]), Text.TrimSpace(line[idx + 2..])))
  }

  /**
   * A line yields a pair exactly when it holds ": " or trims to something
   * ending in ':'; the value is always trimmed, and a line without ": " is a
   * bare label with an empty value.
   */
  lemma ParseKeyValueShape(line: string)
    ensures ParseKeyValue(line).None? <==> !Text.Contains(line, ": ") && !Text.HasSuffix(Text.TrimSpace(line), ":")
    ensures ParseKeyValue(line).Some? ==> Text.Trimmed(ParseKeyValue(line).value.value)
    ensures ParseKeyValue(line).Some? && !Text.Contains(line, ": ") ==>
      ParseKeyValue(line).value.value == "" && Text.TrimSpace(line) == ParseKeyValue(line).value.key + ":"
  {
    var t := Text.TrimSpace(line);
    if Text.HasSuffix(t, ":") {
      assert t == t[..|t| - 1] + ":";
    }
  }

  /** Where ": " occurs, there is a colon. */
  lemma SeparatorHasColon(s: string)
    ensures Text.Contains(s, ": ") ==> ':' in s
  {
    var i := Text.Index(s, ": ");
    if i >= 0 {
      assert s[i..][..2] == ": ";
      assert s[i] == ':';
    }
  }

  /** In `name:`, ": " can only occur inside the name. */
  lemma SeparatorInBare(name: string)
    ensures Text.Contains(name + ":", ": ") ==> ':' in name
  {
    var s := name + ":";
    var i := Text.Index(s, ": ");
    if i >= 0 {
      assert s[i..][..2] == ": ";
      assert s[i] == ':' && i + 1 < |s|;
      assert s[i] == name[i];
    }
  }

  /** In `pre: post`, the first ": " is the one after pre, unless pre holds one itself. */
  lemma FirstSeparator(pre: string, post: string)
    ensures Text.Contains(pre, ": ") || Text.Index(pre + ": " + post, ": ") == |pre|
  {
    var s := pre + ": " + post;
    assert Text.OccursAt(s, ": ", |pre|) by {
      assert s[|pre|..][..2] == ": ";
    }
    var idx := Text.Index(s, ": ");
    if idx < |pre| {
      assert s[idx..][..2] == ": ";
      assert s[idx] == ':' && s[idx + 1] == ' ';
      assert s[|pre|] == ':';
      assert pre[idx..][..2] == ": ";
      Text.ContainsAt(pre, ": ", idx);
    }
  }

  /** A line `pre: post` whose label holds no ": " splits into the trimmed label and value. */
  lemma ParseKeyValueSplits(pre: string, post: string)
    requires !Text.Contains(pre, ": ")
    ensures ParseKeyValue(pre + ": " + post) == Some(KeyValue(Text.TrimSpace(pre), Text.TrimSpace(post)))
  {
    var s := pre + ": " + post;
    FirstSeparator(pre, post);
    assert s[..|pre|] == pre;
    assert s[|pre| + 2..] == post;
  }

  /** A bare `Label:` line yields the label and an empty value. */
  lemma ParseKeyValueBare(name: string)
    requires ':' !in name
    requires name == [] || !Text.IsSpace(name[0])
    ensures ParseKeyValue(name + ":") == Some(KeyValue(name, ""))
  {
    var s := name + ":";
    SeparatorInBare(name);
    assert Text.Trimmed(s);
    assert s[..|s| - 1] == name;
  }

  /** The labelled lines among `lines`, in order (parseKeyValues after the split). */
  function KeyValuesOf(lines: seq<string>): (r: seq<KeyValue>)
    ensures |r| <= |lines|
  {
    if lines == [] then []
    else
      var last := ParseKeyValue(lines[|lines| - 1]);
      KeyValuesOf(lines[..|lines| - 1]) + (if last.Some? then [last.value] else [])
  }

  /** The labelled lines of a reply, in order. */
  function ReplyPairs(output: string): seq<KeyValue> {
    KeyValuesOf(Text.Split(output, '\n'))
  }

  method ParseKeyValues(output: string) returns (kvs: seq<KeyValue>)
    ensures kvs == ReplyPairs(output)
  {
    var lines := Text.Split(output, '\n');
    kvs := [];
    var i := 0;
    while i < |lines|
      invariant 0 <= i <= |lines|
      invariant kvs == KeyValuesOf(lines[..i])
    {
      kvs := AddPair(kvs, lines, i);
      i := i + 1;
    }
    WholePrefix(lines);
  }

  /** One more line read: its pair, if it carries one, joins the pairs so far. */
  method AddPair(kvs: seq<KeyValue>, lines: seq<string>, i: int) returns (next: seq<KeyValue>)
    requires 0 <= i < |lines| && kvs == KeyValuesOf(lines[..i])
    ensures next == KeyValuesOf(lines[..i + 1])
  {
    assert lines[..i + 1][..i] == lines[..i];
    var kv := ParseKeyValue(lines[i]);
    next := kvs;
    if kv.Some? {
      next := next + [kv.value];
    }
  }

  /** The value of the last pair labelled `key`, if any. */
  function LastValue(kvs: seq<KeyValue>, key: string): Option<string> {
    if kvs == [] then None
    else if LastValue(kvs[1..], key).Some? then LastValue(kvs[1..], key)
    else if kvs[0].key == key then Some(kvs[0].value)
    else None
  }

  /** LastValue finds a pair with the label and no later one, or reports that there is none. */
  lemma {:induction false} LastValueSpec(kvs: seq<KeyValue>, key: string)
    ensures LastValue(kvs, key).None? <==> forall i :: 0 <= i < |kvs| ==> kvs[i].key != key
    ensures LastValue(kvs, key).Some? ==> exists i :: (0 <= i < |kvs| && kvs[i] == KeyValue(key, LastValue(kvs, key).value) &&
      forall j :: i < j < |kvs| ==> kvs[j].key != key)
  {
    if kvs != [] {
      var tail := kvs[1..];
      LastValueSpec(tail, key);
      assert forall j :: 0 < j < |kvs| ==> kvs[j] == tail[j - 1];
      if LastValue(tail, key).Some? {
        var v := LastValue(tail, key).value;
        var i :| 0 <= i < |tail| && tail[i] == KeyValue(key, v) &&
          forall j :: i < j < |tail| ==> tail[j].key != key;
        assert kvs[i + 1] == KeyValue(key, v);
      } else if kvs[0].key == key {
        assert kvs[0] == KeyValue(key, kvs[0].value);
      }
    }
  }

  // ---------------------------------------------------------------------
  // repo info
  // ---------------------------------------------------------------------

  datatype RepoInfoResult = RepoInfoResult(
    projectName: string,
    repository: string,
    description: string,
    private: bool,
    hidden: bool,
    mirror: bool,
    owner: string)

  const EmptyRepoInfo := RepoInfoResult("", "", "", false, false, false, "")

  const MissingRepository := "failed to parse repo info: missing Repository field"

  /** The effect of one labelled line on the record; unknown labels leave it as it is. */
  function ApplyRepoField(r: RepoInfoResult, kv: KeyValue): RepoInfoResult {
    match kv.key
    case "Project Name" => r.(projectName := kv.value)
    case "Repository" => r.(repository := kv.value)
    case "Description" => r.(description := kv.value)
    case "Private" => r.(private := kv.value == "true")
    case "Hidden" => r.(hidden := kv.value == "true")
    case "Mirror" => r.(mirror := kv.value == "true")
    case "Owner" => r.(owner := kv.value)
    case _ => r
  }

  /** The record after applying the pairs in order. */
  function RepoFields(r: RepoInfoResult, kvs: seq<KeyValue>): RepoInfoResult
    decreases |kvs|
  {
    if kvs == [] then r else RepoFields(ApplyRepoField(r, kvs[0]), kvs[1..])
  }

  function RepoInfoOf(output: string): Result<RepoInfoResult, string> {
    var info := RepoFields(EmptyRepoInfo, ReplyPairs(output));
    if info.repository == "" then Failure(MissingRepository) else Success(info)
  }

  method ParseRepoInfo(output: string) returns (r: Result<RepoInfoResult, string>)
    ensures r == RepoInfoOf(output)
  {
    var result := EmptyRepoInfo;
    var kvs := ParseKeyValues(output);
    var i := 0;
    while i < |kvs|
      invariant 0 <= i <= |kvs|
      invariant RepoFields(result, kvs[i..]) == RepoFields(EmptyRepoInfo, kvs)
    {
      var kv := kvs[i];
      assert kvs[i..][1..] == kvs[i + 1..];
      match kv.key {
        case "Project Name" => result := result.(projectName := kv.value);
        case "Repository" => result := result.(repository := kv.value);
        case "Description" => result := result.(description := kv.value);
        case "Private" => result := result.(private := kv.value == "true");
        case "Hidden" => result := result.(hidden := kv.value == "true");
        case "Mirror" => result := result.(mirror := kv.value == "true");
        case "Owner" => result := result.(owner := kv.value);
        case _ =>
      }
      i := i + 1;
    }
    if result.repository == "" {
      return Failure(MissingRepository);
    }
    return Success(result);
  }

  function TextField(o: Option<string>, default: string): string {
    if o.Some? then o.value else default
  }

  function FlagField(o: Option<string>, default: bool): bool {
    if o.Some? then o.value == "true" else default
  }

  /**
   * Each field of the record is the value of the last line carrying its
   * label (the flags: whether that value is exactly `true`); a field whose
   * label never occurs keeps its starting value, and other labels have no
   * effect.
   */
  lemma {:induction false} RepoFieldsLast(r: RepoInfoResult, kvs: seq<KeyValue>)
    decreases |kvs|
    ensures RepoFields(r, kvs) == RepoInfoResult(
      TextField(LastValue(kvs, "Project Name"), r.projectName),
      TextField(LastValue(kvs, "Repository"), r.repository),
      TextField(LastValue(kvs, "Description"), r.description),
      FlagField(LastValue(kvs, "Private"), r.private),
      FlagField(LastValue(kvs, "Hidden"), r.hidden),
      FlagField(LastValue(kvs, "Mirror"), r.mirror),
      TextField(LastValue(kvs, "Owner"), r.owner))
  {
    if kvs != [] {
      var r1 := ApplyRepoField(r, kvs[0]);
      RepoFieldsLast(r1, kvs[1..]);
      ApplyRepoFieldCases(r, kvs[0]);
    }
  }

  lemma ApplyRepoFieldCases(r: RepoInfoResult, kv: KeyValue)
    ensures ApplyRepoField(r, kv) == RepoInfoResult(
      if kv.key == "Project Name" then kv.value else r.projectName,
      if kv.key == "Repository" then kv.value else r.repository,
      if kv.key == "Description" then kv.value else r.description,
      if kv.key == "Private" then kv.value == "true" else r.private,
      if kv.key == "Hidden" then kv.value == "true" else r.hidden,
      if kv.key == "Mirror" then kv.value == "true" else r.mirror,
      if kv.key == "Owner" then kv.value else r.owner)
  {
  }

  /** `repo info` fails exactly when the last Repository line has an empty value, or there is none. */
  lemma RepoInfoMissing(output: string)
    ensures RepoInfoOf(output).Failure? <==>
      TextField(LastValue(ReplyPairs(output), "Repository"), "") == ""
    ensures RepoInfoOf(output).Failure? ==> RepoInfoOf(output).error == MissingRepository
  {
    RepoFieldsLast(EmptyRepoInfo, ReplyPairs(output));
  }

  /** An empty reply is an error. */
  lemma RepoInfoOfEmpty()
    ensures RepoInfoOf("") == Failure(MissingRepository)
  {
    assert Text.Split("", '\n') == [""];
    assert ParseKeyValue("").None?;
  }

  /** A line `label: value`, as the server prints one field. */
  function Labelled(key: string, value: string): string {
    key + ": " + value
  }

  function FlagText(b: bool): string {
    if b then "true" else "false"
  }

  /** The reply the server gives for a repository, one labelled line per field. */
  function RepoInfoLines(info: RepoInfoResult): seq<string> {
    PairLines(RepoInfoPairs(info))
  }

  /** One `label: value` line per pair. */
  function PairLines(kvs: seq<KeyValue>): (r: seq<string>)
    ensures |r| == |kvs|
  {
    seq(|kvs|, k requires 0 <= k < |kvs| => Labelled(kvs[k].key, kvs[k].value))
  }

  /** A single-line text without surrounding white space. */
  predicate PrintableText(t: string) {
    Text.Trimmed(t) && '\n' !in t
  }

  /** A record the reply can carry: single-line trimmed texts and a non-empty repository name. */
  predicate PrintableRepo(info: RepoInfoResult) {
    && info.repository != ""
    && PrintableText(info.projectName) && PrintableText(info.repository)
    && PrintableText(info.description) && PrintableText(info.owner)
  }

  /** A label that can head a line: no colon, no newline, no surrounding white space. */
  predicate LabelText(key: string) {
    ':' !in key && Text.Trimmed(key) && '\n' !in key
  }

  /** A pair that reads back from its line. */
  predicate PrintablePair(kv: KeyValue) {
    LabelText(kv.key) && PrintableText(kv.value)
  }

  /** A field line whose label holds no colon reads back as its label and value. */
  lemma LabelledLine(kv: KeyValue)
    requires PrintablePair(kv)
    ensures ParseKeyValue(Labelled(kv.key, kv.value)) == Some(kv)
    ensures '\n' !in Labelled(kv.key, kv.value)
  {
    SeparatorHasColon(kv.key);
    ParseKeyValueSplits(kv.key, kv.value);
  }

  /** Lines that each carry one pair give exactly those pairs, in order. */
  lemma {:induction false} KeyValuesOfEach(lines: seq<string>, kvs: seq<KeyValue>)
    requires |lines| == |kvs|
    requires forall k :: 0 <= k < |lines| ==> ParseKeyValue(lines[k]) == Some(kvs[k])
    ensures KeyValuesOf(lines) == kvs
  {
    if lines != [] {
      var n := |lines| - 1;
      KeyValuesOfEach(lines[..n], kvs[..n]);
      assert kvs[..n] + [kvs[n]] == kvs;
    }
  }

  /** The pairs the reply for a repository carries, one per line. */
  function RepoInfoPairs(info: RepoInfoResult): seq<KeyValue> {
    [KeyValue("Project Name", info.projectName), KeyValue("Repository", info.repository),
     KeyValue("Description", info.description), KeyValue("Private", FlagText(info.private)),
     KeyValue("Hidden", FlagText(info.hidden)), KeyValue("Mirror", FlagText(info.mirror)),
     KeyValue("Owner", info.owner)]
  }

  /** Reading back the reply for a repository gives the record. */
  lemma RepoInfoRoundTrip(info: RepoInfoResult)
    requires PrintableRepo(info)
    ensures RepoInfoOf(Text.Join(RepoInfoLines(info), '\n')) == Success(info)
  {
    RepoInfoLinesPairs(info);
    Text.SplitJoin(RepoInfoLines(info), '\n');
    RepoFieldsOfPairs(info);
  }

  lemma RepoInfoLinesPairs(info: RepoInfoResult)
    requires PrintableRepo(info)
    ensures forall k :: 0 <= k < |RepoInfoLines(info)| ==> '\n' !in RepoInfoLines(info)[k]
    ensures KeyValuesOf(RepoInfoLines(info)) == RepoInfoPairs(info)
  {
    RepoPairsPrintable(info);
    PairLinesRead(RepoInfoPairs(info));
  }

  lemma PairLinesRead(kvs: seq<KeyValue>)
    requires forall k :: 0 <= k < |kvs| ==> PrintablePair(kvs[k])
    ensures forall k :: 0 <= k < |kvs| ==> '\n' !in PairLines(kvs)[k]
    ensures KeyValuesOf(PairLines(kvs)) == kvs
  {
    forall k | 0 <= k < |kvs|
      ensures ParseKeyValue(PairLines(kvs)[k]) == Some(kvs[k]) && '\n' !in PairLines(kvs)[k]
    {
      LabelledLine(kvs[k]);
    }
    KeyValuesOfEach(PairLines(kvs), kvs);
  }

  lemma RepoPairsPrintable(info: RepoInfoResult)
    requires PrintableRepo(info)
    ensures forall k :: 0 <= k < |RepoInfoPairs(info)| ==> PrintablePair(RepoInfoPairs(info)[k])
  {
    RepoLabels();
    FlagsPrintable(info);
  }

  lemma RepoLabels()
    ensures LabelText("Project Name") && LabelText("Repository") && LabelText("Description")
    ensures LabelText("Private") && LabelText("Hidden") && LabelText("Mirror") && LabelText("Owner")
  {
    assert LabelText("Project Name");
    assert LabelText("Repository");
    assert LabelText("Description");
    assert LabelText("Private");
    assert LabelText("Hidden");
    assert LabelText("Mirror");
  }

  lemma FlagsPrintable(info: RepoInfoResult)
    ensures PrintableText(FlagText(info.private)) && PrintableText(FlagText(info.hidden))
    ensures PrintableText(FlagText(info.mirror))
  {
    assert PrintableText("true") && PrintableText("false");
  }

  lemma RepoFieldsCons(r: RepoInfoResult, kvs: seq<KeyValue>)
    requires kvs != []
    ensures RepoFields(r, kvs) == RepoFields(ApplyRepoField(r, kvs[0]), kvs[1..])
  {
  }

  /** The pairs of a record, applied in order to the empty record, give the record. */
  lemma RepoFieldsOfPairs(info: RepoInfoResult)
    ensures RepoFields(EmptyRepoInfo, RepoInfoPairs(info)) == info
  {
    var kvs := RepoInfoPairs(info);
    var k1, k2, k3, k4, k5, k6 := kvs[1..], kvs[2..], kvs[3..], kvs[4..], kvs[5..], kvs[6..];
    assert k1[1..] == k2 && k2[1..] == k3 && k3[1..] == k4 && k4[1..] == k5 && k5[1..] == k6 && k6[1..] == [];
    var r1 := EmptyRepoInfo.(projectName := info.projectName);
    var r2 := r1.(repository := info.repository);
    var r3 := r2.(description := info.description);
    var r4 := r3.(private := info.private);
    var r5 := r4.(hidden := info.hidden);
    var r6 := r5.(mirror := info.mirror);
    ApplyTextLabels(EmptyRepoInfo, info.projectName);
    ApplyTextLabels(r1, info.repository);
    ApplyTextLabels(r2, info.description);
    ApplyFlagLabels(r3, info.private);
    ApplyFlagLabels(r4, info.hidden);
    ApplyFlagLabels(r5, info.mirror);
    ApplyTextLabels(r6, info.owner);
    RepoFieldsCons(EmptyRepoInfo, kvs);
    RepoFieldsCons(r1, k1);
    RepoFieldsCons(r2, k2);
    RepoFieldsCons(r3, k3);
    RepoFieldsCons(r4, k4);
    RepoFieldsCons(r5, k5);
    RepoFieldsCons(r6, k6);
  }

  /** Each text label sets its own field. */
  lemma ApplyTextLabels(r: RepoInfoResult, v: string)
    ensures ApplyRepoField(r, KeyValue("Project Name", v)) == r.(projectName := v)
    ensures ApplyRepoField(r, KeyValue("Repository", v)) == r.(repository := v)
    ensures ApplyRepoField(r, KeyValue("Description", v)) == r.(description := v)
    ensures ApplyRepoField(r, KeyValue("Owner", v)) == r.(owner := v)
  {
  }

  /** Each flag label sets its own flag from the printed word. */
  lemma ApplyFlagLabels(r: RepoInfoResult, b: bool)
    ensures ApplyRepoField(r, KeyValue("Private", FlagText(b))) == r.(private := b)
    ensures ApplyRepoField(r, KeyValue("Hidden", FlagText(b))) == r.(hidden := b)
    ensures ApplyRepoField(r, KeyValue("Mirror", FlagText(b))) == r.(mirror := b)
  {
  }

  // ---------------------------------------------------------------------
  // user info
  // ---------------------------------------------------------------------

  datatype UserInfoResult = UserInfoResult(username: string, admin: bool, publicKeys: seq<string>)

  const EmptyUserInfo := UserInfoResult("", false, [])

  const MissingUsername := "failed to parse user info: missing Username field"

  /** The line-by-line scan: the record so far and whether the key section is open. */
  datatype UserScan = UserScan(result: UserInfoResult, inPublicKeys: bool)

  /** A line that closes the key section: not indented by two spaces and labelled. */
  predicate EndsKeySection(line: string) {
    !Text.HasPrefix(line, "  ") && Text.Contains(line, ": ")
  }

  /** The effect of a line read as a labelled line. */
  function UserField(st: UserScan, line: string): UserScan {
    match ParseKeyValue(line)
    case None => st
    case Some(kv) =>
      if kv.key == "Username" then st.(result := st.result.(username := kv.value))
      else if kv.key == "Admin" then st.(result := st.result.(admin := kv.value == "true"))
      else if kv.key == "Public keys" then st.(inPublicKeys := true)
      else st
  }

  function UserStep(st: UserScan, line: string): UserScan {
    if st.inPublicKeys then
      var trimmed := Text.TrimSpace(line);
      if trimmed == "" then st
      else if !EndsKeySection(line) then st.(result := st.result.(publicKeys := st.result.publicKeys + [trimmed]))
      else UserField(st.(inPublicKeys := false), line)
    else UserField(st, line)
  }

  function UserRun(st: UserScan, lines: seq<string>): UserScan
    decreases |lines|
  {
    if lines == [] then st else UserRun(UserStep(st, lines[0]), lines[1..])
  }

  function UserInfoOf(output: string): Result<UserInfoResult, string> {
    var info := UserRun(UserScan(EmptyUserInfo, false), Text.Split(output, '\n')).result;
    if info.username == "" then Failure(MissingUsername) else Success(info)
  }

  method ParseUserInfo(output: string) returns (r: Result<UserInfoResult, string>)
    ensures r == UserInfoOf(output)
  {
    var result := EmptyUserInfo;
    var lines := Text.Split(output, '\n');
    var inPublicKeys := false;
    var i := 0;
    while i < |lines|
      invariant 0 <= i <= |lines|
      invariant UserRun(UserScan(result, inPublicKeys), lines[i..]) == UserRun(UserScan(EmptyUserInfo, false), lines)
    {
      var line := lines[i];
      ghost var before := UserScan(result, inPublicKeys);
      assert lines[i..][1..] == lines[i + 1..];
      i := i + 1;
      if inPublicKeys {
        var trimmed := Text.TrimSpace(line);
        if trimmed != "" {
          if !Text.HasPrefix(line, "  ") && Text.Contains(line, ": ") {
            inPublicKeys := false;
          } else {
            result := result.(publicKeys := result.publicKeys + [trimmed]);
            continue;
          }
        } else {
          continue;
        }
      }
      assert UserStep(before, line) == UserField(UserScan(result, inPublicKeys), line);
      var kv := ParseKeyValue(line);
      if kv.None? {
        continue;
      }
      match kv.value.key {
        case "Username" => result := result.(username := kv.value.value);
        case "Admin" => result := result.(admin := kv.value.value == "true");
        case "Public keys" => inPublicKeys := true;
        case _ =>
      }
    }
    if result.username == "" {
      return Failure(MissingUsername);
    }
    return Success(result);
  }

  /**
   * A user-info reply that reads successfully names a non-empty username;
   * it and every key have no surrounding white space, and no key is empty.
   */
  lemma UserInfoTrimmed(output: string)
    ensures UserInfoOf(output).Success? ==>
      var info := UserInfoOf(output).value;
      info.username != "" && Text.Trimmed(info.username) && TrimmedTexts(info.publicKeys)
  {
    UserRunTrimmed(UserScan(EmptyUserInfo, false), Text.Split(output, '\n'));
  }

  lemma {:induction false} UserRunTrimmed(st: UserScan, ls: seq<string>)
    requires Text.Trimmed(st.result.username) && TrimmedTexts(st.result.publicKeys)
    ensures var r := UserRun(st, ls).result;
      Text.Trimmed(r.username) && TrimmedTexts(r.publicKeys)
    decreases |ls|
  {
    if ls != [] {
      UserStepTrimmed(st, ls[0]);
      UserRunTrimmed(UserStep(st, ls[0]), ls[1..]);
    }
  }

  lemma UserStepTrimmed(st: UserScan, line: string)
    requires Text.Trimmed(st.result.username) && TrimmedTexts(st.result.publicKeys)
    ensures var r := UserStep(st, line).result;
      Text.Trimmed(r.username) && TrimmedTexts(r.publicKeys)
  {
    if !st.inPublicKeys {
      UserFieldTrimmed(st, line);
    } else {
      var t := Text.TrimSpace(line);
      if t != "" && !EndsKeySection(line) {
        TrimmedSnoc(st.result.publicKeys, t);
      } else if t != "" {
        UserFieldTrimmed(st.(inPublicKeys := false), line);
      }
    }
  }

  lemma UserFieldTrimmed(st: UserScan, line: string)
    requires Text.Trimmed(st.result.username)
    ensures Text.Trimmed(UserField(st, line).result.username)
    ensures UserField(st, line).result.publicKeys == st.result.publicKeys
  {
    ParseKeyValueShape(line);
  }

  lemma TrimmedSnoc(ks: seq<string>, t: string)
    requires TrimmedTexts(ks) && t != "" && Text.Trimmed(t)
    ensures TrimmedTexts(ks + [t])
  {
    forall i | 0 <= i < |ks + [t]|
      ensures (ks + [t])[i] != "" && Text.Trimmed((ks + [t])[i])
    {
      if i < |ks| {
        assert (ks + [t])[i] == ks[i];
      }
    }
  }

  /** The trimmed non-blank lines, in order. */
  function KeyLines(ls: seq<string>): (r: seq<string>)
    ensures |r| <= |ls|
  {
    if ls == [] then []
    else
      var t := Text.TrimSpace(ls[0]);
      (if t == "" then [] else [t]) + KeyLines(ls[1..])
  }

  /** Non-empty texts without surrounding white space. */
  predicate TrimmedTexts(ks: seq<string>) {
    forall i :: 0 <= i < |ks| ==> ks[i] != "" && Text.Trimmed(ks[i])
  }

  /** Every key kept is non-empty and has no surrounding white space. */
  lemma {:induction false} KeyLinesTrimmed(ls: seq<string>)
    ensures TrimmedTexts(KeyLines(ls))
  {
    if ls != [] {
      var t := Text.TrimSpace(ls[0]);
      var rest := KeyLines(ls[1..]);
      KeyLinesTrimmed(ls[1..]);
      var r := KeyLines(ls);
      assert r == (if t == "" then [] else [t]) + rest;
      forall i | 0 <= i < |r|
        ensures r[i] != "" && Text.Trimmed(r[i])
      {
        if t == "" {
          assert r[i] == rest[i];
        } else if i == 0 {
          assert r[i] == t;
        } else {
          assert r[i] == rest[i - 1];
        }
      }
    }
  }

  /** No line closes the key section. */
  predicate StaysInKeySection(ls: seq<string>)
    decreases |ls|
  {
    ls == [] || (!EndsKeySection(ls[0]) && StaysInKeySection(ls[1..]))
  }

  /**
   * Inside the key section, lines that do not close it append their trimmed
   * text to the keys, in order; blank lines are skipped and the section stays open.
   */
  lemma {:induction false} KeySection(st: UserScan, ls: seq<string>)
    requires st.inPublicKeys
    requires StaysInKeySection(ls)
    ensures UserRun(st, ls) == UserScan(st.result.(publicKeys := st.result.publicKeys + KeyLines(ls)), true)
    decreases |ls|
  {
    if ls != [] {
      var next := UserStep(st, ls[0]);
      KeyStep(st, ls[0]);
      KeySection(next, ls[1..]);
      KeyLinesCons(ls);
      Concat3(st.result.publicKeys, KeyLines([ls[0]]), KeyLines(ls[1..]));
    }
  }

  /** Inside the key section, a line that does not close it appends its keys. */
  lemma KeyStep(st: UserScan, line: string)
    requires st.inPublicKeys && !EndsKeySection(line)
    ensures UserStep(st, line) == UserScan(st.result.(publicKeys := st.result.publicKeys + KeyLines([line])), true)
  {
    assert [line][1..] == [];
  }

  lemma KeyLinesCons(ls: seq<string>)
    requires ls != []
    ensures KeyLines(ls) == KeyLines([ls[0]]) + KeyLines(ls[1..])
  {
    assert [ls[0]][1..] == [];
  }

  lemma Concat3(a: seq<string>, b: seq<string>, c: seq<string>)
    ensures a + b + c == a + (b + c)
  {
  }

  /** A line that closes the key section is read as a labelled line, as outside the section. */
  lemma KeySectionEnd(st: UserScan, line: string)
    requires st.inPublicKeys && EndsKeySection(line)
    ensures UserStep(st, line) == UserStep(st.(inPublicKeys := false), line)
  {
    assert Text.TrimSpace(line) != "" by {
      var i := Text.Index(line, ": ");
      assert line[i..][..2] == ": ";
      assert !Text.Blank(line) by { assert line[i] == ':'; }
    }
  }

  /** The reply the server gives for a user, one line per item. */
  function UserInfoLines(info: UserInfoResult): seq<string> {
    ["Username: " + info.username, "Admin: " + (if info.admin then "true" else "false"), "Public keys:"]
      + Indented(info.publicKeys)
  }

  function Indented(keys: seq<string>): (r: seq<string>)
    ensures |r| == |keys|
  {
    if keys == [] then [] else ["  " + keys[0]] + Indented(keys[1..])
  }

  lemma {:induction false} IndentedAt(keys: seq<string>, i: int)
    requires 0 <= i < |keys|
    ensures Indented(keys)[i] == "  " + keys[i]
  {
    if i > 0 {
      IndentedAt(keys[1..], i - 1);
    }
  }

  /** A record the reply can carry: single-line trimmed texts and a non-empty username. */
  predicate Printable(info: UserInfoResult) {
    && info.username != "" && Text.Trimmed(info.username) && '\n' !in info.username
    && forall i :: 0 <= i < |info.publicKeys| ==>
         info.publicKeys[i] != "" && Text.Trimmed(info.publicKeys[i]) && '\n' !in info.publicKeys[i]
  }

  lemma {:induction false} KeyLinesIndented(keys: seq<string>)
    requires forall i :: 0 <= i < |keys| ==> keys[i] != "" && Text.Trimmed(keys[i])
    ensures KeyLines(Indented(keys)) == keys
  {
    if keys != [] {
      Text.TrimSpacePadded("  ", keys[0]);
      assert Indented(keys)[1..] == Indented(keys[1..]);
      KeyLinesIndented(keys[1..]);
      assert [keys[0]] + keys[1..] == keys;
    }
  }

  lemma {:induction false} IndentedStays(keys: seq<string>)
    ensures StaysInKeySection(Indented(keys))
  {
    if keys != [] {
      var ls := Indented(keys);
      assert ls[0][..2] == "  ";
      assert ls[1..] == Indented(keys[1..]);
      IndentedStays(keys[1..]);
    }
  }

  lemma UsernameLine(st: UserScan, u: string)
    requires !st.inPublicKeys && Text.Trimmed(u)
    ensures UserStep(st, "Username: " + u) == st.(result := st.result.(username := u))
  {
    SeparatorHasColon("Username");
    ParseKeyValueSplits("Username", u);
    assert Text.TrimSpace("Username") == "Username";
    assert "Username" + ": " == "Username: ";
    assert ParseKeyValue("Username: " + u) == Some(KeyValue("Username", u));
  }

  lemma AdminLine(st: UserScan, admin: bool)
    requires !st.inPublicKeys
    ensures UserStep(st, "Admin: " + (if admin then "true" else "false")) == st.(result := st.result.(admin := admin))
  {
    if admin {
      AdminValueLine(st, "true");
    } else {
      AdminValueLine(st, "false");
    }
  }

  /** Outside the key section, `Admin: v` sets the flag to whether v is exactly `true`. */
  lemma AdminValueLine(st: UserScan, v: string)
    requires !st.inPublicKeys && Text.Trimmed(v)
    ensures UserStep(st, "Admin: " + v) == st.(result := st.result.(admin := v == "true"))
  {
    SeparatorHasColon("Admin");
    ParseKeyValueSplits("Admin", v);
    assert Text.TrimSpace("Admin") == "Admin";
    assert "Admin" + ": " == "Admin: ";
    assert ParseKeyValue("Admin: " + v) == Some(KeyValue("Admin", v));
  }

  lemma PublicKeysLine(st: UserScan)
    requires !st.inPublicKeys
    ensures UserStep(st, "Public keys:") == st.(inPublicKeys := true)
  {
    ParseKeyValueBare("Public keys");
    assert "Public keys" + ":" == "Public keys:";
  }

  /** Reading back the reply for a record gives the record, with or without keys. */
  lemma UserInfoRoundTrip(info: UserInfoResult)
    requires Printable(info)
    ensures UserInfoOf(Text.Join(UserInfoLines(info), '\n')) == Success(info)
  {
    var lines := UserInfoLines(info);
    UserInfoLinesSingle(info);
    Text.SplitJoin(lines, '\n');
    UserInfoHeader(info);
    var s3 := UserScan(UserInfoResult(info.username, info.admin, []), true);
    IndentedStays(info.publicKeys);
    KeySection(s3, Indented(info.publicKeys));
    KeyLinesIndented(info.publicKeys);
    EmptyConcat(info.publicKeys);
  }

  lemma EmptyConcat(keys: seq<string>)
    ensures [] + keys == keys
  {
  }

  lemma UserInfoLinesSingle(info: UserInfoResult)
    requires Printable(info)
    ensures forall i :: 0 <= i < |UserInfoLines(info)| ==> '\n' !in UserInfoLines(info)[i]
  {
    var lines := UserInfoLines(info);
    forall i | 0 <= i < |lines|
      ensures '\n' !in lines[i]
    {
      if i >= 3 {
        IndentedAt(info.publicKeys, i - 3);
        assert lines[i] == "  " + info.publicKeys[i - 3];
      }
    }
  }

  /** The three header lines set the username and the flag, and open the key section. */
  lemma UserInfoHeader(info: UserInfoResult)
    requires info.username != "" && Text.Trimmed(info.username)
    ensures UserRun(UserScan(EmptyUserInfo, false), UserInfoLines(info))
         == UserRun(UserScan(UserInfoResult(info.username, info.admin, []), true), Indented(info.publicKeys))
  {
    var lines := UserInfoLines(info);
    var l1, l2, l3 := lines[1..], lines[2..], lines[3..];
    assert l1[1..] == l2 && l2[1..] == l3 && l3 == Indented(info.publicKeys);
    var s0 := UserScan(EmptyUserInfo, false);
    var s1 := UserStep(s0, lines[0]);
    var s2 := UserStep(s1, l1[0]);
    var s3 := UserStep(s2, l2[0]);
    UsernameLine(s0, info.username);
    AdminLine(s1, info.admin);
    PublicKeysLine(s2);
    assert s3 == UserScan(UserInfoResult(info.username, info.admin, []), true);
    UserRunCons(s0, lines);
    UserRunCons(s1, l1);
    UserRunCons(s2, l2);
  }

  lemma UserRunCons(st: UserScan, ls: seq<string>)
    requires ls != []
    ensures UserRun(st, ls) == UserRun(UserStep(st, ls[0]), ls[1..])
  {
  }

  // ---------------------------------------------------------------------
  // repo collab list
  // ---------------------------------------------------------------------

  datatype CollabEntry = CollabEntry(username: string, accessLevel: string)

  /** The entry a line describes: its first field, and its second field or "". */
  function EntryOf(line: string): (r: Option<CollabEntry>)
    ensures r.None? <==> Text.Blank(line)
    ensures r.Some? ==> r.value.username != "" && Text.NoSpace(r.value.username) && Text.NoSpace(r.value.accessLevel)
  {
    var trimmed := Text.TrimSpace(line);
    var parts := Text.Fields(trimmed);
    Text.FieldsBlank(trimmed);
    if trimmed == "" || parts == [] then None
    else Some(CollabEntry(parts[0], if |parts| >= 2 then parts[1] else ""))
  }

  function EntriesOf(lines: seq<string>): (r: seq<CollabEntry>)
    ensures |r| <= |lines|
  {
    if lines == [] then []
    else
      var last := EntryOf(lines[|lines| - 1]);
      EntriesOf(lines[..|lines| - 1]) + (if last.Some? then [last.value] else [])
  }

  function CollabListOf(output: string): seq<CollabEntry> {
    if Text.TrimSpace(output) == "" then [] else EntriesOf(Text.Split(output, '\n'))
  }

  method ParseCollabList(output: string) returns (entries: seq<CollabEntry>)
    ensures entries == CollabListOf(output)
  {
    if Text.TrimSpace(output) == "" {
      return [];
    }
    entries := [];
    var lines := Text.Split(output, '\n');
    var i := 0;
    while i < |lines|
      invariant 0 <= i <= |lines|
      invariant entries == EntriesOf(lines[..i])
    {
      entries := AddEntry(entries, lines, i);
      i := i + 1;
    }
    WholePrefix(lines);
  }

  /** One pass of the listing loop: the entry of line i, if any, is appended. */
  method AddEntry(entries: seq<CollabEntry>, lines: seq<string>, i: int) returns (next: seq<CollabEntry>)
    requires 0 <= i < |lines| && entries == EntriesOf(lines[..i])
    ensures next == EntriesOf(lines[..i + 1])
  {
    EntriesOfPrefix(lines, i);
    var entry := ReadEntry(lines[i]);
    next := entries;
    if entry.Some? {
      next := next + [entry.value];
    }
  }

  lemma WholePrefix(lines: seq<string>)
    ensures lines[..|lines|] == lines
  {
  }

  /** The body of the listing loop: the entry on one line, or None for a line to skip. */
  method ReadEntry(raw: string) returns (entry: Option<CollabEntry>)
    ensures entry == EntryOf(raw)
  {
    var line := Text.TrimSpace(raw);
    if line == "" {
      return None;
    }
    var parts := Text.Fields(line);
    if |parts| == 0 {
      return None;
    }
    var e := CollabEntry(parts[0], "");
    if |parts| >= 2 {
      e := e.(accessLevel := parts[1]);
    }
    return Some(e);
  }

  /** One more line read adds its entry, if it has one. */
  lemma EntriesOfPrefix(lines: seq<string>, i: int)
    requires 0 <= i < |lines|
    ensures var e := EntryOf(lines[i]);
      EntriesOf(lines[..i + 1]) == EntriesOf(lines[..i]) + (if e.Some? then [e.value] else [])
  {
    assert lines[..i + 1][..i] == lines[..i];
  }

  function CountNonBlank(lines: seq<string>): nat {
    if lines == [] then 0
    else CountNonBlank(lines[..|lines| - 1]) + (if Text.Blank(lines[|lines| - 1]) then 0 else 1)
  }

  /** One entry per non-blank line, in order. */
  lemma {:induction false} EntriesCount(lines: seq<string>)
    ensures |EntriesOf(lines)| == CountNonBlank(lines)
  {
    if lines != [] {
      EntriesCount(lines[..|lines| - 1]);
    }
  }

  /** A blank reply has no non-blank line, so the up-front blank check changes nothing. */
  lemma {:induction false} CollabListBlank(output: string)
    ensures CollabListOf(output) == EntriesOf(Text.Split(output, '\n'))
  {
    if Text.TrimSpace(output) == "" {
      var lines := Text.Split(output, '\n');
      Text.JoinSplit(output, '\n');
      Text.BlankJoin(lines, '\n');
      AllBlankNoEntries(lines);
    }
  }

  lemma {:induction false} AllBlankNoEntries(lines: seq<string>)
    requires forall i :: 0 <= i < |lines| ==> Text.Blank(lines[i])
    ensures EntriesOf(lines) == []
  {
    if lines != [] {
      AllBlankNoEntries(lines[..|lines| - 1]);
    }
  }

  /** The line the server prints for an entry. */
  function EntryLine(e: CollabEntry): string {
    if e.accessLevel == "" then e.username else e.username + " " + e.accessLevel
  }

  function EntryLines(es: seq<CollabEntry>): (r: seq<string>)
    ensures |r| == |es|
  {
    if es == [] then [] else EntryLines(es[..|es| - 1]) + [EntryLine(es[|es| - 1])]
  }

  lemma {:induction false} EntryLinesAt(es: seq<CollabEntry>, i: int)
    requires 0 <= i < |es|
    ensures EntryLines(es)[i] == EntryLine(es[i])
  {
    if i < |es| - 1 {
      EntryLinesAt(es[..|es| - 1], i);
    }
  }

  predicate PrintableEntry(e: CollabEntry) {
    e.username != "" && Text.NoSpace(e.username) && Text.NoSpace(e.accessLevel)
  }

  lemma EntryOfLine(e: CollabEntry)
    requires PrintableEntry(e)
    ensures EntryOf(EntryLine(e)) == Some(e)
  {
    if e.accessLevel == "" {
      EntryOfWord(e.username);
    } else {
      EntryOfPair(e.username, e.accessLevel);
    }
  }

  lemma EntryOfWord(u: string)
    requires u != "" && Text.NoSpace(u)
    ensures EntryOf(u) == Some(CollabEntry(u, ""))
  {
    assert Text.Trimmed(u);
    Text.FieldsOfWord(u);
  }

  lemma EntryOfPair(u: string, l: string)
    requires u != "" && Text.NoSpace(u) && l != "" && Text.NoSpace(l)
    ensures EntryOf(u + " " + l) == Some(CollabEntry(u, l))
  {
    var line := u + " " + l;
    assert line[0] == u[0] && line[|line| - 1] == l[|l| - 1];
    assert Text.Trimmed(line);
    Text.FieldsOfPair(u, l);
  }

  lemma EntriesOfLines(es: seq<CollabEntry>)
    requires forall i :: 0 <= i < |es| ==> PrintableEntry(es[i])
    ensures EntriesOf(EntryLines(es)) == es
  {
    var lines := EntryLines(es);
    forall i | 0 <= i < |lines|
      ensures EntryOf(lines[i]) == Some(es[i])
    {
      EntryLinesAt(es, i);
      EntryOfLine(es[i]);
    }
    EntriesOfEach(lines, es);
  }

  /** Lines that each describe one entry are read back as those entries, in order. */
  lemma {:induction false} EntriesOfEach(lines: seq<string>, es: seq<CollabEntry>)
    requires |lines| == |es|
    requires forall i :: 0 <= i < |lines| ==> EntryOf(lines[i]) == Some(es[i])
    ensures EntriesOf(lines) == es
  {
    if es != [] {
      var n := |es| - 1;
      EntriesOfEach(lines[..n], es[..n]);
      assert EntryOf(lines[n]) == Some(es[n]);
      EntriesSnoc(es);
    }
  }

  lemma EntriesSnoc(es: seq<CollabEntry>)
    requires es != []
    ensures es[..|es| - 1] + [es[|es| - 1]] == es
  {
  }

  /** Reading back a listing gives the entries, an entry without a level included. */
  lemma CollabListRoundTrip(es: seq<CollabEntry>)
    requires forall i :: 0 <= i < |es| ==> PrintableEntry(es[i])
    ensures CollabListOf(Text.Join(EntryLines(es), '\n')) == es
  {
    var output := Text.Join(EntryLines(es), '\n');
    CollabListBlank(output);
    if es == [] {
      assert Text.Split("", '\n') == [""];
      assert EntryOf("").None?;
    } else {
      var lines := EntryLines(es);
      forall i | 0 <= i < |lines|
        ensures '\n' !in lines[i]
      {
        EntryLinesAt(es, i);
        EntryLineNoNewline(es[i]);
      }
      Text.SplitJoin(lines, '\n');
      EntriesOfLines(es);
    }
  }

  lemma EntryLineNoNewline(e: CollabEntry)
    requires PrintableEntry(e)
    ensures '\n' !in EntryLine(e)
  {
    assert Text.IsSpace('\n');
  }
}
