# Soft Serve Terraform provider: a verified model

This project models, in Dafny, the core of `terraform-provider-soft-serve`, a
Terraform provider that manages a Soft Serve
Git server over SSH. The provider has no API client library: every operation
runs one administrative command (`repo create …`, `user add-pubkey …`,
`settings anon-access …`) on the server over SSH and reads the text the
server prints back.

The model covers six parts of that core.

- **The SSH client** (`ssh_client.dfy`, module `Ssh`):
  - how `NewClient` picks its credentials: key contents, then a key file, then the SSH agent, optionally narrowed to one identity;
  - how `Run` orders the authentication methods, trims the output and words its errors;
  - the client methods that send each command and interpret its reply.
  
  The server is a class `Ssh.Server` holding the log of the command lines the client has tried to run, including those whose connection failed, and an oracle `respond` that answers each command. The answer depends on who connects and on the commands tried before.
- **The command lines** (`commands.dfy`, module `Commands`):
  - every command the client builds, and its wire form, with free text quoted as Go's `%q` quotes it;
  - a reader `Commands.Parse` that recovers the command from the line, which shows that no argument is lost or confused.
- **The reply parsers** (`parser.dfy`, module `Parser`):
  - `parseKeyValue` and `parseKeyValues`;
  - `ParseRepoInfo`;
  - the two-state scanner of `ParseUserInfo`;
  - `ParseCollabList`.
  
  Each is a method with the source's loop, proved equal to a specification function. Lemmas state what the functions mean, including round trips from the server's printed layout.
- **The reconcilers** (`reconcile.dfy` and one file per resource):
  - `softserve_repository`, `softserve_user`, `softserve_repository_collaborator` and `softserve_server_settings`;
  - their Create, Read, Update, Delete and ImportState, and the `read…State` helpers.
  
  Each operation is a method that changes the server's log. It is proved against a list of steps (`Reconcile.Step`), run with stop-at-first-failure by `Reconcile.Perform` and followed by the read-back.
- **The provider's Configure** (`provider.dfy`, module `Provider`): resolving host, port, username, key, key path, identity file and agent use from defaults, the environment and the provider block, and `Resources`.
- **Shared text functions** (`text.dfy`, `order.dfy`): the Go string functions the core relies on (`strings.TrimSpace`, `Split`, `Fields`, `Index`, `strconv.Atoi`, `sort.Strings`), each specified by what it returns.

Terraform values are `Reconcile.Value<T>`: `Null`, `Unknown` or `Known(v)`. A
diagnostic is a `Reconcile.Diag(summary, detail)`.

## Model

| member | source | states |
|---|---|---|
| Text.TrimSpace | internal/ssh/parser.go:93 | strings.TrimSpace: the result has no surrounding white space, is empty exactly when the input is all white space, and leaves already-trimmed text unchanged |
| Text.TrimSpaceInfix | internal/ssh/parser.go:93 | strings.TrimSpace removes only white space and only at the ends: the result is the input between a blank prefix and a blank suffix |
| Text.TrimSpaceUnique | internal/ssh/parser.go:93 | any non-empty text without surrounding white space that sits in the input between a blank prefix and a blank suffix is the result of strings.TrimSpace, so that result is fully determined |
| Text.PaddedUnique | internal/ssh/parser.go:93 | the input has at most one non-empty trimmed part between blank ends |
| Text.TrimSpacePadded | internal/ssh/parser.go:93-100 | white space in front of trimmed text (a key line's indentation) is removed and nothing else |
| Text.TrimTrailingNewlines | internal/ssh/client.go:163 | strings.TrimRight(s, "\n"): the result is a prefix of s, only newlines were dropped, and it does not end in a newline |
| Text.Index | internal/ssh/parser.go:179 | strings.Index: -1 or a position where the pattern occurs with no earlier occurrence; -1 only when it occurs nowhere |
| Text.IndexOfChar | internal/ssh/parser.go:88 | the first position of a character, or -1 when it does not occur |
| Text.SplitPieces | internal/ssh/parser.go:88 | no piece of strings.Split contains the separator |
| Text.JoinSplit | internal/ssh/parser.go:88 | joining the pieces of a split with the separator gives the text back |
| Text.SplitJoin | internal/ssh/parser.go:88 | splitting the join of separator-free pieces gives the pieces back |
| Text.BlankJoin | internal/ssh/parser.go:137-139 | when a whole reply is white space, so is each of its lines |
| Text.Fields | internal/ssh/parser.go:147 | strings.Fields: every field is non-empty and holds no white space |
| Text.FieldsBlank | internal/ssh/parser.go:147-150 | a line has no fields exactly when it is all white space |
| Text.FieldsOfWord | internal/ssh/parser.go:147 | a single word is its own only field |
| Text.FieldsCons | internal/ssh/parser.go:147 | a word followed by white space is the first field, then the fields of the rest |
| Text.FieldsSkipSpace | internal/ssh/parser.go:147 | leading white space adds no field |
| Text.FieldsOfPair | internal/ssh/parser.go:147-156 | `user level` has exactly the two fields user and level |
| Text.WordOfNoSpace | internal/ssh/parser.go:147 | text without white space is read whole as one word |
| Text.WordBeforeSpace | internal/ssh/parser.go:147 | a word ends at the first white space |
| Text.NatToString | internal/ssh/client.go:142 | the decimal form of a number is a non-empty string of digits |
| Text.DigitsValueOfNat | internal/ssh/client.go:142 | the decimal form of n has value n |
| Text.Atoi | internal/provider/provider.go:101 | strconv.Atoi succeeds only on an optionally signed, non-empty run of digits, with a value in the 64-bit range |
| Text.AtoiSignedDigits | internal/provider/provider.go:101 | every optionally signed, non-empty run of digits parses, to its value with the sign applied, exactly when that value is in the 64-bit range |
| Text.AtoiItoa | internal/provider/provider.go:101 | every 64-bit integer's decimal form parses back to it |
| Order.LessEqTotal | internal/resource/user.go:243 | Go's string order relates any two strings |
| Order.LessEqAntisymmetric | internal/resource/user.go:243 | two strings each before the other are equal |
| Order.Insert | internal/resource/user.go:243 | inserting into a sorted list keeps it sorted and adds exactly that one element |
| Order.Sort | internal/resource/user.go:240-243 | sort.Strings: the result is ascending and a permutation of the input |
| Order.SortKeepsElements | internal/resource/user.go:240-243 | sorting keeps the length and exactly the same members |
| Commands.EscapeChar | internal/ssh/client.go:170 | the escape `%q` writes for a character is non-empty, has no newline and does not start with a quote |
| Commands.EscapeAll | internal/ssh/client.go:170 | escaped text holds no newline |
| Commands.Quote | internal/ssh/client.go:170 | quoted text starts and ends with a double quote and holds no newline |
| Commands.ReadEscapedChar | internal/ssh/client.go:170 | every escape sequence reads back as the character it stands for |
| Commands.ReadQuotedBodyOfEscaped | internal/ssh/client.go:170 | reading escaped text up to its closing quote gives the original text and what follows |
| Commands.ReadTokenOfQuoted | internal/ssh/client.go:206 | a quoted argument reads back as its text |
| Commands.ReadTokenOfWord | internal/ssh/client.go:191 | an unquoted word reads back as itself |
| Commands.ReadTokenOfRendered | internal/ssh/client.go:168-177 | each item of a command line reads back as itself |
| Commands.TokeniseRender | internal/ssh/client.go:168-177 | splitting a space-joined item list gives the items back |
| Commands.KeyFlags | internal/ssh/client.go:234-236 | two items per public key |
| Commands.Render | internal/ssh/client.go:166-333 | the line sent for a well-formed command is a single line |
| Commands.RenderedSingleLine | internal/ssh/client.go:166-333 | a line built from well-formed items has no newline |
| Commands.ParseKeyFlagsOfKeys | internal/ssh/client.go:234-236 | the ` -k "<key>"` run reads back as the keys, in order |
| Commands.ParseCreateFlagsOf | internal/ssh/client.go:169-177 | the optional `-d`, `-n`, `-p` flags read back as description, project name and privacy |
| Commands.FromTokensOfRepoCreate | internal/ssh/client.go:167-180 | `repo create` reads back as the same name and options |
| Commands.FromTokensOfUserCreate | internal/ssh/client.go:229-239 | `user create` reads back as the same user, admin flag and keys |
| Commands.FromTokensOfCollabAdd | internal/ssh/client.go:281-288 | `repo collab add` reads back as the same repository, user and level, with or without a level |
| Commands.FromTokensOfRepoQuery | internal/ssh/client.go:190-202 | `repo info` and `repo delete` read back as themselves |
| Commands.FromTokensOfRepoSetter | internal/ssh/client.go:204-226 | the four `repo` setters read back as themselves |
| Commands.FromTokensOfUserQuery | internal/ssh/client.go:247-260 | `user info` and `user delete` read back as themselves |
| Commands.FromTokensOfUserSetter | internal/ssh/client.go:262-278 | `user set-admin`, `add-pubkey` and `remove-pubkey` read back as themselves |
| Commands.FromTokensOfCollab | internal/ssh/client.go:290-303 | `repo collab list` and `repo collab remove` read back as themselves |
| Commands.FromTokensOfSettings | internal/ssh/client.go:305-333 | the four `settings` commands read back as themselves |
| Commands.FromTokensOf | internal/ssh/client.go:166-333 | every command's items read back as that command |
| Commands.ParseRender | internal/ssh/client.go:166-333 | every well-formed command is recovered from the line the client sends: no two share a line and every argument arrives intact |
| Commands.QuotedOption | internal/ssh/client.go:169-174 | a flag with quoted text is appended only for non-empty text |
| Commands.PrivateOption | internal/ssh/client.go:175-177 | ` -p` is appended only for a private repository |
| Commands.RepoCreateLine | internal/ssh/client.go:167-180 | `repo create <name>`, then ` -d "<desc>"` only for a non-empty description, ` -n "<project>"` only for a non-empty project name, ` -p` only when private, in that order |
| Commands.KeyFlagsSuffix | internal/ssh/client.go:234-236 | the key part of `user create` is one ` -k "<key>"` per key, in order |
| Commands.UserCreateLine | internal/ssh/client.go:229-239 | `user create <u>`, then ` -a` exactly for an admin, then one ` -k "<key>"` per key in input order |
| Commands.CollabAddLine | internal/ssh/client.go:281-288 | `repo collab add <repo> <user>`, with ` <level>` appended only when the level is non-empty |
| Commands.RepoSetHiddenLine | internal/ssh/client.go:217-220 | `repo hidden <name>` followed by `true` or `false` |
| Parser.ParseKeyValueShape | internal/ssh/parser.go:178-191 | a line yields a pair exactly when it holds ": " or trims to text ending in ':'; the value is trimmed; without ": " the value is empty and the key is the trimmed line minus its ':' |
| Parser.ParseKeyValueSplits | internal/ssh/parser.go:179-190 | `pre: post` splits at the first ": " into the trimmed label and the trimmed value |
| Parser.ParseKeyValueBare | internal/ssh/parser.go:180-185 | a bare `Label:` line gives the label and an empty value |
| Parser.FirstSeparator | internal/ssh/parser.go:179 | in `pre: post` the first ": " is the one after pre unless pre holds one |
| Parser.ParseKeyValues | internal/ssh/parser.go:167-176 | the loop keeps the pairs of the labelled lines, in order |
| Parser.AddPair | internal/ssh/parser.go:171-174 | one more line read adds its pair, if it carries one, after the pairs so far |
| Parser.LastValueSpec | internal/ssh/parser.go:51-68 | the value used for a label is that of the last line carrying it; none exactly when no line carries it |
| Parser.ParseRepoInfo | internal/ssh/parser.go:47-75 | the loop computes the repository record, or the missing-Repository error |
| Parser.RepoFieldsLast | internal/ssh/parser.go:51-68 | each field of the record comes from the last line with its label; other labels change nothing |
| Parser.ApplyRepoFieldCases | internal/ssh/parser.go:52-67 | each known label sets only its own field; Private, Hidden and Mirror are true only for exactly `true`; unknown labels such as `Default Branch` are ignored |
| Parser.RepoInfoMissing | internal/ssh/parser.go:70-72 | repo info fails exactly when the last Repository line has an empty value, or there is none, and then with the missing-Repository error |
| Parser.RepoInfoOfEmpty | internal/ssh/parser.go:70-72 | an empty reply is an error |
| Parser.LabelledLine | internal/ssh/parser.go:178-191 | a `label: value` line with a colon-free label and trimmed texts reads back as that label and value |
| Parser.KeyValuesOfEach | internal/ssh/parser.go:167-176 | lines that each carry one pair give exactly those pairs, in order |
| Parser.PairLinesRead | internal/ssh/parser.go:167-191 | printing printable pairs one per line and reading them back gives the pairs |
| Parser.RepoFieldsOfPairs | internal/ssh/parser.go:51-68 | the seven labelled pairs of a record, read in order from the empty record, give the record |
| Parser.ApplyTextLabels | internal/ssh/parser.go:53-58 | the Project Name, Repository, Description and Owner labels each set only their own field to the value |
| Parser.ApplyFlagLabels | internal/ssh/parser.go:59-64 | the Private, Hidden and Mirror labels each set only their own flag, from the printed `true` or `false` |
| Parser.RepoInfoRoundTrip | internal/ssh/parser.go:47-75 | the reply the server prints for a repository (every field on its own labelled line) reads back as that same record when the name is non-empty and the texts are trimmed single lines |
| Parser.ParseUserInfo | internal/ssh/parser.go:86-128 | the two-state loop computes the user record, or the missing-Username error |
| Parser.UserInfoTrimmed | internal/ssh/parser.go:108-125 | a successful read has a non-empty username; it and every key have no surrounding white space and no key is empty |
| Parser.KeyLinesTrimmed | internal/ssh/parser.go:93-100 | every key collected is non-empty and trimmed |
| Parser.KeySection | internal/ssh/parser.go:91-106 | inside the key section, lines that do not close it add their trimmed text to the keys in order, blank lines are skipped, and the section stays open |
| Parser.KeyStep | internal/ssh/parser.go:92-101 | one indented or unlabelled line in the key section appends its trimmed text |
| Parser.KeySectionEnd | internal/ssh/parser.go:96-98 | a non-indented labelled line closes the key section and is itself read as a labelled line |
| Parser.KeyLinesIndented | internal/ssh/parser.go:93-100 | keys printed with two-space indentation are read back exactly |
| Parser.UsernameLine | internal/ssh/parser.go:114-115 | `Username: u` sets the username to u |
| Parser.AdminLine | internal/ssh/parser.go:116-117 | `Admin: true` and `Admin: false` set the flag accordingly |
| Parser.AdminValueLine | internal/ssh/parser.go:116-117 | any Admin value other than `true` clears the flag |
| Parser.PublicKeysLine | internal/ssh/parser.go:118-119 | `Public keys:` opens the key section |
| Parser.UserInfoRoundTrip | internal/ssh/parser.go:86-128 | the reply the server prints for a user (username, admin flag, indented keys) reads back as that same record |
| Parser.EntryOf | internal/ssh/parser.go:143-156 | a line gives no entry exactly when it is blank; an entry's username is a non-empty word and its level has no white space |
| Parser.ParseCollabList | internal/ssh/parser.go:136-160 | the loop computes the collaborator list; it never fails |
| Parser.ReadEntry | internal/ssh/parser.go:143-156 | the body of the loop reads one line's entry |
| Parser.AddEntry | internal/ssh/parser.go:142-158 | one pass of the loop appends that line's entry, if any, to the entries of the lines before it |
| Parser.EntriesCount | internal/ssh/parser.go:142-158 | one entry per non-blank line |
| Parser.CollabListBlank | internal/ssh/parser.go:137-139 | the white-space-only shortcut gives the same list as the line loop |
| Parser.AllBlankNoEntries | internal/ssh/parser.go:142-146 | blank lines give no entries |
| Parser.EntryOfLine | internal/ssh/parser.go:147-156 | a printed `user [level]` line reads back as its entry |
| Parser.EntryOfWord | internal/ssh/parser.go:151-156 | a line with only a username gives an empty access level |
| Parser.EntryOfPair | internal/ssh/parser.go:151-156 | `user level` gives that user and that level |
| Parser.EntriesOfLines | internal/ssh/parser.go:142-158 | printed entry lines read back as the entries, in order |
| Parser.EntriesOfEach | internal/ssh/parser.go:142-158 | when each line gives one entry, the list is those entries in order |
| Parser.CollabListRoundTrip | internal/ssh/parser.go:136-160 | the listing the server prints for a collaborator list reads back as that list |
| Ssh.FilteredAgentAuth | internal/ssh/client.go:101-110 | reading the identity file yields the agent method that offers only the key that file names |
| Ssh.NewClient | internal/ssh/client.go:36-88 | the client built from a configuration; every client built holds a signer or an agent method |
| Ssh.KeyContentsFirst | internal/ssh/client.go:44-50 | with key contents given, the key path is never consulted |
| Ssh.KeyErrorsStop | internal/ssh/client.go:45-58 | a key that does not parse, from contents or file, or an unreadable key file, is an error with its own message, never a fall-through to the agent |
| Ssh.NoAuthExactly | internal/ssh/client.go:83-85 | NewClient fails with the no-authentication error exactly when no key is configured and no agent is available |
| Ssh.AgentOnly | internal/ssh/client.go:63-78 | with only the agent and no identity file, the client offers every agent key |
| Ssh.OfferedSigners | internal/ssh/client.go:112-122 | the filtered agent offers exactly the first agent key equal to the identity's key, or fails naming the identity file when none matches; the unfiltered agent offers all its keys |
| Ssh.AuthMethods | internal/ssh/client.go:128-134 | the explicit key's method comes before the agent's, each present exactly when configured |
| Ssh.Outcome | internal/ssh/client.go:142-163 | success exactly when the command ran and exited cleanly; the output is stdout with only trailing newlines removed; a failed command's error names the quoted command and the trimmed stderr |
| Ssh.Run | internal/ssh/client.go:127-164 | the command is added to the server's log and the result is the server's answer as Outcome words it |
| Ssh.Exec | internal/ssh/client.go:199-202 | a command whose output is discarded: sent once, and only its error is returned |
| Ssh.RepoInfo | internal/ssh/client.go:190-196 | sends `repo info <name>` and parses the reply; a run error is passed on unchanged |
| Ssh.UserInfo | internal/ssh/client.go:248-254 | sends `user info <u>` and parses the reply; a run error is passed on unchanged |
| Ssh.CollabList | internal/ssh/client.go:291-297 | sends `repo collab list <repo>` and parses the reply; a run error is passed on unchanged |
| Ssh.AllowKeylessAnswer | internal/ssh/client.go:306-312 | allow-keyless is true exactly when the trimmed output is `true`; errors are passed on |
| Ssh.SettingsGetAllowKeyless | internal/ssh/client.go:306-312 | sends `settings allow-keyless` and returns the answer above |
| Ssh.AnonAccessAnswer | internal/ssh/client.go:321-327 | the anon-access level is the command output with its surrounding white space removed; the command's error is passed on unchanged |
| Ssh.SettingsGetAnonAccess | internal/ssh/client.go:321-327 | appends `settings anon-access` to the log and returns the output with its surrounding white space removed, or the command's error unchanged |
| Ssh.Close | internal/ssh/client.go:91-96 | without an agent connection Close returns no error; with one it returns that connection's close error |
| Reconcile.StringOf | internal/resource/repository.go:108 | ValueString: the known value, or "" for a null or unknown one |
| Reconcile.BoolOf | internal/resource/repository.go:110 | ValueBool: true exactly for a known true |
| Reconcile.PerformSent | internal/resource/repository.go:119-130 | the commands sent are the steps' commands in order: all of them on success; up to and including the failing one otherwise, with that step's summary |
| Reconcile.PerformStops | internal/resource/repository.go:165-199 | every command before the last one sent succeeded, and a failure carries the last command's error |
| Reconcile.PerformPrefixFails | internal/resource/repository.go:170-173 | after a failure no later step is issued |
| Reconcile.IssueStep | internal/resource/repository.go:188-191 | issuing a step logs its command line and reports its error under the step's summary |
| Reconcile.Issue | internal/resource/repository.go:188-191 | one guarded command: it is sent, and its error ends the operation under the step's summary |
| Reconcile.IssueAll | internal/resource/repository.go:165-199 | a chain of such blocks sends exactly what Perform sends and reports its first failure |
| RepositoryResource.RepoReadKnown | internal/resource/repository.go:233-250 | readRepoState fails exactly when the command or the parse fails, and then leaves the model untouched; otherwise the ID is the name asked for and Name, Description, Project Name, Private and Hidden are known and hold the value of the last reply line with their label (the flags: whether it is exactly `true`), Name being non-empty |
| RepositoryResource.ReadRepoState | internal/resource/repository.go:233-250 | sends `repo info` once and loads the model as above |
| RepositoryResource.OutcomeStops | internal/resource/repository.go:119-135 | a failing command ends the operation with its summary and skips the read; otherwise the steps' commands are followed by exactly one `repo info` |
| RepositoryResource.CreateLines | internal/resource/repository.go:108-130 | the lines Create sends, written out: the create line with its optional flags, then the hidden line only for a hidden plan |
| RepositoryResource.Create | internal/resource/repository.go:101-138 | logs the create steps, stopping at the first failure, then the read, and returns the state read or the first error |
| RepositoryResource.UpdateSetters | internal/resource/repository.go:165-199 | a setter is sent exactly when its field differs from the prior state, and no other command; a null description or project name is sent as "" |
| RepositoryResource.UpdateOrder | internal/resource/repository.go:165-199 | the setters go in the fixed order description, project name, private, hidden |
| RepositoryResource.UpdateUnchanged | internal/resource/repository.go:165-199 | with no field changed, Update sends no mutating command |
| RepositoryResource.Update | internal/resource/repository.go:155-207 | logs the changed fields' setters, stopping at the first failure, then the read |
| RepositoryResource.Read | internal/resource/repository.go:140-153 | sends only `repo info` and returns the state read |
| RepositoryResource.Delete | internal/resource/repository.go:209-219 | sends `repo delete <name>` once and reports its error |
| RepositoryResource.ImportState | internal/resource/repository.go:221-231 | reads the repository named by the raw import ID |
| UserResource.ToStringSet | internal/resource/user.go:263-269 | toStringSet holds exactly the distinct elements of its input |
| UserResource.ElementsOfEmpty | internal/resource/user.go:263-269 | a nil or empty list gives the empty set |
| UserResource.Missing | internal/resource/user.go:174-191 | the range over one set keeps each key missing from the other exactly once |
| UserResource.UserReadKeys | internal/resource/user.go:226-261 | readUserState fails exactly when `user info` or its parse fails, leaving the model untouched; otherwise the ID is the username asked for, the keys are the server's in ascending order, and with no keys on the server a null set stays null and any other becomes empty |
| UserResource.ReadUserState | internal/resource/user.go:226-261 | sends `user info` once and loads the model as above |
| UserResource.OutcomeStops | internal/resource/user.go:111-116 | a failing command ends the operation and skips the read; otherwise exactly one `user info` follows the steps |
| UserResource.CreateLines | internal/resource/user.go:96-111 | Create sends one `user create` with the plan's admin flag and keys, and no keys when the set is null or unknown |
| UserResource.Create | internal/resource/user.go:89-122 | logs `user create`, then the read if it succeeded, and returns the state read or the first error |
| UserResource.UpdateAdminFirst | internal/resource/user.go:150-155 | `user set-admin` is sent exactly when the admin flag changed, and then before any key command |
| UserResource.KeyDiff | internal/resource/user.go:170-191 | the key commands remove exactly the keys in state but not plan and add exactly those in plan but not state; every removal precedes every addition; no key is both removed and added; removing then adding turns the prior set into the plan's; no key command exactly when the sets are equal |
| UserResource.KeyStepsMembers | internal/resource/user.go:170-191 | the key commands are the removals, then the additions |
| UserResource.KeySetsMeet | internal/resource/user.go:170-191 | the prior set minus the removals plus the additions is the plan's set |
| UserResource.NullKeysEmpty | internal/resource/user.go:159-165 | a null key set counts as empty |
| UserResource.UpdateUnchanged | internal/resource/user.go:150-194 | with the same admin flag and key set, Update sends only `user info` |
| UserResource.DiffKeys | internal/resource/user.go:170-191 | the two ranges give the keys to remove and to add, each once |
| UserResource.UpdateKeys | internal/resource/user.go:157-192 | an unknown key set is a conversion error with nothing sent; otherwise the removals and additions are sent, stopping at the first failure |
| UserResource.Update | internal/resource/user.go:139-200 | logs the admin step, the key steps and the read, stopping at the first failure, and returns the state read or the first error |
| UserResource.UpdateAdminFails | internal/resource/user.go:151-154 | when `user set-admin` fails, nothing else is sent |
| UserResource.Read | internal/resource/user.go:124-137 | sends only `user info` and returns the state read |
| UserResource.Delete | internal/resource/user.go:202-212 | sends `user delete <u>` once and reports its error |
| UserResource.ImportState | internal/resource/user.go:214-224 | reads the user named by the raw import ID |
| CollaboratorResource.FirstSlash | internal/resource/repository_collaborator.go:173 | the position of the first '/' |
| CollaboratorResource.SplitImportIdFirst | internal/resource/repository_collaborator.go:173-178 | an ID without '/' is rejected as "Invalid import ID"; otherwise it splits at the first '/' (`a/b/c` is `a` and `b/c`) |
| CollaboratorResource.ImportIdRoundTrip | internal/resource/repository_collaborator.go:173-182 | for a repository name without '/', importing `repo/user` recovers exactly the repository and the user |
| CollaboratorResource.FirstEntrySpec | internal/resource/repository_collaborator.go:201-202 | the lookup finds the first entry with the username, or reports that none has it |
| CollaboratorResource.CollabReadSpec | internal/resource/repository_collaborator.go:192-218 | a listing failure and "Collaborator not found" are distinct errors that leave the model untouched; a found entry sets ID = repo/username and its level, with "" stored as read-write; that ID imports back to the same pair |
| CollaboratorResource.ReadCollabState | internal/resource/repository_collaborator.go:192-218 | sends `repo collab list` once and loads the model as above |
| CollaboratorResource.ListCollaborators | internal/resource/repository_collaborator.go:195-199 | the listing or its error |
| CollaboratorResource.FindCollaborator | internal/resource/repository_collaborator.go:201-217 | the loop over the listing computes the lookup above |
| CollaboratorResource.AddLines | internal/resource/repository_collaborator.go:103-107 | Create and Update send exactly one `repo collab add` with the plan's level and never a remove |
| CollaboratorResource.Add | internal/resource/repository_collaborator.go:103-117 | logs `repo collab add`, then the read if it succeeded |
| CollaboratorResource.Create | internal/resource/repository_collaborator.go:96-118 | the add under "Error adding collaborator", then the read |
| CollaboratorResource.Update | internal/resource/repository_collaborator.go:135-158 | the add under "Error updating collaborator", then the read, with no diff against prior state |
| CollaboratorResource.Read | internal/resource/repository_collaborator.go:120-133 | sends only `repo collab list` and returns the state read |
| CollaboratorResource.Delete | internal/resource/repository_collaborator.go:160-170 | sends `repo collab remove <repo> <user>` once and reports its error |
| CollaboratorResource.ImportState | internal/resource/repository_collaborator.go:172-190 | a malformed ID sends nothing; otherwise reads the collaborator it names |
| SettingsResource.ApplyCommands | internal/resource/server_settings.go:153-171 | applySettings sends allow-keyless only when known and anon-access only when known, allow-keyless first |
| SettingsResource.SettingsReadSpec | internal/resource/server_settings.go:173-193 | the ID is always `settings`; allow-keyless is asked first, anon-access only after it succeeded; the first failure ends the read under its own summary; a complete read stores allow-keyless as whether the first trimmed reply is `true` and anon-access as the second reply with its surrounding white space removed |
| SettingsResource.SettingsReadIgnoresModel | internal/resource/server_settings.go:173-193 | what the read sends and returns does not depend on the prior model |
| SettingsResource.GetAllowKeyless | internal/resource/server_settings.go:178-183 | one `settings allow-keyless` query |
| SettingsResource.GetAnonAccess | internal/resource/server_settings.go:185-190 | one `settings anon-access` query |
| SettingsResource.ReadSettingsState | internal/resource/server_settings.go:173-193 | the queries and the model as above |
| SettingsResource.OutcomeStops | internal/resource/server_settings.go:90-98 | a failing setter skips the read; otherwise the read follows, and a success has the ID and both settings known |
| SettingsResource.Apply | internal/resource/server_settings.go:153-171 | sends the setters, stopping at the first failure, then reads |
| SettingsResource.Create | internal/resource/server_settings.go:83-101 | apply, then read |
| SettingsResource.Update | internal/resource/server_settings.go:118-136 | the same sequence as Create, with no diff against prior state |
| SettingsResource.Read | internal/resource/server_settings.go:103-116 | only the two queries |
| SettingsResource.Delete | internal/resource/server_settings.go:138-140 | sends nothing and never reports an error |
| SettingsResource.ImportState | internal/resource/server_settings.go:142-151 | takes no ID and reads the settings |
| SettingsResource.ImportIsRead | internal/resource/server_settings.go:142-151 | import sends and returns exactly what a read does |
| Provider.ExpandHome | internal/provider/provider.go:127-131 | a path starting with `~/` becomes the home directory, '/', and the rest; other paths, or no home directory, leave it unchanged |
| Provider.ExpandHomeOnce | internal/provider/provider.go:139-143 | expanding an expanded path changes nothing more |
| Provider.ResolveConfig | internal/provider/provider.go:89-152 | the override steps compute the resolved client configuration |
| Provider.BlockWins | internal/provider/provider.go:89-152 | a setting given in the provider block is used whatever the environment and OS user say |
| Provider.Defaults | internal/provider/provider.go:89-152 | with an empty environment and an empty block: localhost, port 23231, the OS user's name (else ""), agent on, no key, key path or identity file |
| Provider.PortFromEnvironment | internal/provider/provider.go:99-104 | without a block port, SOFT_SERVE_PORT is used when it parses and 23231 otherwise |
| Provider.UseAgentFromEnvironment | internal/provider/provider.go:147-149 | a set SOFT_SERVE_USE_AGENT turns the agent on exactly for `true` or `1` |
| Provider.PrivateKeyFromEnvironment | internal/provider/provider.go:122 | key contents come only from SOFT_SERVE_PRIVATE_KEY, whatever the block says |
| Provider.Configure | internal/provider/provider.go:154-171 | the client is NewClient's for the resolved configuration; its failure is reported on the `host` attribute as "Unable to create Soft Serve SSH client" |
| Provider.Resources | internal/provider/provider.go:177-184 | exactly four distinct resource types, each prefixed `softserve_` |

## Left out

- The SSH transport: the TCP dial, the session, the host-key check that is switched off, and the agent socket's protocol. The server is an oracle that answers each command from the session (user, address, authentication methods) and the commands sent before. A dial or session error is one of its answers.
- Private-key parsing, authorized-key parsing, public-key marshalling and file reading: these are functions in `Ssh.Local`. Comparing marshalled keys is string equality of their wire encodings. The agent's list of signers is an input of `Ssh.OfferedSigners`.
- Closing the agent connection when filtering by identity file fails: this is not modelled, because nothing in the model observes the connection afterwards.
- Commands.EscapeChar: writes every character from U+0020 up, except U+007F, as itself. Go's `%q` also escapes non-printable Unicode characters (such as U+0085) as `\u`/`\U` sequences, and invalid UTF-8 as `\x`. These cases are not modelled.
- Commands.ParseRender: holds only for well-formed commands. The client inserts names, usernames and access levels unquoted, so one containing a space or a newline produces a different command line. The model states the round trip under that condition. The source does not check names either.
- The Terraform framework surface: schemas, Metadata's version, DataSources, the resources' Configure type assertions, `Plan.Get`/`State.Get`/`State.Set`. Each operation takes the plan or prior state as a value and returns the new state or its diagnostic.
- Diagnostics are reduced to the first error. `types.SetValueFrom` cannot fail on a list of strings, so its diagnostics are not modelled. The text of the framework's conversion error for an unknown set is given as a constant.
- UserResource.Update: the order in which keys are removed, and the order in which they are added, is whatever `UserResource.Missing` picks, because Go leaves map iteration order unspecified. Only "every removal before every addition", and which keys are touched, are stated.
- A Terraform set of keys is held as a list of its elements. Equality of sets is equality of their elements (`UserResource.KeysEqual`).
- The machine that Configure reads is an input, `Provider.Machine`: environment variables, the OS user name and the home directory. Go looks the home directory up twice; the model uses one answer for both.
- Integers are unbounded. The port is Go's 64-bit `int`, and `strconv.Atoi` accepts exactly the 64-bit range, which `Text.Atoi` models.
- Concurrency: the provider has none to model.
