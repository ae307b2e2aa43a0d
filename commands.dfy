/**
 * The administrative commands the client sends to the Soft Serve server, and
 * their wire form: one line of space-separated words in which free text is
 * quoted the way Go's `%q` verb (strconv.Quote) quotes it.
 *
 * `Parse` reads a command line back; it is not part of the client, it is the
 * partner that shows every argument can be recovered from the line sent.
 */
module Commands {
  import opened Wrappers
  import Text

  // ---------------------------------------------------------------------
  // Quoting (strconv.Quote)
  // ---------------------------------------------------------------------

  function HexDigit(d: nat): char
    requires d < 16
  {
    if d < 10 then (('0' as int) + d) as char else (('a' as int) + d - 10) as char
  }

  /** The escape sequence strconv.Quote writes for one character. */
  function EscapeChar(c: char): (r: string)
    ensures |r| >= 1 && '\n' !in r
    ensures r[0] != '"'
  {
    if c == '"' then "\\\""
    else if c == '\\' then "\\\\"
    else if ' ' <= c && c != '\U{7F}' then [c]
    else if c == '\U{7}' then "\\a"
    else if c == '\U{8}' then "\\b"
    else if c == '\U{C}' then "\\f"
    else if c == '\n' then "\\n"
    else if c == '\r' then "\\r"
    else if c == '\t' then "\\t"
    else if c == '\U{B}' then "\\v"
    else "\\x" + [HexDigit(c as int / 16), HexDigit(c as int % 16)]
  }

  function EscapeAll(s: string): (r: string)
    ensures '\n' !in r
  {
    if s == [] then "" else EscapeChar(s[0]) + EscapeAll(s[1..])
  }

  /** strconv.Quote: s between double quotes, with quotes, backslashes and control characters escaped. */
  function Quote(s: string): (r: string)
    ensures |r| >= 2 && r[0] == '"' && r[|r| - 1] == '"'
    ensures '\n' !in r
  {
    "\"" + EscapeAll(s) + "\""
  }

  function HexValue(c: char): Option<nat> {
    if '0' <= c <= '9' then Some(c as int - '0' as int)
    else if 'a' <= c <= 'f' then Some(c as int - 'a' as int + 10)
    else None
  }

  /** The character an escape sequence (after its backslash) stands for, and its length. */
  function Unescape(s: string): Option<(char, nat)> {
    if s == [] then None
    else if s[0] == '"' || s[0] == '\\' then Some((s[0], 1))
    else if s[0] == 'a' then Some(('\U{7}', 1))
    else if s[0] == 'b' then Some(('\U{8}', 1))
    else if s[0] == 'f' then Some(('\U{C}', 1))
    else if s[0] == 'n' then Some(('\n', 1))
    else if s[0] == 'r' then Some(('\r', 1))
    else if s[0] == 't' then Some(('\t', 1))
    else if s[0] == 'v' then Some(('\U{B}', 1))
    else if s[0] == 'x' && |s| >= 3 && HexValue(s[1]).Some? && HexValue(s[2]).Some? then
      Some(((HexValue(s[1]).value * 16 + HexValue(s[2]).value) as char, 3))
    else None
  }

  /**
   * Reads the body of a quoted string up to and including its closing quote:
   * the text it stands for and what follows it.
   */
  function ReadQuotedBody(s: string): (r: Option<(string, string)>)
    ensures r.Some? ==> |r.value.1| < |s|
    decreases |s|
  {
    if s == [] then None
    else if s[0] == '"' then Some(("", s[1..]))
    else if s[0] == '\\' then
      match Unescape(s[1..])
      case None => None
      case Some((c, n)) =>
        if 1 + n <= |s| then
          match ReadQuotedBody(s[1 + n..])
          case None => None
          case Some((text, rest)) => Some(([c] + text, rest))
        else None
    else
      match ReadQuotedBody(s[1..])
      case None => None
      case Some((text, rest)) => Some(([s[0]] + text, rest))
  }

  lemma ReadEscapedChar(c: char, t: string)
    ensures ReadQuotedBody(EscapeChar(c) + t) ==
      match ReadQuotedBody(t)
      case None => None
      case Some((text, rest)) => Some(([c] + text, rest))
  {
    var e := EscapeChar(c);
    if |e| == 1 {
      ReadPlainChar(c, t);
    } else if |e| == 2 {
      ReadShortEscape(c, t);
    } else {
      ReadHexEscape(c, t);
    }
  }

  lemma ReadPlainChar(c: char, t: string)
    requires |EscapeChar(c)| == 1
    ensures ReadQuotedBody(EscapeChar(c) + t) ==
      match ReadQuotedBody(t)
      case None => None
      case Some((text, rest)) => Some(([c] + text, rest))
  {
    var s := EscapeChar(c) + t;
    assert s[1..] == t;
  }

  lemma ReadShortEscape(c: char, t: string)
    requires |EscapeChar(c)| == 2
    ensures ReadQuotedBody(EscapeChar(c) + t) ==
      match ReadQuotedBody(t)
      case None => None
      case Some((text, rest)) => Some(([c] + text, rest))
  {
    var e := EscapeChar(c);
    var s := e + t;
    assert s[1..] == [e[1]] + t;
    assert s[2..] == t;
  }

  lemma ReadHexEscape(c: char, t: string)
    requires |EscapeChar(c)| > 2
    ensures ReadQuotedBody(EscapeChar(c) + t) ==
      match ReadQuotedBody(t)
      case None => None
      case Some((text, rest)) => Some(([c] + text, rest))
  {
    var e := EscapeChar(c);
    var s := e + t;
    var v := c as int;
    assert v < 32 || v == 127;
    assert s[1..] == "x" + [HexDigit(v / 16), HexDigit(v % 16)] + t;
    assert s[4..] == t;
  }

  /** Reading back an escaped text and its closing quote gives the text and what follows. */
  lemma {:induction false} ReadQuotedBodyOfEscaped(x: string, rest: string)
    ensures ReadQuotedBody(EscapeAll(x) + "\"" + rest) == Some((x, rest))
  {
    if x == [] {
      assert EscapeAll(x) + "\"" + rest == "\"" + rest;
      assert ("\"" + rest)[1..] == rest;
    } else {
      ReadQuotedBodyOfEscaped(x[1..], rest);
      assert EscapeAll(x) + "\"" + rest == EscapeChar(x[0]) + (EscapeAll(x[1..]) + "\"" + rest);
      ReadEscapedChar(x[0], EscapeAll(x[1..]) + "\"" + rest);
      assert [x[0]] + x[1..] == x;
    }
  }

  // ---------------------------------------------------------------------
  // Words and quoted strings
  // ---------------------------------------------------------------------

  /** One space-separated item of a command line: a bare word or a quoted string. */
  datatype Token = Bare(word: string) | Quoted(text: string)

  function RenderToken(t: Token): string {
    match t
    case Bare(w) => w
    case Quoted(x) => Quote(x)
  }

  function RenderAllTokens(ts: seq<Token>): (r: seq<string>)
    ensures |r| == |ts|
  {
    if ts == [] then [] else [RenderToken(ts[0])] + RenderAllTokens(ts[1..])
  }

  /** The tokens joined by single spaces. */
  function RenderTokens(ts: seq<Token>): string {
    Text.Join(RenderAllTokens(ts), ' ')
  }

  /** A word that the command line carries unquoted and that reads back as itself. */
  predicate IsWord(w: string) {
    ' ' !in w && '\n' !in w && (w == [] || w[0] != '"')
  }

  predicate WellFormedToken(t: Token) {
    t.Quoted? || IsWord(t.word)
  }

  /** The longest prefix of s without a space. */
  function UpToSpace(s: string): (r: string)
    ensures |r| <= |s| && r == s[..|r|] && ' ' !in r
    ensures |r| == |s| || s[|r|] == ' '
  {
    if s == [] || s[0] == ' ' then "" else [s[0]] + UpToSpace(s[1..])
  }

  /** Reads one token from the front of s, returning it and what follows it. */
  function ReadToken(s: string): (r: Option<(Token, string)>)
    ensures r.Some? ==> |r.value.1| <= |s|
  {
    if s != [] && s[0] == '"' then
      match ReadQuotedBody(s[1..])
      case None => None
      case Some((text, rest)) => Some((Quoted(text), rest))
    else
      var w := UpToSpace(s);
      Some((Bare(w), s[|w|..]))
  }

  /** Splits a command line into its tokens. */
  function Tokenise(s: string): Option<seq<Token>>
    decreases |s|
  {
    match ReadToken(s)
    case None => None
    case Some((t, rest)) =>
      if rest == [] then Some([t])
      else if rest[0] != ' ' then None
      else
        match Tokenise(rest[1..])
        case None => None
        case Some(ts) => Some([t] + ts)
  }

  lemma ReadTokenOfRendered(t: Token, rest: string)
    requires WellFormedToken(t)
    requires rest == [] || rest[0] == ' '
    ensures ReadToken(RenderToken(t) + rest) == Some((t, rest))
  {
    if t.Quoted? {
      ReadTokenOfQuoted(t.text, rest);
    } else {
      ReadTokenOfWord(t.word, rest);
    }
  }

  lemma ReadTokenOfQuoted(x: string, rest: string)
    ensures ReadToken(Quote(x) + rest) == Some((Quoted(x), rest))
  {
    var s := Quote(x) + rest;
    assert s[0] == '"';
    assert s[1..] == EscapeAll(x) + "\"" + rest;
    ReadQuotedBodyOfEscaped(x, rest);
  }

  lemma ReadTokenOfWord(w: string, rest: string)
    requires IsWord(w)
    requires rest == [] || rest[0] == ' '
    ensures ReadToken(w + rest) == Some((Bare(w), rest))
  {
    var s := w + rest;
    assert s != [] ==> s[0] != '"';
    UpToSpaceOfWord(w, rest);
    assert s[|w|..] == rest;
  }

  lemma {:induction false} UpToSpaceOfWord(w: string, rest: string)
    requires ' ' !in w
    requires rest == [] || rest[0] == ' '
    ensures UpToSpace(w + rest) == w
  {
    if w == [] {
      assert w + rest == rest;
    } else {
      assert (w + rest)[1..] == w[1..] + rest;
      UpToSpaceOfWord(w[1..], rest);
    }
  }

  /** Splitting a rendered token list gives the tokens back. */
  lemma {:induction false} TokeniseRender(ts: seq<Token>)
    requires ts != []
    requires forall t :: t in ts ==> WellFormedToken(t)
    ensures Tokenise(RenderTokens(ts)) == Some(ts)
  {
    var rs := RenderAllTokens(ts);
    if |ts| == 1 {
      assert RenderTokens(ts) == RenderToken(ts[0]) + "";
      ReadTokenOfRendered(ts[0], "");
      assert ts == [ts[0]];
    } else {
      var tail := RenderTokens(ts[1..]);
      assert rs[1..] == RenderAllTokens(ts[1..]);
      assert RenderTokens(ts) == RenderToken(ts[0]) + (" " + tail);
      ReadTokenOfRendered(ts[0], " " + tail);
      assert (" " + tail)[1..] == tail;
      TokeniseRender(ts[1..]);
      assert [ts[0]] + ts[1..] == ts;
    }
  }

  // ---------------------------------------------------------------------
  // The command catalogue
  // ---------------------------------------------------------------------

  /** One administrative command, with the arguments its client method takes. */
  datatype Command =
    | RepoCreate(name: string, description: string, projectName: string, private: bool)
    | RepoInfo(name: string)
    | RepoDelete(name: string)
    | RepoSetDescription(name: string, description: string)
    | RepoSetPrivate(name: string, private: bool)
    | RepoSetHidden(name: string, hidden: bool)
    | RepoSetProjectName(name: string, projectName: string)
    | UserCreate(username: string, admin: bool, publicKeys: seq<string>)
    | UserInfo(username: string)
    | UserDelete(username: string)
    | UserSetAdmin(username: string, admin: bool)
    | UserAddPublicKey(username: string, key: string)
    | UserRemovePublicKey(username: string, key: string)
    | CollabAdd(repo: string, username: string, accessLevel: string)
    | CollabList(repo: string)
    | CollabRemove(repo: string, username: string)
    | SettingsGetAllowKeyless
    | SettingsSetAllowKeyless(allow: bool)
    | SettingsGetAnonAccess
    | SettingsSetAnonAccess(level: string)

  /** Go's %t verb. */
  function BoolWord(b: bool): string {
    if b then "true" else "false"
  }

  function KeyFlags(keys: seq<string>): (r: seq<Token>)
    ensures |r| == 2 * |keys|
  {
    if keys == [] then [] else [Bare("-k"), Quoted(keys[0])] + KeyFlags(keys[1..])
  }

  /** The items of each command line, in the order the client method appends them. */
  function Tokens(c: Command): seq<Token> {
    match c
    case RepoCreate(name, desc, project, private) =>
      [Bare("repo"), Bare("create"), Bare(name)]
      + (if desc != "" then [Bare("-d"), Quoted(desc)] else [])
      + (if project != "" then [Bare("-n"), Quoted(project)] else [])
      + (if private then [Bare("-p")] else [])
    case RepoInfo(name) => [Bare("repo"), Bare("info"), Bare(name)]
    case RepoDelete(name) => [Bare("repo"), Bare("delete"), Bare(name)]
    case RepoSetDescription(name, desc) => [Bare("repo"), Bare("description"), Bare(name), Quoted(desc)]
    case RepoSetPrivate(name, b) => [Bare("repo"), Bare("private"), Bare(name), Bare(BoolWord(b))]
    case RepoSetHidden(name, b) => [Bare("repo"), Bare("hidden"), Bare(name), Bare(BoolWord(b))]
    case RepoSetProjectName(name, pn) => [Bare("repo"), Bare("project-name"), Bare(name), Quoted(pn)]
    case UserCreate(u, admin, keys) =>
      [Bare("user"), Bare("create"), Bare(u)] + (if admin then [Bare("-a")] else []) + KeyFlags(keys)
    case UserInfo(u) => [Bare("user"), Bare("info"), Bare(u)]
    case UserDelete(u) => [Bare("user"), Bare("delete"), Bare(u)]
    case UserSetAdmin(u, b) => [Bare("user"), Bare("set-admin"), Bare(u), Bare(BoolWord(b))]
    case UserAddPublicKey(u, k) => [Bare("user"), Bare("add-pubkey"), Bare(u), Quoted(k)]
    case UserRemovePublicKey(u, k) => [Bare("user"), Bare("remove-pubkey"), Bare(u), Quoted(k)]
    case CollabAdd(repo, u, level) =>
      [Bare("repo"), Bare("collab"), Bare("add"), Bare(repo), Bare(u)] + (if level != "" then [Bare(level)] else [])
    case CollabList(repo) => [Bare("repo"), Bare("collab"), Bare("list"), Bare(repo)]
    case CollabRemove(repo, u) => [Bare("repo"), Bare("collab"), Bare("remove"), Bare(repo), Bare(u)]
    case SettingsGetAllowKeyless => [Bare("settings"), Bare("allow-keyless")]
    case SettingsSetAllowKeyless(b) => [Bare("settings"), Bare("allow-keyless"), Bare(BoolWord(b))]
    case SettingsGetAnonAccess => [Bare("settings"), Bare("anon-access")]
    case SettingsSetAnonAccess(level) => [Bare("settings"), Bare("anon-access"), Bare(level)]
  }

  /** The command line the client sends for c. */
  function Render(c: Command): (r: string)
    ensures '\n' !in r || !WellFormed(c)
  {
    var ts := Tokens(c);
    assert WellFormed(c) ==> '\n' !in RenderTokens(ts) by {
      if WellFormed(c) {
        RenderedSingleLine(ts);
      }
    }
    RenderTokens(ts)
  }

  /**
   * The arguments the client inserts unquoted (names, usernames, access
   * levels) are words: every unquoted item of the line reads back as itself.
   */
  predicate WellFormed(c: Command) {
    forall t :: t in Tokens(c) ==> WellFormedToken(t)
  }

  lemma {:induction false} RenderedSingleLine(ts: seq<Token>)
    requires forall t :: t in ts ==> WellFormedToken(t)
    ensures '\n' !in RenderTokens(ts)
  {
    if |ts| == 1 {
      assert ts[0] in ts;
    } else if |ts| > 1 {
      assert ts[0] in ts;
      assert forall t :: t in ts[1..] ==> t in ts;
      RenderedSingleLine(ts[1..]);
      assert RenderAllTokens(ts)[1..] == RenderAllTokens(ts[1..]);
      assert RenderTokens(ts) == RenderToken(ts[0]) + " " + RenderTokens(ts[1..]);
    }
  }

  // ---------------------------------------------------------------------
  // Reading a command line back
  // ---------------------------------------------------------------------

  function ParseBool(w: string): Option<bool> {
    if w == "true" then Some(true) else if w == "false" then Some(false) else None
  }

  /** The optional `-d`, `-n` and `-p` flags of `repo create`, in that order. */
  function ParseCreateFlags(ts: seq<Token>): Option<(string, string, bool)> {
    var hasDesc := |ts| >= 2 && ts[0] == Bare("-d") && ts[1].Quoted?;
    var desc := if hasDesc then ts[1].text else "";
    var ts1 := if hasDesc then ts[2..] else ts;
    var hasProject := |ts1| >= 2 && ts1[0] == Bare("-n") && ts1[1].Quoted?;
    var project := if hasProject then ts1[1].text else "";
    var ts2 := if hasProject then ts1[2..] else ts1;
    if ts2 == [] then Some((desc, project, false))
    else if ts2 == [Bare("-p")] then Some((desc, project, true))
    else None
  }

  /** A run of `-k "<key>"` pairs. */
  function ParseKeyFlags(ts: seq<Token>): Option<seq<string>> {
    if ts == [] then Some([])
    else if |ts| >= 2 && ts[0] == Bare("-k") && ts[1].Quoted? then
      match ParseKeyFlags(ts[2..])
      case None => None
      case Some(keys) => Some([ts[1].text] + keys)
    else None
  }

  function ParseRepo(sub: string, args: seq<Token>): Option<Command> {
    if sub == "create" then
      if |args| >= 1 && args[0].Bare? then
        match ParseCreateFlags(args[1..])
        case None => None
        case Some((d, n, p)) => Some(RepoCreate(args[0].word, d, n, p))
      else None
    else if |args| == 1 && args[0].Bare? then
      if sub == "info" then Some(RepoInfo(args[0].word))
      else if sub == "delete" then Some(RepoDelete(args[0].word))
      else None
    else if |args| == 2 && args[0].Bare? then
      var name := args[0].word;
      if sub == "description" && args[1].Quoted? then Some(RepoSetDescription(name, args[1].text))
      else if sub == "project-name" && args[1].Quoted? then Some(RepoSetProjectName(name, args[1].text))
      else if sub == "private" && args[1].Bare? && ParseBool(args[1].word).Some? then
        Some(RepoSetPrivate(name, ParseBool(args[1].word).value))
      else if sub == "hidden" && args[1].Bare? && ParseBool(args[1].word).Some? then
        Some(RepoSetHidden(name, ParseBool(args[1].word).value))
      else None
    else None
  }

  function ParseCollab(args: seq<Token>): Option<Command>
    requires |args| >= 1 && args[0].Bare?
  {
    var sub := args[0].word;
    if sub == "list" && |args| == 2 && args[1].Bare? then Some(CollabList(args[1].word))
    else if sub == "remove" && |args| == 3 && args[1].Bare? && args[2].Bare? then
      Some(CollabRemove(args[1].word, args[2].word))
    else if sub == "add" && |args| == 3 && args[1].Bare? && args[2].Bare? then
      Some(CollabAdd(args[1].word, args[2].word, ""))
    else if sub == "add" && |args| == 4 && args[1].Bare? && args[2].Bare? && args[3].Bare? && args[3].word != "" then
      Some(CollabAdd(args[1].word, args[2].word, args[3].word))
    else None
  }

  function ParseUser(sub: string, args: seq<Token>): Option<Command> {
    if sub == "create" then
      if |args| >= 1 && args[0].Bare? then
        var admin := |args| >= 2 && args[1] == Bare("-a");
        match ParseKeyFlags(if admin then args[2..] else args[1..])
        case None => None
        case Some(keys) => Some(UserCreate(args[0].word, admin, keys))
      else None
    else if |args| == 1 && args[0].Bare? then
      if sub == "info" then Some(UserInfo(args[0].word))
      else if sub == "delete" then Some(UserDelete(args[0].word))
      else None
    else if |args| == 2 && args[0].Bare? then
      var u := args[0].word;
      if sub == "add-pubkey" && args[1].Quoted? then Some(UserAddPublicKey(u, args[1].text))
      else if sub == "remove-pubkey" && args[1].Quoted? then Some(UserRemovePublicKey(u, args[1].text))
      else if sub == "set-admin" && args[1].Bare? && ParseBool(args[1].word).Some? then
        Some(UserSetAdmin(u, ParseBool(args[1].word).value))
      else None
    else None
  }

  function ParseSettings(sub: string, args: seq<Token>): Option<Command> {
    if sub == "allow-keyless" then
      if args == [] then Some(SettingsGetAllowKeyless)
      else if |args| == 1 && args[0].Bare? && ParseBool(args[0].word).Some? then
        Some(SettingsSetAllowKeyless(ParseBool(args[0].word).value))
      else None
    else if sub == "anon-access" then
      if args == [] then Some(SettingsGetAnonAccess)
      else if |args| == 1 && args[0].Bare? then Some(SettingsSetAnonAccess(args[0].word))
      else None
    else None
  }

  /** The command a token list stands for, if any. */
  function FromTokens(ts: seq<Token>): Option<Command> {
    if |ts| < 2 || !ts[0].Bare? || !ts[1].Bare? then None
    else
      var verb, sub, args := ts[0].word, ts[1].word, ts[2..];
      if verb == "repo" && sub == "collab" then
        if |args| >= 1 && args[0].Bare? then ParseCollab(args) else None
      else if verb == "repo" then ParseRepo(sub, args)
      else if verb == "user" then ParseUser(sub, args)
      else if verb == "settings" then ParseSettings(sub, args)
      else None
  }

  /** The command a command line stands for, if any. */
  function Parse(line: string): Option<Command> {
    match Tokenise(line)
    case None => None
    case Some(ts) => FromTokens(ts)
  }

  lemma {:induction false} ParseKeyFlagsOfKeys(keys: seq<string>)
    ensures ParseKeyFlags(KeyFlags(keys)) == Some(keys)
  {
    if keys != [] {
      var ts := KeyFlags(keys);
      assert ts[2..] == KeyFlags(keys[1..]);
      ParseKeyFlagsOfKeys(keys[1..]);
      assert [keys[0]] + keys[1..] == keys;
    }
  }

  lemma ParseCreateFlagsOf(desc: string, project: string, private: bool)
    ensures ParseCreateFlags(
      (if desc != "" then [Bare("-d"), Quoted(desc)] else [])
      + (if project != "" then [Bare("-n"), Quoted(project)] else [])
      + (if private then [Bare("-p")] else [])) == Some((desc, project, private))
  {
    var d: seq<Token> := if desc != "" then [Bare("-d"), Quoted(desc)] else [];
    var n: seq<Token> := if project != "" then [Bare("-n"), Quoted(project)] else [];
    var p: seq<Token> := if private then [Bare("-p")] else [];
    var ts := d + n + p;
    if desc != "" {
      assert ts[2..] == n + p;
    } else {
      assert ts == n + p;
    }
    if project != "" {
      assert (n + p)[2..] == p;
    } else {
      assert n + p == p;
    }
  }

  /** A `repo` line other than `repo collab` is read by ParseRepo. */
  lemma FromTokensRepo(sub: string, args: seq<Token>)
    requires sub != "collab"
    ensures FromTokens([Bare("repo"), Bare(sub)] + args) == ParseRepo(sub, args)
  {
    var ts := [Bare("repo"), Bare(sub)] + args;
    assert ts[0] == Bare("repo") && ts[1] == Bare(sub) && ts[2..] == args;
  }

  lemma ParseRepoCreate(name: string, flags: seq<Token>)
    ensures ParseRepo("create", [Bare(name)] + flags) ==
      match ParseCreateFlags(flags)
      case None => None
      case Some((d, n, p)) => Some(RepoCreate(name, d, n, p))
  {
    assert ([Bare(name)] + flags)[1..] == flags;
  }

  lemma FromTokensOfRepoCreate(name: string, desc: string, project: string, private: bool)
    ensures FromTokens(Tokens(RepoCreate(name, desc, project, private))) == Some(RepoCreate(name, desc, project, private))
  {
    var flags :=
      (if desc != "" then [Bare("-d"), Quoted(desc)] else [])
      + (if project != "" then [Bare("-n"), Quoted(project)] else [])
      + (if private then [Bare("-p")] else []);
    assert Tokens(RepoCreate(name, desc, project, private)) == [Bare("repo"), Bare("create")] + ([Bare(name)] + flags);
    FromTokensRepo("create", [Bare(name)] + flags);
    ParseRepoCreate(name, flags);
    ParseCreateFlagsOf(desc, project, private);
  }

  lemma FromTokensOfUserCreate(u: string, admin: bool, keys: seq<string>)
    ensures FromTokens(Tokens(UserCreate(u, admin, keys))) == Some(UserCreate(u, admin, keys))
  {
    var ts := Tokens(UserCreate(u, admin, keys));
    ParseKeyFlagsOfKeys(keys);
    if admin {
      assert ts[2..][2..] == KeyFlags(keys);
    } else {
      assert ts[2..][1..] == KeyFlags(keys);
      assert |keys| > 0 ==> KeyFlags(keys)[0] == Bare("-k");
    }
  }

  lemma FromTokensOfCollabAdd(repo: string, u: string, level: string)
    ensures FromTokens(Tokens(CollabAdd(repo, u, level))) == Some(CollabAdd(repo, u, level))
  {
    var ts := Tokens(CollabAdd(repo, u, level));
    assert ts[2..] == [Bare("add"), Bare(repo), Bare(u)] + (if level != "" then [Bare(level)] else []);
  }

  lemma FromTokensOfRepoQuery(c: Command)
    requires c.RepoInfo? || c.RepoDelete?
    ensures FromTokens(Tokens(c)) == Some(c)
  {
  }

  lemma FromTokensOfRepoSetter(c: Command)
    requires c.RepoSetDescription? || c.RepoSetPrivate? || c.RepoSetHidden? || c.RepoSetProjectName?
    ensures FromTokens(Tokens(c)) == Some(c)
  {
  }

  lemma FromTokensOfUserQuery(c: Command)
    requires c.UserInfo? || c.UserDelete?
    ensures FromTokens(Tokens(c)) == Some(c)
  {
  }

  lemma FromTokensOfUserSetter(c: Command)
    requires c.UserSetAdmin? || c.UserAddPublicKey? || c.UserRemovePublicKey?
    ensures FromTokens(Tokens(c)) == Some(c)
  {
  }

  lemma FromTokensOfCollab(c: Command)
    requires c.CollabList? || c.CollabRemove?
    ensures FromTokens(Tokens(c)) == Some(c)
  {
  }

  lemma FromTokensOfSettings(c: Command)
    requires c.SettingsGetAllowKeyless? || c.SettingsSetAllowKeyless? || c.SettingsGetAnonAccess? || c.SettingsSetAnonAccess?
    ensures FromTokens(Tokens(c)) == Some(c)
  {
  }

  lemma FromTokensOf(c: Command)
    ensures FromTokens(Tokens(c)) == Some(c)
  {
    match c
    case RepoCreate(name, desc, project, private) => FromTokensOfRepoCreate(name, desc, project, private);
    case RepoInfo(_) => FromTokensOfRepoQuery(c);
    case RepoDelete(_) => FromTokensOfRepoQuery(c);
    case RepoSetDescription(_, _) => FromTokensOfRepoSetter(c);
    case RepoSetPrivate(_, _) => FromTokensOfRepoSetter(c);
    case RepoSetHidden(_, _) => FromTokensOfRepoSetter(c);
    case RepoSetProjectName(_, _) => FromTokensOfRepoSetter(c);
    case UserCreate(u, admin, keys) => FromTokensOfUserCreate(u, admin, keys);
    case UserInfo(_) => FromTokensOfUserQuery(c);
    case UserDelete(_) => FromTokensOfUserQuery(c);
    case UserSetAdmin(_, _) => FromTokensOfUserSetter(c);
    case UserAddPublicKey(_, _) => FromTokensOfUserSetter(c);
    case UserRemovePublicKey(_, _) => FromTokensOfUserSetter(c);
    case CollabAdd(repo, u, level) => FromTokensOfCollabAdd(repo, u, level);
    case CollabList(_) => FromTokensOfCollab(c);
    case CollabRemove(_, _) => FromTokensOfCollab(c);
    case SettingsGetAllowKeyless => FromTokensOfSettings(c);
    case SettingsSetAllowKeyless(_) => FromTokensOfSettings(c);
    case SettingsGetAnonAccess => FromTokensOfSettings(c);
    case SettingsSetAnonAccess(_) => FromTokensOfSettings(c);
  }

  /**
   * Every well-formed command reads back from the line the client sends:
   * no two such commands share a command line, and each argument, quoted
   * text included, reaches the server intact.
   */
  lemma ParseRender(c: Command)
    requires WellFormed(c)
    ensures Parse(Render(c)) == Some(c)
  {
    var ts := Tokens(c);
    assert ts != [] by { assert |ts| >= 2; }
    TokeniseRender(ts);
    FromTokensOf(c);
  }

  // ---------------------------------------------------------------------
  // The lines as the client assembles them
  // ---------------------------------------------------------------------

  lemma {:induction false} RenderAppend(a: seq<Token>, b: seq<Token>)
    requires a != [] && b != []
    ensures RenderTokens(a + b) == RenderTokens(a) + " " + RenderTokens(b)
  {
    RenderFirst(a + b);
    assert (a + b)[0] == a[0];
    assert (a + b)[1..] == a[1..] + b;
    if |a| == 1 {
      assert a[1..] + b == b;
      assert RenderTokens(a) == RenderToken(a[0]);
    } else {
      RenderAppend(a[1..], b);
      RenderFirst(a);
      StringAssoc(RenderToken(a[0]), RenderTokens(a[1..]), RenderTokens(b));
    }
  }

  /** A line of two or more tokens is the first token, a space and the rest. */
  lemma RenderFirst(ts: seq<Token>)
    requires |ts| >= 2
    ensures RenderTokens(ts) == RenderToken(ts[0]) + " " + RenderTokens(ts[1..])
  {
    var all := RenderAllTokens(ts);
    assert all == [RenderToken(ts[0])] + RenderAllTokens(ts[1..]);
    assert all[1..] == RenderAllTokens(ts[1..]);
  }

  lemma StringAssoc(x: string, y: string, z: string)
    ensures x + " " + (y + " " + z) == x + " " + y + " " + z
  {
  }

  lemma RenderCons(t: Token, ts: seq<Token>)
    requires ts != []
    ensures RenderTokens([t] + ts) == RenderToken(t) + " " + RenderTokens(ts)
  {
    RenderAppend([t], ts);
    assert RenderTokens([t]) == RenderToken(t);
  }

  /** What one optional part adds to a line: nothing, or a space and the part. */
  function Suffix(ts: seq<Token>): string {
    if ts == [] then "" else " " + RenderTokens(ts)
  }

  lemma RenderWithSuffix(a: seq<Token>, b: seq<Token>)
    requires a != []
    ensures RenderTokens(a + b) == RenderTokens(a) + Suffix(b)
  {
    if b == [] {
      assert a + b == a;
    } else {
      RenderAppend(a, b);
    }
  }

  lemma RenderPair(x: string, t: Token)
    ensures RenderTokens([Bare(x), t]) == x + " " + RenderToken(t)
  {
    var ls := [x, RenderToken(t)];
    assert RenderAllTokens([Bare(x), t]) == ls by {
      assert [Bare(x), t][1..] == [t];
    }
    assert ls[1..] == [RenderToken(t)];
    assert Text.Join(ls, ' ') == x + [' '] + RenderToken(t);
  }

  /**
   * `repo create`: the name, then ` -d "<description>"` only for a non-empty
   * description, ` -n "<project>"` only for a non-empty project name and
   * ` -p` only for a private repository, in that order.
   */
  lemma RepoCreateLine(name: string, desc: string, project: string, private: bool)
    ensures Render(RepoCreate(name, desc, project, private)) ==
      "repo create " + name
      + (if desc != "" then " -d " + Quote(desc) else "")
      + (if project != "" then " -n " + Quote(project) else "")
      + (if private then " -p" else "")
  {
    RepoCreateTokens(name, desc, project, private);
  }

  lemma RepoCreateTokens(name: string, desc: string, project: string, private: bool)
    ensures RenderTokens(Tokens(RepoCreate(name, desc, project, private))) ==
      "repo create " + name
      + (if desc != "" then " -d " + Quote(desc) else "")
      + (if project != "" then " -n " + Quote(project) else "")
      + (if private then " -p" else "")
  {
    var head := [Bare("repo"), Bare("create"), Bare(name)];
    var d: seq<Token> := if desc != "" then [Bare("-d"), Quoted(desc)] else [];
    var n: seq<Token> := if project != "" then [Bare("-n"), Quoted(project)] else [];
    var p: seq<Token> := if private then [Bare("-p")] else [];
    var D := if desc != "" then " -d " + Quote(desc) else "";
    var N := if project != "" then " -n " + Quote(project) else "";
    var P := if private then " -p" else "";
    calc {
      RenderTokens(Tokens(RepoCreate(name, desc, project, private)));
      { RepoCreateShape(name, desc, project, private); }
      RenderTokens(head + d + n + p);
      { RenderWithSuffix(head + d + n, p); }
      RenderTokens(head + d + n) + Suffix(p);
      { RenderWithSuffix(head + d, n); }
      RenderTokens(head + d) + Suffix(n) + Suffix(p);
      { RenderWithSuffix(head, d); }
      RenderTokens(head) + Suffix(d) + Suffix(n) + Suffix(p);
      { RepoCreateParts(name, desc, project, private); }
      "repo create " + name + D + N + P;
    }
  }

  lemma RepoCreateParts(name: string, desc: string, project: string, private: bool)
    ensures RenderTokens([Bare("repo"), Bare("create"), Bare(name)]) == "repo create " + name
    ensures Suffix(if desc != "" then [Bare("-d"), Quoted(desc)] else []) == (if desc != "" then " -d " + Quote(desc) else "")
    ensures Suffix(if project != "" then [Bare("-n"), Quoted(project)] else []) == (if project != "" then " -n " + Quote(project) else "")
    ensures Suffix(if private then [Bare("-p")] else []) == (if private then " -p" else "")
  {
    RenderThree("repo", "create", Bare(name));
    assert "repo" + " " + "create" + " " == "repo create ";
    QuotedOption("-d", desc);
    QuotedOption("-n", project);
    FlagWords();
    PrivateOption(private);
  }

  lemma RepoCreateShape(name: string, desc: string, project: string, private: bool)
    ensures Tokens(RepoCreate(name, desc, project, private)) ==
      [Bare("repo"), Bare("create"), Bare(name)]
      + (if desc != "" then [Bare("-d"), Quoted(desc)] else [])
      + (if project != "" then [Bare("-n"), Quoted(project)] else [])
      + (if private then [Bare("-p")] else [])
  {
  }

  lemma PrivateOption(private: bool)
    ensures Suffix(if private then [Bare("-p")] else []) == (if private then " -p" else "")
  {
    if private {
      assert RenderTokens([Bare("-p")]) == "-p";
    }
  }

  /** A flag followed by quoted text, present only when the text is non-empty. */
  lemma QuotedOption(flag: string, text: string)
    ensures Suffix(if text != "" then [Bare(flag), Quoted(text)] else []) ==
      (if text != "" then " " + flag + " " + Quote(text) else "")
  {
    if text != "" {
      RenderPair(flag, Quoted(text));
      SpaceAssoc(flag, Quote(text));
    }
  }

  lemma SpaceAssoc(x: string, y: string)
    ensures " " + (x + " " + y) == " " + x + " " + y
  {
  }

  lemma FlagWords()
    ensures " " + "-d" + " " == " -d " && " " + "-n" + " " == " -n "
  {
  }

  /** The ` -k "<key>"` parts, one per key in order, as the client appends them. */
  function KeyArgs(keys: seq<string>): string {
    if keys == [] then "" else " -k " + Quote(keys[0]) + KeyArgs(keys[1..])
  }

  lemma {:induction false} KeyFlagsSuffix(keys: seq<string>)
    ensures Suffix(KeyFlags(keys)) == KeyArgs(keys)
  {
    if keys != [] {
      var first := [Bare("-k"), Quoted(keys[0])];
      KeyFlagsSuffix(keys[1..]);
      RenderPair("-k", Quoted(keys[0]));
      RenderWithSuffix(first, KeyFlags(keys[1..]));
    }
  }

  /** `user create`: the username, then ` -a` only for an admin, then one ` -k "<key>"` per key in order. */
  lemma UserCreateLine(u: string, admin: bool, keys: seq<string>)
    ensures Render(UserCreate(u, admin, keys)) ==
      "user create " + u + (if admin then " -a" else "") + KeyArgs(keys)
  {
    UserCreateTokens(u, admin, keys);
  }

  lemma UserCreateTokens(u: string, admin: bool, keys: seq<string>)
    ensures RenderTokens(Tokens(UserCreate(u, admin, keys))) ==
      "user create " + u + (if admin then " -a" else "") + KeyArgs(keys)
  {
    var head := [Bare("user"), Bare("create"), Bare(u)];
    var a: seq<Token> := if admin then [Bare("-a")] else [];
    assert Tokens(UserCreate(u, admin, keys)) == head + a + KeyFlags(keys);
    assert RenderTokens(head) == "user create " + u by {
      RenderCons(Bare("user"), [Bare("create"), Bare(u)]);
      RenderPair("create", Bare(u));
      assert [Bare("user")] + [Bare("create"), Bare(u)] == head;
    }
    RenderWithSuffix(head, a);
    RenderWithSuffix(head + a, KeyFlags(keys));
    KeyFlagsSuffix(keys);
    if admin {
      assert RenderTokens(a) == "-a";
    }
  }

  /** Two words and one more item, space-separated. */
  lemma RenderThree(a: string, b: string, t: Token)
    ensures RenderTokens([Bare(a), Bare(b), t]) == a + " " + b + " " + RenderToken(t)
  {
    RenderCons(Bare(a), [Bare(b), t]);
    RenderPair(b, t);
    assert [Bare(a)] + [Bare(b), t] == [Bare(a), Bare(b), t];
  }

  /** `repo collab add`: the repository and user, then the access level only when it is non-empty. */
  lemma CollabAddLine(repo: string, u: string, level: string)
    ensures Render(CollabAdd(repo, u, level)) ==
      "repo collab add " + repo + " " + u + (if level != "" then " " + level else "")
  {
    CollabAddTokens(repo, u, level);
  }

  lemma CollabAddTokens(repo: string, u: string, level: string)
    ensures RenderTokens(Tokens(CollabAdd(repo, u, level))) ==
      "repo collab add " + repo + " " + u + (if level != "" then " " + level else "")
  {
    var head := [Bare("repo"), Bare("collab"), Bare("add")] + [Bare(repo), Bare(u)];
    var l: seq<Token> := if level != "" then [Bare(level)] else [];
    CollabAddShape(repo, u, level);
    CollabAddHead(repo, u);
    RenderWithSuffix(head, l);
    assert Suffix(l) == (if level != "" then " " + level else "");
  }

  lemma CollabAddShape(repo: string, u: string, level: string)
    ensures Tokens(CollabAdd(repo, u, level)) ==
      [Bare("repo"), Bare("collab"), Bare("add")] + [Bare(repo), Bare(u)] + (if level != "" then [Bare(level)] else [])
  {
  }

  lemma CollabAddHead(repo: string, u: string)
    ensures RenderTokens([Bare("repo"), Bare("collab"), Bare("add")] + [Bare(repo), Bare(u)]) ==
      "repo collab add " + repo + " " + u
  {
    RenderThree("repo", "collab", Bare("add"));
    RenderPair(repo, Bare(u));
    RenderAppend([Bare("repo"), Bare("collab"), Bare("add")], [Bare(repo), Bare(u)]);
  }

  lemma RepoSetHiddenLine(name: string, hidden: bool)
    ensures Render(RepoSetHidden(name, hidden)) == "repo hidden " + name + " " + BoolWord(hidden)
  {
    RepoSetHiddenTokens(name, hidden);
  }

  lemma RepoSetHiddenTokens(name: string, hidden: bool)
    ensures RenderTokens(Tokens(RepoSetHidden(name, hidden))) == "repo hidden " + name + " " + BoolWord(hidden)
  {
    RepoSetHiddenShape(name, hidden);
    RenderPair("repo", Bare("hidden"));
    RenderPair(name, Bare(BoolWord(hidden)));
    RenderAppend([Bare("repo"), Bare("hidden")], [Bare(name), Bare(BoolWord(hidden))]);
  }

  lemma RepoSetHiddenShape(name: string, hidden: bool)
    ensures Tokens(RepoSetHidden(name, hidden)) == [Bare("repo"), Bare("hidden")] + [Bare(name), Bare(BoolWord(hidden))]
  {
  }
}
